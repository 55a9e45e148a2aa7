/** Pruning and privacy deletion take exactly the rows they name and leave a whole database; and what a privacy delete
    after retention leaves behind. */
module Deletion {
  import Basics
  import opened Tables
  import opened StoreInvariant
  import RecurringKeys
  import StoreLaws

  /** What a deletion leaves of the surviving sessions `left`: each of their rows, as it was. */
  ghost predicate Untouched(db: Db, after: Db, left: set<string>) {
    && (forall s :: s in left ==> s in db.sessions && s in after.sessions && after.sessions[s] == db.sessions[s])
    && (forall s :: s in left && db.sessions[s].utterance in db.utterances ==>
          var u := db.sessions[s].utterance;
          u in after.utterances && after.utterances[u] == db.utterances[u] &&
          (u in db.audioFiles ==> u in after.audioFiles))
    && (forall i :: i in db.candidates && db.candidates[i].session in left ==>
          i in after.candidates && after.candidates[i] == db.candidates[i])
    && (forall k :: k in db.edits && k.0 in left ==> k in after.edits && after.edits[k] == db.edits[k])
    && (forall i :: i in db.history && db.history[i].session in left ==>
          i in after.history && after.history[i] == db.history[i])
    && (forall e :: e in db.log && OfSession(e) && e.aggregate in left ==> e in after.log)
  }

  /** Nothing of the sessions `dead` is left in any table beside the event log. */
  ghost predicate Erased(after: Db, dead: set<string>) {
    && after.sessions.Keys !! dead
    && (forall i :: i in after.candidates ==> after.candidates[i].session !in dead)
    && (forall k :: k in after.edits ==> k.0 !in dead)
    && (forall i :: i in after.history ==> after.history[i].session !in dead)
    && (forall i :: i in after.items ==> after.items[i].candidate in after.candidates)
  }

  /** Retention takes every row the expired sessions own and touches no other row. The event log, with the transcripts
      in it, stays as it was. */
  lemma PruneIsExact(cmds: seq<Cmd>, cutoff: nat)
    ensures var db := Run(EMPTY, cmds);
            var after := PruneTraining(db, cutoff);
            && Integrity(after)
            && Erased(after, Expired(db, cutoff))
            && Untouched(db, after, db.sessions.Keys - Expired(db, cutoff))
            && after.log == db.log
            && (forall i :: i in db.items && db.items[i].candidate in after.candidates
                  ==> i in after.items && after.items[i] == db.items[i])
  {
    EveryReachableStateIsValid(cmds);
    PruneExact(Run(EMPTY, cmds), cutoff);
  }

  lemma PruneExact(db: Db, cutoff: nat)
    requires Rows(db)
    ensures var after := PruneTraining(db, cutoff);
            && Integrity(after)
            && Erased(after, Expired(db, cutoff))
            && Untouched(db, after, db.sessions.Keys - Expired(db, cutoff))
            && after.log == db.log
            && (forall i :: i in db.items && db.items[i].candidate in after.candidates
                  ==> i in after.items && after.items[i] == db.items[i])
  {
    DropRows(db, Expired(db, cutoff));
    OwnUtterances(db, Expired(db, cutoff));
  }

  lemma OwnUtterances(db: Db, dead: set<string>)
    requires Naming(db.sessions, db.utterances)
    ensures forall s, t :: s in db.sessions && t in db.sessions && s !in dead && t in dead ==>
              db.sessions[s].utterance != db.sessions[t].utterance
  {
    forall s, t | s in db.sessions && t in db.sessions && db.sessions[s].utterance == db.sessions[t].utterance
      ensures s == t
    {
      UtteranceKeyInjective(s, t);
    }
  }

  function OthersSessions(db: Db, user: string): set<string> {
    db.sessions.Keys - SessionsOf(db, user)
  }

  /** What a privacy delete leaves of the user: no row in any table that names the user or one of the user's sessions.
      */
  ghost predicate Forgotten(db: Db, after: Db, user: string) {
    && Erased(after, SessionsOf(db, user))
    && SessionsOf(after, user) == {} && UtterancesOf(after, user) == {} && ManifestsOf(after, user) == {}
    && (forall i :: i in after.items ==>
          after.items[i].user != user && after.items[i].manifest !in ManifestsOf(db, user))
  }

  /** What it leaves of everybody else: sessions with all they own, utterances without a session, manifests, and the
      items of these manifests that do not carry the deleted user's name. */
  ghost predicate Spared(db: Db, after: Db, user: string) {
    && Untouched(db, after, OthersSessions(db, user))
    && (forall u :: u in db.utterances && db.utterances[u].user != user ==>
          u in after.utterances && after.utterances[u] == db.utterances[u] &&
          (u in db.audioFiles ==> u in after.audioFiles))
    && (forall m :: m in db.manifests && db.manifests[m] != user ==>
          m in after.manifests && after.manifests[m] == db.manifests[m])
    && (forall i :: i in db.items && db.items[i].user != user && db.items[i].manifest !in ManifestsOf(db, user) ==>
          i in after.items && after.items[i] == db.items[i])
  }

  /** The log afterwards: the events of sessions still stored for this user are gone, all others are there, and one new
      event says so. */
  ghost predicate LogForgets(db: Db, after: Db, user: string) {
    forall e :: e in after.log <==>
      (e in db.log && !(OfSession(e) && e.aggregate in SessionsOf(db, user))) ||
      e == Event(db.lastEventId + 1, UserDataDeleted, user, user,
                 UserDeletedKey(user, DeletionCount(db.log, user) + 1))
  }

  /** A privacy delete on any database with resolved foreign keys, whatever users it holds: all rows of that user go,
      with the events of the sessions still stored; everybody else's rows and every other event stay, and every foreign
      key still resolves. */
  lemma PrivacyDeleteIsExact(db: Db, user: string, after: Db)
    requires Integrity(db) && DeleteUser(db, user) == Done(after)
    ensures Integrity(after) && Forgotten(db, after, user) && Spared(db, after, user)
    ensures LogForgets(db, after, user)
  {
    DeleteIntegrity(db, user, after);
    DeleteForgets(db, user, after);
    DeleteSpares(db, user, after);
  }

  lemma DeleteIntegrity(db: Db, user: string, after: Db)
    requires Integrity(db) && DeleteUser(db, user) == Done(after)
    ensures Integrity(after)
  {
    PurgeIntegrity(db, user);
    var purged := Purged(db, user);
    assert after == purged.(log := after.log, lastEventId := after.lastEventId);
  }

  lemma DeleteForgets(db: Db, user: string, after: Db)
    requires DeleteUser(db, user) == Done(after) && ItemsLinked(after.items, after.candidates, after.manifests)
    ensures Forgotten(db, after, user)
  {
  }

  lemma DeleteSpares(db: Db, user: string, after: Db)
    requires Integrity(db) && DeleteUser(db, user) == Done(after)
    ensures Spared(db, after, user)
  {
  }

  lemma PurgeIntegrity(db: Db, user: string)
    requires Integrity(db)
    requires forall i :: i in Purged(db, user).items ==> db.items[i].candidate !in CandidatesOf(db, user)
    ensures Integrity(Purged(db, user))
  {
  }

  /** Another user's manifest still holds one of that user's candidates. */
  ghost predicate HeldByOthers(db: Db, user: string)
    requires ItemsLinked(db.items, db.candidates, db.manifests)
  {
    exists i :: i in db.items && db.items[i].user != user && db.manifests[db.items[i].manifest] != user &&
                db.candidates[db.items[i].candidate].session in SessionsOf(db, user)
  }

  /** It is refused in two cases only: another user's manifest holds one of that user's candidates, or its key is in the
      log, on an event it does not delete itself. */
  lemma PrivacyDeleteRefusal(db: Db, user: string)
    requires Integrity(db)
    ensures DeleteUser(db, user).Failed? <==>
            HeldByOthers(db, user) ||
            exists e :: e in db.log && e.key == UserDeletedKey(user, DeletionCount(db.log, user) + 1) &&
                        !(OfSession(e) && e.aggregate in SessionsOf(db, user))
  {
    forall i | i in db.items
      ensures db.items[i].candidate in CandidatesOf(db, user) <==>
              db.candidates[db.items[i].candidate].session in SessionsOf(db, user)
    {
      OwnedBySession(db, user, db.items[i].candidate);
    }
    assert forall i :: i in Purged(db, user).items <==>
                       i in db.items && db.items[i].user != user && db.manifests[db.items[i].manifest] != user;
  }

  /** In every run: the key can only have been taken by a commit or a cancel of a session that is not deleted. */
  lemma ReachableDeleteRefusal(cmds: seq<Cmd>, db: Db, user: string)
    requires db == Run(EMPTY, cmds)
    ensures Integrity(db)
    ensures DeleteUser(db, user).Failed? <==>
            HeldByOthers(db, user) ||
            exists e :: e in db.log && RecurringKeys.CallerEvent(e) && e.aggregate !in SessionsOf(db, user) &&
                        e.key == UserDeletedKey(user, DeletionCount(db.log, user) + 1)
  {
    EveryReachableStateIsValid(cmds);
    PrivacyDeleteRefusal(db, user);
    RecurringKeys.DeletionKeyTakenIff(cmds, db, user);
    assert Purged(db, user).log == WithoutSessions(db.log, SessionsOf(db, user));
  }

  /** A candidate is the user's exactly when its session is: the utterance belongs to the same user. */
  lemma OwnedBySession(db: Db, user: string, id: nat)
    requires CandidatesLinked(db.candidates, db.sessions) && SessionsLinked(db.sessions, db.utterances)
    requires id in db.candidates
    ensures id in CandidatesOf(db, user) <==> db.candidates[id].session in SessionsOf(db, user)
  {
  }

  // ---------------------------------------------------------------- after retention

  /** A privacy delete clears the log of every session event exactly when every session the log knows is still stored:
      the events it deletes are found through the session rows, which retention removes. */
  lemma PrivacyDeleteClearsLogIff(cmds: seq<Cmd>, db: Db, after: Db)
    requires db == Run(EMPTY, cmds) && DeleteUser(db, DEFAULT_USER) == Done(after)
    ensures (forall e :: e in after.log ==> !OfSession(e)) <==>
            (forall e :: e in db.log && OfSession(e) ==> e.aggregate in db.sessions)
  {
    EveryReachableStateIsValid(cmds);
    DeletedLog(db, DEFAULT_USER, after);
    AllAreDefaults(db);
  }

  lemma AllAreDefaults(db: Db)
    requires Naming(db.sessions, db.utterances)
    ensures SessionsOf(db, DEFAULT_USER) == db.sessions.Keys
  {
  }

  lemma DeletedLog(db: Db, user: string, after: Db)
    requires DeleteUser(db, user) == Done(after)
    ensures LogForgets(db, after, user)
  {
  }

  /** Retention before a privacy delete keeps the expired sessions' events out of its reach, whoever is deleted and
      whatever happens in between. */
  lemma RetentionOutlivesDelete(db: Db, cutoff: nat, e: Event, cmds: seq<Cmd>)
    requires e in db.log && OfSession(e) && e.aggregate in Expired(db, cutoff)
    requires forall c :: c in cmds && c.DoCreate? ==> c.s != e.aggregate
    ensures e in Run(PruneTraining(db, cutoff), cmds).log
  {
    OrphanStays(PruneTraining(db, cutoff), e, cmds);
  }

  lemma {:induction false} OrphanStays(db: Db, e: Event, cmds: seq<Cmd>)
    requires e in db.log && OfSession(e) && e.aggregate !in db.sessions
    requires forall c :: c in cmds && c.DoCreate? ==> c.s != e.aggregate
    ensures e in Run(db, cmds).log && e.aggregate !in Run(db, cmds).sessions
  {
    if cmds != [] {
      var init, cmd := cmds[..|cmds| - 1], cmds[|cmds| - 1];
      assert cmd in cmds;
      OrphanStays(db, e, init);
      OrphanStaysOnce(Run(db, init), e, cmd);
    }
  }

  lemma OrphanStaysOnce(db: Db, e: Event, cmd: Cmd)
    requires e in db.log && OfSession(e) && e.aggregate !in db.sessions && (cmd.DoCreate? ==> cmd.s != e.aggregate)
    ensures e in After(db, Exec(db, cmd)).log && e.aggregate !in After(db, Exec(db, cmd)).sessions
  {
    StoreLaws.StaysGone(db, e.aggregate, cmd);
    if cmd.DoDeleteUser? {
      assert e in WithoutSessions(db.log, SessionsOf(db, cmd.user));
    } else {
      StoreLaws.LogGrows(db, cmd);
    }
  }

  /** It happens, in four commands from the empty store: the transcript is still in the log after the privacy delete. */
  lemma TranscriptOutlivesDelete(s: SessionId, text: string, cmds: seq<Cmd>, deleted: Reply)
    requires cmds == [DoCreate(s, Basics.Some("secret"), 0), DoCommit(s, text, "k", 0), DoPruneTraining(1)]
    requires deleted == DeleteUser(Run(EMPTY, cmds), DEFAULT_USER)
    ensures deleted.Done? && deleted.db.sessions == map[] && deleted.db.candidates == map[]
    ensures Event(1, SessionCreated, s, "secret", CreatedKey(s)) in deleted.db.log
    ensures Event(2, SessionCommitted, s, text, "k") in deleted.db.log
  {
    var kept := Run(EMPTY, cmds[..2]);
    OneTake(s, text, cmds[..2], kept);
    TakeExpires(kept, s);
    LastIsPrune(cmds, 1);
    EmptiedIsDeleted(Run(EMPTY, cmds), s, text);
  }

  lemma LastIsPrune(cmds: seq<Cmd>, cutoff: nat)
    requires |cmds| > 0 && cmds[|cmds| - 1] == DoPruneTraining(cutoff)
    ensures Run(EMPTY, cmds) == PruneTraining(Run(EMPTY, cmds[..|cmds| - 1]), cutoff)
  {
    PruneIsDone(Run(EMPTY, cmds[..|cmds| - 1]), cutoff);
  }

  lemma PruneIsDone(db: Db, cutoff: nat)
    ensures After(db, Exec(db, DoPruneTraining(cutoff))) == PruneTraining(db, cutoff)
  {
  }

  function TakeLog(s: SessionId, text: string): seq<Event> {
    [Event(1, SessionCreated, s, "secret", CreatedKey(s)), Event(2, SessionCommitted, s, text, "k")]
  }

  lemma OneTake(s: SessionId, text: string, cmds: seq<Cmd>, kept: Db)
    requires cmds == [DoCreate(s, Basics.Some("secret"), 0), DoCommit(s, text, "k", 0)] && kept == Run(EMPTY, cmds)
    ensures kept.log == TakeLog(s, text) && kept.sessions.Keys == {s} && SessionTime(kept.sessions[s]) == 0
    ensures kept.items == map[] && forall i :: i in kept.candidates ==> kept.candidates[i].session == s
  {
    RunTwo(EMPTY, cmds);
    var made := After(EMPTY, Exec(EMPTY, cmds[0]));
    Begun(s, made);
    Taken(made, s, text, kept);
  }

  lemma Begun(s: SessionId, made: Db)
    requires made == After(EMPTY, CreateSession(EMPTY, s, Basics.Some("secret"), 0))
    ensures made.log == TakeLog(s, "")[..1] && made.lastEventId == 1 && made.candidates == map[] && made.items == map[]
    ensures made.sessions.Keys == {s} && made.sessions[s].raw.Some? && made.sessions[s].state == Created
  {
  }

  lemma Taken(made: Db, s: SessionId, text: string, kept: Db)
    requires made.log == TakeLog(s, "")[..1] && made.lastEventId == 1 && made.candidates == map[] && made.items == map[]
    requires made.sessions.Keys == {s} && made.sessions[s].raw.Some? && made.sessions[s].state == Created
    requires kept == After(made, CommitSession(made, s, text, "k", 0))
    ensures kept.log == TakeLog(s, text) && kept.sessions.Keys == {s} && SessionTime(kept.sessions[s]) == 0
    ensures kept.items == map[] && forall i :: i in kept.candidates ==> kept.candidates[i].session == s
  {
    assert made.log == [TakeLog(s, "")[0]] && CreatedKey(s)[0] == 's';
    assert kept == CommittedAs(made, s, text, "k", 0);
  }

  lemma TakeExpires(db: Db, s: string)
    requires db.sessions.Keys == {s} && SessionTime(db.sessions[s]) == 0 && db.items == map[]
    requires forall i :: i in db.candidates ==> db.candidates[i].session == s
    ensures var pruned := PruneTraining(db, 1);
            pruned.sessions == map[] && pruned.candidates == map[] && pruned.items == map[] && pruned.log == db.log
  {
    assert Expired(db, 1) == {s};
  }

  lemma EmptiedIsDeleted(db: Db, s: SessionId, text: string)
    requires db.sessions == map[] && db.candidates == map[] && db.items == map[] && db.log == TakeLog(s, text)
    ensures var deleted := DeleteUser(db, DEFAULT_USER);
            && deleted.Done? && deleted.db.sessions == map[] && deleted.db.candidates == map[]
            && TakeLog(s, text)[0] in deleted.db.log && TakeLog(s, text)[1] in deleted.db.log
  {
    StoreLaws.NobodyDead(db.log);
    assert SessionsOf(db, DEFAULT_USER) == {};
    assert (set e | e in db.log && e.kind == UserDataDeleted && e.aggregate == DEFAULT_USER) == {};
    assert CreatedKey(s)[0] == 's' && UserDeletedKey(DEFAULT_USER, 1)[0] == 'u';
  }
}

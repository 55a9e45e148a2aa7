/** The store object. Each method runs its statements on a transaction copy and installs it on commit; an early return
    rolls back. Each is proved against the transaction function of the same name. */
module MetadataStore {
  import opened Basics
  import opened Tables
  import opened AudioStore
  import opened Eviction

  const DAY_MS := 86_400_000

  datatype Failure = Store(error: StoreError) | AudioDelete

  /** The method left what the transaction function says, and reported it. */
  ghost predicate Settled(before: Db, reply: Reply, after: Db, error: Option<StoreError>) {
    after == After(before, reply) && error == if reply.Done? then None else Some(reply.error)
  }

  function CreateEvent(tx: Db, kind: EventKind, aggregate: string, payload: string, key: string): Reply {
    if HasKey(tx.log, key) then Failed(Constraint) else Done(Logged(tx, kind, aggregate, payload, key))
  }

  function Cutoff(now: nat, days: nat): nat {
    if now >= days * DAY_MS then now - days * DAY_MS else 0
  }

  /** A session goes exactly when more than `days` times 86,400,000 milliseconds have passed since it was committed;
      since it was cancelled, if it was not committed; since it was created, if neither. The others stay as they were.
      */
  predicate KeepsWindow(before: Db, after: Db, days: nat, now: nat) {
    && (forall s :: s in before.sessions && before.sessions[s].committedAt.Some? ==>
          (s !in after.sessions <==> before.sessions[s].committedAt.value + days * 86_400_000 < now))
    && (forall s :: s in before.sessions && before.sessions[s].committedAt.None? &&
                    before.sessions[s].cancelledAt.Some? ==>
          (s !in after.sessions <==> before.sessions[s].cancelledAt.value + days * 86_400_000 < now))
    && (forall s :: s in before.sessions && before.sessions[s].committedAt.None? &&
                    before.sessions[s].cancelledAt.None? ==>
          (s !in after.sessions <==> before.sessions[s].createdAt + days * 86_400_000 < now))
    && forall s :: s in after.sessions ==> s in before.sessions && after.sessions[s] == before.sessions[s]
  }

  /** The candidates and the recordings of the sessions that went, and no other candidates, went too. */
  predicate GoneWhole(before: Db, after: Db, files: map<string, Bytes>) {
    && (forall i :: i in before.candidates ==>
          (i !in after.candidates <==>
           before.candidates[i].session in before.sessions.Keys - after.sessions.Keys))
    && forall s :: s in before.sessions.Keys - after.sessions.Keys ==>
         var key := SourceKey(before.sessions[s].user, before.sessions[s].utterance);
         key.Ok? && key.value !in files
  }

  lemma ExpiredIs(db: Db, days: nat, now: nat, expired: set<string>)
    requires expired == Expired(db, Cutoff(now, days))
    ensures KeepsWindow(db, DropSessions(db, expired), days, now)
  {
  }

  lemma DroppedWhole(db: Db, gone: set<string>, files: map<string, Bytes>)
    requires gone <= db.sessions.Keys
    requires forall s :: s in gone ==>
               SourceKey(db.sessions[s].user, db.sessions[s].utterance).Ok? &&
               SourceKey(db.sessions[s].user, db.sessions[s].utterance).value !in files
    ensures GoneWhole(db, DropSessions(db, gone), files)
  {
    var after := DropSessions(db, gone);
    assert db.sessions.Keys - after.sessions.Keys == gone;
  }

  /** The rows the retention loop deletes for one session. */
  function DropOne(tx: Db, s: string, utterance: string): Db {
    tx.(items := map i | i in tx.items &&
                         !(tx.items[i].candidate in tx.candidates && tx.candidates[tx.items[i].candidate].session == s)
               :: tx.items[i],
    candidates := map i | i in tx.candidates && tx.candidates[i].session != s :: tx.candidates[i],
    edits := map k | k in tx.edits && k.0 != s :: tx.edits[k],
    history := map i | i in tx.history && tx.history[i].session != s :: tx.history[i],
    sessions := tx.sessions - {s},
    audioFiles := tx.audioFiles - {utterance},
    utterances := tx.utterances - {utterance})
  }

  /** These candidates are synced now, and no other row or column of the store has changed. */
  predicate OnlySynced(before: Db, after: Db, ids: set<nat>) {
    && ids <= before.candidates.Keys && after.candidates.Keys == before.candidates.Keys
    && after == before.(candidates := after.candidates)
    && (forall i :: i in ids ==>
          after.candidates[i].status == Synced &&
          after.candidates[i] == before.candidates[i].(status := Synced))
    && (forall i :: i in before.candidates && i !in ids ==> after.candidates[i] == before.candidates[i])
  }

  lemma SyncedNext(before: Db, db: Db, ids: set<nat>, id: nat)
    requires OnlySynced(before, db, ids) && id in before.candidates
    ensures OnlySynced(before, WithStatus(db, id, Synced), ids + {id})
  {
    SyncedRows(before.candidates, db.candidates, ids, id, db.candidates[id].(status := Synced));
  }

  lemma SyncedRows(before: map<nat, Candidate>, rows: map<nat, Candidate>, ids: set<nat>, id: nat, row: Candidate)
    requires rows.Keys == before.Keys && id in rows && row == rows[id].(status := Synced)
    requires forall i :: i in ids ==> i in before && rows[i].status == Synced && rows[i] == before[i].(status := Synced)
    requires forall i :: i in before && i !in ids ==> rows[i] == before[i]
    ensures forall i :: i in ids + {id} ==>
              i in before && rows[id := row][i].status == Synced && rows[id := row][i] == before[i].(status := Synced)
    ensures forall i :: i in before && i !in ids + {id} ==> rows[id := row][i] == before[i]
    ensures rows[id := row].Keys == before.Keys
  {
  }

  lemma DropNone(db: Db)
    ensures DropSessions(db, {}) == db
  {
    assert db.candidates - {} == db.candidates && db.sessions - {} == db.sessions;
    var after := DropSessions(db, {});
    assert after.items == db.items && after.candidates == db.candidates && after.edits == db.edits;
    assert after.history == db.history && after.sessions == db.sessions;
    assert after.utterances == db.utterances && after.audioFiles == db.audioFiles;
  }

  /** Deleting the sessions one by one deletes them all. */
  lemma DropNext(db: Db, gone: set<string>, s: string)
    requires s in db.sessions && s !in gone
    ensures DropOne(DropSessions(db, gone), s, db.sessions[s].utterance) == DropSessions(db, gone + {s})
  {
    var a, b := DropOne(DropSessions(db, gone), s, db.sessions[s].utterance), DropSessions(db, gone + {s});
    DropNextCandidates(db, gone, s);
    assert a.edits == b.edits;
    assert a.history == b.history;
    assert a.sessions == b.sessions;
    DropNextUtterances(db, gone, s);
  }

  lemma DropNextCandidates(db: Db, gone: set<string>, s: string)
    requires s in db.sessions && s !in gone
    ensures var a := DropOne(DropSessions(db, gone), s, db.sessions[s].utterance);
            a.candidates == DropSessions(db, gone + {s}).candidates && a.items == DropSessions(db, gone + {s}).items
  {
    var a, b := DropOne(DropSessions(db, gone), s, db.sessions[s].utterance), DropSessions(db, gone + {s});
    assert a.candidates == b.candidates;
    assert a.items == b.items;
  }

  lemma DropNextUtterances(db: Db, gone: set<string>, s: string)
    requires s in db.sessions && s !in gone
    ensures var u := db.sessions[s].utterance;
            && DropSessions(db, gone).utterances - {u} == DropSessions(db, gone + {s}).utterances
            && DropSessions(db, gone).audioFiles - {u} == DropSessions(db, gone + {s}).audioFiles
  {
    var u := db.sessions[s].utterance;
    var dead := set t | t in db.sessions && t in gone :: db.sessions[t].utterance;
    var more := set t | t in db.sessions && t in gone + {s} :: db.sessions[t].utterance;
    assert more == dead + {u};
  }

  /** The keys of the recordings the sessions `gone` own. */
  function AudioOf(db: Db, gone: set<string>): set<string> {
    set s | s in gone && s in db.sessions && SourceKey(db.sessions[s].user, db.sessions[s].utterance).Ok?
      :: SourceKey(db.sessions[s].user, db.sessions[s].utterance).value
  }

  lemma FlipNext(db: Db, files: map<string, Bytes>, o: seq<Learning>, i: nat)
    requires i < |o|
    ensures Flip(db, o[..i + 1]) == WithStatus(Flip(db, o[..i]), o[i].candidate, Evicted)
    ensures files - Keys(o[..i + 1]) == files - Keys(o[..i]) - {o[i].audioKey}
  {
    assert o[..i + 1] == o[..i] + [o[i]] && o[..i + 1][..i] == o[..i];
    assert Keys(o[..i + 1]) == Keys(o[..i]) + {o[i].audioKey};
  }

  class MetadataStore {
    var db: Db

    constructor ()
      ensures db == EMPTY
    {
      db := EMPTY;
    }

    /** `s` is the identifier the source draws at random. */
    method CreateSession(s: SessionId, raw: Option<string>, now: nat) returns (error: Option<StoreError>)
      modifies this
      ensures Settled(old(db), Tables.CreateSession(old(db), s, raw, now), db, error)
    {
      var tx, u := db, UtteranceKey(s);
      if u in tx.utterances { return Some(Constraint); }
      tx := tx.(utterances := tx.utterances[u := Utterance(DEFAULT_USER, AudioPath(u), None, raw)]);
      tx := tx.(audioFiles := tx.audioFiles + {u});
      if s in tx.sessions { return Some(Constraint); }
      var row := Session(DEFAULT_USER, u, raw, Created, Created, None, raw, now, None, None);
      tx := tx.(sessions := tx.sessions[s := row]);
      var logged := CreateEvent(tx, SessionCreated, s, if raw.Some? then raw.value else "", CreatedKey(s));
      if logged.Failed? { return Some(logged.error); }
      db := logged.db;
      return None;
    }

    method RecordPreeditChange(s: string, from: string, to: string, index: nat) returns (error: Option<StoreError>)
      modifies this
      ensures Settled(old(db), RecordPreedit(old(db), s, from, to, index), db, error)
    {
      var tx, key, payload := db, PreeditKey(s, index), PreeditPayload(from, to, index);
      match Lookup(tx.log, key, PreeditCorrected, payload) {
        case Duplicate => return None;
        case Conflict => return Some(IdempotencyConflict);
        case Fresh =>
      }
      if s !in tx.sessions { return Some(NotFound); }
      tx := CreateEvent(tx, PreeditCorrected, s, payload, key).db;
      if (s, index) in tx.edits { return Some(Constraint); }
      tx := tx.(edits := tx.edits[(s, index) := Edit(PreeditUpdate, from, to)]);
      tx := tx.(sessions := tx.sessions[s := tx.sessions[s].(finalPreedit := Some(to))]);
      db := tx;
      return None;
    }

    method CommitSession(s: string, text: string, key: string, now: nat) returns (error: Option<StoreError>)
      modifies this
      ensures Settled(old(db), Tables.CommitSession(old(db), s, text, key, now), db, error)
    {
      var tx := db;
      match Lookup(tx.log, key, SessionCommitted, text) {
        case Duplicate => return None;
        case Conflict => return Some(IdempotencyConflict);
        case Fresh =>
      }
      if s !in tx.sessions || tx.sessions[s].raw.None? { return Some(NotFound); }
      var raw, u := tx.sessions[s].raw.value, tx.sessions[s].utterance;
      var wasCommitted := tx.sessions[s].state == Committed;
      tx := CreateEvent(tx, SessionCommitted, s, text, key).db;
      var row := tx.sessions[s].(committedText := Some(text), state := Committed, sessionState := Committed,
                                 committedAt := Some(now), finalPreedit := Some(text));
      tx := tx.(sessions := tx.sessions[s := row]);
      tx := tx.(utterances := FillRaw(tx.utterances, u, raw));
      if exists i :: i in tx.candidates && tx.candidates[i].key == key { return Some(Constraint); }
      var source := if text == raw then AcceptedWithoutEdit else AcceptedWithEdit;
      var candidate := Candidate(s, u, raw, text, text, source, Captured, key);
      tx := tx.(candidates := tx.candidates[tx.nextCandidate := candidate],
      nextCandidate := tx.nextCandidate + 1);
      if !wasCommitted {
        tx := tx.(history := tx.history[tx.nextHistory := HistoryRow(s, text, true, now)],
        nextHistory := tx.nextHistory + 1);
      }
      db := tx;
      return None;
    }

    method CancelSession(s: string, key: string, now: nat) returns (error: Option<StoreError>)
      modifies this
      ensures Settled(old(db), Tables.CancelSession(old(db), s, key, now), db, error)
    {
      var tx := db;
      match Lookup(tx.log, key, SessionCancelled, CANCEL_PAYLOAD) {
        case Duplicate => return None;
        case Conflict => return Some(IdempotencyConflict);
        case Fresh =>
      }
      if s !in tx.sessions { return Some(NotFound); }
      var row := tx.sessions[s];
      var shouldRecord := row.state != Committed && row.state != Cancelled;
      tx := CreateEvent(tx, SessionCancelled, s, CANCEL_PAYLOAD, key).db;
      if row.state != Committed {
        var moved := row.(state := Cancelled, sessionState := Cancelled, cancelledAt := Some(now));
        tx := tx.(sessions := tx.sessions[s := moved]);
      }
      if shouldRecord {
        tx := tx.(history := tx.history[tx.nextHistory := HistoryRow(s, "", false, now)],
        nextHistory := tx.nextHistory + 1);
      }
      db := tx;
      return None;
    }

    method AmendCorrection(s: string, committed: string, corrected: string) returns (error: Option<StoreError>)
      modifies this
      ensures Settled(old(db), Tables.AmendCorrection(old(db), s, committed, corrected), db, error)
    {
      if corrected == committed { return None; }
      var tx := db;
      if s !in tx.sessions { return Some(NotFound); }
      var row := Edit(PostCommitCorrection, committed, corrected);
      tx := tx.(edits := tx.edits[(s, NextEditIndex(tx.edits, s)) := row]);
      tx := tx.(sessions := tx.sessions[s := tx.sessions[s].(committedText := Some(corrected),
                                                             finalPreedit := Some(corrected))]);
      tx := tx.(candidates := AmendedCandidates(tx.candidates, s, corrected));
      tx := tx.(history := AmendedHistory(tx.history, s, corrected));
      db := tx;
      return None;
    }

    method SetAudioDigest(u: string, digest: string) returns (error: Option<StoreError>)
      modifies this
      ensures Settled(old(db), SetDigest(old(db), u, digest), db, error)
    {
      if u !in db.utterances { return Some(NotFound); }
      db := db.(utterances := db.utterances[u := db.utterances[u].(digest := Some(digest))]);
      return None;
    }

    /** Table by table; a foreign-key or unique failure rolls everything back. */
    method DeleteUserData(user: string) returns (error: Option<StoreError>)
      modifies this
      ensures Settled(old(db), DeleteUser(old(db), user), db, error)
    {
      var tx := db;
      var count := DeletionCount(tx.log, user);
      var manifests, sessions, utterances := ManifestsOf(tx, user), SessionsOf(tx, user), UtterancesOf(tx, user);
      tx := tx.(items := map i | i in tx.items && tx.items[i].user != user && tx.items[i].manifest !in manifests
                           :: tx.items[i]);
      tx := tx.(manifests := tx.manifests - manifests);
      var candidates := CandidatesOf(tx, user);
      assert tx.items == Purged(db, user).items && candidates == CandidatesOf(db, user);
      if exists i :: i in tx.items && tx.items[i].candidate in candidates { return Some(Constraint); }
      tx := tx.(candidates := tx.candidates - candidates);
      tx := tx.(edits := map k | k in tx.edits && k.0 !in sessions :: tx.edits[k]);
      tx := tx.(log := WithoutSessions(tx.log, sessions));
      tx := tx.(history := map i | i in tx.history && tx.history[i].session !in sessions :: tx.history[i]);
      tx := tx.(sessions := tx.sessions - sessions);
      tx := tx.(audioFiles := tx.audioFiles - utterances);
      tx := tx.(utterances := tx.utterances - utterances);
      assert tx == Purged(db, user);
      var logged := CreateEvent(tx, UserDataDeleted, user, user, UserDeletedKey(user, count + 1));
      if logged.Failed? { return Some(logged.error); }
      db := logged.db;
      return None;
    }

    /** Retention: recordings first, outside the transaction, then the rows session by session. */
    method PruneTrainingData(days: nat, now: nat, audio: FileAudioStore) returns (pruned: Option<nat>)
      modifies this, audio
      ensures days == 0 ==> pruned == Some(0) && db == old(db) && audio.files == old(audio.files)
      ensures days > 0 && pruned.Some? ==>
                && db == PruneTraining(old(db), Cutoff(now, days))
                && audio.files == old(audio.files) - AudioOf(old(db), Expired(old(db), Cutoff(now, days)))
      ensures days > 0 && pruned.Some? ==>
                && KeepsWindow(old(db), db, days, now) && GoneWhole(old(db), db, audio.files)
                && pruned.value == |old(db).sessions.Keys - db.sessions.Keys|
      ensures pruned.None? ==> db == old(db)
      ensures pruned.None? ==> exists s :: (s in old(db).sessions &&
                SourceKey(old(db).sessions[s].user, old(db).sessions[s].utterance).Err?)
    {
      if days == 0 { return Some(0); }
      var expired := Expired(db, Cutoff(now, days));
      var deleted := DeleteRecordings(expired, audio);
      if !deleted { return None; }
      DropRows(expired);
      ExpiredIs(old(db), days, now, expired);
      DroppedWhole(old(db), expired, audio.files);
      assert old(db).sessions.Keys - db.sessions.Keys == expired;
      return Some(|expired|);
    }

    method DeleteRecordings(gone: set<string>, audio: FileAudioStore) returns (ok: bool)
      requires gone <= db.sessions.Keys
      modifies audio
      ensures ok ==> audio.files == old(audio.files) - AudioOf(db, gone)
      ensures ok <==> forall s :: s in gone ==> SourceKey(db.sessions[s].user, db.sessions[s].utterance).Ok?
    {
      var todo := gone;
      while todo != {}
        invariant todo <= gone && audio.files == old(audio.files) - AudioOf(db, gone - todo)
        invariant forall s :: s in gone - todo ==> SourceKey(db.sessions[s].user, db.sessions[s].utterance).Ok?
      {
        var s :| s in todo;
        var row := db.sessions[s];
        var deleted := audio.DeleteSourceAudioFor(row.user, row.utterance);
        if deleted.Err? { return false; }
        assert AudioOf(db, gone - (todo - {s})) ==
               AudioOf(db, gone - todo) + {SourceKey(row.user, row.utterance).value};
        todo := todo - {s};
      }
      assert gone - {} == gone;
      return true;
    }

    method DropRows(gone: set<string>)
      requires gone <= db.sessions.Keys
      modifies this
      ensures db == DropSessions(old(db), gone)
    {
      var tx, todo := db, gone;
      DropNone(db);
      assert gone - gone == {};
      while todo != {}
        invariant todo <= gone && tx == DropSessions(db, gone - todo) && db == old(db)
      {
        var s :| s in todo;
        DropNext(db, gone - todo, s);
        assert gone - (todo - {s}) == (gone - todo) + {s};
        tx := DropOne(tx, s, db.sessions[s].utterance);
        todo := todo - {s};
      }
      assert gone - {} == gone;
      db := tx;
    }

    /** A history row goes exactly when more than `days` days have passed since it was written. */
    method PruneHistoryOlderThan(days: nat, now: nat) returns (error: Option<StoreError>)
      modifies this
      ensures Settled(old(db), PruneHistory(old(db), Cutoff(now, days)), db, error)
      ensures error.None? ==>
                && db.history.Keys <= old(db).history.Keys
                && forall i :: i in old(db).history ==>
                     && (i !in db.history <==> old(db).history[i].createdAt + days * 86_400_000 < now)
                     && (i in db.history ==> db.history[i] == old(db).history[i])
    {
      var tx := db;
      var stale := Stale(tx.history, Cutoff(now, days));
      tx := tx.(history := tx.history - stale);
      if |stale| > 0 {
        var key := HistoryPrunedKey(NextEventSequence(tx.log));
        var logged := CreateEvent(tx, HistoryPruned, "history", Dec(|stale|), key);
        if logged.Failed? { return Some(logged.error); }
        tx := logged.db;
      } else {
        assert stale == {};
      }
      db := tx;
      return None;
    }

    /** Two separate statements, not a transaction: the status first, then the file. */
    method MarkSyncedAndDropAudio(id: nat, audio: FileAudioStore) returns (error: Option<Failure>)
      modifies this, audio
      ensures db == After(old(db), MarkSynced(old(db), id))
      ensures if id in old(db).candidates && old(db).candidates[id].session in old(db).sessions then
                var c := old(db).candidates[id];
                var key := SourceKey(old(db).sessions[c.session].user, c.utterance);
                && OnlySynced(old(db), db, {id}) && error == (if key.Ok? then None else Some(AudioDelete))
                && audio.files == if key.Ok? then old(audio.files) - {key.value} else old(audio.files)
              else error == Some(Store(NotFound)) && db == old(db) && audio.files == old(audio.files)
    {
      if id !in db.candidates || db.candidates[id].session !in db.sessions { return Some(Store(NotFound)); }
      var c := db.candidates[id];
      var user := db.sessions[c.session].user;
      db := WithStatus(db, id, Synced);
      var deleted := audio.DeleteSourceAudioFor(user, c.utterance);
      if deleted.Err? { return Some(AudioDelete); }
      return None;
    }

    /** The sizing half of the storage cap: one pass that sizes every recording and keeps the running total. */
    method SizePending(pending: seq<Learning>, audio: FileAudioStore) returns (ok: bool, sizes: seq<nat>, total: nat)
      ensures ok <==> forall l :: l in pending ==> IsObjectKey(l.audioKey)
      ensures ok ==> sizes == Sizes(audio.files, pending) && total == Total(sizes)
    {
      sizes, total := [], 0;
      var i := 0;
      while i < |pending|
        invariant 0 <= i <= |pending| && sizes == Sizes(audio.files, pending[..i]) && total == Total(sizes)
        invariant forall l :: l in pending[..i] ==> IsObjectKey(l.audioKey)
      {
        var size := audio.SourceAudioSizeByKey(pending[i].audioKey);
        if size.Err? {
          assert pending[i] in pending;
          return false, sizes, total;
        }
        assert pending[..i + 1] == pending[..i] + [pending[i]];
        assert (sizes + [size.value])[..|sizes|] == sizes;
        total := SaturatingAdd(total, size.value);
        sizes := sizes + [size.value];
        i := i + 1;
      }
      assert pending[..i] == pending;
      ok := true;
    }

    /** The storage cap. Every recording is sized first; then the oldest go until the running total fits. */
    method EvictCapturedAudioOverCap(user: string, cap: nat, audio: FileAudioStore) returns (evicted: Option<nat>)
      modifies this, audio
      ensures var o := Outbox(old(db), user);
              Addressable(o) ==>
                var k := HowMany(old(db), old(audio.files), user, cap);
                evicted == Some(k) && db == Flip(old(db), o[..k]) && audio.files == old(audio.files) - Keys(o[..k])
    {
      var pending := Outbox(db, user);
      var sized, sizes, total := SizePending(pending, audio);
      if !sized { return None; }
      evicted := EvictOldest(pending, sizes, total, cap, audio);
    }

    /** The evicting half: each status first, then its file, until the running total fits. */
    method EvictOldest(pending: seq<Learning>, sizes: seq<nat>, sum: nat, cap: nat, audio: FileAudioStore)
      returns (evicted: Option<nat>)
      requires |sizes| == |pending|
      modifies this, audio
      ensures Addressable(pending) ==>
                var k := EvictCount(sizes, sum, cap);
                evicted == Some(k) && db == Flip(old(db), pending[..k]) &&
                audio.files == old(audio.files) - Keys(pending[..k])
    {
      var total: nat, i: nat := sum, 0;
      assert pending[..0] == [];
      while i < |pending| && total > cap
        invariant 0 <= i <= |pending| && i + EvictFrom(sizes, i, total, cap) == EvictCount(sizes, sum, cap)
        invariant db == Flip(old(db), pending[..i])
        invariant Addressable(pending) ==> audio.files == old(audio.files) - Keys(pending[..i])
      {
        var l := pending[i];
        assert l in pending;
        FlipNext(old(db), old(audio.files), pending, i);
        db := WithStatus(db, l.candidate, Evicted);
        var deleted := audio.DeleteSourceAudioFor(l.user, l.utterance);
        if deleted.Err? { return None; }
        total := SaturatingSub(total, sizes[i]);
        i := i + 1;
      }
      return Some(i);
    }
  }
}

/** The cached last commit agrees with the four stored copies of its text, through any interleaving. */
module LastCommit {
  import opened Basics
  import opened Tables
  import opened StoreInvariant
  import AudioStore
  import opened Eviction
  import opened Hosts
  import opened StreamingTake
  import opened Ffi
  import SyncClient

  /** The session's committed text, its history row, and its candidate's corrected text and transcript are `text`. */
  predicate Says(db: Db, s: string, text: string) {
    && s in db.sessions && db.sessions[s].state == Committed && db.sessions[s].committedText == Some(text)
    && HistorySays(db.history, s, text) && CandidatesSay(db.candidates, s, text)
  }

  predicate HistorySays(history: map<nat, HistoryRow>, s: string, text: string) {
    && (exists i :: i in history && history[i].session == s)
    && forall i :: i in history && history[i].session == s ==> history[i].committed && history[i].text == text
  }

  predicate CandidatesSay(candidates: map<nat, Candidate>, s: string, text: string) {
    && (exists i :: i in candidates && candidates[i].session == s)
    && forall i :: i in candidates && candidates[i].session == s ==>
         candidates[i].corrected == text && candidates[i].transcript == text
  }

  predicate Agrees(f: State) {
    f.lastCommit.Some? ==> Says(f.host.db, f.lastCommit.value.0, f.lastCommit.value.1)
  }

  /** The phone only creates sessions and commits each under its own utterance. */
  predicate OwnEvent(e: Event) {
    (e.kind == SessionCreated && e.key == CreatedKey(e.aggregate)) ||
    (e.kind == SessionCommitted && e.key == FinalKey(UtteranceKey(e.aggregate)))
  }

  predicate OwnLog(log: seq<Event>) { forall e :: e in log ==> OwnEvent(e) }

  predicate AllCommitted(history: map<nat, HistoryRow>) { forall i :: i in history ==> history[i].committed }

  predicate Good(db: Db) {
    Valid(db) && OwnLog(db.log) && AllCommitted(db.history)
  }

  // ---------------------------------------------------------------- a fresh session

  lemma FinalKeyInjective(a: string, b: string)
    requires FinalKey(UtteranceKey(a)) == FinalKey(UtteranceKey(b))
    ensures a == b
  {
    var prefix := "ffi-stream-final:";
    assert FinalKey(UtteranceKey(a))[|prefix|..] == UtteranceKey(a);
    assert FinalKey(UtteranceKey(b))[|prefix|..] == UtteranceKey(b);
    UtteranceKeyInjective(a, b);
  }

  /** A session that was never created was never committed under its key. */
  lemma FinalKeyIsFresh(log: seq<Event>, live: set<string>, s: string)
    requires OwnLog(log) && SessionsStart(log, live) && !HasKey(log, CreatedKey(s))
    ensures !HasKey(log, FinalKey(UtteranceKey(s)))
  {
    Unmentioned(log, live, s);
    forall e | e in log ensures e.key != FinalKey(UtteranceKey(s)) {
      assert CreatedKey(e.aggregate)[0] == 's' && FinalKey(UtteranceKey(s))[0] == 'f';
      if e.kind == SessionCommitted && e.key == FinalKey(UtteranceKey(s)) { FinalKeyInjective(e.aggregate, s); }
    }
  }

  // ---------------------------------------------------------------- capture

  /** The database between the create and the commit of a capture. */
  function Prepared(db: Db, s: SessionId, text: string, digest: string, now: nat): Db
    requires CreateSession(db, s, Some(text), now).Done?
  {
    var u := UtteranceKey(s);
    var row := Session(DEFAULT_USER, u, Some(text), Created, Created, None, Some(text), now, None, None);
    Logged(db, SessionCreated, s, text, CreatedKey(s)).(
    utterances := db.utterances[u := Utterance(DEFAULT_USER, AudioPath(u), Some(digest), Some(text))],
    audioFiles := db.audioFiles + {u},
    sessions := db.sessions[s := row])
  }

  lemma PreparedIs(db: Db, s: SessionId, text: string, digest: string, now: nat)
    requires CreateSession(db, s, Some(text), now).Done?
    ensures SetDigest(CreateSession(db, s, Some(text), now).db, UtteranceKey(s), digest)
            == Tables.Done(Prepared(db, s, text, digest, now))
  {
    var u := UtteranceKey(s);
    var made := CreateSession(db, s, Some(text), now).db;
    assert made.utterances[u := made.utterances[u].(digest := Some(digest))]
           == db.utterances[u := Utterance(DEFAULT_USER, AudioPath(u), Some(digest), Some(text))];
  }

  lemma KeyStillFresh(db: Db, s: SessionId, text: string, digest: string, now: nat)
    requires CreateSession(db, s, Some(text), now).Done? && !HasKey(db.log, FinalKey(UtteranceKey(s)))
    ensures !HasKey(Prepared(db, s, text, digest, now).log, FinalKey(UtteranceKey(s)))
  {
    assert CreatedKey(s)[0] == 's' && FinalKey(UtteranceKey(s))[0] == 'f';
  }

  /** The commit of a prepared session under a fresh key. */
  lemma CommitSays(db: Db, s: SessionId, text: string, now: nat)
    requires s in db.sessions && db.sessions[s].raw == Some(text) && db.sessions[s].state == Created
    requires forall i :: i in db.candidates ==> db.candidates[i].session != s && i < db.nextCandidate
    requires forall i :: i in db.history ==> db.history[i].session != s && i < db.nextHistory
    ensures var after := CommittedAs(db, s, text, FinalKey(UtteranceKey(s)), now);
            && Says(after, s, text)
            && (AllCommitted(db.history) ==> AllCommitted(after.history))
            && after.log == db.log + [Event(db.lastEventId + 1, SessionCommitted, s, text, FinalKey(UtteranceKey(s)))]
  {
    var after := CommittedAs(db, s, text, FinalKey(UtteranceKey(s)), now);
    assert after.history[db.nextHistory].session == s && after.candidates[db.nextCandidate].session == s;
  }

  /** A capture that completes leaves all four copies saying its text; one that fails keeps the phone's log and history
      of the same kind. */
  lemma CaptureSays(h: Host, s: SessionId, text: string, payload: Bytes, digest: string, now: nat,
                    disk: AudioStore.Disk)
    requires Good(h.db)
    ensures var (after, ok) := CaptureTake(h, s, text, payload, digest, now, disk);
            Good(after.db) && (ok ==> Says(after.db, s, text))
  {
    CaptureKeepsValid(h, s, text, payload, digest, now, disk);
    if CreateSession(h.db, s, Some(text), now).Done? {
      FinalKeyIsFresh(h.db.log, h.db.sessions.Keys, s);
      PreparedIs(h.db, s, text, digest, now);
      KeyStillFresh(h.db, s, text, digest, now);
      CaptureOutcome(h, s, text, payload, digest, now, disk);
      CaptureRows(h.db, s, text, digest, now);
      PreparedIsOwn(h.db, s, text, digest, now);
    }
  }

  /** The databases a capture can leave once its session exists. */
  lemma CaptureOutcome(h: Host, s: SessionId, text: string, payload: Bytes, digest: string, now: nat,
                       disk: AudioStore.Disk)
    requires CreateSession(h.db, s, Some(text), now).Done?
    requires SetDigest(CreateSession(h.db, s, Some(text), now).db, UtteranceKey(s), digest)
             == Tables.Done(Prepared(h.db, s, text, digest, now))
    requires !HasKey(Prepared(h.db, s, text, digest, now).log, FinalKey(UtteranceKey(s)))
    ensures var (after, ok) := CaptureTake(h, s, text, payload, digest, now, disk);
            var prepared := Prepared(h.db, s, text, digest, now);
            if ok then after.db == CommittedAs(prepared, s, text, FinalKey(UtteranceKey(s)), now)
            else after.db == prepared || after.db == CreateSession(h.db, s, Some(text), now).db
  {
  }

  lemma CaptureRows(db: Db, s: SessionId, text: string, digest: string, now: nat)
    requires CreateSession(db, s, Some(text), now).Done?
    requires OwnLog(db.log) && AllCommitted(db.history) && Counters(db)
    requires CandidatesLinked(db.candidates, db.sessions) && HistoryLinked(db.history, db.sessions.Keys)
    ensures var prepared := Prepared(db, s, text, digest, now);
            var after := CommittedAs(prepared, s, text, FinalKey(UtteranceKey(s)), now);
            && OwnLog(prepared.log) && AllCommitted(prepared.history)
            && OwnLog(after.log) && AllCommitted(after.history) && Says(after, s, text)
  {
    CommitSays(Prepared(db, s, text, digest, now), s, text, now);
    PreparedIsOwn(db, s, text, digest, now);
  }

  lemma PreparedIsOwn(db: Db, s: SessionId, text: string, digest: string, now: nat)
    requires CreateSession(db, s, Some(text), now).Done? && OwnLog(db.log)
    ensures OwnLog(Prepared(db, s, text, digest, now).log) && OwnLog(CreateSession(db, s, Some(text), now).db.log)
  {
  }

  // ---------------------------------------------------------------- amendments and the cap

  lemma AmendSays(db: Db, s: string, from: string, to: string, t: string, text: string)
    requires AmendCorrection(db, s, from, to).Done? && Says(db, t, text) && (t == s ==> text == from)
    ensures Says(AmendCorrection(db, s, from, to).db, t, if t == s then to else text)
  {
    if to != from {
      AmendedHistorySays(db.history, s, to, t, text);
      AmendedCandidatesSay(db.candidates, s, to, t, text);
    }
  }

  lemma AmendedHistorySays(history: map<nat, HistoryRow>, s: string, to: string, t: string, text: string)
    requires HistorySays(history, t, text)
    ensures HistorySays(AmendedHistory(history, s, to), t, if t == s then to else text)
  {
    var i :| i in history && history[i].session == t;
    assert i in AmendedHistory(history, s, to) && AmendedHistory(history, s, to)[i].session == t;
  }

  lemma AmendedCandidatesSay(candidates: map<nat, Candidate>, s: string, to: string, t: string, text: string)
    requires CandidatesSay(candidates, t, text)
    ensures CandidatesSay(AmendedCandidates(candidates, s, to), t, if t == s then to else text)
  {
    var i :| i in candidates && candidates[i].session == t;
    assert i in AmendedCandidates(candidates, s, to) && AmendedCandidates(candidates, s, to)[i].session == t;
  }

  lemma AmendIsGood(db: Db, s: string, from: string, to: string)
    requires Good(db)
    ensures Good(TryAmend(db, s, from, to).0)
  {
    AmendKeeps(db, s, from, to);
    AmendKeepsKind(db, s, from, to);
  }

  lemma AmendKeepsKind(db: Db, s: string, from: string, to: string)
    requires AllCommitted(db.history)
    ensures TryAmend(db, s, from, to).0.log == db.log && AllCommitted(TryAmend(db, s, from, to).0.history)
  {
  }

  lemma TryAmendSays(db: Db, s: string, from: string, to: string, t: string, text: string)
    requires Says(db, t, text) && (t == s ==> text == from)
    ensures var (after, ok) := TryAmend(db, s, from, to); Says(after, t, if ok && t == s then to else text)
  {
    if AmendCorrection(db, s, from, to).Done? { AmendSays(db, s, from, to, t, text); }
  }

  predicate OnlyStatuses(before: map<nat, Candidate>, after: map<nat, Candidate>) {
    && after.Keys == before.Keys
    && forall i :: i in before ==> after[i] == before[i].(status := after[i].status)
  }

  lemma StatusesSay(before: map<nat, Candidate>, after: map<nat, Candidate>, s: string, text: string)
    requires OnlyStatuses(before, after) && CandidatesSay(before, s, text)
    ensures CandidatesSay(after, s, text)
  {
    var i :| i in before && before[i].session == s;
    assert i in after && after[i].session == s;
  }

  lemma CapSays(h: Host, cap: nat, s: string, text: string)
    requires Says(h.db, s, text)
    ensures Says(Capped(h, cap).db, s, text)
  {
    CapKeepsRows(h, cap);
    StatusesSay(h.db.candidates, Capped(h, cap).db.candidates, s, text);
  }

  lemma StatusesTransitive(a: map<nat, Candidate>, b: map<nat, Candidate>, c: map<nat, Candidate>)
    requires OnlyStatuses(a, b) && OnlyStatuses(b, c)
    ensures OnlyStatuses(a, c)
  {
  }

  /** The cap only moves statuses. */
  lemma {:induction false} FlipMovesStatuses(db: Db, gone: seq<Learning>)
    ensures var after := Flip(db, gone);
            after == db.(candidates := after.candidates) && OnlyStatuses(db.candidates, after.candidates)
  {
    if gone != [] {
      var prior, id := Flip(db, gone[..|gone| - 1]), gone[|gone| - 1].candidate;
      FlipMovesStatuses(db, gone[..|gone| - 1]);
      if id in prior.candidates {
        OneStatus(prior.candidates, id, Evicted);
        StatusesTransitive(db.candidates, prior.candidates, WithStatus(prior, id, Evicted).candidates);
      }
    }
  }

  lemma CapKeepsRows(h: Host, cap: nat)
    ensures var db, after := h.db, Capped(h, cap).db;
            after == db.(candidates := after.candidates) && OnlyStatuses(db.candidates, after.candidates)
  {
    FlipMovesStatuses(h.db, Outbox(h.db, DEFAULT_USER)[..HowMany(h.db, h.files, DEFAULT_USER, cap)]);
  }

  lemma CapIsGood(h: Host, cap: nat)
    requires Good(h.db)
    ensures Good(Capped(h, cap).db)
  {
    CapKeepsRows(h, cap);
    OutboxAfterFlip(h.db, DEFAULT_USER, HowMany(h.db, h.files, DEFAULT_USER, cap));
  }

  // ---------------------------------------------------------------- other sessions during a capture

  lemma PreparedKeepsSaying(db: Db, s: SessionId, raw: string, digest: string, now: nat, t: string, text: string)
    requires CreateSession(db, s, Some(raw), now).Done? && Says(db, t, text)
    ensures Says(Prepared(db, s, raw, digest, now), t, text)
    ensures Says(CreateSession(db, s, Some(raw), now).db, t, text)
  {
  }

  lemma CommitKeepsSaying(db: Db, s: string, raw: string, key: string, now: nat, t: string, text: string)
    requires s in db.sessions && db.sessions[s].raw.Some? && s != t && Says(db, t, text) && Counters(db)
    ensures Says(CommittedAs(db, s, raw, key, now), t, text)
  {
    var after := CommittedAs(db, s, raw, key, now);
    var i :| i in db.history && db.history[i].session == t;
    assert i in after.history && after.history[i].session == t;
    var j :| j in db.candidates && db.candidates[j].session == t;
    assert j in after.candidates && after.candidates[j].session == t;
  }

  lemma CaptureKeepsSaying(h: Host, s: SessionId, raw: string, payload: Bytes, digest: string, now: nat,
                           disk: AudioStore.Disk, t: string, text: string)
    requires Counters(h.db) && Says(h.db, t, text)
    ensures Says(CaptureTake(h, s, raw, payload, digest, now, disk).0.db, t, text)
  {
    if CreateSession(h.db, s, Some(raw), now).Done? {
      PreparedIs(h.db, s, raw, digest, now);
      PreparedKeepsSaying(h.db, s, raw, digest, now, t, text);
      var db, key := Prepared(h.db, s, raw, digest, now), FinalKey(UtteranceKey(s));
      if CommitSession(db, s, raw, key, now).Done? && !HasKey(db.log, key) {
        CommitKeepsSaying(db, s, raw, key, now, t, text);
      }
    }
  }

  // ---------------------------------------------------------------- every action

  ghost predicate Healthy(f: State) { Good(f.host.db) && Agrees(f) }

  lemma AnnouncedIsHealthy(g: State, text: string, id: SessionId)
    requires Good(g.host.db) && Says(g.host.db, id, text)
    ensures Healthy(Announced(g, text, id))
  {
    CapIsGood(g.host, g.cap);
    CapSays(g.host, g.cap, id, text);
  }

  lemma PersistedIsHealthy(hash: Bytes -> string, f: State, text: string, payload: Bytes, id: SessionId, now: nat,
                           disk: AudioStore.Disk)
    requires Healthy(f)
    ensures Healthy(Persisted(hash, f, text, payload, id, now, disk).0)
  {
    var (host, ok) := CaptureTake(f.host, id, text, payload, hash(payload), now, disk);
    CaptureSays(f.host, id, text, payload, hash(payload), now, disk);
    if ok {
      AnnouncedIsHealthy(f.(host := host), text, id);
    } else if f.lastCommit.Some? {
      CaptureKeepsSaying(f.host, id, text, payload, hash(payload), now, disk, f.lastCommit.value.0,
        f.lastCommit.value.1);
    }
  }

  lemma FinalizedIsHealthy(hash: Bytes -> string, f: State, outcome: Outcome, end: PhraseEnd)
    requires Healthy(f)
    ensures Healthy(Finalized(hash, f, outcome, end).0)
  {
    if outcome.Speech? && !f.ephemeral && end.encoded.Some? {
      PersistedIsHealthy(hash, f, outcome.text, end.encoded.value, end.id, end.now, end.disk);
    }
  }

  predicate SameStore(f: State, g: State) { g.host == f.host && g.lastCommit == f.lastCommit }

  lemma FoldOneSameStore(f: State, take: Take, audio: seq<Sample>, decode: Decode)
    ensures SameStore(f, FoldOne(f, take, audio, decode).0)
  {
  }

  lemma SameStoreIsHealthy(f: State, g: State)
    requires Healthy(f) && SameStore(f, g)
    ensures Healthy(g)
  {
  }

  lemma PushOneIsHealthy(hash: Bytes -> string, f: State, snippet: Snippet)
    requires Healthy(f)
    ensures Healthy(PushOne(hash, f, snippet).0)
  {
    if f.take.Some? {
      FoldOneSameStore(f, f.take.value, snippet.audio, snippet.decode);
      var (g, take) := FoldOne(f, f.take.value, snippet.audio, snippet.decode);
      SameStoreIsHealthy(f, g.(take := Some(FRESH_TAKE)));
      if g.continuous {
        FinalizedIsHealthy(hash, g.(take := Some(FRESH_TAKE)), Close(take, snippet.end.whole), snippet.end);
      }
    }
  }

  lemma {:induction false} PushAllIsHealthy(hash: Bytes -> string, f: State, snippets: seq<Snippet>)
    requires Healthy(f)
    ensures Healthy(PushAll(hash, f, snippets).0)
  {
    if snippets != [] {
      PushAllIsHealthy(hash, f, snippets[..|snippets| - 1]);
      PushOneIsHealthy(hash, PushAll(hash, f, snippets[..|snippets| - 1]).0, snippets[|snippets| - 1]);
    }
  }

  lemma StoppedIsHealthy(hash: Bytes -> string, f: State, tail: Option<(seq<Sample>, Decode)>, end: PhraseEnd)
    requires Healthy(f)
    ensures Healthy(Stopped(hash, f, tail, end).0)
  {
    if f.take.Some? {
      var g, take := f.(take := None), f.take.value;
      if tail.Some? {
        FoldOneSameStore(g, take, tail.value.0, tail.value.1);
        var folded := FoldOne(g, take, tail.value.0, tail.value.1);
        g, take := folded.0, folded.1;
      }
      FinalizedIsHealthy(hash, g, Close(take, end.whole), end);
    }
  }

  lemma AmendedIsHealthy(f: State, s: string, from: string, to: string)
    requires Healthy(f)
    requires f.lastCommit.Some? && f.lastCommit.value.0 == s ==> f.lastCommit.value.1 == from
    ensures Healthy(Corrected(f, s, from, to).0)
  {
    AmendIsGood(f.host.db, s, from, to);
    if f.lastCommit.Some? { TryAmendSays(f.host.db, s, from, to, f.lastCommit.value.0, f.lastCommit.value.1); }
  }

  lemma ReportedIsHealthy(f: State, corrected: string)
    requires Healthy(f)
    ensures Healthy(Reported(f, corrected).0)
  {
    if f.lastCommit.Some? { AmendedIsHealthy(f, f.lastCommit.value.0, f.lastCommit.value.1, corrected); }
  }

  lemma EditedIsHealthy(f: State, id: nat, corrected: string)
    requires Healthy(f)
    ensures Healthy(Edited(f, id, corrected).0)
  {
    if id in f.host.db.history {
      AmendedIsHealthy(f, f.host.db.history[id].session, f.host.db.history[id].text, corrected);
    }
  }

  /** Confirming only moves statuses. */
  lemma ConfirmedSays(h: Host, id: nat, s: string, text: string)
    requires Says(h.db, s, text)
    ensures Says(SyncClient.Confirmed(h, id).0.db, s, text)
  {
    MarkedSays(h.db, id, s, text);
    assert SyncClient.Confirmed(h, id).0.db == After(h.db, MarkSynced(h.db, id));
  }

  lemma MarkedSays(db: Db, id: nat, s: string, text: string)
    requires Says(db, s, text)
    ensures Says(WithStatus(db, id, Synced), s, text)
  {
    if id in db.candidates {
      OneStatus(db.candidates, id, Synced);
      StatusesSay(db.candidates, db.candidates[id := db.candidates[id].(status := Synced)], s, text);
    }
  }

  lemma OneStatus(candidates: map<nat, Candidate>, id: nat, status: Status)
    requires id in candidates
    ensures OnlyStatuses(candidates, candidates[id := candidates[id].(status := status)])
  {
    assert candidates[id := candidates[id].(status := status)].Keys == candidates.Keys;
  }

  lemma ConfirmedIsGood(h: Host, id: nat)
    requires Good(h.db)
    ensures Good(SyncClient.Confirmed(h, id).0.db)
  {
    SyncClient.ConfirmedKeepsValid(h, id);
  }

  lemma ConfirmedIsHealthy(f: State, id: nat)
    requires Healthy(f)
    ensures Healthy(f.(host := SyncClient.Confirmed(f.host, id).0))
  {
    ConfirmedIsGood(f.host, id);
    if f.lastCommit.Some? { ConfirmedSays(f.host, id, f.lastCommit.value.0, f.lastCommit.value.1); }
  }

  lemma {:induction false} AcknowledgedIsHealthy(f: State, learnings: seq<Learning>, n: nat)
    requires Healthy(f) && n <= |learnings|
    ensures Healthy(f.(host := SyncClient.ConfirmUpTo(f.host, learnings, n).0))
  {
    if n > 0 {
      var prior := SyncClient.ConfirmUpTo(f.host, learnings, n - 1);
      AcknowledgedIsHealthy(f, learnings, n - 1);
      if prior.1 { ConfirmedIsHealthy(f.(host := prior.0), learnings[n - 1].candidate); }
    }
  }

  lemma ActIsHealthy(hash: Bytes -> string, f: State, a: Action)
    requires Healthy(f)
    ensures Healthy(Act(hash, f, a).0)
  {
    match a
    case Toggle(tail, end) => StoppedIsHealthy(hash, f, tail, end);
    case ToggleEphemeral(tail, end) => StoppedIsHealthy(hash, f, tail, end);
    case PushFrame(snippets) => PushAllIsHealthy(hash, f, snippets);
    case ReportCorrection(corrected) => ReportedIsHealthy(f, corrected);
    case HistoryEdited(id, corrected) => EditedIsHealthy(f, id, corrected);
    case StartContinuous =>
    case Cancel =>
    case SetCap(bytes) =>
    case ConfirmSynced(learnings) => AcknowledgedIsHealthy(f, learnings, |learnings|);
    case Reopen =>
  }

  /** In every state reachable through the keyboard, if a last commit is cached its session is committed, and its text
      is the session's committed text, its history text, and its candidate's corrected text and transcript. */
  lemma {:induction false} LastCommitAgrees(hash: Bytes -> string, actions: seq<Action>)
    ensures Healthy(Ffi.Run(hash, FRESH, actions))
  {
    if actions == [] {
      EveryReachableStateIsValid([]);
    } else {
      LastCommitAgrees(hash, actions[..|actions| - 1]);
      ActIsHealthy(hash, Ffi.Run(hash, FRESH, actions[..|actions| - 1]), actions[|actions| - 1]);
    }
  }
}

/** What every transaction of the store keeps, proved over all commands. */
module StoreInvariant {
  import opened Basics
  import opened Tables

  datatype Cmd =
    | DoCreate(s: SessionId, raw: Option<string>, now: nat)
    | DoPreedit(session: string, from: string, to: string, index: nat)
    | DoCommit(session: string, text: string, key: string, now: nat)
    | DoCancel(session: string, key: string, now: nat)
    | DoAmend(session: string, committed: string, corrected: string)
    | DoDigest(utterance: string, digest: string)
    | DoMarkSynced(id: nat)
    | DoEvict(id: nat)
    | DoReject(id: nat)
    | DoRetranscribe(id: nat, text: string)
    | DoManifestItem(manifest: string, user: string, id: nat)
    | DoPruneTraining(cutoff: nat)
    | DoDeleteUser(user: string)
    | DoPruneHistory(cutoff: nat)
    | DoDeleteHistory(id: nat)
    | DoTray(name: string, value: string)

  function Exec(db: Db, cmd: Cmd): Reply {
    match cmd
    case DoCreate(s, raw, now) => CreateSession(db, s, raw, now)
    case DoPreedit(s, from, to, index) => RecordPreedit(db, s, from, to, index)
    case DoCommit(s, text, key, now) => CommitSession(db, s, text, key, now)
    case DoCancel(s, key, now) => CancelSession(db, s, key, now)
    case DoAmend(s, committed, corrected) => AmendCorrection(db, s, committed, corrected)
    case DoDigest(u, digest) => SetDigest(db, u, digest)
    case DoMarkSynced(id) => MarkSynced(db, id)
    case DoEvict(id) => Done(WithStatus(db, id, Evicted))
    case DoReject(id) => RejectCandidate(db, id)
    case DoRetranscribe(id, text) => Retranscribe(db, id, text)
    case DoManifestItem(m, user, id) => InsertManifestItem(db, m, user, id)
    case DoPruneTraining(cutoff) => Done(PruneTraining(db, cutoff))
    case DoDeleteUser(user) => DeleteUser(db, user)
    case DoPruneHistory(cutoff) => PruneHistory(db, cutoff)
    case DoDeleteHistory(id) => DeleteHistory(db, id)
    case DoTray(name, value) => SetTraySetting(db, name, value)
  }

  function Run(db: Db, cmds: seq<Cmd>): Db {
    if cmds == [] then db
    else var before := Run(db, cmds[..|cmds| - 1]); After(before, Exec(before, cmds[|cmds| - 1]))
  }

  // ---------------------------------------------------------------- the invariant

  predicate SessionsLinked(sessions: map<string, Session>, utterances: map<string, Utterance>) {
    forall s :: s in sessions ==>
      sessions[s].utterance in utterances && utterances[sessions[s].utterance].user == sessions[s].user
  }

  predicate CandidatesLinked(candidates: map<nat, Candidate>, sessions: map<string, Session>) {
    forall i :: i in candidates ==>
      candidates[i].session in sessions && candidates[i].utterance == sessions[candidates[i].session].utterance
  }

  predicate EditsLinked(edits: map<(string, nat), Edit>, live: set<string>) {
    forall k :: k in edits ==> k.0 in live
  }

  predicate HistoryLinked(history: map<nat, HistoryRow>, live: set<string>) {
    forall i :: i in history ==> history[i].session in live
  }

  predicate ItemsLinked(items: map<nat, ManifestItem>, candidates: map<nat, Candidate>,
                        manifests: map<string, string>) {
    forall i :: i in items ==> items[i].candidate in candidates && items[i].manifest in manifests
  }

  /** Every foreign key resolves, and the two joins of the outbox query agree. */
  predicate Integrity(db: Db) {
    && SessionsLinked(db.sessions, db.utterances)
    && CandidatesLinked(db.candidates, db.sessions)
    && EditsLinked(db.edits, db.sessions.Keys)
    && HistoryLinked(db.history, db.sessions.Keys)
    && ItemsLinked(db.items, db.candidates, db.manifests)
    && db.audioFiles <= db.utterances.Keys
  }

  /** The names `create_session` gives out. */
  predicate Naming(sessions: map<string, Session>, utterances: map<string, Utterance>) {
    && (forall s :: s in sessions ==>
          sessions[s].user == DEFAULT_USER && sessions[s].utterance == UtteranceKey(s))
    && (forall u :: u in utterances ==>
          utterances[u].audioPath == AudioPath(u) && utterances[u].user == DEFAULT_USER)
  }

  predicate Uuids(live: set<string>) {
    forall s :: s in live ==> IsUuid(s)
  }

  predicate Counters(db: Db) {
    && (forall i :: i in db.candidates ==> i < db.nextCandidate)
    && (forall i :: i in db.history ==> i < db.nextHistory)
    && (forall i :: i in db.items ==> i < db.nextItem)
  }

  predicate Increasing(log: seq<Event>) {
    forall i, j :: 0 <= i < j < |log| ==> log[i].id < log[j].id && log[i].key != log[j].key
  }

  /** The log is in id order, its newest id is the AUTOINCREMENT counter and its keys are unique. */
  predicate LogOrdered(log: seq<Event>, last: nat) {
    && Increasing(log)
    && (if log == [] then last == 0 else log[|log| - 1].id == last)
  }

  predicate HasCreation(log: seq<Event>, s: string) {
    exists i :: 0 <= i < |log| && log[i].kind == SessionCreated && log[i].aggregate == s && log[i].key == CreatedKey(s)
  }

  predicate SessionsStart(log: seq<Event>, live: set<string>) {
    && (forall e :: e in log && OfSession(e) ==> HasCreation(log, e.aggregate))
    && (forall s :: s in live ==> HasCreation(log, s))
  }

  /** The independent reading of the log: what state its events put a session in. */
  function Replay(log: seq<Event>, s: string): Option<SessionState> {
    if log == [] then None else ReplayStep(Replay(log[..|log| - 1], s), log[|log| - 1], s)
  }

  function ReplayStep(before: Option<SessionState>, e: Event, s: string): Option<SessionState> {
    if e.aggregate != s then before
    else
      match e.kind
      case SessionCreated => if before.None? then Some(Created) else before
      case SessionCommitted => Some(Committed)
      case SessionCancelled => if before == Some(Committed) then before else Some(Cancelled)
      case _ => before
  }

  predicate StatesReplay(log: seq<Event>, sessions: map<string, Session>) {
    forall s :: s in sessions ==>
      sessions[s].sessionState == sessions[s].state && Replay(log, s) == Some(sessions[s].state)
  }

  function CommitKeys(log: seq<Event>, s: string): seq<string> {
    if log == [] then []
    else
      var e := log[|log| - 1];
      CommitKeys(log[..|log| - 1], s) + if e.kind == SessionCommitted && e.aggregate == s then [e.key] else []
  }

  function CandidateKeys(candidates: map<nat, Candidate>, n: nat, s: string): seq<string> {
    if n == 0 then []
    else
      CandidateKeys(candidates, n - 1, s) +
      if n - 1 in candidates && candidates[n - 1].session == s then [candidates[n - 1].key] else []
  }

  /** A session's candidates are its commit events, one for one and in order. */
  predicate CandidatesReplay(log: seq<Event>, candidates: map<nat, Candidate>, n: nat, live: set<string>) {
    forall s :: s in live ==> CandidateKeys(candidates, n, s) == CommitKeys(log, s)
  }

  predicate IsPreedit(e: Event, s: string, index: nat, from: string, to: string) {
    e.kind == PreeditCorrected && e.aggregate == s && e.key == PreeditKey(s, index) &&
    e.payload == PreeditPayload(from, to, index)
  }

  predicate HasPreedit(log: seq<Event>, s: string, index: nat, from: string, to: string) {
    exists i :: 0 <= i < |log| && IsPreedit(log[i], s, index, from, to)
  }

  predicate HasPreeditRow(edits: map<(string, nat), Edit>, e: Event) {
    exists k :: k in edits && k.0 == e.aggregate && e.key == PreeditKey(k.0, k.1) && edits[k].kind == PreeditUpdate
  }

  predicate RowsLogged(log: seq<Event>, edits: map<(string, nat), Edit>) {
    forall k :: k in edits && edits[k].kind == PreeditUpdate ==>
      HasPreedit(log, k.0, k.1, edits[k].from, edits[k].to)
  }

  predicate EventsRecorded(log: seq<Event>, edits: map<(string, nat), Edit>, live: set<string>) {
    forall i :: 0 <= i < |log| && log[i].kind == PreeditCorrected && log[i].aggregate in live ==>
      HasPreeditRow(edits, log[i])
  }

  /** `preedit_update` rows and preedit events are the same set. */
  predicate EditsReplay(log: seq<Event>, edits: map<(string, nat), Edit>, live: set<string>) {
    RowsLogged(log, edits) && EventsRecorded(log, edits, live)
  }

  /** At most one committed and one cancelled row a session, each licensed by the session's state. */
  predicate HistoryLicensed(history: map<nat, HistoryRow>, sessions: map<string, Session>) {
    && (forall i :: i in history && history[i].session in sessions ==>
          var state := sessions[history[i].session].state;
          if history[i].committed then state == Committed else state != Created)
    && OneRowPerKind(history)
  }

  predicate OneRowPerKind(history: map<nat, HistoryRow>) {
    forall i, j :: (i in history && j in history && history[i].session == history[j].session &&
                    history[i].committed == history[j].committed) ==> i == j
  }

  /** What the tables keep among themselves. */
  predicate Rows(db: Db) {
    && Integrity(db) && Naming(db.sessions, db.utterances) && Uuids(db.sessions.Keys) && Counters(db)
    && HistoryLicensed(db.history, db.sessions)
  }

  /** What the tables keep with the event log. */
  predicate Replays(db: Db) {
    && SessionsStart(db.log, db.sessions.Keys)
    && StatesReplay(db.log, db.sessions)
    && CandidatesReplay(db.log, db.candidates, db.nextCandidate, db.sessions.Keys)
    && EditsReplay(db.log, db.edits, db.sessions.Keys)
  }

  predicate Valid(db: Db) {
    Rows(db) && Replays(db) && LogOrdered(db.log, db.lastEventId)
  }

  /** A transaction that commits leaves a valid database. */
  predicate Sound(reply: Reply) {
    match reply
    case Done(db) => Valid(db)
    case Failed(_) => true
  }

  // ---------------------------------------------------------------- appending to the log

  lemma OrderedAppend(log: seq<Event>, last: nat, e: Event)
    requires LogOrdered(log, last) && !HasKey(log, e.key) && e.id == last + 1
    ensures LogOrdered(log + [e], last + 1)
  {
    assert forall i :: 0 <= i < |log| ==> log[i] in log;
  }

  lemma CreationAppend(log: seq<Event>, e: Event, s: string)
    requires HasCreation(log, s)
    ensures HasCreation(log + [e], s)
  {
    var i :| 0 <= i < |log| && log[i].kind == SessionCreated && log[i].aggregate == s && log[i].key == CreatedKey(s);
    assert (log + [e])[i] == log[i];
  }

  lemma StartAppend(log: seq<Event>, live: set<string>, e: Event)
    requires SessionsStart(log, live)
    requires OfSession(e) ==> HasCreation(log + [e], e.aggregate)
    ensures SessionsStart(log + [e], live)
  {
    forall s | HasCreation(log, s) ensures HasCreation(log + [e], s) { CreationAppend(log, e, s); }
  }

  lemma StatesAppend(log: seq<Event>, sessions: map<string, Session>, e: Event, after: map<string, Session>)
    requires StatesReplay(log, sessions)
    requires forall s :: s in after ==>
               after[s].sessionState == after[s].state &&
               ReplayStep(if s in sessions then Some(sessions[s].state) else None, e, s) == Some(after[s].state)
    requires forall s :: s in after && s !in sessions ==> Replay(log, s) == None
    ensures StatesReplay(log + [e], after)
  {
    assert (log + [e])[..|log|] == log;
  }

  function KeysOf(e: Event, s: string): seq<string> {
    if e.kind == SessionCommitted && e.aggregate == s then [e.key] else []
  }

  lemma CommitKeysAppend(log: seq<Event>, e: Event, s: string)
    ensures CommitKeys(log + [e], s) == CommitKeys(log, s) + KeysOf(e, s)
  {
    assert (log + [e])[..|log|] == log;
  }

  lemma CandidatesAppend(log: seq<Event>, candidates: map<nat, Candidate>, n: nat, live: set<string>, e: Event)
    requires CandidatesReplay(log, candidates, n, live) && e.kind != SessionCommitted
    ensures CandidatesReplay(log + [e], candidates, n, live)
  {
    forall s | s in live ensures CandidateKeys(candidates, n, s) == CommitKeys(log + [e], s) {
      CommitKeysAppend(log, e, s);
    }
  }

  /** An event that is not about a session leaves every session's reading alone. */
  lemma StoreEvent(db: Db, kind: EventKind, aggregate: string, payload: string, key: string)
    requires Replays(db)
    requires kind !in {SessionCreated, PreeditCorrected, SessionCommitted, SessionCancelled}
    ensures Replays(Logged(db, kind, aggregate, payload, key))
  {
    var e := Event(db.lastEventId + 1, kind, aggregate, payload, key);
    StartAppend(db.log, db.sessions.Keys, e);
    StatesAppend(db.log, db.sessions, e, db.sessions);
    CandidatesAppend(db.log, db.candidates, db.nextCandidate, db.sessions.Keys, e);
    EditsAppend(db.log, db.edits, db.sessions.Keys, e);
  }

  lemma EditsAppend(log: seq<Event>, edits: map<(string, nat), Edit>, live: set<string>, e: Event)
    requires EditsReplay(log, edits, live) && e.kind != PreeditCorrected
    ensures EditsReplay(log + [e], edits, live)
  {
    RowsLoggedAppend(log, edits, e);
  }

  lemma RowsLoggedAppend(log: seq<Event>, edits: map<(string, nat), Edit>, e: Event)
    requires RowsLogged(log, edits)
    ensures RowsLogged(log + [e], edits)
  {
    forall k | k in edits && edits[k].kind == PreeditUpdate
      ensures HasPreedit(log + [e], k.0, k.1, edits[k].from, edits[k].to)
    {
      var i :| 0 <= i < |log| && IsPreedit(log[i], k.0, k.1, edits[k].from, edits[k].to);
      assert (log + [e])[i] == log[i];
    }
  }

  lemma {:induction false} NoEvents(log: seq<Event>, s: string)
    requires forall e :: e in log && OfSession(e) ==> e.aggregate != s
    ensures Replay(log, s) == None && CommitKeys(log, s) == []
  {
    if log != [] {
      assert log == log[..|log| - 1] + [log[|log| - 1]];
      NoEvents(log[..|log| - 1], s);
    }
  }

  lemma {:induction false} CandidateKeysFrame(a: map<nat, Candidate>, b: map<nat, Candidate>, n: nat, s: string)
    requires forall i :: 0 <= i < n ==>
               ((i in a && a[i].session == s) <==> (i in b && b[i].session == s)) &&
               (i in a && a[i].session == s ==> a[i].key == b[i].key)
    ensures CandidateKeys(a, n, s) == CandidateKeys(b, n, s)
  {
    if n > 0 { CandidateKeysFrame(a, b, n - 1, s); }
  }

  /** Rewriting columns other than session, utterance and key. */
  lemma CandidateRewritten(db: Db, id: nat, row: Candidate)
    requires Valid(db) && id in db.candidates
    requires row.session == db.candidates[id].session && row.utterance == db.candidates[id].utterance
    requires row.key == db.candidates[id].key
    ensures Valid(db.(candidates := db.candidates[id := row]))
  {
    OneOwnerKept(db.candidates, id, row);
    CandidatesRewritten(db, db.candidates[id := row]);
  }

  lemma OneOwnerKept(candidates: map<nat, Candidate>, id: nat, row: Candidate)
    requires id in candidates && row.session == candidates[id].session && row.utterance == candidates[id].utterance
    requires row.key == candidates[id].key
    ensures SameOwners(candidates, candidates[id := row])
  {
    assert candidates[id := row].Keys == candidates.Keys;
  }

  lemma CandidatesRewritten(db: Db, after: map<nat, Candidate>)
    requires Valid(db) && SameOwners(db.candidates, after)
    ensures Valid(db.(candidates := after))
  {
    OwnersKept(db.candidates, after, db.sessions, db.items, db.manifests);
    forall s | s in db.sessions
      ensures CandidateKeys(after, db.nextCandidate, s) == CandidateKeys(db.candidates, db.nextCandidate, s)
    {
      CandidateKeysFrame(after, db.candidates, db.nextCandidate, s);
    }
  }

  predicate SameOwners(before: map<nat, Candidate>, after: map<nat, Candidate>) {
    && after.Keys == before.Keys
    && forall i :: i in after ==>
         after[i].session == before[i].session && after[i].utterance == before[i].utterance &&
         after[i].key == before[i].key
  }

  lemma OwnersKept(before: map<nat, Candidate>, after: map<nat, Candidate>, sessions: map<string, Session>,
                   items: map<nat, ManifestItem>, manifests: map<string, string>)
    requires SameOwners(before, after) && CandidatesLinked(before, sessions) && ItemsLinked(items, before, manifests)
    ensures CandidatesLinked(after, sessions) && ItemsLinked(items, after, manifests)
  {
  }

  lemma SessionRows(db: Db, s: string, row: Session)
    requires Rows(db) && s in db.sessions
    requires row.user == db.sessions[s].user && row.utterance == db.sessions[s].utterance
    requires row.state == db.sessions[s].state || row.state == Committed ||
             (row.state == Cancelled && db.sessions[s].state == Created)
    ensures Rows(db.(sessions := db.sessions[s := row]))
  {
    assert db.sessions[s := row].Keys == db.sessions.Keys;
    SessionLinks(db.sessions, db.utterances, db.candidates, s, row);
    SessionHistory(db.history, db.sessions, s, row);
  }

  lemma SessionLinks(sessions: map<string, Session>, utterances: map<string, Utterance>,
                     candidates: map<nat, Candidate>, s: string, row: Session)
    requires s in sessions && row.user == sessions[s].user && row.utterance == sessions[s].utterance
    requires SessionsLinked(sessions, utterances) && Naming(sessions, utterances)
    requires CandidatesLinked(candidates, sessions)
    ensures SessionsLinked(sessions[s := row], utterances) && Naming(sessions[s := row], utterances)
    ensures CandidatesLinked(candidates, sessions[s := row])
  {
  }

  lemma SessionHistory(history: map<nat, HistoryRow>, sessions: map<string, Session>, s: string, row: Session)
    requires HistoryLicensed(history, sessions) && s in sessions
    requires row.state == sessions[s].state || row.state == Committed ||
             (row.state == Cancelled && sessions[s].state == Created)
    ensures HistoryLicensed(history, sessions[s := row])
  {
  }

  lemma SessionReplays(db: Db, s: string, row: Session)
    requires Replays(db) && s in db.sessions
    requires row.state == db.sessions[s].state && row.sessionState == db.sessions[s].sessionState
    ensures Replays(db.(sessions := db.sessions[s := row]))
  {
    assert db.sessions[s := row].Keys == db.sessions.Keys;
  }

  lemma UtteranceRewritten(db: Db, u: string, row: Utterance)
    requires Valid(db) && u in db.utterances
    requires row.user == db.utterances[u].user && row.audioPath == db.utterances[u].audioPath
    ensures Valid(db.(utterances := db.utterances[u := row]))
  {
    UtteranceRows(db, u, row);
    assert Replays(db.(utterances := db.utterances[u := row]));
  }

  // ---------------------------------------------------------------- every command keeps the invariant

  lemma CreateRows(db: Db, s: SessionId, raw: Option<string>, now: nat)
    requires Rows(db) && CreateSession(db, s, raw, now).Done?
    ensures Rows(CreateSession(db, s, raw, now).db)
  {
    var after, u := CreateSession(db, s, raw, now).db, UtteranceKey(s);
    SessionAdded(db.sessions, db.utterances, s, after.sessions[s], after.utterances[u]);
    LinksSurvive(db.candidates, db.history, db.sessions, s, after.sessions[s]);
    OneMoreLive(db.edits, db.history, db.sessions.Keys, s);
    assert after.sessions.Keys == db.sessions.Keys + {s} && after.utterances.Keys == db.utterances.Keys + {u};
  }

  lemma OneMoreLive(edits: map<(string, nat), Edit>, history: map<nat, HistoryRow>, live: set<string>, s: SessionId)
    requires EditsLinked(edits, live) && HistoryLinked(history, live) && Uuids(live)
    ensures EditsLinked(edits, live + {s}) && HistoryLinked(history, live + {s}) && Uuids(live + {s})
  {
  }

  lemma SessionAdded(sessions: map<string, Session>, utterances: map<string, Utterance>, s: string, row: Session,
                     utterance: Utterance)
    requires SessionsLinked(sessions, utterances) && Naming(sessions, utterances) && UtteranceKey(s) !in utterances
    requires row.user == DEFAULT_USER && row.utterance == UtteranceKey(s)
    requires utterance.user == DEFAULT_USER && utterance.audioPath == AudioPath(UtteranceKey(s))
    ensures SessionsLinked(sessions[s := row], utterances[UtteranceKey(s) := utterance])
    ensures Naming(sessions[s := row], utterances[UtteranceKey(s) := utterance])
  {
  }

  lemma LinksSurvive(candidates: map<nat, Candidate>, history: map<nat, HistoryRow>, sessions: map<string, Session>,
                     s: string, row: Session)
    requires CandidatesLinked(candidates, sessions) && HistoryLinked(history, sessions.Keys) && s !in sessions
    requires HistoryLicensed(history, sessions)
    ensures CandidatesLinked(candidates, sessions[s := row]) && HistoryLicensed(history, sessions[s := row])
  {
  }

  lemma CreateReplays(db: Db, s: SessionId, raw: Option<string>, now: nat)
    requires Replays(db) && CandidatesLinked(db.candidates, db.sessions) && CreateSession(db, s, raw, now).Done?
    ensures Replays(CreateSession(db, s, raw, now).db)
  {
    var after := CreateSession(db, s, raw, now).db;
    var e := after.log[|db.log|];
    assert after.log == db.log + [e] && after.sessions.Keys == db.sessions.Keys + {s};
    assert HasCreation(after.log, s) by { assert after.log[|db.log|] == e; }
    StartAppend(db.log, db.sessions.Keys, e);
    Unmentioned(db.log, db.sessions.Keys, s);
    CreateStates(db.log, db.sessions, e, s, after.sessions[s]);
    NoCandidates(db, s);
    CreateCandidates(db.log, db.candidates, db.nextCandidate, db.sessions.Keys, e, s);
    EditsAppend(db.log, db.edits, db.sessions.Keys, e);
    Unedited(db.log, db.edits, db.sessions.Keys, e, s);
  }

  /** A session without a creation event has no event at all. */
  lemma Unmentioned(log: seq<Event>, live: set<string>, s: string)
    requires SessionsStart(log, live) && !HasKey(log, CreatedKey(s))
    ensures forall e :: e in log && OfSession(e) ==> e.aggregate != s
  {
    forall a | HasCreation(log, a) ensures HasKey(log, CreatedKey(a)) {
      var i :| 0 <= i < |log| && log[i].key == CreatedKey(a);
      assert log[i] in log;
    }
  }

  lemma CreateStates(log: seq<Event>, sessions: map<string, Session>, e: Event, s: string, row: Session)
    requires StatesReplay(log, sessions) && s !in sessions && e.kind == SessionCreated && e.aggregate == s
    requires forall f :: f in log && OfSession(f) ==> f.aggregate != s
    requires row.state == Created && row.sessionState == Created
    ensures StatesReplay(log + [e], sessions[s := row])
  {
    NoEvents(log, s);
    StatesAppend(log, sessions, e, sessions[s := row]);
  }

  lemma CreateCandidates(log: seq<Event>, candidates: map<nat, Candidate>, n: nat, live: set<string>, e: Event,
                         s: string)
    requires CandidatesReplay(log, candidates, n, live) && e.kind == SessionCreated
    requires forall f :: f in log && OfSession(f) ==> f.aggregate != s
    requires CandidateKeys(candidates, n, s) == []
    ensures CandidatesReplay(log + [e], candidates, n, live + {s})
  {
    NoEvents(log, s);
    CandidatesAppend(log, candidates, n, live, e);
    CommitKeysAppend(log, e, s);
  }

  lemma Unedited(log: seq<Event>, edits: map<(string, nat), Edit>, live: set<string>, e: Event, s: string)
    requires EditsReplay(log + [e], edits, live) && e.kind == SessionCreated
    requires forall f :: f in log && OfSession(f) ==> f.aggregate != s
    ensures EditsReplay(log + [e], edits, live + {s})
  {
    forall i | 0 <= i < |log + [e]| && (log + [e])[i].kind == PreeditCorrected && (log + [e])[i].aggregate in live + {s}
      ensures HasPreeditRow(edits, (log + [e])[i])
    {
      assert log[i] in log;
    }
  }

  lemma PreeditRows(db: Db, s: string, from: string, to: string, index: nat)
    requires Rows(db) && s in db.sessions
    ensures Rows(Preedited(db, s, from, to, index))
  {
    SessionRows(db, s, db.sessions[s].(finalPreedit := Some(to)));
  }

  lemma PreeditReplays(db: Db, s: string, from: string, to: string, index: nat)
    requires Replays(db) && s in db.sessions && (s, index) !in db.edits
    ensures Replays(Preedited(db, s, from, to, index))
  {
    var after := Preedited(db, s, from, to, index);
    var e := after.log[|db.log|];
    assert after.sessions.Keys == db.sessions.Keys;
    PreeditStates(db, s, from, to, index);
    CandidatesAppend(db.log, db.candidates, db.nextCandidate, db.sessions.Keys, e);
    EditsGrow(db.log, db.edits, db.sessions.Keys, e, (s, index), after.edits[(s, index)]);
    Replayed(db, after);
  }

  lemma PreeditStates(db: Db, s: string, from: string, to: string, index: nat)
    requires StatesReplay(db.log, db.sessions) && s in db.sessions
    ensures StatesReplay(Preedited(db, s, from, to, index).log, Preedited(db, s, from, to, index).sessions)
  {
    var after := Preedited(db, s, from, to, index);
    StatesAppend(db.log, db.sessions, after.log[|db.log|], after.sessions);
  }

  lemma EditsGrow(log: seq<Event>, edits: map<(string, nat), Edit>, live: set<string>, e: Event,
                  k: (string, nat), row: Edit)
    requires EditsReplay(log, edits, live) && k !in edits && row.kind == PreeditUpdate
    requires IsPreedit(e, k.0, k.1, row.from, row.to)
    ensures EditsReplay(log + [e], edits[k := row], live)
  {
    RowsLoggedAppend(log, edits, e);
    assert (log + [e])[|log|] == e;
    assert HasPreedit(log + [e], k.0, k.1, row.from, row.to);
    RecordedGrow(log, edits, live, e, k, row);
  }

  lemma RecordedGrow(log: seq<Event>, edits: map<(string, nat), Edit>, live: set<string>, e: Event,
                     k: (string, nat), row: Edit)
    requires EventsRecorded(log, edits, live) && k !in edits && row.kind == PreeditUpdate
    requires e.aggregate == k.0 && e.key == PreeditKey(k.0, k.1)
    ensures EventsRecorded(log + [e], edits[k := row], live)
  {
    var after := edits[k := row];
    forall i | 0 <= i < |log| && log[i].kind == PreeditCorrected && log[i].aggregate in live
      ensures HasPreeditRow(after, log[i])
    {
      var j :| j in edits && j.0 == log[i].aggregate && log[i].key == PreeditKey(j.0, j.1) &&
               edits[j].kind == PreeditUpdate;
      assert j in after && after[j].kind == PreeditUpdate;
    }
    assert k in after;
  }

  lemma NoCandidates(db: Db, s: string)
    requires CandidatesLinked(db.candidates, db.sessions) && s !in db.sessions
    ensures CandidateKeys(db.candidates, db.nextCandidate, s) == []
  {
    CandidateKeysFrame(db.candidates, map[], db.nextCandidate, s);
    NoKeys(db.nextCandidate, s);
  }

  lemma {:induction false} NoKeys(n: nat, s: string)
    ensures CandidateKeys(map[], n, s) == []
  {
    if n > 0 { NoKeys(n - 1, s); }
  }

  lemma CommitRows(db: Db, s: string, text: string, key: string, now: nat)
    requires Rows(db) && s in db.sessions && db.sessions[s].raw.Some?
    ensures Rows(CommittedAs(db, s, text, key, now))
  {
    var after := CommittedAs(db, s, text, key, now);
    SessionRows(db, s, after.sessions[s]);
    var moved := db.(sessions := after.sessions);
    UtteranceRows(moved, db.sessions[s].utterance, after.utterances[db.sessions[s].utterance]);
    var filled := moved.(utterances := after.utterances);
    assert after.utterances == db.utterances[db.sessions[s].utterance := after.utterances[db.sessions[s].utterance]];
    HistoryGrows(filled, s, after);
  }

  lemma UtteranceRows(db: Db, u: string, row: Utterance)
    requires Rows(db) && u in db.utterances
    requires row.user == db.utterances[u].user && row.audioPath == db.utterances[u].audioPath
    ensures Rows(db.(utterances := db.utterances[u := row]))
  {
    UtteranceLinks(db.sessions, db.utterances, u, row);
    assert db.utterances[u := row].Keys == db.utterances.Keys;
  }

  lemma UtteranceLinks(sessions: map<string, Session>, utterances: map<string, Utterance>, u: string, row: Utterance)
    requires SessionsLinked(sessions, utterances) && Naming(sessions, utterances) && u in utterances
    requires row.user == utterances[u].user && row.audioPath == utterances[u].audioPath
    ensures SessionsLinked(sessions, utterances[u := row]) && Naming(sessions, utterances[u := row])
  {
  }

  /** Adding a candidate and, on the first commit, a committed history row. */
  lemma HistoryGrows(db: Db, s: string, after: Db)
    requires Rows(db) && s in db.sessions && db.sessions[s].state == Committed
    requires after.utterances == db.utterances && after.audioFiles == db.audioFiles && after.sessions == db.sessions
    requires after.edits == db.edits && after.items == db.items && after.manifests == db.manifests
    requires after.nextItem == db.nextItem && after.nextCandidate == db.nextCandidate + 1
    requires db.nextCandidate in after.candidates
    requires after.candidates == db.candidates[db.nextCandidate := after.candidates[db.nextCandidate]]
    requires after.candidates[db.nextCandidate].session == s
    requires after.candidates[db.nextCandidate].utterance == db.sessions[s].utterance
    requires (after.history == db.history && after.nextHistory == db.nextHistory) ||
             (after.nextHistory == db.nextHistory + 1 &&
              (forall i :: i in db.history && db.history[i].session == s ==> !db.history[i].committed) &&
              exists t, now :: after.history == db.history[db.nextHistory := HistoryRow(s, t, true, now)])
    ensures Rows(after)
  {
    if after.history != db.history {
      HistoryGains(db.history, db.sessions, db.nextHistory, after.history[db.nextHistory]);
    }
  }

  lemma HistoryGains(history: map<nat, HistoryRow>, sessions: map<string, Session>, id: nat, row: HistoryRow)
    requires HistoryLicensed(history, sessions) && id !in history
    requires row.session in sessions
    requires var state := sessions[row.session].state; if row.committed then state == Committed else state != Created
    requires forall i :: i in history && history[i].session == row.session ==> history[i].committed != row.committed
    ensures HistoryLicensed(history[id := row], sessions)
  {
  }

  /** An event about a live session, once the three readings that may change are settled. */
  lemma Replayed(db: Db, after: Db)
    requires SessionsStart(db.log, db.sessions.Keys) && after.sessions.Keys == db.sessions.Keys
    requires |after.log| == |db.log| + 1 && after.log[..|db.log|] == db.log
    requires after.log[|db.log|].aggregate in db.sessions
    requires StatesReplay(after.log, after.sessions) && EditsReplay(after.log, after.edits, after.sessions.Keys)
    requires CandidatesReplay(after.log, after.candidates, after.nextCandidate, after.sessions.Keys)
    ensures Replays(after)
  {
    var e := after.log[|db.log|];
    assert after.log == db.log + [e];
    CreationAppend(db.log, e, e.aggregate);
    StartAppend(db.log, db.sessions.Keys, e);
  }

  lemma CommitReplays(db: Db, s: string, text: string, key: string, now: nat)
    requires Replays(db) && s in db.sessions && db.sessions[s].raw.Some?
    ensures Replays(CommittedAs(db, s, text, key, now))
  {
    var after := CommittedAs(db, s, text, key, now);
    assert after.sessions.Keys == db.sessions.Keys;
    CommitStates(db, s, text, key, now);
    CommitCandidates(db, s, text, key, now);
    EditsAppend(db.log, db.edits, db.sessions.Keys, after.log[|db.log|]);
    Replayed(db, after);
  }

  lemma CommitCandidates(db: Db, s: string, text: string, key: string, now: nat)
    requires CandidatesReplay(db.log, db.candidates, db.nextCandidate, db.sessions.Keys)
    requires s in db.sessions && db.sessions[s].raw.Some?
    ensures var after := CommittedAs(db, s, text, key, now);
            CandidatesReplay(after.log, after.candidates, after.nextCandidate, db.sessions.Keys)
  {
    var after := CommittedAs(db, s, text, key, now);
    var row := after.candidates[db.nextCandidate];
    CandidatesGrow(db.log, db.candidates, db.nextCandidate, db.sessions.Keys, after.log[|db.log|], row);
  }

  lemma CommitStates(db: Db, s: string, text: string, key: string, now: nat)
    requires StatesReplay(db.log, db.sessions) && s in db.sessions && db.sessions[s].raw.Some?
    ensures StatesReplay(CommittedAs(db, s, text, key, now).log, CommittedAs(db, s, text, key, now).sessions)
  {
    var after := CommittedAs(db, s, text, key, now);
    StatesAppend(db.log, db.sessions, after.log[|db.log|], after.sessions);
  }

  lemma CandidatesGrow(log: seq<Event>, candidates: map<nat, Candidate>, n: nat, live: set<string>,
                       e: Event, row: Candidate)
    requires CandidatesReplay(log, candidates, n, live) && e.kind == SessionCommitted
    requires row.session == e.aggregate && row.key == e.key
    ensures CandidatesReplay(log + [e], candidates[n := row], n + 1, live)
  {
    forall s | s in live ensures CandidateKeys(candidates[n := row], n + 1, s) == CommitKeys(log + [e], s) {
      CommitKeysAppend(log, e, s);
      CandidateKeysFrame(candidates[n := row], candidates, n, s);
    }
  }

  lemma CancelRows(db: Db, s: string, key: string, now: nat)
    requires Rows(db) && s in db.sessions
    ensures Rows(CancelledAt(db, s, key, now))
  {
    var after := CancelledAt(db, s, key, now);
    if db.sessions[s].state != Committed {
      SessionRows(db, s, after.sessions[s]);
      if db.sessions[s].state == Created {
        HistoryAdded(db.(sessions := after.sessions), after.history[db.nextHistory]);
      }
    }
  }

  lemma HistoryAdded(db: Db, row: HistoryRow)
    requires Rows(db) && row.session in db.sessions
    requires var state := db.sessions[row.session].state; if row.committed then state == Committed else state != Created
    requires forall i :: i in db.history && db.history[i].session == row.session ==>
                           db.history[i].committed != row.committed
    ensures Rows(db.(history := db.history[db.nextHistory := row], nextHistory := db.nextHistory + 1))
  {
    HistoryGains(db.history, db.sessions, db.nextHistory, row);
  }

  lemma CancelReplays(db: Db, s: string, key: string, now: nat)
    requires Replays(db) && s in db.sessions
    ensures Replays(CancelledAt(db, s, key, now))
  {
    var after := CancelledAt(db, s, key, now);
    var e := after.log[|db.log|];
    assert after.sessions.Keys == db.sessions.Keys;
    CancelStates(db, s, key, now);
    CandidatesAppend(db.log, db.candidates, db.nextCandidate, db.sessions.Keys, e);
    EditsAppend(db.log, db.edits, db.sessions.Keys, e);
    Replayed(db, after);
  }

  lemma CancelStates(db: Db, s: string, key: string, now: nat)
    requires StatesReplay(db.log, db.sessions) && s in db.sessions
    ensures StatesReplay(CancelledAt(db, s, key, now).log, CancelledAt(db, s, key, now).sessions)
  {
    var after := CancelledAt(db, s, key, now);
    StatesAppend(db.log, db.sessions, after.log[|db.log|], after.sessions);
  }

  lemma AmendRows(db: Db, s: string, committed: string, corrected: string)
    requires Rows(db) && s in db.sessions
    ensures Rows(Amended(db, s, committed, corrected))
  {
    var row := Amended(db, s, committed, corrected).sessions[s];
    SessionRows(db, s, row);
    AmendLinks(db.candidates, db.sessions[s := row], s, corrected);
    AmendHistory(db.history, db.sessions[s := row], s, corrected);
    AmendRest(db, s, corrected);
    var edited := db.edits[(s, NextEditIndex(db.edits, s)) := Edit(PostCommitCorrection, committed, corrected)];
    assert EditsLinked(edited, db.sessions[s := row].Keys);
  }

  lemma AmendRest(db: Db, s: string, text: string)
    requires HistoryLinked(db.history, db.sessions.Keys) && ItemsLinked(db.items, db.candidates, db.manifests)
    requires Counters(db)
    ensures HistoryLinked(AmendedHistory(db.history, s, text), db.sessions.Keys)
    ensures ItemsLinked(db.items, AmendedCandidates(db.candidates, s, text), db.manifests)
    ensures Counters(db.(candidates := AmendedCandidates(db.candidates, s, text),
                         history := AmendedHistory(db.history, s, text)))
  {
  }

  lemma AmendLinks(candidates: map<nat, Candidate>, sessions: map<string, Session>, s: string, text: string)
    requires CandidatesLinked(candidates, sessions)
    ensures CandidatesLinked(AmendedCandidates(candidates, s, text), sessions)
  {
  }

  lemma AmendHistory(history: map<nat, HistoryRow>, sessions: map<string, Session>, s: string, text: string)
    requires HistoryLicensed(history, sessions)
    ensures HistoryLicensed(AmendedHistory(history, s, text), sessions)
  {
  }

  lemma AmendKeys(log: seq<Event>, candidates: map<nat, Candidate>, n: nat, live: set<string>, s: string, text: string)
    requires CandidatesReplay(log, candidates, n, live)
    ensures CandidatesReplay(log, AmendedCandidates(candidates, s, text), n, live)
  {
    forall t | t in live ensures CandidateKeys(AmendedCandidates(candidates, s, text), n, t) == CommitKeys(log, t) {
      CandidateKeysFrame(AmendedCandidates(candidates, s, text), candidates, n, t);
    }
  }

  lemma AmendReplays(db: Db, s: string, committed: string, corrected: string)
    requires Replays(db) && s in db.sessions
    ensures Replays(Amended(db, s, committed, corrected))
  {
    var after := Amended(db, s, committed, corrected);
    SessionReplays(db, s, after.sessions[s]);
    AmendKeys(db.log, db.candidates, db.nextCandidate, db.sessions.Keys, s, corrected);
    var k := (s, NextEditIndex(db.edits, s));
    RowsIgnoreCorrections(db.log, db.edits, db.sessions.Keys, k, after.edits[k]);
  }

  lemma RowsIgnoreCorrections(log: seq<Event>, edits: map<(string, nat), Edit>, live: set<string>,
                              k: (string, nat), row: Edit)
    requires EditsReplay(log, edits, live) && k !in edits && row.kind == PostCommitCorrection
    ensures EditsReplay(log, edits[k := row], live)
  {
    var after := edits[k := row];
    forall i | 0 <= i < |log| && log[i].kind == PreeditCorrected && log[i].aggregate in live
      ensures HasPreeditRow(after, log[i])
    {
      var j :| j in edits && j.0 == log[i].aggregate && log[i].key == PreeditKey(j.0, j.1) &&
               edits[j].kind == PreeditUpdate;
      assert j in after && after[j].kind == PreeditUpdate;
    }
  }

  lemma ItemLinked(items: map<nat, ManifestItem>, candidates: map<nat, Candidate>, manifests: map<string, string>,
                   grown: map<string, string>, id: nat, row: ManifestItem)
    requires ItemsLinked(items, candidates, manifests) && manifests.Keys <= grown.Keys
    requires row.candidate in candidates && row.manifest in grown
    ensures ItemsLinked(items[id := row], candidates, grown)
  {
  }

  lemma ManifestItemKeeps(db: Db, manifest: string, user: string, id: nat)
    requires Valid(db)
    ensures Sound(InsertManifestItem(db, manifest, user, id))
  {
    if id in db.candidates { ItemRows(db, manifest, user, id); }
  }

  lemma ItemRows(db: Db, manifest: string, user: string, id: nat)
    requires Rows(db) && id in db.candidates
    ensures Rows(InsertManifestItem(db, manifest, user, id).db)
  {
    var after := InsertManifestItem(db, manifest, user, id).db;
    ItemLinked(db.items, db.candidates, db.manifests, after.manifests, db.nextItem, after.items[db.nextItem]);
  }

  // ---------------------------------------------------------------- deletion

  lemma UtteranceKeyInjective(s: string, t: string)
    requires UtteranceKey(s) == UtteranceKey(t)
    ensures s == t
  {
    assert UtteranceKey(s)[|"utterance:"|..] == s && UtteranceKey(t)[|"utterance:"|..] == t;
  }

  lemma HistoryShrinks(history: map<nat, HistoryRow>, sessions: map<string, Session>,
                       after: map<nat, HistoryRow>, left: map<string, Session>)
    requires HistoryLicensed(history, sessions)
    requires after.Keys <= history.Keys && left.Keys <= sessions.Keys
    requires (forall i :: i in after ==> after[i] == history[i]) && (forall s :: s in left ==> left[s] == sessions[s])
    ensures HistoryLicensed(after, left)
  {
  }

  lemma DropRows(db: Db, dead: set<string>)
    requires Rows(db)
    ensures Rows(DropSessions(db, dead))
  {
    var after := DropSessions(db, dead);
    HistoryShrinks(db.history, db.sessions, after.history, after.sessions);
    DropLinks(db, dead);
    DropCandidates(db, dead);
    DropRest(db, dead);
  }

  lemma DropCandidates(db: Db, dead: set<string>)
    requires CandidatesLinked(db.candidates, db.sessions) && ItemsLinked(db.items, db.candidates, db.manifests)
    ensures var after := DropSessions(db, dead);
            && CandidatesLinked(after.candidates, after.sessions)
            && ItemsLinked(after.items, after.candidates, after.manifests)
  {
  }

  lemma DropRest(db: Db, dead: set<string>)
    requires EditsLinked(db.edits, db.sessions.Keys) && HistoryLinked(db.history, db.sessions.Keys)
    requires Naming(db.sessions, db.utterances) && Uuids(db.sessions.Keys) && Counters(db)
    requires db.audioFiles <= db.utterances.Keys
    ensures var after := DropSessions(db, dead);
            && EditsLinked(after.edits, after.sessions.Keys) && HistoryLinked(after.history, after.sessions.Keys)
            && Naming(after.sessions, after.utterances) && Uuids(after.sessions.Keys) && Counters(after)
            && after.audioFiles <= after.utterances.Keys
  {
  }

  /** A surviving session keeps its utterance: no two sessions share one. */
  lemma DropLinks(db: Db, dead: set<string>)
    requires SessionsLinked(db.sessions, db.utterances) && Naming(db.sessions, db.utterances)
    ensures SessionsLinked(DropSessions(db, dead).sessions, DropSessions(db, dead).utterances)
  {
    var after := DropSessions(db, dead);
    forall s | s in after.sessions ensures after.sessions[s].utterance in after.utterances {
      forall t | t in db.sessions && db.sessions[t].utterance == db.sessions[s].utterance ensures t == s {
        UtteranceKeyInjective(s, t);
      }
    }
  }

  lemma DropReplays(db: Db, dead: set<string>)
    requires Replays(db) && CandidatesLinked(db.candidates, db.sessions)
    ensures Replays(DropSessions(db, dead))
  {
    var after := DropSessions(db, dead);
    forall s | s in after.sessions
      ensures CandidateKeys(after.candidates, db.nextCandidate, s) == CandidateKeys(db.candidates, db.nextCandidate, s)
    {
      CandidateKeysFrame(after.candidates, db.candidates, db.nextCandidate, s);
    }
    RecordedSurvive(db.log, db.edits, after.edits, db.sessions.Keys, after.sessions.Keys);
  }

  lemma RecordedSurvive(log: seq<Event>, edits: map<(string, nat), Edit>, after: map<(string, nat), Edit>,
                        live: set<string>, left: set<string>)
    requires EventsRecorded(log, edits, live) && left <= live
    requires forall k :: k in edits && k.0 in left ==> k in after && after[k] == edits[k]
    ensures EventsRecorded(log, after, left)
  {
    forall i | 0 <= i < |log| && log[i].kind == PreeditCorrected && log[i].aggregate in left
      ensures HasPreeditRow(after, log[i])
    {
      var k :| k in edits && k.0 == log[i].aggregate && log[i].key == PreeditKey(k.0, k.1) &&
               edits[k].kind == PreeditUpdate;
      assert k in after && after[k].kind == PreeditUpdate;
    }
  }

  lemma {:induction false} ReplayKept(log: seq<Event>, dead: set<string>, s: string)
    requires s !in dead
    ensures Replay(WithoutSessions(log, dead), s) == Replay(log, s)
    ensures CommitKeys(WithoutSessions(log, dead), s) == CommitKeys(log, s)
  {
    if log != [] {
      var init, e := log[..|log| - 1], log[|log| - 1];
      ReplayKept(init, dead, s);
      var kept := WithoutSessions(init, dead);
      assert (kept + [e])[..|kept|] == kept;
    }
  }

  lemma {:induction false} OrderKept(log: seq<Event>, dead: set<string>)
    requires Increasing(log)
    ensures Increasing(WithoutSessions(log, dead))
  {
    if log != [] {
      var init, e := log[..|log| - 1], log[|log| - 1];
      OrderKept(init, dead);
      var kept := WithoutSessions(init, dead);
      forall f | f in kept ensures f.id < e.id && f.key != e.key {
        assert f in init;
        var j :| 0 <= j < |init| && init[j] == f;
        assert log[j] == f && log[j].id < log[|log| - 1].id && log[j].key != log[|log| - 1].key;
      }
    }
  }

  /** A deletion empties part of the log and then appends: the newest id is the counter again. */
  lemma DeletionOrdered(log: seq<Event>, last: nat, dead: set<string>, e: Event)
    requires LogOrdered(log, last) && e.id == last + 1 && !HasKey(WithoutSessions(log, dead), e.key)
    ensures LogOrdered(WithoutSessions(log, dead) + [e], last + 1)
  {
    OrderKept(log, dead);
    var kept := WithoutSessions(log, dead);
    forall i | 0 <= i < |kept| ensures kept[i].id < e.id && kept[i].key != e.key {
      assert kept[i] in kept;
      var j :| 0 <= j < |log| && log[j] == kept[i];
      assert j == |log| - 1 || log[j].id < log[|log| - 1].id;
    }
  }

  lemma KeptIndex(log: seq<Event>, dead: set<string>, i: nat) returns (j: nat)
    requires i < |log| && !(OfSession(log[i]) && log[i].aggregate in dead)
    ensures j < |WithoutSessions(log, dead)| && WithoutSessions(log, dead)[j] == log[i]
  {
    assert log[i] in log;
    assert log[i] in WithoutSessions(log, dead);
    j :| j < |WithoutSessions(log, dead)| && WithoutSessions(log, dead)[j] == log[i];
  }

  lemma StartKept(log: seq<Event>, live: set<string>, dead: set<string>)
    requires SessionsStart(log, live)
    ensures SessionsStart(WithoutSessions(log, dead), live - dead)
  {
    var kept := WithoutSessions(log, dead);
    forall s | HasCreation(log, s) && s !in dead ensures HasCreation(kept, s) {
      var i :| 0 <= i < |log| && log[i].kind == SessionCreated && log[i].aggregate == s && log[i].key == CreatedKey(s);
      var j := KeptIndex(log, dead, i);
    }
  }

  lemma RowsKept(log: seq<Event>, edits: map<(string, nat), Edit>, dead: set<string>)
    requires RowsLogged(log, edits)
    ensures RowsLogged(WithoutSessions(log, dead), map k | k in edits && k.0 !in dead :: edits[k])
  {
    var after := map k | k in edits && k.0 !in dead :: edits[k];
    forall k | k in after && after[k].kind == PreeditUpdate
      ensures HasPreedit(WithoutSessions(log, dead), k.0, k.1, after[k].from, after[k].to)
    {
      assert HasPreedit(log, k.0, k.1, edits[k].from, edits[k].to);
      var i :| 0 <= i < |log| && IsPreedit(log[i], k.0, k.1, edits[k].from, edits[k].to);
      var j := KeptIndex(log, dead, i);
    }
  }

  lemma RecordedKept(log: seq<Event>, edits: map<(string, nat), Edit>, live: set<string>, dead: set<string>)
    requires EventsRecorded(log, edits, live)
    ensures EventsRecorded(WithoutSessions(log, dead), map k | k in edits && k.0 !in dead :: edits[k], live - dead)
  {
    var kept, after := WithoutSessions(log, dead), map k | k in edits && k.0 !in dead :: edits[k];
    RecordedSurvive(log, edits, after, live, live - dead);
    forall j | 0 <= j < |kept| && kept[j].kind == PreeditCorrected && kept[j].aggregate in live - dead
      ensures HasPreeditRow(after, kept[j])
    {
      assert kept[j] in kept;
      var i :| 0 <= i < |log| && log[i] == kept[j];
    }
  }

  lemma PurgeRows(db: Db, user: string)
    requires Rows(db)
    requires forall i :: i in Purged(db, user).items ==> db.items[i].candidate !in CandidatesOf(db, user)
    ensures Rows(Purged(db, user))
  {
  }

  lemma PurgeReplays(db: Db, user: string)
    requires Rows(db) && Replays(db)
    ensures Replays(Purged(db, user))
  {
    var after, dead := Purged(db, user), SessionsOf(db, user);
    assert after.sessions.Keys == db.sessions.Keys - dead;
    StartKept(db.log, db.sessions.Keys, dead);
    RowsKept(db.log, db.edits, dead);
    RecordedKept(db.log, db.edits, db.sessions.Keys, dead);
    forall s | s in after.sessions
      ensures Replay(after.log, s) == Replay(db.log, s)
      ensures CandidateKeys(after.candidates, db.nextCandidate, s) == CommitKeys(after.log, s)
    {
      ReplayKept(db.log, dead, s);
      CandidateKeysFrame(after.candidates, db.candidates, db.nextCandidate, s);
    }
  }

  lemma DeleteUserKeeps(db: Db, user: string)
    requires Valid(db)
    ensures Sound(DeleteUser(db, user))
  {
    if DeleteUser(db, user).Done? {
      var key := UserDeletedKey(user, DeletionCount(db.log, user) + 1);
      var purged := Purged(db, user);
      PurgeRows(db, user);
      PurgeReplays(db, user);
      var after := Logged(purged, UserDataDeleted, user, user, key);
      assert DeleteUser(db, user).db == after;
      StoreEvent(purged, UserDataDeleted, user, user, key);
      DeletionOrdered(db.log, db.lastEventId, SessionsOf(db, user), after.log[|purged.log|]);
    }
  }

  // ---------------------------------------------------------------- every run

  lemma PruneHistoryKeeps(db: Db, cutoff: nat)
    requires Valid(db)
    ensures Sound(PruneHistory(db, cutoff))
  {
    if PruneHistory(db, cutoff).Done? {
      var after := PruneHistory(db, cutoff).db;
      if after.log != db.log {
        var e := after.log[|db.log|];
        StoreEvent(db, e.kind, e.aggregate, e.payload, e.key);
        OrderedAppend(db.log, db.lastEventId, e);
      }
    }
  }

  lemma DeleteHistoryKeeps(db: Db, id: nat)
    requires Valid(db)
    ensures Sound(DeleteHistory(db, id))
  {
    if DeleteHistory(db, id).Done? {
      var e := DeleteHistory(db, id).db.log[|db.log|];
      StoreEvent(db, e.kind, e.aggregate, e.payload, e.key);
      OrderedAppend(db.log, db.lastEventId, e);
    }
  }

  lemma TrayKeeps(db: Db, name: string, value: string)
    requires Valid(db)
    ensures Sound(SetTraySetting(db, name, value))
  {
    if SetTraySetting(db, name, value).Done? {
      var e := SetTraySetting(db, name, value).db.log[|db.log|];
      StoreEvent(db, e.kind, e.aggregate, e.payload, e.key);
      OrderedAppend(db.log, db.lastEventId, e);
    }
  }

  lemma StatusKeeps(db: Db, id: nat, status: Status)
    requires Valid(db)
    ensures Valid(WithStatus(db, id, status))
  {
    if id in db.candidates { CandidateRewritten(db, id, db.candidates[id].(status := status)); }
  }

  lemma MarkSyncedKeeps(db: Db, id: nat)
    requires Valid(db)
    ensures Sound(MarkSynced(db, id))
  {
    StatusKeeps(db, id, Synced);
  }

  lemma RejectKeeps(db: Db, id: nat)
    requires Valid(db)
    ensures Sound(RejectCandidate(db, id))
  {
    StatusKeeps(db, id, Rejected);
  }

  lemma RetranscribeKeeps(db: Db, id: nat, text: string)
    requires Valid(db)
    ensures Sound(Retranscribe(db, id, text))
  {
    if Retranscribe(db, id, text).Done? {
      var after := Retranscribe(db, id, text).db;
      var u, row := db.candidates[id].utterance, after.candidates[id];
      CandidateRewritten(db, id, row);
      UtteranceRewritten(db.(candidates := db.candidates[id := row]), u, after.utterances[u]);
    }
  }

  lemma CreateKeeps(db: Db, s: SessionId, raw: Option<string>, now: nat)
    requires Valid(db)
    ensures Sound(CreateSession(db, s, raw, now))
  {
    if CreateSession(db, s, raw, now).Done? {
      CreateRows(db, s, raw, now);
      CreateReplays(db, s, raw, now);
      OrderedAppend(db.log, db.lastEventId, CreateSession(db, s, raw, now).db.log[|db.log|]);
    }
  }

  lemma PreeditKeeps(db: Db, s: string, from: string, to: string, index: nat)
    requires Valid(db)
    ensures Sound(RecordPreedit(db, s, from, to, index))
  {
    if RecordPreedit(db, s, from, to, index).Done? {
      if !HasKey(db.log, PreeditKey(s, index)) {
        PreeditRows(db, s, from, to, index);
        PreeditReplays(db, s, from, to, index);
        OrderedAppend(db.log, db.lastEventId, Preedited(db, s, from, to, index).log[|db.log|]);
      }
    }
  }

  lemma CommitKeeps(db: Db, s: string, text: string, key: string, now: nat)
    requires Valid(db)
    ensures Sound(CommitSession(db, s, text, key, now))
  {
    if CommitSession(db, s, text, key, now).Done? {
      if !HasKey(db.log, key) {
        CommitRows(db, s, text, key, now);
        CommitReplays(db, s, text, key, now);
        OrderedAppend(db.log, db.lastEventId, CommittedAs(db, s, text, key, now).log[|db.log|]);
      }
    }
  }

  lemma CancelKeeps(db: Db, s: string, key: string, now: nat)
    requires Valid(db)
    ensures Sound(CancelSession(db, s, key, now))
  {
    if CancelSession(db, s, key, now).Done? {
      if !HasKey(db.log, key) {
        CancelRows(db, s, key, now);
        CancelReplays(db, s, key, now);
        OrderedAppend(db.log, db.lastEventId, CancelledAt(db, s, key, now).log[|db.log|]);
      }
    }
  }

  lemma AmendKeeps(db: Db, s: string, committed: string, corrected: string)
    requires Valid(db)
    ensures Sound(AmendCorrection(db, s, committed, corrected))
  {
    if corrected != committed && s in db.sessions {
      AmendRows(db, s, committed, corrected);
      AmendReplays(db, s, committed, corrected);
    }
  }

  lemma PruneTrainingKeeps(db: Db, cutoff: nat)
    requires Valid(db)
    ensures Valid(PruneTraining(db, cutoff))
  {
    DropRows(db, Expired(db, cutoff));
    DropReplays(db, Expired(db, cutoff));
  }

  lemma DigestKeeps(db: Db, u: string, digest: string)
    requires Valid(db)
    ensures Sound(SetDigest(db, u, digest))
  {
    if SetDigest(db, u, digest).Done? {
      UtteranceRewritten(db, u, db.utterances[u].(digest := Some(digest)));
    }
  }

  lemma CaptureCommandKeeps(db: Db, cmd: Cmd, reply: Reply)
    requires Valid(db) && reply == Exec(db, cmd)
    requires cmd.DoCreate? || cmd.DoPreedit?
    ensures Sound(reply)
  {
    match cmd
    case DoCreate(s, raw, now) => CreateKeeps(db, s, raw, now);
    case DoPreedit(s, from, to, index) => PreeditKeeps(db, s, from, to, index);
  }

  lemma EndingCommandKeeps(db: Db, cmd: Cmd, reply: Reply)
    requires Valid(db) && reply == Exec(db, cmd)
    requires cmd.DoCommit? || cmd.DoCancel?
    ensures Sound(reply)
  {
    match cmd
    case DoCommit(s, text, key, now) => CommitKeeps(db, s, text, key, now);
    case DoCancel(s, key, now) => CancelKeeps(db, s, key, now);
  }

  lemma TextCommandKeeps(db: Db, cmd: Cmd, reply: Reply)
    requires Valid(db) && reply == Exec(db, cmd)
    requires cmd.DoAmend? || cmd.DoRetranscribe?
    ensures Sound(reply)
  {
    match cmd
    case DoAmend(s, committed, corrected) => AmendKeeps(db, s, committed, corrected);
    case DoRetranscribe(id, text) => RetranscribeKeeps(db, id, text);
  }

  lemma RowCommandKeeps(db: Db, cmd: Cmd, reply: Reply)
    requires Valid(db) && reply == Exec(db, cmd)
    requires cmd.DoDigest? || cmd.DoManifestItem?
    ensures Sound(reply)
  {
    match cmd
    case DoDigest(u, digest) => DigestKeeps(db, u, digest);
    case DoManifestItem(manifest, user, id) => ManifestItemKeeps(db, manifest, user, id);
  }

  lemma StatusCommandKeeps(db: Db, cmd: Cmd, reply: Reply)
    requires Valid(db) && reply == Exec(db, cmd)
    requires cmd.DoMarkSynced? || cmd.DoEvict? || cmd.DoReject?
    ensures Sound(reply)
  {
    match cmd
    case DoMarkSynced(id) =>
      assert reply == MarkSynced(db, id);
      MarkSyncedKeeps(db, id);
    case DoEvict(id) =>
      assert reply == Done(WithStatus(db, id, Evicted));
      StatusKeeps(db, id, Evicted);
    case DoReject(id) =>
      assert reply == RejectCandidate(db, id);
      RejectKeeps(db, id);
  }

  lemma DeletionCommandKeeps(db: Db, cmd: Cmd, reply: Reply)
    requires Valid(db) && reply == Exec(db, cmd)
    requires cmd.DoPruneTraining? || cmd.DoDeleteUser?
    ensures Sound(reply)
  {
    match cmd
    case DoPruneTraining(cutoff) =>
      assert reply == Done(PruneTraining(db, cutoff));
      PruneTrainingKeeps(db, cutoff);
    case DoDeleteUser(user) =>
      assert reply == DeleteUser(db, user);
      DeleteUserKeeps(db, user);
  }

  lemma EventCommandKeeps(db: Db, cmd: Cmd, reply: Reply)
    requires Valid(db) && reply == Exec(db, cmd)
    requires cmd.DoPruneHistory? || cmd.DoDeleteHistory?
    ensures Sound(reply)
  {
    match cmd
    case DoPruneHistory(cutoff) =>
      assert reply == PruneHistory(db, cutoff);
      PruneHistoryKeeps(db, cutoff);
    case DoDeleteHistory(id) =>
      assert reply == DeleteHistory(db, id);
      DeleteHistoryKeeps(db, id);
  }

  /** Every command, on every valid database, fails or leaves a valid one. */
  lemma CommandKeeps(db: Db, cmd: Cmd, reply: Reply)
    requires Valid(db) && reply == Exec(db, cmd)
    ensures Sound(reply)
  {
    if cmd.DoCreate? || cmd.DoPreedit? {
      CaptureCommandKeeps(db, cmd, reply);
    } else if cmd.DoCommit? || cmd.DoCancel? {
      EndingCommandKeeps(db, cmd, reply);
    } else if cmd.DoAmend? || cmd.DoRetranscribe? {
      TextCommandKeeps(db, cmd, reply);
    } else if cmd.DoTray? {
      assert reply == SetTraySetting(db, cmd.name, cmd.value);
      TrayKeeps(db, cmd.name, cmd.value);
    } else if cmd.DoDigest? || cmd.DoManifestItem? {
      RowCommandKeeps(db, cmd, reply);
    } else if cmd.DoMarkSynced? || cmd.DoEvict? || cmd.DoReject? {
      StatusCommandKeeps(db, cmd, reply);
    } else if cmd.DoPruneTraining? || cmd.DoDeleteUser? {
      DeletionCommandKeeps(db, cmd, reply);
    } else {
      EventCommandKeeps(db, cmd, reply);
    }
  }

  /** Projection equals the event log: in every state any commands can reach, every foreign key resolves, a session's
      state is the replay of its events, its candidates are its commit events in order, its preedit rows are its preedit
      events and its history rows are licensed by its state. */
  lemma {:induction false} RunKeeps(db: Db, cmds: seq<Cmd>)
    requires Valid(db)
    ensures Valid(Run(db, cmds))
  {
    if cmds != [] {
      var before, cmd := Run(db, cmds[..|cmds| - 1]), cmds[|cmds| - 1];
      RunKeeps(db, cmds[..|cmds| - 1]);
      CommandKeeps(before, cmd, Exec(before, cmd));
    }
  }

  lemma RunTwo(db: Db, cmds: seq<Cmd>)
    requires |cmds| == 2
    ensures var once := After(db, Exec(db, cmds[0])); Run(db, cmds) == After(once, Exec(once, cmds[1]))
  {
    assert cmds[..1] == [cmds[0]] && cmds[..1][..0] == [];
    assert Run(db, cmds[..1]) == After(db, Exec(db, cmds[0]));
  }

  lemma EveryReachableStateIsValid(cmds: seq<Cmd>)
    ensures Valid(Run(EMPTY, cmds))
  {
    RunKeeps(EMPTY, cmds);
  }
}

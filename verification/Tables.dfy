/** The metadata database as a value, and every write transaction of the store as a function on it. A transaction either
    produces a whole new database or an error. */
module Tables {
  import opened Basics

  const DEFAULT_USER := "default"
  const CANCEL_PAYLOAD := "cancelled"

  datatype SessionState = Created | Committed | Cancelled

  datatype EventKind =
    | SessionCreated
    | PreeditCorrected
    | SessionCommitted
    | SessionCancelled
    | UserDataDeleted
    | HistoryEntryDeleted
    | HistoryPruned
    | TrayConfigChanged

  datatype Event = Event(id: nat, kind: EventKind, aggregate: string, payload: string, key: string)

  datatype Utterance = Utterance(user: string, audioPath: string, digest: Option<string>, raw: Option<string>)

  datatype Session = Session(
    user: string, utterance: string, raw: Option<string>, state: SessionState, sessionState: SessionState,
    committedText: Option<string>, finalPreedit: Option<string>,
    createdAt: nat, committedAt: Option<nat>, cancelledAt: Option<nat>)

  datatype Source = AcceptedWithoutEdit | AcceptedWithEdit
  datatype Status = Captured | Rejected | Synced | Evicted

  datatype Candidate = Candidate(
    session: string, utterance: string, raw: string, corrected: string, transcript: string,
    source: Source, status: Status, key: string)

  datatype EditKind = PreeditUpdate | PostCommitCorrection
  datatype Edit = Edit(kind: EditKind, from: string, to: string)

  datatype HistoryRow = HistoryRow(session: string, text: string, committed: bool, createdAt: nat)
  datatype ManifestItem = ManifestItem(manifest: string, user: string, candidate: nat)

  /** `lastEventId`, `nextCandidate`, `nextHistory` and `nextItem` are the AUTOINCREMENT counters. */
  datatype Db = Db(
    utterances: map<string, Utterance>,
    audioFiles: set<string>,
    sessions: map<string, Session>,
    log: seq<Event>,
    lastEventId: nat,
    candidates: map<nat, Candidate>,
    nextCandidate: nat,
    edits: map<(string, nat), Edit>,
    history: map<nat, HistoryRow>,
    nextHistory: nat,
    manifests: map<string, string>,
    items: map<nat, ManifestItem>,
    nextItem: nat,
    tray: map<string, string>)

  const EMPTY: Db := Db(map[], {}, map[], [], 0, map[], 1, map[], map[], 1, map[], map[], 1,
                         map["retention_days" := "1", "max_entries" := "10"])

  datatype StoreError = NotFound | IdempotencyConflict | Constraint

  datatype Reply = Done(db: Db) | Failed(error: StoreError)

  /** The database once the transaction is over: an error rolls back. */
  function After(db: Db, reply: Reply): Db {
    if reply.Done? then reply.db else db
  }

  // ---------------------------------------------------------------- keys

  /** A version 4 UUID as printed: 36 characters, lower-case hex and hyphens. */
  predicate IsUuid(s: string) {
    |s| == 36 && forall i :: 0 <= i < |s| ==> s[i] == '-' || '0' <= s[i] <= '9' || 'a' <= s[i] <= 'f'
  }

  type SessionId = s: string | IsUuid(s) witness "00000000-0000-0000-0000-000000000000"

  function UtteranceKey(s: string): string { "utterance:" + s }

  function AudioPath(utterance: string): string {
    "audio/1970/01/01/" + DEFAULT_USER + "/" + utterance + ".ogg"
  }

  function CreatedKey(s: string): string { "session-created:" + s }

  function PreeditKey(s: string, index: nat): string { "preedit:" + s + ":" + Dec(index) }

  function PreeditPayload(from: string, to: string, index: nat): string {
    from + "->" + to + ":" + Dec(index)
  }

  function UserDeletedKey(user: string, n: nat): string { "user-data-deleted:" + user + ":" + Dec(n) }

  function HistoryDeletedKey(id: nat): string { "history-deleted:" + Dec(id) }

  function HistoryPrunedKey(sequence: nat): string { "history-pruned:" + Dec(sequence) }

  function TrayKey(sequence: nat): string { "tray-config:" + Dec(sequence) }

  // ---------------------------------------------------------------- event log

  /** Events of aggregate type `ime_text_session`. */
  predicate OfSession(e: Event) {
    e.kind in {SessionCreated, PreeditCorrected, SessionCommitted, SessionCancelled}
  }

  predicate HasKey(log: seq<Event>, key: string) {
    exists e :: e in log && e.key == key
  }

  datatype Ledger = Fresh | Duplicate | Conflict

  function Lookup(log: seq<Event>, key: string, kind: EventKind, payload: string): Ledger {
    if !HasKey(log, key) then Fresh
    else if exists e :: e in log && e.key == key && e.kind == kind && e.payload == payload then Duplicate
    else Conflict
  }

  /** `SELECT COALESCE(MAX(id), 0) + 1 FROM event_log`. */
  function NextEventSequence(log: seq<Event>): nat {
    MaxOrZero(set e | e in log :: e.id) + 1
  }

  /** INSERT INTO event_log, once the key is known to be new. */
  function Logged(db: Db, kind: EventKind, aggregate: string, payload: string, key: string): Db {
    var id := db.lastEventId + 1;
    db.(log := db.log + [Event(id, kind, aggregate, payload, key)], lastEventId := id)
  }

  // ---------------------------------------------------------------- sessions

  function CreateSession(db: Db, s: SessionId, raw: Option<string>, now: nat): Reply {
    var u := UtteranceKey(s);
    if HasKey(db.log, CreatedKey(s)) || s in db.sessions || u in db.utterances then Failed(Constraint)
    else
      var payload := if raw.Some? then raw.value else "";
      var row := Session(DEFAULT_USER, u, raw, Created, Created, None, raw, now, None, None);
      Done(Logged(db, SessionCreated, s, payload, CreatedKey(s)).(
           utterances := db.utterances[u := Utterance(DEFAULT_USER, AudioPath(u), None, raw)],
           audioFiles := db.audioFiles + {u},
           sessions := db.sessions[s := row]))
  }

  function RecordPreedit(db: Db, s: string, from: string, to: string, index: nat): Reply {
    match Lookup(db.log, PreeditKey(s, index), PreeditCorrected, PreeditPayload(from, to, index))
    case Duplicate => Done(db)
    case Conflict => Failed(IdempotencyConflict)
    case Fresh =>
      if s !in db.sessions then Failed(NotFound)
      else if (s, index) in db.edits then Failed(Constraint)
      else Done(Preedited(db, s, from, to, index))
  }

  function Preedited(db: Db, s: string, from: string, to: string, index: nat): Db
    requires s in db.sessions
  {
    Logged(db, PreeditCorrected, s, PreeditPayload(from, to, index), PreeditKey(s, index)).(
    edits := db.edits[(s, index) := Edit(PreeditUpdate, from, to)],
    sessions := db.sessions[s := db.sessions[s].(finalPreedit := Some(to))])
  }

  function CommitSession(db: Db, s: string, text: string, key: string, now: nat): Reply {
    match Lookup(db.log, key, SessionCommitted, text)
    case Duplicate => Done(db)
    case Conflict => Failed(IdempotencyConflict)
    case Fresh =>
      if s !in db.sessions || db.sessions[s].raw.None? then Failed(NotFound)
      else if exists i :: i in db.candidates && db.candidates[i].key == key then Failed(Constraint)
      else Done(CommittedAs(db, s, text, key, now))
  }

  function CommittedAs(db: Db, s: string, text: string, key: string, now: nat): Db
    requires s in db.sessions && db.sessions[s].raw.Some?
  {
    var row := db.sessions[s];
    var raw := row.raw.value;
    var source := if text == raw then AcceptedWithoutEdit else AcceptedWithEdit;
    var firstCommit := row.state != Committed;
    Logged(db, SessionCommitted, s, text, key).(
    sessions := db.sessions[s := row.(committedText := Some(text), state := Committed, sessionState := Committed,
                                      committedAt := Some(now), finalPreedit := Some(text))],
    utterances := FillRaw(db.utterances, row.utterance, raw),
    candidates := db.candidates[db.nextCandidate :=
                                  Candidate(s, row.utterance, raw, text, text, source, Captured, key)],
    nextCandidate := db.nextCandidate + 1,
    history := if firstCommit then db.history[db.nextHistory := HistoryRow(s, text, true, now)] else db.history,
    nextHistory := if firstCommit then db.nextHistory + 1 else db.nextHistory)
  }

  /** UPDATE utterances SET raw_stt_text = COALESCE(raw_stt_text, raw). */
  function FillRaw(utterances: map<string, Utterance>, u: string, raw: string): map<string, Utterance> {
    if u in utterances && utterances[u].raw.None? then utterances[u := utterances[u].(raw := Some(raw))]
    else utterances
  }

  function CancelSession(db: Db, s: string, key: string, now: nat): Reply {
    match Lookup(db.log, key, SessionCancelled, CANCEL_PAYLOAD)
    case Duplicate => Done(db)
    case Conflict => Failed(IdempotencyConflict)
    case Fresh => if s !in db.sessions then Failed(NotFound) else Done(CancelledAt(db, s, key, now))
  }

  function CancelledAt(db: Db, s: string, key: string, now: nat): Db
    requires s in db.sessions
  {
    var row := db.sessions[s];
    var moved := row.(state := Cancelled, sessionState := Cancelled, cancelledAt := Some(now));
    Logged(db, SessionCancelled, s, CANCEL_PAYLOAD, key).(
    sessions := if row.state == Committed then db.sessions else db.sessions[s := moved],
    history := if row.state == Created then db.history[db.nextHistory := HistoryRow(s, "", false, now)] else db.history,
    nextHistory := if row.state == Created then db.nextHistory + 1 else db.nextHistory)
  }

  /** The event index `amend_correction` allocates: one past the session's largest. */
  function NextEditIndex(edits: map<(string, nat), Edit>, s: string): (index: nat)
    ensures (s, index) !in edits
  {
    var indices := set k | k in edits && k.0 == s :: k.1;
    var index := MaxOrZero(indices) + 1;
    assert forall k :: k in edits && k.0 == s ==> k.1 in indices;
    index
  }

  function AmendCorrection(db: Db, s: string, committed: string, corrected: string): Reply {
    if corrected == committed then Done(db)
    else if s !in db.sessions then Failed(NotFound)
    else Done(Amended(db, s, committed, corrected))
  }

  function Amended(db: Db, s: string, committed: string, corrected: string): Db
    requires s in db.sessions
  {
    db.(
    edits := db.edits[(s, NextEditIndex(db.edits, s)) := Edit(PostCommitCorrection, committed, corrected)],
    sessions := db.sessions[s := db.sessions[s].(committedText := Some(corrected), finalPreedit := Some(corrected))],
    candidates := AmendedCandidates(db.candidates, s, corrected),
    history := AmendedHistory(db.history, s, corrected))
  }

  function AmendedCandidates(candidates: map<nat, Candidate>, s: string, text: string): map<nat, Candidate> {
    map i | i in candidates ::
      if candidates[i].session == s
      then candidates[i].(corrected := text, transcript := text, source := AcceptedWithEdit)
      else candidates[i]
  }

  function AmendedHistory(history: map<nat, HistoryRow>, s: string, text: string): map<nat, HistoryRow> {
    map i | i in history ::
      if history[i].session == s && history[i].committed then history[i].(text := text) else history[i]
  }

  // ---------------------------------------------------------------- candidates

  function SetDigest(db: Db, u: string, digest: string): Reply {
    if u !in db.utterances then Failed(NotFound)
    else Done(db.(utterances := db.utterances[u := db.utterances[u].(digest := Some(digest))]))
  }

  predicate HasDigest(db: Db, user: string, digest: string) {
    exists u :: u in db.utterances && db.utterances[u].user == user && db.utterances[u].digest == Some(digest)
  }

  function WithStatus(db: Db, id: nat, status: Status): Db {
    if id in db.candidates then db.(candidates := db.candidates[id := db.candidates[id].(status := status)])
    else db
  }

  function MarkSynced(db: Db, id: nat): Reply {
    if id in db.candidates && db.candidates[id].session in db.sessions then Done(WithStatus(db, id, Synced))
    else Failed(NotFound)
  }

  function RejectCandidate(db: Db, id: nat): Reply {
    if id in db.candidates then Done(WithStatus(db, id, Rejected)) else Failed(NotFound)
  }

  function Retranscribe(db: Db, id: nat, text: string): Reply {
    if id !in db.candidates then Failed(NotFound)
    else
      var c := db.candidates[id];
      Done(db.(
           candidates := db.candidates[id := c.(raw := text, corrected := text, transcript := text)],
           utterances := if c.utterance in db.utterances
                         then db.utterances[c.utterance := db.utterances[c.utterance].(raw := Some(text))]
                         else db.utterances))
  }

  /** The wire form of one outbox row. */
  datatype Learning = Learning(
    candidate: nat, user: string, utterance: string, session: string, audioKey: string,
    digest: string, raw: string, corrected: string, source: Source)

  predicate UserWasDeleted(log: seq<Event>, user: string) {
    exists e :: e in log && e.kind == UserDataDeleted && e.aggregate == user
  }

  /** The WHERE clause of the outbox query: captured, of this user, joined to its session and utterance. */
  predicate InOutbox(db: Db, user: string, id: nat) {
    && id in db.candidates
    && db.candidates[id].status == Captured
    && db.candidates[id].session in db.sessions
    && db.sessions[db.candidates[id].session].user == user
    && db.candidates[id].utterance in db.utterances
  }

  function ToLearning(db: Db, id: nat): Learning
    requires id in db.candidates && db.candidates[id].session in db.sessions
    requires db.candidates[id].utterance in db.utterances
  {
    var c := db.candidates[id];
    var u := db.utterances[c.utterance];
    Learning(id, db.sessions[c.session].user, c.utterance, c.session, u.audioPath,
             if u.digest.Some? then u.digest.value else "",
             if u.raw.Some? then u.raw.value else c.raw,
             c.transcript, c.source)
  }

  function OutboxUpTo(db: Db, user: string, n: nat): seq<Learning> {
    if n == 0 then []
    else if InOutbox(db, user, n - 1) then OutboxUpTo(db, user, n - 1) + [ToLearning(db, n - 1)]
    else OutboxUpTo(db, user, n - 1)
  }

  /** `training_candidates_pending_sync`, in candidate-id order. Every status other than `captured` is one the manifest
      feed excludes too, so this is also `training_candidates_for_manifest_v2`. */
  function Outbox(db: Db, user: string): seq<Learning> {
    if UserWasDeleted(db.log, user) then [] else OutboxUpTo(db, user, db.nextCandidate)
  }

  function InsertManifestItem(db: Db, manifest: string, user: string, candidate: nat): Reply {
    if candidate !in db.candidates then Failed(Constraint)
    else
      Done(db.(
           manifests := if manifest in db.manifests then db.manifests else db.manifests[manifest := user],
           items := db.items[db.nextItem := ManifestItem(manifest, user, candidate)],
           nextItem := db.nextItem + 1))
  }

  // ---------------------------------------------------------------- deletion

  /** COALESCE(committed_at, cancelled_at, created_at). */
  function SessionTime(row: Session): nat {
    if row.committedAt.Some? then row.committedAt.value
    else if row.cancelledAt.Some? then row.cancelledAt.value
    else row.createdAt
  }

  function Expired(db: Db, cutoff: nat): set<string> {
    set s | s in db.sessions && SessionTime(db.sessions[s]) < cutoff
  }

  /** All rows the sessions `dead` own, except the event log. */
  function DropSessions(db: Db, dead: set<string>): Db {
    var deadCandidates := set i | i in db.candidates && db.candidates[i].session in dead;
    var deadUtterances := set s | s in db.sessions && s in dead :: db.sessions[s].utterance;
    db.(
    items := map i | i in db.items && db.items[i].candidate !in deadCandidates :: db.items[i],
    candidates := db.candidates - deadCandidates,
    edits := map k | k in db.edits && k.0 !in dead :: db.edits[k],
    history := map i | i in db.history && db.history[i].session !in dead :: db.history[i],
    sessions := db.sessions - dead,
    audioFiles := db.audioFiles - deadUtterances,
    utterances := db.utterances - deadUtterances)
  }

  function PruneTraining(db: Db, cutoff: nat): Db {
    DropSessions(db, Expired(db, cutoff))
  }

  function SessionsOf(db: Db, user: string): set<string> {
    set s | s in db.sessions && db.sessions[s].user == user
  }

  function UtterancesOf(db: Db, user: string): set<string> {
    set u | u in db.utterances && db.utterances[u].user == user
  }

  function ManifestsOf(db: Db, user: string): set<string> {
    set m | m in db.manifests && db.manifests[m] == user
  }

  function CandidatesOf(db: Db, user: string): set<nat> {
    set i | i in db.candidates &&
            (db.candidates[i].session in SessionsOf(db, user) || db.candidates[i].utterance in UtterancesOf(db, user))
  }

  function WithoutSessions(log: seq<Event>, dead: set<string>): (kept: seq<Event>)
    ensures forall e :: e in kept <==> e in log && !(OfSession(e) && e.aggregate in dead)
  {
    if log == [] then []
    else
      var e := log[|log| - 1];
      var init := WithoutSessions(log[..|log| - 1], dead);
      assert log == log[..|log| - 1] + [e];
      if OfSession(e) && e.aggregate in dead then init else init + [e]
  }

  function DeletionCount(log: seq<Event>, user: string): nat {
    |set e | e in log && e.kind == UserDataDeleted && e.aggregate == user|
  }

  /** The deletes of `delete_user_data`, before it appends its own event. */
  function Purged(db: Db, user: string): Db {
    var sessions, utterances := SessionsOf(db, user), UtterancesOf(db, user);
    db.(
    items := map i | i in db.items && db.items[i].user != user && db.items[i].manifest !in ManifestsOf(db, user)
               :: db.items[i],
    manifests := db.manifests - ManifestsOf(db, user),
    candidates := db.candidates - CandidatesOf(db, user),
    edits := map k | k in db.edits && k.0 !in sessions :: db.edits[k],
    log := WithoutSessions(db.log, sessions),
    history := map i | i in db.history && db.history[i].session !in sessions :: db.history[i],
    sessions := db.sessions - sessions,
    audioFiles := db.audioFiles - utterances,
    utterances := db.utterances - utterances)
  }

  /** A surviving manifest item that still points at a deleted candidate is a foreign-key violation, and a taken
      idempotency key a unique violation. */
  function DeleteUser(db: Db, user: string): Reply {
    var key := UserDeletedKey(user, DeletionCount(db.log, user) + 1);
    var purged := Purged(db, user);
    if (exists i :: i in purged.items && purged.items[i].candidate in CandidatesOf(db, user)) || HasKey(purged.log, key)
    then Failed(Constraint)
    else Done(Logged(purged, UserDataDeleted, user, user, key))
  }

  function Stale(history: map<nat, HistoryRow>, cutoff: nat): set<nat> {
    set i | i in history && history[i].createdAt < cutoff
  }

  function PruneHistory(db: Db, cutoff: nat): Reply {
    var stale := Stale(db.history, cutoff);
    if stale == {} then Done(db)
    else
      var key := HistoryPrunedKey(NextEventSequence(db.log));
      if HasKey(db.log, key) then Failed(Constraint)
      else Done(Logged(db, HistoryPruned, "history", Dec(|stale|), key).(history := db.history - stale))
  }

  function DeleteHistory(db: Db, id: nat): Reply {
    if id !in db.history then Failed(NotFound)
    else if HasKey(db.log, HistoryDeletedKey(id)) then Failed(Constraint)
    else Done(Logged(db, HistoryEntryDeleted, Dec(id), Dec(id), HistoryDeletedKey(id)).(history := db.history - {id}))
  }

  function SetTraySetting(db: Db, name: string, value: string): Reply {
    var key := TrayKey(NextEventSequence(db.log));
    if HasKey(db.log, key) then Failed(Constraint)
    else Done(Logged(db, TrayConfigChanged, name, value, key).(tray := db.tray[name := value]))
  }
}

/** Phone, PC and a network that loses, repeats and reorders: the phone drops a recording only when the PC holds it, and
    the PC drops one only by its own retention or a privacy delete. */
module SyncProtocol {
  import opened Basics
  import opened Tables
  import opened StoreInvariant
  import opened AudioStore
  import opened Eviction
  import opened Hosts
  import opened Ingest
  import opened IngestLaws
  import opened SyncClient
  import MetadataStore

  /** `sent` holds every envelope ever exported and `acked` every one the PC ever acknowledged; a message may arrive any
      number of times, in any order, or never. `recorded` remembers what each take recorded, and `gone` the digests that
      retention or a privacy delete took off the PC. */
  datatype World = World(phone: Host, pc: Host, gone: set<string>, sent: set<Envelope>, acked: set<Envelope>,
                         recorded: map<string, Bytes>)

  const START := World(Host(EMPTY, map[]), Host(EMPTY, map[]), {}, {}, {}, map[])

  datatype Action =
    | Capture(s: SessionId, text: string, payload: Bytes, now: nat, disk: Disk)
    | OnPhone(cmd: Cmd)
    | EvictOver(cap: nat)
    | Prune(cutoff: nat)
    | Export(batch: string)
    | Deliver(env: Envelope, draws: seq<Draw>, now: nat)
    | Confirm(env: Envelope)
    | OnPc(cmd: Cmd)
    | DictateOnPc(s: SessionId, text: string, payload: Bytes, now: nat, disk: Disk)
    | PruneOnPc(cutoff: nat)
    | ForgetOnPc(user: string)

  /** Store commands that neither start, commit, sync nor delete: what else the phone does between syncs. */
  predicate Quiet(cmd: Cmd) {
    cmd.DoPreedit? || cmd.DoCancel? || cmd.DoAmend? || cmd.DoReject? || cmd.DoRetranscribe? || cmd.DoManifestItem? ||
    cmd.DoPruneHistory? || cmd.DoDeleteHistory? || cmd.DoTray?
  }

  /** What the PC's own work and its settings do to its store: every command but stamping a digest, which goes with a
      recording, and the two deletions, which have actions of their own. */
  predicate OfPc(cmd: Cmd) { !cmd.DoDigest? && !cmd.DoPruneTraining? && !cmd.DoDeleteUser? }

  function Captured(w: World, hash: Bytes -> string, s: SessionId, text: string, payload: Bytes, now: nat,
                    disk: Disk): World {
    var (phone, ok) := CaptureTake(w.phone, s, text, payload, hash(payload), now, disk);
    w.(phone := phone, recorded := if ok then w.recorded[UtteranceKey(s) := payload] else w.recorded)
  }

  function EvictedHost(h: Host, cap: nat): Host {
    var o := Outbox(h.db, DEFAULT_USER);
    var k := HowMany(h.db, h.files, DEFAULT_USER, cap);
    Host(Flip(h.db, o[..k]), h.files - Keys(o[..k]))
  }

  /** The digests a step of the PC lost. */
  function Dropped(pc: Host, after: Host): set<string> { Stored(pc.db) - Stored(after.db) }

  function Dictated(w: World, hash: Bytes -> string, s: SessionId, text: string, payload: Bytes, now: nat,
                    disk: Disk): World {
    w.(pc := PersistSession(w.pc, s, text, payload, hash(payload), now, disk).0)
  }

  function Worked(w: World, cmd: Cmd): World { w.(pc := w.pc.(db := After(w.pc.db, Exec(w.pc.db, cmd)))) }

  /** A privacy delete on the PC leaves the files. */
  function PcForgot(w: World, user: string): World {
    var pc := w.pc.(db := After(w.pc.db, DeleteUser(w.pc.db, user)));
    w.(pc := pc, gone := w.gone + Dropped(w.pc, pc))
  }

  function PcPruned(w: World, cutoff: nat): World {
    var pc := PrunedHost(w.pc, cutoff);
    w.(pc := pc, gone := w.gone + Dropped(w.pc, pc))
  }

  function Act(hash: Bytes -> string, w: World, a: Action): World {
    match a
    case Capture(s, text, payload, now, disk) => Captured(w, hash, s, text, payload, now, disk)
    case OnPhone(cmd) => if Quiet(cmd) then w.(phone := w.phone.(db := After(w.phone.db, Exec(w.phone.db, cmd)))) else w
    case EvictOver(cap) => w.(phone := EvictedHost(w.phone, cap))
    case Prune(cutoff) => w.(phone := PrunedHost(w.phone, cutoff))
    case Export(batch) =>
      var env := Built(w.phone, DEFAULT_USER, batch);
      if env.Some? then w.(sent := w.sent + {env.value}) else w
    case Deliver(env, draws, now) =>
      if env in w.sent && Complete(env) && |draws| == |env.learnings| then
        var r := IngestAll(w.pc, env, draws, now);
        w.(pc := r.host, acked := if r.ok then w.acked + {env} else w.acked)
      else w
    case Confirm(env) =>
      if env in w.acked then w.(phone := ConfirmUpTo(w.phone, env.learnings, |env.learnings|).0) else w
    case OnPc(cmd) => if OfPc(cmd) then Worked(w, cmd) else w
    case DictateOnPc(s, text, payload, now, disk) => Dictated(w, hash, s, text, payload, now, disk)
    case PruneOnPc(cutoff) => PcPruned(w, cutoff)
    case ForgetOnPc(user) => PcForgot(w, user)
  }

  function Run(hash: Bytes -> string, actions: seq<Action>): World {
    if actions == [] then START
    else Act(hash, Run(hash, actions[..|actions| - 1]), actions[|actions| - 1])
  }

  ghost predicate Injective(hash: Bytes -> string) {
    forall a: Bytes, b: Bytes :: hash(a) == hash(b) ==> a == b
  }

  // ---------------------------------------------------------------- the invariant

  predicate OnePerSession(candidates: map<nat, Candidate>) {
    forall i, j :: (i in candidates && j in candidates && candidates[i].session == candidates[j].session) ==> i == j
  }

  /** The PC holds these very bytes under their digest. */
  ghost predicate Held(hash: Bytes -> string, pc: Host, bytes: Bytes) {
    exists v :: v in pc.db.utterances && pc.db.utterances[v].user == DEFAULT_USER &&
                pc.db.utterances[v].digest == Some(hash(bytes)) &&
                pc.db.utterances[v].audioPath in pc.files && pc.files[pc.db.utterances[v].audioPath] == bytes
  }

  predicate Stamped(hash: Bytes -> string, phone: Host, recorded: map<string, Bytes>, i: nat)
    requires i in phone.db.candidates
  {
    var u := phone.db.candidates[i].utterance;
    u in recorded && u in phone.db.utterances && phone.db.utterances[u].digest == Some(hash(recorded[u]))
  }

  /** The recording of a candidate, if it has one on the phone. */
  predicate HasRecording(phone: Host, recorded: map<string, Bytes>, i: nat)
    requires i in phone.db.candidates
  {
    var u := phone.db.candidates[i].utterance;
    u in recorded && AudioPath(u) in phone.files && phone.files[AudioPath(u)] == recorded[u]
  }

  /** The digests the PC has, or had until it dropped them itself. */
  function Known(w: World): set<string> { Stored(w.pc.db) + w.gone }

  predicate PhoneSafe(hash: Bytes -> string, phone: Host, known: set<string>, recorded: map<string, Bytes>) {
    && OnePerSession(phone.db.candidates)
    && (forall i :: i in phone.db.candidates ==> Stamped(hash, phone, recorded, i))
    && (forall i :: i in phone.db.candidates && phone.db.candidates[i].status == Status.Captured ==>
          HasRecording(phone, recorded, i))
    && (forall i :: i in phone.db.candidates && phone.db.candidates[i].status == Synced ==>
          hash(recorded[phone.db.candidates[i].utterance]) in known)
  }

  /** Every digest on the PC is the digest of the file its row names. */
  predicate Backed(hash: Bytes -> string, pc: Host) {
    forall v :: v in pc.db.utterances && pc.db.utterances[v].digest.Some? ==>
      pc.db.utterances[v].audioPath in pc.files &&
      hash(pc.files[pc.db.utterances[v].audioPath]) == pc.db.utterances[v].digest.value
  }

  predicate Honest(hash: Bytes -> string, env: Envelope) {
    Complete(env) && forall d :: d in env.audio ==> hash(env.audio[d]) == d
  }

  /** The envelope's candidate ids still mean what they meant when it was exported. */
  predicate Meant(db: Db, l: Learning) {
    l.candidate < db.nextCandidate &&
    (l.candidate in db.candidates ==>
       db.candidates[l.candidate].utterance == l.utterance && l.utterance in db.utterances &&
       db.utterances[l.utterance].digest == Some(l.digest))
  }

  predicate SentSafe(hash: Bytes -> string, phone: Host, sent: set<Envelope>) {
    forall env :: env in sent ==> Honest(hash, env) && forall l :: l in env.learnings ==> Meant(phone.db, l)
  }

  predicate AckedSafe(known: set<string>, sent: set<Envelope>, acked: set<Envelope>) {
    acked <= sent && forall env :: env in acked ==> forall l :: l in env.learnings ==> l.digest in known
  }

  predicate Safe(hash: Bytes -> string, w: World) {
    && Valid(w.phone.db) && Sound(Done(w.pc.db))
    && PhoneSafe(hash, w.phone, Known(w), w.recorded)
    && Backed(hash, w.pc)
    && SentSafe(hash, w.phone, w.sent)
    && AckedSafe(Known(w), w.sent, w.acked)
  }

  // ---------------------------------------------------------------- phone steps that settle

  /** Candidates may go or leave the outbox, but none is added, synced or moved, and what stays captured keeps its
      recording. */
  predicate Settles(before: Host, after: Host) {
    && before.db.nextCandidate <= after.db.nextCandidate
    && (forall i :: i in after.db.candidates ==>
          && i in before.db.candidates
          && after.db.candidates[i].session == before.db.candidates[i].session
          && after.db.candidates[i].utterance == before.db.candidates[i].utterance
          && (after.db.candidates[i].status == before.db.candidates[i].status ||
              after.db.candidates[i].status == Rejected || after.db.candidates[i].status == Evicted)
          && var u := before.db.candidates[i].utterance;
             u in before.db.utterances ==>
               u in after.db.utterances && after.db.utterances[u].digest == before.db.utterances[u].digest)
    && (forall i :: i in after.db.candidates && after.db.candidates[i].status == Status.Captured ==>
          var path := AudioPath(after.db.candidates[i].utterance);
          path in before.files ==> path in after.files && after.files[path] == before.files[path])
  }

  lemma SettlingIsSafe(hash: Bytes -> string, phone: Host, after: Host, known: set<string>,
                       recorded: map<string, Bytes>)
    requires PhoneSafe(hash, phone, known, recorded) && Settles(phone, after)
    ensures PhoneSafe(hash, after, known, recorded)
  {
  }

  lemma SettlingKeepsSent(hash: Bytes -> string, phone: Host, after: Host, known: set<string>,
                          recorded: map<string, Bytes>, sent: set<Envelope>)
    requires PhoneSafe(hash, phone, known, recorded) && SentSafe(hash, phone, sent) && Settles(phone, after)
    ensures SentSafe(hash, after, sent)
  {
  }

  lemma PathsApart(s: string, t: string)
    requires IsUuid(s) && IsUuid(t) && AudioPath(UtteranceKey(s)) == AudioPath(UtteranceKey(t))
    ensures s == t
  {
    StoredPathIsSourceKey(s);
    StoredPathIsSourceKey(t);
    KeysAreInjective(DEFAULT_USER, UtteranceKey(s), DEFAULT_USER, UtteranceKey(t));
    UtteranceKeyInjective(s, t);
  }

  lemma QuietSettles(h: Host, cmd: Cmd)
    requires Quiet(cmd)
    ensures Settles(h, h.(db := After(h.db, Exec(h.db, cmd))))
  {
    if cmd.DoAmend? {
      AmendSettles(h, cmd.session, cmd.committed, cmd.corrected);
    } else if cmd.DoReject? {
      RejectSettles(h, cmd.id);
    } else if cmd.DoRetranscribe? {
      RetranscribeSettles(h, cmd.id, cmd.text);
    } else {
      OtherQuiet(h.db, cmd, Exec(h.db, cmd));
    }
  }

  /** The transaction changes no utterance and no candidate. */
  predicate Leaves(db: Db, reply: Reply) {
    match reply
    case Done(after) => after.utterances == db.utterances && SameCandidates(db, after)
    case Failed(_) => true
  }

  lemma OtherQuiet(db: Db, cmd: Cmd, reply: Reply)
    requires Quiet(cmd) && !cmd.DoAmend? && !cmd.DoReject? && !cmd.DoRetranscribe? && reply == Exec(db, cmd)
    ensures Leaves(db, reply)
  {
    if cmd.DoPreedit? {
      assert reply == RecordPreedit(db, cmd.session, cmd.from, cmd.to, cmd.index);
      PreeditLeaves(db, cmd.session, cmd.from, cmd.to, cmd.index);
    } else if cmd.DoCancel? {
      assert reply == CancelSession(db, cmd.session, cmd.key, cmd.now);
      CancelLeaves(db, cmd.session, cmd.key, cmd.now);
    } else {
      StoreCommandLeaves(db, cmd, reply);
    }
  }

  lemma StoreCommandLeaves(db: Db, cmd: Cmd, reply: Reply)
    requires cmd.DoManifestItem? || cmd.DoPruneHistory? || cmd.DoDeleteHistory? || cmd.DoTray?
    requires reply == Exec(db, cmd)
    ensures Leaves(db, reply)
  {
  }

  lemma PreeditLeaves(db: Db, s: string, from: string, to: string, index: nat)
    ensures Leaves(db, RecordPreedit(db, s, from, to, index))
  {
  }

  lemma CancelLeaves(db: Db, s: string, key: string, now: nat)
    ensures Leaves(db, CancelSession(db, s, key, now))
  {
  }

  lemma AmendSettles(h: Host, s: string, committed: string, corrected: string)
    ensures Settles(h, h.(db := After(h.db, AmendCorrection(h.db, s, committed, corrected))))
  {
  }

  lemma RejectSettles(h: Host, id: nat)
    ensures Settles(h, h.(db := After(h.db, RejectCandidate(h.db, id))))
  {
  }

  lemma RetranscribeSettles(h: Host, id: nat, text: string)
    ensures Settles(h, h.(db := After(h.db, Retranscribe(h.db, id, text))))
  {
  }

  lemma PruneSettles(h: Host, cutoff: nat)
    requires Valid(h.db)
    ensures Settles(h, PrunedHost(h, cutoff))
  {
    var dead, after := Expired(h.db, cutoff), PrunedHost(h, cutoff);
    forall i | i in after.db.candidates
      ensures AudioPath(h.db.candidates[i].utterance) !in MetadataStore.AudioOf(h.db, dead)
      ensures h.db.candidates[i].utterance in after.db.utterances
    {
      var s := h.db.candidates[i].session;
      forall t | t in dead
        ensures h.db.sessions[t].utterance != UtteranceKey(s)
        ensures SourceKey(h.db.sessions[t].user, h.db.sessions[t].utterance) != Ok(AudioPath(UtteranceKey(s)))
      {
        StoredPathIsSourceKey(t);
        if AudioPath(UtteranceKey(t)) == AudioPath(UtteranceKey(s)) { PathsApart(t, s); }
      }
    }
  }

  /** A candidate that is not evicted has a recording of its own. */
  lemma OwnRecording(db: Db, gone: seq<Learning>, i: nat)
    requires CandidatesLinked(db.candidates, db.sessions) && Naming(db.sessions, db.utterances)
    requires Uuids(db.sessions.Keys) && OnePerSession(db.candidates)
    requires forall l :: l in gone ==> InOutbox(db, DEFAULT_USER, l.candidate) && l == ToLearning(db, l.candidate)
    requires i in db.candidates && forall l :: l in gone ==> l.candidate != i
    ensures AudioPath(db.candidates[i].utterance) !in Keys(gone)
  {
    forall l | l in gone ensures l.audioKey != AudioPath(db.candidates[i].utterance) {
      var s, t := db.candidates[i].session, db.candidates[l.candidate].session;
      if AudioPath(UtteranceKey(s)) == AudioPath(UtteranceKey(t)) { PathsApart(s, t); }
    }
  }

  lemma FlippedSettles(h: Host, gone: seq<Learning>)
    requires forall l :: l in gone ==> l.candidate in h.db.candidates
    requires forall i :: i in h.db.candidates && (forall l :: l in gone ==> l.candidate != i) ==>
               AudioPath(h.db.candidates[i].utterance) !in Keys(gone)
    requires forall l :: l in gone ==> h.db.candidates[l.candidate].status == Status.Captured
    ensures Settles(h, Host(Flip(h.db, gone), h.files - Keys(gone)))
  {
    FlipIsExact(h.db, gone);
    var after := Flip(h.db, gone);
    forall i | i in after.candidates && after.candidates[i].status == Status.Captured
      ensures forall l :: l in gone ==> l.candidate != i
    {
    }
  }

  lemma EvictSettles(h: Host, cap: nat)
    requires Valid(h.db) && OnePerSession(h.db.candidates)
    ensures Settles(h, EvictedHost(h, cap)) && Valid(EvictedHost(h, cap).db)
  {
    var o, k := Outbox(h.db, DEFAULT_USER), HowMany(h.db, h.files, DEFAULT_USER, cap);
    var gone := o[..k];
    OutboxAfterFlip(h.db, DEFAULT_USER, k);
    OutboxRows(h.db, DEFAULT_USER, h.db.nextCandidate);
    assert forall l :: l in gone ==> l in o;
    forall i | i in h.db.candidates && (forall l :: l in gone ==> l.candidate != i)
      ensures AudioPath(h.db.candidates[i].utterance) !in Keys(gone)
    {
      OwnRecording(h.db, gone, i);
    }
    FlippedSettles(h, gone);
  }

  // ---------------------------------------------------------------- capture

  /** What a capture adds: one utterance row, one file and, if it completes, at most one captured candidate. */
  predicate Adds(h: Host, after: Host, ok: bool, s: SessionId, text: string, payload: Bytes, digest: string) {
    var u := UtteranceKey(s);
    var row := Utterance(DEFAULT_USER, AudioPath(u), Some(digest), Some(text));
    && (if ok then
          && s !in h.db.sessions && AudioPath(u) !in h.files && after.files == h.files[AudioPath(u) := payload]
          && after.db.utterances == h.db.utterances[u := row]
          && (SameCandidates(h.db, after.db) || OneMoreCandidate(h.db, after.db, s))
        else
          && SameCandidates(h.db, after.db)
          && Gained(h.files, after.files, AudioPath(u))
          && (after.db.utterances == h.db.utterances ||
              (u !in h.db.utterances && (after.db.utterances == h.db.utterances[u := row] ||
                                         after.db.utterances == h.db.utterances[u := row.(digest := None)]))))
  }

  predicate SameCandidates(db: Db, after: Db) {
    after.candidates == db.candidates && after.nextCandidate == db.nextCandidate
  }

  predicate OneMoreCandidate(db: Db, after: Db, s: SessionId) {
    var n := db.nextCandidate;
    && after.nextCandidate == n + 1 && n in after.candidates
    && after.candidates == db.candidates[n := after.candidates[n]]
    && after.candidates[n].session == s && after.candidates[n].utterance == UtteranceKey(s)
    && after.candidates[n].status == Status.Captured
  }

  lemma OpenedDigest(db: Db, s: SessionId, raw: string, digest: string)
    requires Opened(db, s, raw)
    ensures SetDigest(db, UtteranceKey(s), digest).Done? && Opened(SetDigest(db, UtteranceKey(s), digest).db, s, raw)
  {
  }

  lemma OpenedCommit(db: Db, s: SessionId, raw: string, text: string, key: string, now: nat)
    requires Opened(db, s, raw) && CommitSession(db, s, text, key, now).Done?
    ensures var after := CommitSession(db, s, text, key, now).db;
            after.utterances == db.utterances && (SameCandidates(db, after) || OneMoreCandidate(db, after, s))
  {
  }

  lemma CreateAdds(db: Db, s: SessionId, raw: string, now: nat)
    requires CreateSession(db, s, Some(raw), now).Done?
    ensures s !in db.sessions && SameCandidates(db, CreateSession(db, s, Some(raw), now).db)
  {
  }

  /** Filling an opened session adds its file, its digest and its candidate, or stops on the way. */
  predicate Fills(h: Host, after: Host, ok: bool, s: SessionId, payload: Bytes, stamped: Utterance) {
    var u := UtteranceKey(s);
    if ok then
      && AudioPath(u) !in h.files && after.files == h.files[AudioPath(u) := payload]
      && after.db.utterances == h.db.utterances[u := stamped]
      && (SameCandidates(h.db, after.db) || OneMoreCandidate(h.db, after.db, s))
    else
      && SameCandidates(h.db, after.db) && Gained(h.files, after.files, AudioPath(u))
      && (after.db.utterances == h.db.utterances || after.db.utterances == h.db.utterances[u := stamped])
  }

  lemma FillFills(h: Host, s: SessionId, text: string, payload: Bytes, digest: string, now: nat, disk: Disk)
    requires Opened(h.db, s, text)
    ensures var (after, ok) := FillSession(h, s, text, payload, digest, now, disk);
            Fills(h, after, ok, s, payload, h.db.utterances[UtteranceKey(s)].(digest := Some(digest)))
  {
    var u := UtteranceKey(s);
    StoredPathIsSourceKey(s);
    OpenedDigest(h.db, s, text, digest);
    var stamped := SetDigest(h.db, u, digest).db;
    if CommitSession(stamped, s, text, FinalKey(u), now).Done? {
      OpenedCommit(stamped, s, text, text, FinalKey(u), now);
    }
  }

  lemma CaptureAdds(h: Host, s: SessionId, text: string, payload: Bytes, digest: string, now: nat, disk: Disk)
    ensures var (after, ok) := CaptureTake(h, s, text, payload, digest, now, disk);
            Adds(h, after, ok, s, text, payload, digest)
  {
    var made := CreateSession(h.db, s, Some(text), now);
    if made.Done? {
      CreateOpens(h.db, s, text, now);
      CreateAdds(h.db, s, text, now);
      FillFills(Host(made.db, h.files), s, text, payload, digest, now, disk);
      var (after, ok) := FillSession(Host(made.db, h.files), s, text, payload, digest, now, disk);
      FilledAdds(h, made.db, after, ok, s, text, payload, digest);
    }
  }

  lemma FilledAdds(h: Host, made: Db, after: Host, ok: bool, s: SessionId, text: string, payload: Bytes, digest: string)
    requires s !in h.db.sessions && SameCandidates(h.db, made) && UtteranceKey(s) !in h.db.utterances
    requires var u := UtteranceKey(s);
             var row := Utterance(DEFAULT_USER, AudioPath(u), None, Some(text));
             made.utterances == h.db.utterances[u := row] &&
             Fills(Host(made, h.files), after, ok, s, payload, row.(digest := Some(digest)))
    ensures Adds(h, after, ok, s, text, payload, digest)
  {
    var u := UtteranceKey(s);
    var row := Utterance(DEFAULT_USER, AudioPath(u), None, Some(text));
    assert h.db.utterances[u := row][u := row.(digest := Some(digest))]
           == h.db.utterances[u := row.(digest := Some(digest))];
    assert row.(digest := Some(digest)) == Utterance(DEFAULT_USER, AudioPath(u), Some(digest), Some(text));
  }

  /** Candidates there before the capture belong to other recordings. */
  lemma OthersRecordings(db: Db, s: SessionId)
    requires CandidatesLinked(db.candidates, db.sessions) && Naming(db.sessions, db.utterances)
    requires Uuids(db.sessions.Keys) && s !in db.sessions
    ensures forall i :: i in db.candidates ==>
              db.candidates[i].session != s && db.candidates[i].utterance != UtteranceKey(s) &&
              AudioPath(db.candidates[i].utterance) != AudioPath(UtteranceKey(s))
  {
    forall i | i in db.candidates
      ensures db.candidates[i].utterance != UtteranceKey(s)
      ensures AudioPath(db.candidates[i].utterance) != AudioPath(UtteranceKey(s))
    {
      var t := db.candidates[i].session;
      if UtteranceKey(t) == UtteranceKey(s) { UtteranceKeyInjective(t, s); }
      if AudioPath(UtteranceKey(t)) == AudioPath(UtteranceKey(s)) { PathsApart(t, s); }
    }
  }

  lemma AddingIsSafe(hash: Bytes -> string, h: Host, after: Host, known: set<string>, recorded: map<string, Bytes>,
                     s: SessionId, text: string, payload: Bytes)
    requires Valid(h.db) && PhoneSafe(hash, h, known, recorded) && Adds(h, after, true, s, text, payload, hash(payload))
    ensures PhoneSafe(hash, after, known, recorded[UtteranceKey(s) := payload])
  {
    OthersRecordings(h.db, s);
    AddedIsSafe(hash, h, after, known, recorded, s, text, payload);
  }

  ghost predicate Apart(db: Db, s: SessionId) {
    forall i :: i in db.candidates ==>
      db.candidates[i].session != s && db.candidates[i].utterance != UtteranceKey(s) &&
      AudioPath(db.candidates[i].utterance) != AudioPath(UtteranceKey(s))
  }

  lemma AddedIsSafe(hash: Bytes -> string, h: Host, after: Host, known: set<string>, recorded: map<string, Bytes>,
                    s: SessionId, text: string, payload: Bytes)
    requires Apart(h.db, s)
    requires PhoneSafe(hash, h, known, recorded) && Adds(h, after, true, s, text, payload, hash(payload))
    ensures PhoneSafe(hash, after, known, recorded[UtteranceKey(s) := payload])
  {
    var more := recorded[UtteranceKey(s) := payload];
    forall i | i in after.db.candidates
      ensures Stamped(hash, after, more, i)
      ensures after.db.candidates[i].status == Status.Captured ==> HasRecording(after, more, i)
    {
      AddedCandidate(hash, h, after, recorded, s, text, payload, i);
    }
    NewCandidateIsOwn(h.db, after.db, s);
  }

  lemma AddedCandidate(hash: Bytes -> string, h: Host, after: Host, recorded: map<string, Bytes>, s: SessionId,
                       text: string, payload: Bytes, i: nat)
    requires Apart(h.db, s) && Adds(h, after, true, s, text, payload, hash(payload)) && i in after.db.candidates
    requires i in h.db.candidates ==>
               Stamped(hash, h, recorded, i) &&
               (h.db.candidates[i].status == Status.Captured ==> HasRecording(h, recorded, i))
    ensures Stamped(hash, after, recorded[UtteranceKey(s) := payload], i)
    ensures after.db.candidates[i].status == Status.Captured ==>
              HasRecording(after, recorded[UtteranceKey(s) := payload], i)
  {
  }

  lemma NewCandidateIsOwn(db: Db, after: Db, s: SessionId)
    requires OnePerSession(db.candidates) && forall i :: i in db.candidates ==> db.candidates[i].session != s
    requires SameCandidates(db, after) || OneMoreCandidate(db, after, s)
    ensures OnePerSession(after.candidates)
  {
  }

  lemma FailingIsSafe(hash: Bytes -> string, h: Host, after: Host, s: SessionId, text: string, payload: Bytes)
    requires Adds(h, after, false, s, text, payload, hash(payload))
    ensures Settles(h, after)
  {
  }

  lemma AddingKeepsSent(hash: Bytes -> string, h: Host, after: Host, sent: set<Envelope>, s: SessionId, text: string,
                        payload: Bytes)
    requires Valid(h.db) && SentSafe(hash, h, sent) && Adds(h, after, true, s, text, payload, hash(payload))
    ensures SentSafe(hash, after, sent)
  {
    OthersRecordings(h.db, s);
    AddedKeepsSent(hash, h, after, sent, s, text, payload);
  }

  lemma AddedKeepsSent(hash: Bytes -> string, h: Host, after: Host, sent: set<Envelope>, s: SessionId, text: string,
                       payload: Bytes)
    requires Apart(h.db, s) && SentSafe(hash, h, sent) && Adds(h, after, true, s, text, payload, hash(payload))
    ensures SentSafe(hash, after, sent)
  {
    forall env, l | env in sent && l in env.learnings ensures Meant(after.db, l) {
      assert Meant(h.db, l);
      AddedStaysMeant(h, after, s, text, payload, hash(payload), l);
    }
  }

  lemma AddedStaysMeant(h: Host, after: Host, s: SessionId, text: string, payload: Bytes, digest: string, l: Learning)
    requires Apart(h.db, s) && Adds(h, after, true, s, text, payload, digest) && Meant(h.db, l)
    ensures Meant(after.db, l)
  {
  }

  lemma CaptureIsSafe(hash: Bytes -> string, w: World, s: SessionId, text: string, payload: Bytes, now: nat, disk: Disk)
    requires Safe(hash, w)
    ensures Safe(hash, Captured(w, hash, s, text, payload, now, disk))
  {
    var (after, ok) := CaptureTake(w.phone, s, text, payload, hash(payload), now, disk);
    CaptureAdds(w.phone, s, text, payload, hash(payload), now, disk);
    CaptureKeepsValid(w.phone, s, text, payload, hash(payload), now, disk);
    if ok {
      AddingIsSafe(hash, w.phone, after, Known(w), w.recorded, s, text, payload);
      AddingKeepsSent(hash, w.phone, after, w.sent, s, text, payload);
    } else {
      FailingIsSafe(hash, w.phone, after, s, text, payload);
      SettlingIsSafe(hash, w.phone, after, Known(w), w.recorded);
      SettlingKeepsSent(hash, w.phone, after, Known(w), w.recorded, w.sent);
    }
  }

  // ---------------------------------------------------------------- the PC gains, or says what it dropped

  /** Whatever the PC does, the protocol stays safe as long as its digests stay backed and none is lost unnoticed. */
  lemma PcStepIsSafe(hash: Bytes -> string, w: World, next: World)
    requires Safe(hash, w) && next == w.(pc := next.pc, gone := next.gone)
    requires Sound(Done(next.pc.db)) && Backed(hash, next.pc) && Known(w) <= Known(next)
    ensures Safe(hash, next)
  {
  }

  /** Rows keep their owner, digest and path, and files keep their bytes. */
  predicate Extends(pc: Host, after: Host) {
    && (forall v :: v in pc.db.utterances ==>
          v in after.db.utterances && after.db.utterances[v].user == pc.db.utterances[v].user &&
          after.db.utterances[v].digest == pc.db.utterances[v].digest &&
          after.db.utterances[v].audioPath == pc.db.utterances[v].audioPath)
    && (forall k :: k in pc.files ==> k in after.files && after.files[k] == pc.files[k])
  }

  lemma StoredExtends(pc: Host, after: Host)
    requires Extends(pc, after)
    ensures Stored(pc.db) <= Stored(after.db)
  {
    forall d | d in Stored(pc.db) ensures d in Stored(after.db) {
      var v :| v in pc.db.utterances && pc.db.utterances[v].user == DEFAULT_USER &&
               pc.db.utterances[v].digest == Some(d);
      assert after.db.utterances[v].digest.value == d;
    }
  }

  lemma NextExtends(hash: Bytes -> string, prior: Outcome, env: Envelope, l: Learning, s: SessionId, now: nat,
                    disk: Disk)
    requires Honest(hash, env) && l.digest in env.audio && Backed(hash, prior.host)
    ensures Extends(prior.host, Next(prior, env, l, s, now, disk).host) &&
            Backed(hash, Next(prior, env, l, s, now, disk).host)
  {
    if !HasDigest(prior.host.db, DEFAULT_USER, l.digest) {
      StoringAdds(prior.host, env.batch, l, s, env.audio[l.digest], now, disk);
    }
  }

  lemma {:induction false} IngestExtends(hash: Bytes -> string, pc: Host, env: Envelope, draws: seq<Draw>, now: nat,
                                         n: nat, r: Outcome)
    requires Honest(hash, env) && |draws| == |env.learnings| && n <= |draws| && Backed(hash, pc)
    requires r == IngestUpTo(pc, env, draws, now, n)
    ensures Extends(pc, r.host) && Backed(hash, r.host)
  {
    if n > 0 {
      var l, draw := env.learnings[n - 1], draws[n - 1];
      var prior := IngestUpTo(pc, env, draws, now, n - 1);
      IngestExtends(hash, pc, env, draws, now, n - 1, prior);
      if prior.ok { NextExtends(hash, prior, env, l, draw.id, now, draw.disk); }
    }
  }

  predicate SoundAt(r: Outcome) {
    match r
    case Outcome(host, _, _, _) => Sound(Done(host.db))
  }

  lemma NextIsSound(prior: Outcome, env: Envelope, l: Learning, draw: Draw, now: nat, r: Outcome)
    requires l.digest in env.audio && SoundAt(prior) && r == Next(prior, env, l, draw.id, now, draw.disk)
    ensures SoundAt(r)
  {
    if !HasDigest(prior.host.db, DEFAULT_USER, l.digest) {
      StoringIsSound(prior.host, env.batch, l, draw.id, env.audio[l.digest], now, draw.disk);
    }
  }

  /** An ingest leaves a valid database wherever it stops. */
  lemma {:induction false} IngestIsSound(pc: Host, env: Envelope, draws: seq<Draw>, now: nat, n: nat, r: Outcome)
    requires Complete(env) && |draws| == |env.learnings| && n <= |draws| && Valid(pc.db)
    requires r == IngestUpTo(pc, env, draws, now, n)
    ensures SoundAt(r)
  {
    if n > 0 {
      var prior := IngestUpTo(pc, env, draws, now, n - 1);
      IngestIsSound(pc, env, draws, now, n - 1, prior);
      if prior.ok { NextIsSound(prior, env, env.learnings[n - 1], draws[n - 1], now, r); }
    }
  }

  lemma DeliverIsSafe(hash: Bytes -> string, w: World, env: Envelope, draws: seq<Draw>, now: nat)
    requires Safe(hash, w) && env in w.sent && |draws| == |env.learnings|
    ensures Safe(hash, Act(hash, w, Deliver(env, draws, now)))
  {
    var r := IngestAll(w.pc, env, draws, now);
    DeliveringIsSafe(hash, w, env, draws, now, r);
    if r.ok {
      DeliveredIsStored(w.pc, env, draws, now);
      AcknowledgingIsSafe(hash, w.(pc := r.host), env);
    }
  }

  lemma DeliveringIsSafe(hash: Bytes -> string, w: World, env: Envelope, draws: seq<Draw>, now: nat, r: Outcome)
    requires Safe(hash, w) && Honest(hash, env) && |draws| == |env.learnings| && r == IngestAll(w.pc, env, draws, now)
    ensures Safe(hash, w.(pc := r.host))
  {
    IngestExtends(hash, w.pc, env, draws, now, |draws|, r);
    IngestIsSound(w.pc, env, draws, now, |draws|, r);
    StoredExtends(w.pc, r.host);
    PcStepIsSafe(hash, w, w.(pc := r.host));
  }

  lemma AcknowledgingIsSafe(hash: Bytes -> string, w: World, env: Envelope)
    requires Safe(hash, w) && env in w.sent && forall l :: l in env.learnings ==> l.digest in Stored(w.pc.db)
    ensures Safe(hash, w.(acked := w.acked + {env}))
  {
  }

  lemma DeliveredIsStored(pc: Host, env: Envelope, draws: seq<Draw>, now: nat)
    requires Complete(env) && |draws| == |env.learnings| && IngestAll(pc, env, draws, now).ok
    ensures forall l :: l in env.learnings ==> l.digest in Stored(IngestAll(pc, env, draws, now).host.db)
  {
    IngestReport(pc, env, draws, now);
    forall l | l in env.learnings ensures l.digest in Digests(env.learnings) {
      var i :| 0 <= i < |env.learnings| && env.learnings[i] == l;
      assert Digests(env.learnings)[i] == l.digest;
    }
  }

  // ---------------------------------------------------------------- the PC's own work

  /** Rows keep owner, digest and path; a new one has no digest yet. */
  predicate RowsKept(db: Db, after: Db) {
    && (forall v :: v in db.utterances ==>
          v in after.utterances && after.utterances[v].user == db.utterances[v].user &&
          after.utterances[v].digest == db.utterances[v].digest &&
          after.utterances[v].audioPath == db.utterances[v].audioPath)
    && (forall v :: v in after.utterances && v !in db.utterances ==> after.utterances[v].digest == None)
  }

  lemma CommitKeepsRows(db: Db, s: string, text: string, key: string, now: nat)
    ensures RowsKept(db, After(db, CommitSession(db, s, text, key, now)))
  {
  }

  lemma CreateKeepsRows(db: Db, s: SessionId, raw: Option<string>, now: nat)
    ensures RowsKept(db, After(db, CreateSession(db, s, raw, now)))
  {
  }

  lemma AmendKeepsRows(db: Db, s: string, committed: string, corrected: string)
    ensures RowsKept(db, After(db, AmendCorrection(db, s, committed, corrected)))
  {
  }

  lemma RetranscribeKeepsRows(db: Db, id: nat, text: string)
    ensures RowsKept(db, After(db, Retranscribe(db, id, text)))
  {
  }

  lemma RestLeavesUtterances(db: Db, cmd: Cmd)
    requires OfPc(cmd)
    requires !cmd.DoCreate? && !cmd.DoCommit? && !cmd.DoAmend? && !cmd.DoRetranscribe?
    ensures After(db, Exec(db, cmd)).utterances == db.utterances
  {
  }

  lemma WorkKeepsRows(db: Db, cmd: Cmd)
    requires OfPc(cmd)
    ensures RowsKept(db, After(db, Exec(db, cmd)))
  {
    match cmd
    case DoCommit(s, text, key, now) => CommitKeepsRows(db, s, text, key, now);
    case DoCreate(s, raw, now) => CreateKeepsRows(db, s, raw, now);
    case DoAmend(s, committed, corrected) => AmendKeepsRows(db, s, committed, corrected);
    case DoRetranscribe(id, text) => RetranscribeKeepsRows(db, id, text);
    case _ => RestLeavesUtterances(db, cmd);
  }

  lemma WorkExtends(hash: Bytes -> string, pc: Host, after: Db)
    requires RowsKept(pc.db, after) && Backed(hash, pc)
    ensures Extends(pc, pc.(db := after)) && Backed(hash, pc.(db := after))
  {
  }

  /** A privacy delete removes rows and leaves every file. */
  lemma ForgettingStaysBacked(hash: Bytes -> string, pc: Host, user: string)
    requires Backed(hash, pc)
    ensures Backed(hash, pc.(db := After(pc.db, DeleteUser(pc.db, user))))
  {
  }

  lemma CommandIsSound(db: Db, cmd: Cmd, after: Db)
    requires Sound(Done(db)) && after == After(db, Exec(db, cmd))
    ensures Sound(Done(after))
  {
    CommandKeeps(db, cmd, Exec(db, cmd));
  }

  lemma WorkingIsSafe(hash: Bytes -> string, w: World, cmd: Cmd, next: World)
    requires Safe(hash, w) && OfPc(cmd) && next == Worked(w, cmd)
    ensures Safe(hash, next)
  {
    CommandIsSound(w.pc.db, cmd, next.pc.db);
    WorkKeepsRows(w.pc.db, cmd);
    WorkExtends(hash, w.pc, next.pc.db);
    StoredExtends(w.pc, next.pc);
    PcStepIsSafe(hash, w, next);
  }

  lemma ForgettingIsSafe(hash: Bytes -> string, w: World, user: string, next: World)
    requires Safe(hash, w) && next == PcForgot(w, user)
    ensures Safe(hash, next)
  {
    ForgettingIsSound(w.pc.db, user, next.pc.db);
    ForgettingStaysBacked(hash, w.pc, user);
    PcStepIsSafe(hash, w, next);
  }

  lemma ForgettingIsSound(db: Db, user: string, after: Db)
    requires Sound(Done(db)) && after == After(db, DeleteUser(db, user))
    ensures Sound(Done(after))
  {
    DeleteUserKeeps(db, user);
  }

  lemma DictationExtends(hash: Bytes -> string, pc: Host, s: SessionId, text: string, payload: Bytes, now: nat,
                         disk: Disk)
    requires Backed(hash, pc)
    ensures var after := PersistSession(pc, s, text, payload, hash(payload), now, disk).0;
            Extends(pc, after) && Backed(hash, after)
  {
    var made := CreateSession(pc.db, s, Some(text), now);
    if made.Done? {
      CreateOpens(pc.db, s, text, now);
      KeepingAdds(Host(made.db, pc.files), s, payload, hash(payload), disk);
    }
  }

  lemma DictatingIsSafe(hash: Bytes -> string, w: World, s: SessionId, text: string, payload: Bytes, now: nat,
                        disk: Disk, next: World)
    requires Safe(hash, w) && next == Dictated(w, hash, s, text, payload, now, disk)
    ensures Safe(hash, next)
  {
    DictationExtends(hash, w.pc, s, text, payload, now, disk);
    PersistingIsSound(w.pc, s, text, payload, hash(payload), now, disk);
    StoredExtends(w.pc, next.pc);
    PcStepIsSafe(hash, w, next);
  }

  lemma PathNamesOne(u: string, v: string)
    requires AudioPath(u) == AudioPath(v)
    ensures u == v
  {
    var front := "audio/1970/01/01/" + DEFAULT_USER + "/";
    assert AudioPath(u) == front + u + ".ogg" && AudioPath(v) == front + v + ".ogg";
    assert AudioPath(u)[|front|..|front| + |u|] == u && AudioPath(v)[|front|..|front| + |v|] == v;
  }

  /** Retention drops a row together with its recording, and no other row's. */
  lemma PruningStaysBacked(hash: Bytes -> string, pc: Host, cutoff: nat)
    requires Backed(hash, pc) && Naming(pc.db.sessions, pc.db.utterances) && Uuids(pc.db.sessions.Keys)
    ensures Backed(hash, PrunedHost(pc, cutoff))
  {
    var dead, after := Expired(pc.db, cutoff), PrunedHost(pc, cutoff);
    forall v | v in after.db.utterances
      ensures v in pc.db.utterances && after.db.utterances[v] == pc.db.utterances[v]
      ensures AudioPath(v) !in MetadataStore.AudioOf(pc.db, dead)
    {
      forall t | t in dead
        ensures SourceKey(pc.db.sessions[t].user, pc.db.sessions[t].utterance) != Ok(AudioPath(v))
      {
        StoredPathIsSourceKey(t);
        if AudioPath(UtteranceKey(t)) == AudioPath(v) { PathNamesOne(UtteranceKey(t), v); }
      }
    }
  }

  lemma PruningIsSound(pc: Host, cutoff: nat)
    requires Sound(Done(pc.db))
    ensures Sound(Done(PrunedHost(pc, cutoff).db))
  {
    PruneTrainingKeeps(pc.db, cutoff);
  }

  lemma PruningIsSafe(hash: Bytes -> string, w: World, cutoff: nat, next: World)
    requires Safe(hash, w) && next == PcPruned(w, cutoff)
    ensures Safe(hash, next)
  {
    PruningStaysBacked(hash, w.pc, cutoff);
    PruningIsSound(w.pc, cutoff);
    PcStepIsSafe(hash, w, next);
  }

  // ---------------------------------------------------------------- export and confirm

  lemma ExportIsSafe(hash: Bytes -> string, w: World, batch: string)
    requires Safe(hash, w)
    ensures Safe(hash, Act(hash, w, Export(batch)))
  {
    var env := Built(w.phone, DEFAULT_USER, batch);
    if env.Some? {
      var o := Outbox(w.phone.db, DEFAULT_USER);
      OutboxRows(w.phone.db, DEFAULT_USER, w.phone.db.nextCandidate);
      AttachedIsComplete(w.phone.files, o);
      forall l | l in o
        ensures Meant(w.phone.db, l)
        ensures l.audioKey in w.phone.files ==> hash(w.phone.files[l.audioKey]) == l.digest
      {
        assert Stamped(hash, w.phone, w.recorded, l.candidate) && HasRecording(w.phone, w.recorded, l.candidate);
      }
    }
  }

  lemma OtherPaths(db: Db, id: nat)
    requires CandidatesLinked(db.candidates, db.sessions) && Naming(db.sessions, db.utterances)
    requires Uuids(db.sessions.Keys) && OnePerSession(db.candidates) && id in db.candidates
    ensures forall i :: i in db.candidates && i != id ==>
              AudioPath(db.candidates[i].utterance) != AudioPath(db.candidates[id].utterance)
  {
    var s := db.candidates[id].session;
    forall i | i in db.candidates && i != id
      ensures AudioPath(db.candidates[i].utterance) != AudioPath(db.candidates[id].utterance)
    {
      var t := db.candidates[i].session;
      if AudioPath(UtteranceKey(t)) == AudioPath(UtteranceKey(s)) { PathsApart(t, s); }
    }
  }

  /** Confirming one candidate leaves every other one, and its recording, alone. */
  predicate Spares(h: Host, after: Host, id: nat) {
    forall i :: i in h.db.candidates && i != id ==>
      i in after.db.candidates && after.db.candidates[i] == h.db.candidates[i] &&
      var path := AudioPath(h.db.candidates[i].utterance);
      path in h.files ==> path in after.files && after.files[path] == h.files[path]
  }

  lemma DroppingSpares(h: Host, id: nat)
    requires forall i :: i in h.db.candidates && i != id && id in h.db.candidates ==>
               AudioPath(h.db.candidates[i].utterance) != AudioPath(h.db.candidates[id].utterance)
    requires id in h.db.candidates && h.db.candidates[id].session in h.db.sessions ==>
               SourceKey(h.db.sessions[h.db.candidates[id].session].user, h.db.candidates[id].utterance)
               == Ok(AudioPath(h.db.candidates[id].utterance))
    ensures Spares(h, Confirmed(h, id).0, id)
  {
  }

  lemma ConfirmedSpares(h: Host, id: nat)
    requires Rows(h.db) && OnePerSession(h.db.candidates)
    ensures Spares(h, Confirmed(h, id).0, id)
  {
    if id in h.db.candidates {
      OtherPaths(h.db, id);
      StoredPathIsSourceKey(h.db.candidates[id].session);
    }
    DroppingSpares(h, id);
  }

  lemma ConfirmedIsSafe(hash: Bytes -> string, h: Host, known: set<string>, recorded: map<string, Bytes>, l: Learning)
    requires Valid(h.db) && PhoneSafe(hash, h, known, recorded) && Meant(h.db, l) && l.digest in known
    ensures Valid(Confirmed(h, l.candidate).0.db)
    ensures PhoneSafe(hash, Confirmed(h, l.candidate).0, known, recorded)
    ensures forall m :: Meant(h.db, m) ==> Meant(Confirmed(h, l.candidate).0.db, m)
  {
    ConfirmedKeepsValid(h, l.candidate);
    ConfirmedSpares(h, l.candidate);
    if l.candidate in h.db.candidates { assert Stamped(hash, h, recorded, l.candidate); }
    MarkedIsSafe(hash, h, known, recorded, l.candidate);
  }

  lemma MarkedIsSafe(hash: Bytes -> string, h: Host, known: set<string>, recorded: map<string, Bytes>, id: nat)
    requires PhoneSafe(hash, h, known, recorded)
    requires id in h.db.candidates ==>
               h.db.candidates[id].utterance in recorded && hash(recorded[h.db.candidates[id].utterance]) in known
    requires Spares(h, Confirmed(h, id).0, id)
    ensures PhoneSafe(hash, Confirmed(h, id).0, known, recorded)
    ensures forall m :: Meant(h.db, m) ==> Meant(Confirmed(h, id).0.db, m)
  {
    var after := Confirmed(h, id).0;
    assert after == h || after.db == WithStatus(h.db, id, Synced);
    MarkedStaysMeant(h.db, id);
    MarkedStaysSafe(hash, h, after, known, recorded, id);
  }

  lemma MarkedStaysMeant(db: Db, id: nat)
    ensures forall m :: Meant(db, m) ==> Meant(WithStatus(db, id, Synced), m)
  {
  }

  lemma MarkedStaysSafe(hash: Bytes -> string, h: Host, after: Host, known: set<string>, recorded: map<string, Bytes>,
                        id: nat)
    requires PhoneSafe(hash, h, known, recorded) && Spares(h, after, id)
    requires id in h.db.candidates ==>
               h.db.candidates[id].utterance in recorded && hash(recorded[h.db.candidates[id].utterance]) in known
    requires after == h || after.db == WithStatus(h.db, id, Synced)
    ensures PhoneSafe(hash, after, known, recorded)
  {
    forall i | i in after.db.candidates
      ensures i in h.db.candidates && Stamped(hash, after, recorded, i)
      ensures after.db.candidates[i].session == h.db.candidates[i].session
    {
      assert Stamped(hash, h, recorded, i);
    }
    forall i | i in after.db.candidates && after.db.candidates[i].status == Status.Captured
      ensures HasRecording(after, recorded, i)
    {
      assert HasRecording(h, recorded, i);
    }
  }

  lemma {:induction false} ConfirmIsSafe(hash: Bytes -> string, h: Host, known: set<string>,
                                         recorded: map<string, Bytes>, sent: set<Envelope>,
                                         learnings: seq<Learning>, n: nat)
    requires Valid(h.db) && PhoneSafe(hash, h, known, recorded) && n <= |learnings| && SentSafe(hash, h, sent)
    requires forall l :: l in learnings ==> Meant(h.db, l) && l.digest in known
    ensures var after := ConfirmUpTo(h, learnings, n).0;
            && Valid(after.db) && PhoneSafe(hash, after, known, recorded) && SentSafe(hash, after, sent)
            && (forall m :: Meant(h.db, m) ==> Meant(after.db, m))
  {
    if n > 0 {
      ConfirmIsSafe(hash, h, known, recorded, sent, learnings, n - 1);
      var prior := ConfirmUpTo(h, learnings, n - 1);
      if prior.1 {
        assert learnings[n - 1] in learnings;
        ConfirmedIsSafe(hash, prior.0, known, recorded, learnings[n - 1]);
      }
    }
  }

  // ---------------------------------------------------------------- every run

  lemma PhoneStepIsSafe(hash: Bytes -> string, w: World, after: Host)
    requires Safe(hash, w) && Settles(w.phone, after) && Valid(after.db)
    ensures Safe(hash, w.(phone := after))
  {
    SettlingIsSafe(hash, w.phone, after, Known(w), w.recorded);
    SettlingKeepsSent(hash, w.phone, after, Known(w), w.recorded, w.sent);
  }

  lemma PhoneActIsSafe(hash: Bytes -> string, w: World, a: Action)
    requires Safe(hash, w) && (a.OnPhone? || a.EvictOver? || a.Prune?)
    ensures Safe(hash, Act(hash, w, a))
  {
    match a
    case OnPhone(cmd) =>
      if Quiet(cmd) {
        QuietSettles(w.phone, cmd);
        CommandKeeps(w.phone.db, cmd, Exec(w.phone.db, cmd));
        PhoneStepIsSafe(hash, w, w.phone.(db := After(w.phone.db, Exec(w.phone.db, cmd))));
      }
    case EvictOver(cap) =>
      EvictSettles(w.phone, cap);
      PhoneStepIsSafe(hash, w, EvictedHost(w.phone, cap));
    case Prune(cutoff) =>
      PruneSettles(w.phone, cutoff);
      PruneTrainingKeeps(w.phone.db, cutoff);
      PhoneStepIsSafe(hash, w, PrunedHost(w.phone, cutoff));
  }

  lemma ConfirmingIsSafe(hash: Bytes -> string, w: World, env: Envelope)
    requires Safe(hash, w) && env in w.acked
    ensures Safe(hash, Act(hash, w, Confirm(env)))
  {
    ConfirmIsSafe(hash, w.phone, Known(w), w.recorded, w.sent, env.learnings, |env.learnings|);
  }

  predicate OnPcSide(a: Action) { a.OnPc? || a.DictateOnPc? || a.PruneOnPc? || a.ForgetOnPc? }

  lemma PcActs(hash: Bytes -> string, w: World, a: Action, next: World)
    requires OnPcSide(a) && next == Act(hash, w, a)
    ensures a.OnPc? ==> next == if OfPc(a.cmd) then Worked(w, a.cmd) else w
    ensures a.DictateOnPc? ==> next == Dictated(w, hash, a.s, a.text, a.payload, a.now, a.disk)
    ensures a.PruneOnPc? ==> next == PcPruned(w, a.cutoff)
    ensures a.ForgetOnPc? ==> next == PcForgot(w, a.user)
  {
  }

  lemma PcActIsSafe(hash: Bytes -> string, w: World, a: Action, next: World)
    requires Safe(hash, w) && OnPcSide(a) && next == Act(hash, w, a)
    ensures Safe(hash, next)
  {
    PcActs(hash, w, a, next);
    if a.PruneOnPc? {
      PruningIsSafe(hash, w, a.cutoff, next);
    } else if a.ForgetOnPc? {
      ForgettingIsSafe(hash, w, a.user, next);
    } else if a.DictateOnPc? {
      DictatingIsSafe(hash, w, a.s, a.text, a.payload, a.now, a.disk, next);
    } else if OfPc(a.cmd) {
      WorkingIsSafe(hash, w, a.cmd, next);
    }
  }

  lemma SyncActIsSafe(hash: Bytes -> string, w: World, a: Action)
    requires Safe(hash, w) && (a.Export? || a.Deliver? || a.Confirm?)
    ensures Safe(hash, Act(hash, w, a))
  {
    match a
    case Export(batch) => ExportIsSafe(hash, w, batch);
    case Deliver(env, draws, now) =>
      if env in w.sent && |draws| == |env.learnings| { DeliverIsSafe(hash, w, env, draws, now); }
    case Confirm(env) => if env in w.acked { ConfirmingIsSafe(hash, w, env); }
  }

  lemma ActIsSafe(hash: Bytes -> string, w: World, a: Action)
    requires Safe(hash, w)
    ensures Safe(hash, Act(hash, w, a))
  {
    if a.Capture? {
      CaptureIsSafe(hash, w, a.s, a.text, a.payload, a.now, a.disk);
    } else if a.OnPhone? || a.EvictOver? || a.Prune? {
      PhoneActIsSafe(hash, w, a);
    } else if a.Export? || a.Deliver? || a.Confirm? {
      SyncActIsSafe(hash, w, a);
    } else {
      PcActIsSafe(hash, w, a, Act(hash, w, a));
    }
  }

  lemma {:induction false} EveryRunIsSafe(hash: Bytes -> string, actions: seq<Action>)
    ensures Safe(hash, Run(hash, actions))
  {
    if actions == [] {
      EveryReachableStateIsValid([]);
    } else {
      EveryRunIsSafe(hash, actions[..|actions| - 1]);
      ActIsSafe(hash, Run(hash, actions[..|actions| - 1]), actions[|actions| - 1]);
    }
  }

  lemma StoredIsHeld(hash: Bytes -> string, pc: Host, bytes: Bytes)
    requires Injective(hash) && Backed(hash, pc) && hash(bytes) in Stored(pc.db)
    ensures Held(hash, pc, bytes)
  {
    var v :| v in pc.db.utterances && pc.db.utterances[v].user == DEFAULT_USER &&
             pc.db.utterances[v].digest == Some(hash(bytes));
    assert hash(pc.files[pc.db.utterances[v].audioPath]) == hash(bytes);
  }

  /** Delete after acknowledgement, over every run with lost, repeated and reordered batches and acknowledgements, with
      a PC that dictates, prunes and forgets by itself: a captured candidate still has its exact recording on the phone,
      and a synced one has it on the PC, byte for byte, under its digest, unless the PC's own retention or a privacy
      delete there took that digest away. */
  lemma NoRecordingIsLost(hash: Bytes -> string, actions: seq<Action>, i: nat)
    requires Injective(hash) && i in Run(hash, actions).phone.db.candidates
    ensures var w := Run(hash, actions);
            var row := w.phone.db.candidates[i];
            && row.utterance in w.recorded
            && (row.status == Status.Captured ==> HasRecording(w.phone, w.recorded, i))
            && (row.status == Synced ==>
                  Held(hash, w.pc, w.recorded[row.utterance]) || hash(w.recorded[row.utterance]) in w.gone)
  {
    var w := Run(hash, actions);
    EveryRunIsSafe(hash, actions);
    assert Stamped(hash, w.phone, w.recorded, i);
    var bytes := w.recorded[w.phone.db.candidates[i].utterance];
    if hash(bytes) in Stored(w.pc.db) { StoredIsHeld(hash, w.pc, bytes); }
  }

  /** While the PC neither prunes nor forgets, nothing it acknowledged is ever missing. */
  lemma {:induction false} NothingGone(hash: Bytes -> string, actions: seq<Action>)
    requires forall a :: a in actions ==> !a.PruneOnPc? && !a.ForgetOnPc?
    ensures Run(hash, actions).gone == {}
  {
    if actions != [] {
      assert actions[|actions| - 1] in actions;
      NothingGone(hash, actions[..|actions| - 1]);
    }
  }
}

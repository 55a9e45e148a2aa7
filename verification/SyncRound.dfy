/** One round of learning sync from end to end: what the phone heard and corrected is what the PC trains on, and what
    was confirmed is synced. */
module SyncRound {
  import opened Basics
  import opened Tables
  import StoreInvariant
  import opened AudioStore
  import opened Hosts
  import opened Ingest
  import opened IngestLaws
  import opened SyncClient
  import opened SyncProtocol
  import Eviction
  import IngestRuns
  import MetadataStore
  import Stories
  import StoreLaws

  // ---------------------------------------------------------------- what the PC makes of a learning

  /** The learning became training data: a committed session heard as `raw` and accepted as `corrected`, its captured
      candidate `n` from the one to the other, and its recording under its digest. */
  predicate Learnt(h: Host, l: Learning, s: string, payload: Bytes, n: nat) {
    var u := UtteranceKey(s);
    && s in h.db.sessions && h.db.sessions[s].state == Committed && h.db.sessions[s].raw == Some(l.raw)
    && h.db.sessions[s].committedText == Some(l.corrected)
    && n in h.db.candidates && h.db.candidates[n].session == s && h.db.candidates[n].utterance == u
    && h.db.candidates[n].raw == l.raw && h.db.candidates[n].corrected == l.corrected
    && h.db.candidates[n].transcript == l.corrected && h.db.candidates[n].status == Captured
    && (h.db.candidates[n].source == AcceptedWithEdit <==> l.corrected != l.raw)
    && u in h.db.utterances && h.db.utterances[u].raw == Some(l.raw) && h.db.utterances[u].digest == Some(l.digest)
    && AudioPath(u) in h.files && h.files[AudioPath(u)] == payload
  }

  predicate IsLearnt(h: Host, l: Learning, s: string, payload: Bytes) {
    exists n: nat :: n in h.db.candidates && Learnt(h, l, s, payload, n)
  }

  lemma FreshIsLearnt(h: Host, batch: string, l: Learning, s: SessionId, payload: Bytes, now: nat, after: Host)
    requires FreshId(h, s) && !HasKey(h.db.log, IngestKey(batch, l.digest))
    requires forall i :: i in h.db.candidates ==> h.db.candidates[i].key != IngestKey(batch, l.digest)
    requires after == StoreLearning(h, batch, l, s, payload, now, Works).0
    ensures IsLearnt(after, l, s, payload)
  {
    FreshLearningIsStored(h, batch, l, s, payload, now, Works);
    StoringAdds(h, batch, l, s, payload, now, Works);
    assert Learnt(after, l, s, payload, h.db.nextCandidate);
  }

  // ---------------------------------------------------------------- later learnings leave it

  /** The rows of session `s` and every candidate row are as they were. */
  predicate Beside(db: Db, after: Db, s: string) {
    var u := UtteranceKey(s);
    && (s in db.sessions ==> s in after.sessions && after.sessions[s] == db.sessions[s])
    && (u in db.utterances ==> u in after.utterances && after.utterances[u] == db.utterances[u])
    && (forall n :: n in db.candidates ==> n in after.candidates && after.candidates[n] == db.candidates[n])
    && (Counted(db) ==> Counted(after))
  }

  lemma CreateBeside(db: Db, t: SessionId, raw: string, now: nat, s: string)
    requires CreateSession(db, t, Some(raw), now).Done? && s != t && UtteranceKey(s) != UtteranceKey(t)
    ensures Beside(db, CreateSession(db, t, Some(raw), now).db, s)
  {
  }

  lemma PreeditBeside(db: Db, t: SessionId, from: string, to: string, s: string)
    requires RecordPreedit(db, t, from, to, 0).Done? && s != t
    ensures Beside(db, RecordPreedit(db, t, from, to, 0).db, s)
  {
    var after := RecordPreedit(db, t, from, to, 0).db;
    assert after == db || after == Preedited(db, t, from, to, 0);
    assert after.candidates == db.candidates && after.nextCandidate == db.nextCandidate;
  }

  lemma CommitBeside(db: Db, t: SessionId, raw: string, text: string, key: string, now: nat, s: string)
    requires Opened(db, t, raw) && CommitSession(db, t, text, key, now).Done? && s != t && Counted(db)
    ensures Beside(db, CommitSession(db, t, text, key, now).db, s)
  {
  }

  lemma RecordedBeside(db: Db, batch: string, l: Learning, t: SessionId, now: nat, s: string)
    requires Recorded(db, batch, l, t, now).Done? && s != t && UtteranceKey(s) != UtteranceKey(t) && Counted(db)
    ensures Beside(db, Recorded(db, batch, l, t, now).db, s)
  {
    CreateBeside(db, t, l.raw, now, s);
    CreateOpens(db, t, l.raw, now);
    var made := CreateSession(db, t, Some(l.raw), now).db;
    if l.corrected != l.raw {
      PreeditBeside(made, t, l.raw, l.corrected, s);
      PreeditLeavesOpen(made, t, l.raw, l.raw, l.corrected);
    }
    var edited := if l.corrected != l.raw then RecordPreedit(made, t, l.raw, l.corrected, 0).db else made;
    CommitBeside(edited, t, l.raw, l.corrected, IngestKey(batch, l.digest), now, s);
  }

  lemma StoringBeside(h: Host, batch: string, l: Learning, t: SessionId, payload: Bytes, now: nat, s: SessionId,
                      after: Host)
    requires Recorded(h.db, batch, l, t, now).Done? && s != t && Counted(h.db)
    requires after == StoreLearning(h, batch, l, t, payload, now, Works).0
    ensures Beside(h.db, after.db, s)
    ensures AudioPath(UtteranceKey(s)) in h.files ==>
              AudioPath(UtteranceKey(s)) in after.files &&
              after.files[AudioPath(UtteranceKey(s))] == h.files[AudioPath(UtteranceKey(s))]
  {
    IngestRuns.OtherFile(s, t);
    RecordedBeside(h.db, batch, l, t, now, s);
    RecordedThenKept(h, batch, l, t, payload, now, Works);
    RecordingAdds(h.db, batch, l, t, now);
    KeepingAdds(Host(Recorded(h.db, batch, l, t, now).db, h.files), t, payload, l.digest, Works);
  }

  lemma StaysLearnt(h: Host, after: Host, l: Learning, s: string, payload: Bytes)
    requires IsLearnt(h, l, s, payload) && Beside(h.db, after.db, s)
    requires var path := AudioPath(UtteranceKey(s));
             path in h.files ==> path in after.files && after.files[path] == h.files[path]
    ensures IsLearnt(after, l, s, payload)
  {
    var n: nat :| n in h.db.candidates && Learnt(h, l, s, payload, n);
    assert Learnt(after, l, s, payload, n);
  }

  // ---------------------------------------------------------------- the batch

  /** Of the first `n` learnings, those that were new became training data. */
  predicate AllLearnt(r: Outcome, have: set<string>, env: Envelope, draws: seq<Draw>, n: nat)
    requires Complete(env) && n <= |env.learnings| == |draws|
  {
    match r
    case Outcome(host, _, _, _) =>
      forall i :: 0 <= i < n && IngestRuns.First(have, env.learnings, i) ==>
        IsLearnt(host, env.learnings[i], draws[i].id, Payload(env, i))
  }

  function Payload(env: Envelope, i: nat): Bytes
    requires Complete(env) && i < |env.learnings|
  {
    env.audio[env.learnings[i].digest]
  }

  lemma NextLearns(prior: Outcome, have: set<string>, env: Envelope, draws: seq<Draw>, now: nat, n: nat, r: Outcome)
    requires Complete(env) && 0 < n <= |draws| == |env.learnings| && AllLearnt(prior, have, env, draws, n - 1)
    requires IngestRuns.Going(prior, draws, n - 1) && Reads(prior, have, Digests(env.learnings)[..n - 1])
    requires IngestRuns.Distinct(draws) && draws[n - 1].disk.Works? && ':' !in env.learnings[n - 1].digest
    requires r == Next(prior, env, env.learnings[n - 1], draws[n - 1].id, now, draws[n - 1].disk)
    ensures AllLearnt(r, have, env, draws, n)
  {
    IngestRuns.FirstIffNew(prior, have, env, n - 1);
    if IngestRuns.First(have, env.learnings, n - 1) {
      NewIsLearnt(prior, env, env.learnings[n - 1], draws, now, n - 1, r);
      forall i | 0 <= i < n - 1 && IngestRuns.First(have, env.learnings, i)
        ensures IsLearnt(r.host, env.learnings[i], draws[i].id, Payload(env, i))
      {
        OthersStayLearnt(prior, env, draws, now, n - 1, r, env.learnings[i], draws[i].id, Payload(env, i));
      }
    }
  }

  lemma GoingSays(prior: Outcome, env: Envelope, l: Learning, draws: seq<Draw>, i: nat)
    requires IngestRuns.Going(prior, draws, i) && i < |draws| && ':' !in l.digest
    requires !HasDigest(prior.host.db, DEFAULT_USER, l.digest)
    ensures FreshId(prior.host, draws[i].id) && Counted(prior.host.db)
    ensures !HasKey(prior.host.db.log, IngestKey(env.batch, l.digest))
    ensures forall c :: c in prior.host.db.candidates ==>
              prior.host.db.candidates[c].key != IngestKey(env.batch, l.digest)
  {
    HasDigestIsStored(prior.host.db, l.digest);
    assert KeyBacked(prior.host.db, env.batch, l.digest);
    StoreLaws.CommitOpen(prior.host.db, IngestKey(env.batch, l.digest));
  }

  lemma NewIsLearnt(prior: Outcome, env: Envelope, l: Learning, draws: seq<Draw>, now: nat, i: nat, r: Outcome)
    requires l.digest in env.audio && IngestRuns.Going(prior, draws, i) && i < |draws| && draws[i].disk.Works?
    requires ':' !in l.digest && !HasDigest(prior.host.db, DEFAULT_USER, l.digest)
    requires r == Next(prior, env, l, draws[i].id, now, draws[i].disk)
    ensures IsLearnt(r.host, l, draws[i].id, env.audio[l.digest])
  {
    GoingSays(prior, env, l, draws, i);
    FreshIsLearnt(prior.host, env.batch, l, draws[i].id, env.audio[l.digest], now, r.host);
  }

  lemma OthersStayLearnt(prior: Outcome, env: Envelope, draws: seq<Draw>, now: nat, i: nat, r: Outcome, m: Learning,
                         s: SessionId, payload: Bytes)
    requires Complete(env) && i < |draws| == |env.learnings| && IngestRuns.Going(prior, draws, i)
    requires draws[i].disk.Works? && ':' !in env.learnings[i].digest && s != draws[i].id
    requires !HasDigest(prior.host.db, DEFAULT_USER, env.learnings[i].digest)
    requires r == Next(prior, env, env.learnings[i], draws[i].id, now, draws[i].disk)
    requires IsLearnt(prior.host, m, s, payload)
    ensures IsLearnt(r.host, m, s, payload)
  {
    var l := env.learnings[i];
    GoingSays(prior, env, l, draws, i);
    FreshLearningIsStored(prior.host, env.batch, l, draws[i].id, env.audio[l.digest], now, Works);
    StoringBeside(prior.host, env.batch, l, draws[i].id, env.audio[l.digest], now, s, r.host);
    StaysLearnt(prior.host, r.host, m, s, payload);
  }

  lemma {:induction false} UpToLearns(h: Host, env: Envelope, draws: seq<Draw>, now: nat, n: nat, r: Outcome)
    requires Complete(env) && |draws| == |env.learnings| && n <= |draws| && r == IngestUpTo(h, env, draws, now, n)
    requires StoreInvariant.Valid(h.db) && LedgerBacked(h.db) && IngestRuns.Draws(h, draws)
    requires forall l :: l in env.learnings ==> ':' !in l.digest
    ensures AllLearnt(r, Stored(h.db), env, draws, n)
  {
    if n > 0 {
      var prior := IngestUpTo(h, env, draws, now, n - 1);
      UpToLearns(h, env, draws, now, n - 1, prior);
      IngestRuns.UpToSucceeds(h, env, draws, now, n - 1, prior);
      IngestRuns.GoingIsOk(prior, draws, n - 1);
      ReadBefore(h, env, draws, now, n, prior);
      assert env.learnings[n - 1] in env.learnings;
      NextLearns(prior, Stored(h.db), env, draws, now, n, r);
    }
  }

  /** A complete batch under distinct unused ids, on a working disk and a backed ledger, becomes training data: each
      learning that is the first of a digest new to this device ends the ingest as a committed session under its own
      draw, with one captured candidate from the text heard to the text corrected, and its recording. */
  lemma BatchIsLearnt(h: Host, env: Envelope, draws: seq<Draw>, now: nat, r: Outcome)
    requires Complete(env) && |draws| == |env.learnings| && r == IngestAll(h, env, draws, now)
    requires StoreInvariant.Valid(h.db) && LedgerBacked(h.db) && IngestRuns.Draws(h, draws)
    requires forall l :: l in env.learnings ==> ':' !in l.digest
    ensures forall i :: 0 <= i < |draws| && IngestRuns.First(Stored(h.db), env.learnings, i) ==>
              IsLearnt(r.host, env.learnings[i], draws[i].id, Payload(env, i))
  {
    UpToLearns(h, env, draws, now, |draws|, r);
  }

  // ---------------------------------------------------------------- from the phone's commands to the PC's candidates

  /** The device trains session `s` from `raw` to `text`. */
  predicate Trains(db: Db, s: string, raw: string, text: string) {
    exists n: nat :: n in db.candidates && TrainsIn(db.candidates[n], s, raw, text)
  }

  predicate TrainsIn(c: Candidate, s: string, raw: string, text: string) {
    c.session == s && c.raw == raw && c.corrected == text && c.transcript == text && c.status == Captured &&
    (c.source == AcceptedWithEdit <==> text != raw)
  }

  lemma LearntTrains(h: Host, l: Learning, s: string, payload: Bytes)
    requires IsLearnt(h, l, s, payload)
    ensures Trains(h.db, s, l.raw, l.corrected)
  {
    var n: nat :| n in h.db.candidates && Learnt(h, l, s, payload, n);
    assert TrainsIn(h.db.candidates[n], s, l.raw, l.corrected);
  }

  /** The text a command said was heard: the recording's, or else the candidate's own. */
  function HeardAs(tape: Option<Stories.Taped>, kept: Stories.Kept): string {
    if tape.Some? && tape.value.raw.Some? then tape.value.raw.value else kept.raw
  }

  /** What ships of a candidate is what the commands of the run said of it. */
  lemma ShippedTellsTheRun(cmds: seq<StoreInvariant.Cmd>, db: Db, l: Learning)
    requires db == StoreInvariant.Run(EMPTY, cmds) && l in Outbox(db, DEFAULT_USER)
    ensures var kept := Stories.Candidacy(cmds, l.candidate);
            kept.Some? && kept.value.status == Captured && kept.value.session == l.session &&
            l.corrected == kept.value.text && l.source == kept.value.source &&
            l.raw == HeardAs(Stories.Tape(cmds, l.session), kept.value)
  {
    Eviction.OutboxShips(db, DEFAULT_USER);
    assert Eviction.Ships(db, DEFAULT_USER, l);
    Stories.CandidatesTellTheRun(cmds, l.candidate);
    Stories.RecordingsTellTheRun(cmds, l.session);
    Stories.ReachableIsSound(cmds);
    Stories.SoundIsNamed(db);
  }

  /** End to end: whatever commands the phone ran, a batch it builds and the PC ingests makes the PC train each new
      learning from the text those commands say was heard to the text they say it was corrected to. */
  lemma PcTrainsOnThePhonesRun(cmds: seq<StoreInvariant.Cmd>, phone: Host, batch: string, env: Envelope, pc: Host,
                               draws: seq<Draw>, now: nat, r: Outcome, i: nat)
    requires phone.db == StoreInvariant.Run(EMPTY, cmds) && Built(phone, DEFAULT_USER, batch) == Some(env)
    requires Complete(env) && |draws| == |env.learnings| && r == IngestAll(pc, env, draws, now)
    requires StoreInvariant.Valid(pc.db) && LedgerBacked(pc.db) && IngestRuns.Draws(pc, draws)
    requires forall l :: l in env.learnings ==> ':' !in l.digest
    requires i < |draws| && IngestRuns.First(Stored(pc.db), env.learnings, i)
    ensures var l := env.learnings[i];
            var kept := Stories.Candidacy(cmds, l.candidate);
            kept.Some? && Trains(r.host.db, draws[i].id, HeardAs(Stories.Tape(cmds, kept.value.session), kept.value),
                                 kept.value.text)
  {
    var l := env.learnings[i];
    BatchIsLearnt(pc, env, draws, now, r);
    LearntTrains(r.host, l, draws[i].id, Payload(env, i));
    assert l in env.learnings && env.learnings == Outbox(phone.db, DEFAULT_USER);
    ShippedTellsTheRun(cmds, phone.db, l);
  }

  // ---------------------------------------------------------------- confirming

  /** In any state of the protocol, confirming an acknowledged batch leaves every candidate it lists synced exactly when
      the phone still has all of them; and then it changes nothing else in the store. */
  lemma ConfirmSyncsIff(hash: Bytes -> string, actions: seq<Action>, w: World, env: Envelope, after: Host)
    requires w == Run(hash, actions) && env in w.acked && after == Act(hash, w, Confirm(env)).phone
    ensures (forall l :: l in env.learnings ==>
               l.candidate in after.db.candidates && after.db.candidates[l.candidate].status == Synced) <==>
            (forall l :: l in env.learnings ==> l.candidate in w.phone.db.candidates)
    ensures (forall l :: l in env.learnings ==> l.candidate in w.phone.db.candidates) ==>
              MetadataStore.OnlySynced(w.phone.db, after.db, Ids(env.learnings)) &&
              after.files == w.phone.files - Recordings(w.phone.db, env.learnings)
  {
    SafeStores(hash, actions, w);
    Acts(hash, w, Confirm(env), Act(hash, w, Confirm(env)));
    ConfirmingSyncs(w.phone, env.learnings, ConfirmUpTo(w.phone, env.learnings, |env.learnings|));
  }

  lemma SafeStores(hash: Bytes -> string, actions: seq<Action>, w: World)
    requires w == Run(hash, actions)
    ensures StoreInvariant.Sound(Done(w.phone.db)) && StoreInvariant.Valid(w.pc.db)
  {
    EveryRunIsSafe(hash, actions);
  }

  lemma ConfirmingSyncs(h: Host, learnings: seq<Learning>, r: (Host, bool))
    requires StoreInvariant.Sound(Done(h.db)) && r == ConfirmUpTo(h, learnings, |learnings|)
    ensures (forall l :: l in learnings ==> l.candidate in h.db.candidates) ==>
              MetadataStore.OnlySynced(h.db, r.0.db, Ids(learnings)) &&
              r.0.files == h.files - Recordings(h.db, learnings) &&
              forall l :: l in learnings ==>
                l.candidate in r.0.db.candidates && r.0.db.candidates[l.candidate].status == Synced
    ensures r.0.db.candidates.Keys == h.db.candidates.Keys
  {
    AllConfirmable(h.db, learnings);
    ConfirmSays(h, learnings, |learnings|, r);
    assert learnings[..|learnings|] == learnings;
    if !r.1 {
      var m :| 0 <= m < |learnings| && StoppedAt(h, r.0, learnings, m);
      assert learnings[m] in learnings;
    }
  }

  // ---------------------------------------------------------------- a good round

  lemma {:induction false} AttachWorks(files: map<string, Bytes>, o: seq<Learning>)
    requires forall l :: l in o ==> IsObjectKey(l.audioKey) && l.audioKey in files
    ensures Attached(files, o).Some?
  {
    if o != [] {
      assert o == o[..|o| - 1] + [o[|o| - 1]];
      AttachWorks(files, o[..|o| - 1]);
    }
  }

  /** In no state of the protocol does the export fail: every captured candidate still has its recording. */
  lemma ExportWorks(hash: Bytes -> string, actions: seq<Action>, w: World, batch: string)
    requires w == Run(hash, actions)
    ensures Built(w.phone, DEFAULT_USER, batch).Some?
  {
    EveryRunIsSafe(hash, actions);
    var o := Outbox(w.phone.db, DEFAULT_USER);
    Eviction.OutboxRows(w.phone.db, DEFAULT_USER, w.phone.db.nextCandidate);
    Eviction.ReachableOutboxIsAddressable(w.phone.db, DEFAULT_USER);
    forall l | l in o ensures IsObjectKey(l.audioKey) && l.audioKey in w.phone.files {
      assert Stamped(hash, w.phone, w.recorded, l.candidate) && HasRecording(w.phone, w.recorded, l.candidate);
    }
    AttachWorks(w.phone.files, o);
  }

  lemma ListedIsIn(db: Db, id: nat)
    requires StoreInvariant.Counters(db) && InOutbox(db, DEFAULT_USER, id) && !UserWasDeleted(db.log, DEFAULT_USER)
    ensures id in Ids(Outbox(db, DEFAULT_USER))
  {
    Eviction.OutboxListsAll(db, DEFAULT_USER, db.nextCandidate, id);
    var o := Outbox(db, DEFAULT_USER);
    var i :| 0 <= i < |o| && o[i].candidate == id;
    assert o[i] in o;
  }

  lemma NeverSynced(before: Db, after: Db, ids: set<nat>, id: nat)
    requires MetadataStore.OnlySynced(before, after, ids) && InOutbox(after, DEFAULT_USER, id)
    ensures InOutbox(before, DEFAULT_USER, id) && id !in ids
  {
  }

  /** Once every listed candidate is synced the outbox is empty. */
  lemma SyncedEmpties(before: Db, after: Db)
    requires StoreInvariant.Counters(before)
    requires MetadataStore.OnlySynced(before, after, Ids(Outbox(before, DEFAULT_USER)))
    ensures Outbox(after, DEFAULT_USER) == []
  {
    var o := Outbox(after, DEFAULT_USER);
    if o != [] {
      Eviction.OutboxRows(after, DEFAULT_USER, after.nextCandidate);
      assert o[0] in o;
      NeverSynced(before, after, Ids(Outbox(before, DEFAULT_USER)), o[0].candidate);
      ListedIsIn(before, o[0].candidate);
      assert false;
    }
  }

  lemma Acts(hash: Bytes -> string, w: World, a: Action, next: World)
    requires next == Act(hash, w, a)
    ensures a.Export? ==>
              next == var env := Built(w.phone, DEFAULT_USER, a.batch);
                      if env.Some? then w.(sent := w.sent + {env.value}) else w
    ensures a.Deliver? && a.env in w.sent && Complete(a.env) && |a.draws| == |a.env.learnings| ==>
              var r := IngestAll(w.pc, a.env, a.draws, a.now);
              next == w.(pc := r.host, acked := if r.ok then w.acked + {a.env} else w.acked)
    ensures a.Confirm? && a.env in w.acked ==>
              next == w.(phone := ConfirmUpTo(w.phone, a.env.learnings, |a.env.learnings|).0)
  {
  }

  lemma ExportedIsComplete(hash: Bytes -> string, w: World, batch: string, env: Envelope, next: World)
    requires Built(w.phone, DEFAULT_USER, batch) == Some(env) && next == Act(hash, w, Export(batch))
    ensures next == w.(sent := w.sent + {env}) && Complete(env) && env.learnings == Outbox(w.phone.db, DEFAULT_USER)
    ensures env.batch == batch && Carries(w.phone.files, env.learnings, env.audio)
  {
    Acts(hash, w, Export(batch), next);
    AttachedIsComplete(w.phone.files, env.learnings);
  }

  lemma Acknowledges(hash: Bytes -> string, w: World, env: Envelope, draws: seq<Draw>, now: nat, next: World)
    requires env in w.sent && Complete(env) && |draws| == |env.learnings|
    requires StoreInvariant.Valid(w.pc.db) && LedgerBacked(w.pc.db) && IngestRuns.Draws(w.pc, draws)
    requires (forall l :: l in env.learnings ==> ':' !in l.digest) && next == Act(hash, w, Deliver(env, draws, now))
    ensures next == w.(pc := IngestAll(w.pc, env, draws, now).host, acked := w.acked + {env})
  {
    Acts(hash, w, Deliver(env, draws, now), next);
    IngestRuns.IngestSucceeds(w.pc, env, draws, now, IngestAll(w.pc, env, draws, now));
  }

  /** A good round, from any state of the protocol whose PC never stopped half-way: the phone exports, the PC takes the
      batch under fresh ids on a working disk, the phone confirms. Then every candidate that was waiting is synced and
      nothing waits any more. */
  lemma GoodRoundSyncsAll(hash: Bytes -> string, actions: seq<Action>, batch: string, env: Envelope, draws: seq<Draw>,
                          now: nat, w: World, x: World, y: World, z: World)
    requires w == Run(hash, actions) && Built(w.phone, DEFAULT_USER, batch) == Some(env)
    requires x == Act(hash, w, Export(batch)) && y == Act(hash, x, Deliver(env, draws, now))
    requires z == Act(hash, y, Confirm(env)) && |draws| == |env.learnings|
    requires LedgerBacked(w.pc.db) && IngestRuns.Draws(w.pc, draws)
    requires forall l :: l in env.learnings ==> ':' !in l.digest
    ensures env in y.acked && Outbox(z.phone.db, DEFAULT_USER) == []
    ensures forall i :: InOutbox(w.phone.db, DEFAULT_USER, i) && !UserWasDeleted(w.phone.db.log, DEFAULT_USER) ==>
              i in z.phone.db.candidates && z.phone.db.candidates[i].status == Synced
  {
    ExportedIsComplete(hash, w, batch, env, x);
    SafeStores(hash, actions, w);
    Acknowledges(hash, x, env, draws, now, y);
    Acts(hash, y, Confirm(env), z);
    RoundConfirms(w.phone, env, z.phone);
  }

  lemma RoundConfirms(phone: Host, env: Envelope, after: Host)
    requires StoreInvariant.Sound(Done(phone.db)) && env.learnings == Outbox(phone.db, DEFAULT_USER)
    requires after == ConfirmUpTo(phone, env.learnings, |env.learnings|).0
    ensures Outbox(after.db, DEFAULT_USER) == []
    ensures forall i :: InOutbox(phone.db, DEFAULT_USER, i) && !UserWasDeleted(phone.db.log, DEFAULT_USER) ==>
              i in after.db.candidates && after.db.candidates[i].status == Synced
    ensures forall l :: l in env.learnings ==>
              l.candidate in after.db.candidates && after.db.candidates[l.candidate].status == Synced
  {
    Eviction.OutboxRows(phone.db, DEFAULT_USER, phone.db.nextCandidate);
    ConfirmingSyncs(phone, env.learnings, ConfirmUpTo(phone, env.learnings, |env.learnings|));
    SyncedEmpties(phone.db, after.db);
    forall i | InOutbox(phone.db, DEFAULT_USER, i) && !UserWasDeleted(phone.db.log, DEFAULT_USER)
      ensures i in Ids(env.learnings)
    {
      ListedIsIn(phone.db, i);
    }
  }
}

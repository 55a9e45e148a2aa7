/** One take from the keyboard to the PC: heard as one text, corrected to another, shipped, trained on, confirmed. */
module Journey {
  import opened Basics
  import opened Tables
  import opened StoreInvariant
  import opened AudioStore
  import opened Hosts
  import opened Ingest
  import opened LastCommit
  import opened SyncRound
  import IngestLaws
  import IngestRuns
  import P = SyncProtocol
  import SyncClient
  import Typing

  function SourceOf(x: string, y: string): Source { if x == y then AcceptedWithoutEdit else AcceptedWithEdit }

  /** The phone holds one take, heard as `x` and corrected to `y`, waiting to be shipped. */
  predicate Single(db: Db, s: string, x: string, y: string, digest: string) {
    var u := UtteranceKey(s);
    && db.candidates == map[1 := Candidate(s, u, x, y, y, SourceOf(x, y), Captured, FinalKey(u))]
    && db.nextCandidate == 2 && s in db.sessions && db.sessions[s].user == DEFAULT_USER
    && u in db.utterances && db.utterances[u] == Utterance(DEFAULT_USER, AudioPath(u), Some(digest), Some(x))
    && !UserWasDeleted(db.log, DEFAULT_USER)
  }

  /** What the phone ships of it. */
  function Shipped(s: string, x: string, y: string, digest: string): Learning {
    var u := UtteranceKey(s);
    Learning(1, DEFAULT_USER, u, s, AudioPath(u), digest, x, y, SourceOf(x, y))
  }

  lemma FirstCapture(s: SessionId, x: string, payload: Bytes, digest: string, now: nat, r: (Host, bool))
    requires r == CaptureTake(Host(EMPTY, map[]), s, x, payload, digest, now, Works)
    ensures r.1 && r.0.files == map[AudioPath(UtteranceKey(s)) := payload] && Single(r.0.db, s, x, x, digest)
  {
    var h := Host(EMPTY, map[]);
    EveryReachableStateIsValid([]);
    Typing.CaptureSucceeds(h, s, x, payload, digest, now);
    IngestLaws.FreshSession(EMPTY, s, x, now);
    FinalKeyIsFresh(EMPTY.log, EMPTY.sessions.Keys, s);
    PreparedIs(EMPTY, s, x, digest, now);
    KeyStillFresh(EMPTY, s, x, digest, now);
    CaptureOutcome(h, s, x, payload, digest, now, Works);
    FirstRows(s, x, digest, now, r.0.db);
    P.CaptureAdds(h, s, x, payload, digest, now, Works);
  }

  lemma FirstRows(s: SessionId, x: string, digest: string, now: nat, db: Db)
    requires CreateSession(EMPTY, s, Some(x), now).Done?
    requires db == CommittedAs(Prepared(EMPTY, s, x, digest, now), s, x, FinalKey(UtteranceKey(s)), now)
    ensures Single(db, s, x, x, digest)
  {
  }

  lemma FirstAmend(db: Db, s: string, x: string, y: string, digest: string, after: Db)
    requires Single(db, s, x, x, digest) && after == After(db, AmendCorrection(db, s, x, y))
    ensures Single(after, s, x, y, digest)
  {
  }

  lemma SingleShips(h: Host, s: string, x: string, y: string, payload: Bytes, digest: string, batch: string,
                    env: Envelope)
    requires Single(h.db, s, x, y, digest) && h.files == map[AudioPath(UtteranceKey(s)) := payload]
    requires IsObjectKey(AudioPath(UtteranceKey(s)))
    requires env == Envelope(batch, [Shipped(s, x, y, digest)], map[digest := payload])
    ensures SyncClient.Built(h, DEFAULT_USER, batch) == Some(env)
  {
    SingleWaits(h.db, s, x, y, digest);
    SingleAttached(h.files, Shipped(s, x, y, digest), payload);
  }

  lemma SingleWaits(db: Db, s: string, x: string, y: string, digest: string)
    requires Single(db, s, x, y, digest)
    ensures Outbox(db, DEFAULT_USER) == [Shipped(s, x, y, digest)]
  {
    assert OutboxUpTo(db, DEFAULT_USER, 0) == [] == OutboxUpTo(db, DEFAULT_USER, 1);
    assert OutboxUpTo(db, DEFAULT_USER, 2) == [] + [Shipped(s, x, y, digest)];
  }

  lemma SingleAttached(files: map<string, Bytes>, l: Learning, payload: Bytes)
    requires IsObjectKey(l.audioKey) && files == map[l.audioKey := payload]
    ensures SyncClient.Attached(files, [l]) == Some(map[l.digest := payload])
  {
    assert [l][..0] == [];
    assert SyncClient.Attached(files, []) == Some(map[]);
  }

  // ---------------------------------------------------------------- the run

  /** The states the run goes through. */
  ghost function States(hash: Bytes -> string, actions: seq<P.Action>): seq<P.World> {
    seq(|actions| + 1, n requires 0 <= n <= |actions| => P.Run(hash, actions[..n]))
  }

  ghost predicate Step(hash: Bytes -> string, w: P.World, a: P.Action, next: P.World) { next == P.Act(hash, w, a) }

  lemma RunNext(hash: Bytes -> string, actions: seq<P.Action>, n: nat)
    requires n < |actions|
    ensures Step(hash, P.Run(hash, actions[..n]), actions[n], P.Run(hash, actions[..n + 1]))
  {
    assert actions[..n + 1][..n] == actions[..n];
  }

  lemma RunPasses(hash: Bytes -> string, actions: seq<P.Action>, ws: seq<P.World>)
    requires ws == States(hash, actions)
    ensures forall n :: 0 <= n < |actions| ==> Step(hash, ws[n], actions[n], ws[n + 1])
  {
    forall n | 0 <= n < |actions| ensures Step(hash, ws[n], actions[n], ws[n + 1]) {
      RunNext(hash, actions, n);
    }
  }

  lemma StatesAre(hash: Bytes -> string, actions: seq<P.Action>, ws: seq<P.World>)
    requires ws == States(hash, actions)
    ensures ws[0] == P.START && ws[|actions|] == P.Run(hash, actions)
    ensures forall n :: 0 <= n <= |actions| ==> ws[n] == P.Run(hash, actions[..n])
  {
    assert actions[..0] == [] && actions[..|actions|] == actions;
  }

  /** After the take and its correction. */
  lemma TakenAndCorrected(hash: Bytes -> string, s: SessionId, x: string, y: string, payload: Bytes, now: nat,
                          a: P.Action, b: P.Action, u: P.World, v: P.World, w: P.World)
    requires a == P.Capture(s, x, payload, now, Works) && b == P.OnPhone(DoAmend(s, x, y))
    requires u == P.START && v == P.Act(hash, u, a) && w == P.Act(hash, v, b)
    ensures Single(w.phone.db, s, x, y, hash(payload))
    ensures w.phone.files == map[AudioPath(UtteranceKey(s)) := payload] && w.pc == P.START.pc
  {
    var r := CaptureTake(Host(EMPTY, map[]), s, x, payload, hash(payload), now, Works);
    FirstCapture(s, x, payload, hash(payload), now, r);
    assert v == P.Captured(P.START, hash, s, x, payload, now, Works);
    AmendActs(hash, v, s, x, y, w);
    FirstAmend(v.phone.db, s, x, y, hash(payload), w.phone.db);
  }

  lemma AmendActs(hash: Bytes -> string, v: P.World, s: string, x: string, y: string, w: P.World)
    requires w == P.Act(hash, v, P.OnPhone(DoAmend(s, x, y)))
    ensures w == v.(phone := Host(After(v.phone.db, AmendCorrection(v.phone.db, s, x, y)), v.phone.files))
  {
  }

  lemma FreshPc(d: Draw)
    requires d.disk.Works?
    ensures Valid(P.START.pc.db) && IngestLaws.LedgerBacked(P.START.pc.db) && IngestRuns.Draws(P.START.pc, [d])
    ensures IngestLaws.Stored(P.START.pc.db) == {}
  {
    IngestRuns.EmptyIsBacked();
  }

  /** A keyboard take, corrected once, on a new phone with a new PC: it is heard as `x`, corrected to `y`, exported,
      delivered and confirmed. In the end the PC trains from `x` to `y` on the very recording, and on the phone the
      candidate is synced, its recording reclaimed and the outbox empty. */
  lemma CorrectedTakeArrives(hash: Bytes -> string, s: SessionId, x: string, y: string, payload: Bytes, now: nat,
                             batch: string, env: Envelope, d: Draw, later: nat, actions: seq<P.Action>, end: P.World)
    requires env == Envelope(batch, [Shipped(s, x, y, hash(payload))], map[hash(payload) := payload])
    requires d.disk.Works? && ':' !in hash(payload) && |actions| == 5 && end == P.Run(hash, actions)
    requires actions[0] == P.Capture(s, x, payload, now, Works) && actions[1] == P.OnPhone(DoAmend(s, x, y))
    requires actions[2] == P.Export(batch) && actions[3] == P.Deliver(env, [d], later) && actions[4] == P.Confirm(env)
    ensures Trains(end.pc.db, d.id, x, y)
    ensures var path := AudioPath(UtteranceKey(d.id)); path in end.pc.files && end.pc.files[path] == payload
    ensures 1 in end.phone.db.candidates && end.phone.db.candidates[1].session == s
    ensures end.phone.db.candidates[1].status == Synced
    ensures Outbox(end.phone.db, DEFAULT_USER) == [] && end.phone.files == map[]
  {
    var ws := States(hash, actions);
    RunPasses(hash, actions, ws);
    StatesAre(hash, actions, ws);
    TakenAndCorrected(hash, s, x, y, payload, now, actions[0], actions[1], ws[0], ws[1], ws[2]);
    RoundArrives(hash, actions[..2], s, x, y, payload, batch, env, d, later, actions[2], actions[3], actions[4],
                 ws[2], ws[3], ws[4], ws[5]);
  }

  lemma RoundArrives(hash: Bytes -> string, actions: seq<P.Action>, s: SessionId, x: string, y: string, payload: Bytes,
                     batch: string, env: Envelope, d: Draw, later: nat, a: P.Action, b: P.Action, c: P.Action,
                     w: P.World, sent: P.World, got: P.World, end: P.World)
    requires a == P.Export(batch) && b == P.Deliver(env, [d], later) && c == P.Confirm(env)
    requires w == P.Run(hash, actions) && Single(w.phone.db, s, x, y, hash(payload)) && w.pc == P.START.pc
    requires w.phone.files == map[AudioPath(UtteranceKey(s)) := payload] && d.disk.Works? && ':' !in hash(payload)
    requires env == Envelope(batch, [Shipped(s, x, y, hash(payload))], map[hash(payload) := payload])
    requires sent == P.Act(hash, w, a) && got == P.Act(hash, sent, b) && end == P.Act(hash, got, c)
    ensures Trains(end.pc.db, d.id, x, y)
    ensures var path := AudioPath(UtteranceKey(d.id)); path in end.pc.files && end.pc.files[path] == payload
    ensures 1 in end.phone.db.candidates && end.phone.db.candidates[1].session == s
    ensures end.phone.db.candidates[1].status == Synced
    ensures Outbox(end.phone.db, DEFAULT_USER) == [] && end.phone.files == map[]
  {
    KeyIsAccepted(s);
    SingleShips(w.phone, s, x, y, payload, hash(payload), batch, env);
    FreshPc(d);
    assert env.learnings[0] in env.learnings;
    GoodRoundSyncsAll(hash, actions, batch, env, [d], later, w, sent, got, end);
    RoundIs(hash, batch, env, d, later, w, sent, got, end);
    OneIsLearnt(s, x, y, payload, hash(payload), env, d, later, got.pc);
    SingleConfirmed(w.phone, s, x, y, payload, hash(payload), env, end.phone);
  }

  lemma RoundIs(hash: Bytes -> string, batch: string, env: Envelope, d: Draw, later: nat, w: P.World, sent: P.World,
                got: P.World, end: P.World)
    requires SyncClient.Built(w.phone, DEFAULT_USER, batch) == Some(env) && |env.learnings| == 1
    requires sent == P.Act(hash, w, P.Export(batch)) && got == P.Act(hash, sent, P.Deliver(env, [d], later))
    requires end == P.Act(hash, got, P.Confirm(env)) && env in got.acked
    ensures Complete(env) && got.pc == IngestAll(w.pc, env, [d], later).host && end.pc == got.pc
    ensures end.phone == SyncClient.ConfirmUpTo(w.phone, env.learnings, |env.learnings|).0
  {
    ExportedIsComplete(hash, w, batch, env, sent);
    Acts(hash, sent, P.Deliver(env, [d], later), got);
    Acts(hash, got, P.Confirm(env), end);
  }

  lemma KeyIsAccepted(s: SessionId)
    ensures SourceKey(DEFAULT_USER, UtteranceKey(s)) == Ok(AudioPath(UtteranceKey(s)))
    ensures IsObjectKey(AudioPath(UtteranceKey(s)))
  {
    StoredPathIsSourceKey(s);
    PrintedKeysAreAccepted(DEFAULT_USER, UtteranceKey(s));
  }

  lemma OneIsLearnt(s: string, x: string, y: string, payload: Bytes, digest: string, env: Envelope, d: Draw, later: nat,
                    pc: Host)
    requires env.learnings == [Shipped(s, x, y, digest)] && env.audio == map[digest := payload] && ':' !in digest
    requires d.disk.Works? && pc == IngestAll(P.START.pc, env, [d], later).host
    ensures Trains(pc.db, d.id, x, y)
    ensures var path := AudioPath(UtteranceKey(d.id)); path in pc.files && pc.files[path] == payload
  {
    FreshPc(d);
    BatchIsLearnt(P.START.pc, env, [d], later, IngestAll(P.START.pc, env, [d], later));
    assert IngestRuns.First({}, env.learnings, 0);
    assert IsLearnt(pc, env.learnings[0], d.id, Payload(env, 0));
    LearntTrains(pc, env.learnings[0], d.id, payload);
    var n: nat :| n in pc.db.candidates && Learnt(pc, env.learnings[0], d.id, payload, n);
  }

  lemma SingleConfirmed(h: Host, s: SessionId, x: string, y: string, payload: Bytes, digest: string, env: Envelope,
                        after: Host)
    requires Single(h.db, s, x, y, digest) && h.files == map[AudioPath(UtteranceKey(s)) := payload]
    requires env.learnings == [Shipped(s, x, y, digest)]
    requires after == SyncClient.ConfirmUpTo(h, env.learnings, |env.learnings|).0
    ensures 1 in after.db.candidates && after.db.candidates[1].session == s && after.db.candidates[1].status == Synced
    ensures after.files == map[]
  {
    KeyIsAccepted(s);
    assert SyncClient.ConfirmUpTo(h, env.learnings, 0) == (h, true);
    assert SyncClient.ConfirmUpTo(h, env.learnings, 1) == SyncClient.Confirmed(h, 1);
  }
}

/** The storage cap over whole runs of the keyboard: a persisted take ends under it, and as a session is committed once
    no eviction takes a recording another candidate still needs. */
module StorageCap {
  import opened Basics
  import opened Tables
  import opened StoreInvariant
  import opened Eviction
  import Hosts
  import StreamingTake
  import opened Ffi
  import opened LastCommit
  import FfiLaws
  import StoreLaws

  lemma {:induction false} OwnCommitKeys(log: seq<Event>, s: string)
    requires OwnLog(log)
    ensures forall key :: key in CommitKeys(log, s) ==> key == Hosts.FinalKey(UtteranceKey(s))
  {
    if log != [] {
      var init, e := log[..|log| - 1], log[|log| - 1];
      assert log == init + [e] && e in log;
      OwnCommitKeys(init, s);
    }
  }

  lemma CommitsAreKeyed(log: seq<Event>, s: string)
    requires OwnLog(log)
    ensures CommitKeys(log, s) == [] || HasKey(log, Hosts.FinalKey(UtteranceKey(s)))
  {
    OwnCommitKeys(log, s);
    if CommitKeys(log, s) != [] { StoreLaws.CommitKeyLogged(log, s, CommitKeys(log, s)[0]); }
  }

  lemma FrontIsOwn(log: seq<Event>)
    requires OwnLog(log) && Increasing(log) && log != []
    ensures var init := log[..|log| - 1]; OwnLog(init) && Increasing(init) && OwnEvent(log[|log| - 1])
  {
    assert log[|log| - 1] in log && forall f :: f in log[..|log| - 1] ==> f in log;
  }

  /** The key is the session's, and keys are unique: one commit event a session. */
  lemma {:induction false} OneCommitEvent(log: seq<Event>, s: string)
    requires OwnLog(log) && Increasing(log)
    ensures |CommitKeys(log, s)| <= 1
  {
    if log != [] {
      var init, e := log[..|log| - 1], log[|log| - 1];
      FrontIsOwn(log);
      OneCommitEvent(init, s);
      CommitsAreKeyed(init, s);
      KeyOnce(log);
    }
  }

  lemma KeyOnce(log: seq<Event>)
    requires Increasing(log) && log != []
    ensures !HasKey(log[..|log| - 1], log[|log| - 1].key)
  {
    var init := log[..|log| - 1];
    forall f | f in init ensures f.key != log[|log| - 1].key {
      var i :| 0 <= i < |init| && init[i] == f;
      assert log[i] == f;
    }
  }

  lemma OneCandidateEach(db: Db, i: nat, j: nat)
    requires Good(db) && i in db.candidates && j in db.candidates
    requires db.candidates[i].session == db.candidates[j].session
    ensures i == j
  {
    var s, n := db.candidates[i].session, db.nextCandidate;
    OneCommitEvent(db.log, s);
    StoreLaws.CountCandidates(db.candidates, n, s);
    var own := StoreLaws.CandidatesFor(db.candidates, n, s);
    assert i in own && j in own && |own - {i}| == |own| - 1;
    assert own - {i} == {};
  }

  /** In every state reachable through the keyboard each captured candidate has a recording of its own, so evicting one
      takes no other's. */
  lemma RecordingsAreDistinct(hash: Bytes -> string, actions: seq<Action>)
    ensures DistinctAudio(CapturedRows(Ffi.Run(hash, FRESH, actions).host.db, DEFAULT_USER))
  {
    LastCommitAgrees(hash, actions);
    GoodIsDistinct(Ffi.Run(hash, FRESH, actions).host.db);
  }

  lemma GoodIsDistinct(db: Db)
    requires Good(db)
    ensures DistinctAudio(CapturedRows(db, DEFAULT_USER))
  {
    forall i, j | InOutbox(db, DEFAULT_USER, i) && InOutbox(db, DEFAULT_USER, j) &&
                  db.candidates[i].session == db.candidates[j].session
      ensures i == j
    {
      OneCandidateEach(db, i, j);
    }
    DistinctAudioIff(db, DEFAULT_USER);
  }

  /** Every persisted take that returns Ok, in any state reachable through the keyboard, over restarts and syncs too,
      ends with the captured recordings under the cap, unless their sizes overflow 64 bits. */
  lemma PersistedTakeEndsUnderCap(hash: Bytes -> string, actions: seq<Action>, outcome: StreamingTake.Outcome,
                                  end: PhraseEnd)
    requires var f := Ffi.Run(hash, FRESH, actions);
             && !f.ephemeral && outcome.Speech? && Finalized(hash, f, outcome, end).1
             && var h := Stored(hash, f.host, outcome.text, end);
                CapturedSize(h.db, h.files, DEFAULT_USER) <= U64_MAX
    ensures var f := Ffi.Run(hash, FRESH, actions);
            var h := Finalized(hash, f, outcome, end).0.host;
            CapturedSize(h.db, h.files, DEFAULT_USER) <= CapSet(actions)
  {
    var f := Ffi.Run(hash, FRESH, actions);
    CapInForce(hash, actions);
    LastCommitAgrees(hash, actions);
    UnderCap(hash, f, outcome.text, end);
  }

  /** The device once the take is stored and before the cap is applied. */
  function Stored(hash: Bytes -> string, h: Hosts.Host, text: string, end: PhraseEnd): Hosts.Host {
    if end.encoded.None? then h
    else Hosts.CaptureTake(h, end.id, text, end.encoded.value, hash(end.encoded.value), end.now, end.disk).0
  }

  lemma UnderCap(hash: Bytes -> string, f: State, text: string, end: PhraseEnd)
    requires Good(f.host.db) && end.encoded.Some?
    requires Persisted(hash, f, text, end.encoded.value, end.id, end.now, end.disk).1
    requires var h := Stored(hash, f.host, text, end); CapturedSize(h.db, h.files, DEFAULT_USER) <= U64_MAX
    ensures var h := Persisted(hash, f, text, end.encoded.value, end.id, end.now, end.disk).0.host;
            CapturedSize(h.db, h.files, DEFAULT_USER) <= f.cap
  {
    CaptureSays(f.host, end.id, text, end.encoded.value, hash(end.encoded.value), end.now, end.disk);
    CappedFits(Stored(hash, f.host, text, end), f.cap);
  }

  lemma CappedFits(h: Hosts.Host, cap: nat)
    requires Good(h.db) && CapturedSize(h.db, h.files, DEFAULT_USER) <= U64_MAX
    ensures CapturedSize(Capped(h, cap).db, Capped(h, cap).files, DEFAULT_USER) <= cap
  {
    NeverForgotten(h.db.log);
    CapBoundsCaptured(h.db, h.files, DEFAULT_USER, cap,
                      Outbox(h.db, DEFAULT_USER)[..HowMany(h.db, h.files, DEFAULT_USER, cap)]);
  }

  /** The phone has no privacy delete. */
  lemma NeverForgotten(log: seq<Event>)
    requires OwnLog(log)
    ensures !UserWasDeleted(log, DEFAULT_USER)
  {
  }

  // ---------------------------------------------------------------- which cap

  /** The cap last set since the core was opened, or one gibibyte. */
  function CapSet(actions: seq<Action>): nat {
    if actions == [] then 1_073_741_824
    else
      match actions[|actions| - 1]
      case SetCap(bytes) => bytes
      case Reopen => 1_073_741_824
      case _ => CapSet(actions[..|actions| - 1])
  }

  lemma StoppingKeepsCap(hash: Bytes -> string, f: State,
                         tail: Option<(seq<StreamingTake.Sample>, StreamingTake.Decode)>, end: PhraseEnd)
    ensures Stopped(hash, f, tail, end).0.cap == f.cap
  {
    if f.take.Some? {
      var (g, take) := if tail.Some? then FoldOne(f.(take := None), f.take.value, tail.value.0, tail.value.1)
                       else (f.(take := None), f.take.value);
      if tail.Some? { FfiLaws.FoldOneKeeps(f.(take := None), f.take.value, tail.value.0, tail.value.1); }
      FfiLaws.FinalizedKeeps(hash, g, StreamingTake.Close(take, end.whole), end);
    }
  }

  lemma ActKeepsCap(hash: Bytes -> string, f: State, a: Action)
    requires FfiLaws.Shape(f) && !a.SetCap? && !a.Reopen?
    ensures Act(hash, f, a).0.cap == f.cap
  {
    match a
    case Toggle(tail, end) => StoppingKeepsCap(hash, f, tail, end);
    case ToggleEphemeral(tail, end) => StoppingKeepsCap(hash, f, tail, end);
    case PushFrame(snippets) => if f.recording { FfiLaws.PushAllKeeps(hash, f, snippets); }
    case _ =>
  }

  /** In every run the cap in force is the one last set. */
  lemma {:induction false} CapInForce(hash: Bytes -> string, actions: seq<Action>)
    ensures Ffi.Run(hash, FRESH, actions).cap == CapSet(actions)
  {
    if actions != [] {
      var init, a := actions[..|actions| - 1], actions[|actions| - 1];
      CapInForce(hash, init);
      FfiLaws.EveryRunHasShape(hash, init);
      if !a.SetCap? && !a.Reopen? { ActKeepsCap(hash, Ffi.Run(hash, FRESH, init), a); }
    }
  }
}

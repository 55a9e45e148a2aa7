/** Transcription-only takes: they leave no trace, and field corrections after them reach no take stored before. */
module EphemeralTakes {
  import opened Basics
  import opened Tables
  import AudioStore
  import Hosts
  import opened StreamingTake
  import opened Ffi
  import opened FfiLaws
  import opened LastCommit
  import Eviction
  import SyncClient

  /** Whatever can happen while a take is live without ending it. */
  predicate DuringTake(a: Action) { !Ends(a) }

  predicate Ends(a: Action) { a.Toggle? || a.ToggleEphemeral? || a.Cancel? || a.Reopen? }

  /** What reaches a live take; the rest goes past it to the stores. */
  predicate OfTake(a: Action) { a.PushFrame? || a.StartContinuous? }

  /** The corrections, history edits, sync confirmations and cap changes among the actions. */
  function Others(actions: seq<Action>): seq<Action> {
    if actions == [] then []
    else Others(actions[..|actions| - 1]) + if OfTake(actions[|actions| - 1]) then [] else [actions[|actions| - 1]]
  }

  /** The stores, the cap and what corrections aim at. */
  predicate SameView(f: State, g: State) { SameStore(f, g) && g.cap == f.cap }

  lemma {:induction false} OneShotPushStoresNothing(hash: Bytes -> string, f: State, snippets: seq<Snippet>)
    requires !f.continuous
    ensures var g := PushAll(hash, f, snippets).0;
            g.host == f.host && g.lastCommit == f.lastCommit && !g.continuous && g.ephemeral == f.ephemeral
  {
    if snippets != [] {
      var init := snippets[..|snippets| - 1];
      OneShotPushStoresNothing(hash, f, init);
      var g, last := PushAll(hash, f, init).0, snippets[|snippets| - 1];
      if g.take.Some? { FoldOneKeeps(g, g.take.value, last.audio, last.decode); }
    }
  }

  /** The same view, still in the same kind of take. */
  predicate Past(f: State, after: State, past: State) {
    SameView(after, past) && after.recording == f.recording && after.ephemeral == f.ephemeral
  }

  lemma CorrectedPast(f: State, g: State, s: string, from: string, to: string)
    requires SameView(f, g)
    ensures Past(f, Corrected(f, s, from, to).0, Corrected(g, s, from, to).0)
  {
  }

  lemma ReportedPast(f: State, g: State, text: string)
    requires SameView(f, g)
    ensures Past(f, Reported(f, text).0, Reported(g, text).0)
  {
    if f.lastCommit.Some? { CorrectedPast(f, g, f.lastCommit.value.0, f.lastCommit.value.1, text); }
  }

  lemma EditedPast(f: State, g: State, id: nat, text: string)
    requires SameView(f, g)
    ensures Past(f, Edited(f, id, text).0, Edited(g, id, text).0)
  {
    if id in f.host.db.history { CorrectedPast(f, g, f.host.db.history[id].session, f.host.db.history[id].text, text); }
  }

  lemma AcknowledgedPast(f: State, g: State, learnings: seq<Learning>)
    requires SameView(f, g)
    ensures Past(f, Acknowledged(f, learnings).0, Acknowledged(g, learnings).0)
  {
  }

  /** What goes past a live take does not look at it. */
  lemma OtherSeesNoTake(hash: Bytes -> string, f: State, g: State, a: Action)
    requires DuringTake(a) && !OfTake(a) && SameView(f, g)
    ensures Past(f, Act(hash, f, a).0, Act(hash, g, a).0)
  {
    match a
    case ReportCorrection(text) => ReportedPast(f, g, text);
    case HistoryEdited(id, text) => EditedPast(f, g, id, text);
    case ConfirmSynced(learnings) => AcknowledgedPast(f, g, learnings);
    case SetCap(bytes) =>
  }

  lemma TakeHidesItself(hash: Bytes -> string, f: State, a: Action)
    requires OfTake(a) && Shape(f) && f.recording && f.ephemeral
    ensures var after := Act(hash, f, a).0; SameView(f, after) && after.recording && after.ephemeral
  {
    if a.PushFrame? {
      PushAllKeeps(hash, f, a.snippets);
      OneShotPushStoresNothing(hash, f, a.snippets);
    }
  }

  lemma RunAppend(hash: Bytes -> string, f: State, actions: seq<Action>, a: Action)
    ensures Ffi.Run(hash, f, actions + [a]) == Act(hash, Ffi.Run(hash, f, actions), a).0
  {
    assert (actions + [a])[..|actions|] == actions;
  }

  /** A live ephemeral take is invisible: the stores go as they would without it. */
  lemma {:induction false} LiveEphemeralIsInvisible(hash: Bytes -> string, f: State, g: State, actions: seq<Action>)
    requires Shape(f) && f.recording && f.ephemeral && SameView(f, g) && forall a :: a in actions ==> DuringTake(a)
    ensures var live := Ffi.Run(hash, f, actions);
            Shape(live) && live.recording && live.ephemeral && SameView(live, Ffi.Run(hash, g, Others(actions)))
  {
    if actions != [] {
      var init, a := actions[..|actions| - 1], actions[|actions| - 1];
      assert a in actions;
      LiveEphemeralIsInvisible(hash, f, g, init);
      var live, past := Ffi.Run(hash, f, init), Ffi.Run(hash, g, Others(init));
      ActKeepsShape(hash, live, a);
      if OfTake(a) {
        TakeHidesItself(hash, live, a);
        assert Others(init) + [] == Others(init);
      } else {
        OtherSeesNoTake(hash, live, past, a);
        RunAppend(hash, g, Others(init), a);
      }
    }
  }

  lemma StoppedEphemeral(hash: Bytes -> string, f: State, tail: Option<(seq<Sample>, Decode)>, end: PhraseEnd)
    requires f.take.Some? && f.ephemeral
    ensures var g := Stopped(hash, f, tail, end).0; g.host == f.host && g.lastCommit == None && !g.recording
  {
    var g, take := f.(take := None), f.take.value;
    if tail.Some? {
      FoldOneKeeps(g, take, tail.value.0, tail.value.1);
      var folded := FoldOne(g, take, tail.value.0, tail.value.1);
      g, take := folded.0, folded.1;
    }
    EphemeralStoresNothing(hash, g, Close(take, end.whole), end);
  }

  lemma EphemeralStoresNothing(hash: Bytes -> string, f: State, outcome: Outcome, end: PhraseEnd)
    requires f.ephemeral
    ensures var g := Finalized(hash, f, outcome, end).0; g.host == f.host && g.lastCommit == None
  {
  }

  /** Non-interference: an ephemeral take, whatever is said, whatever else happens meanwhile and however it ends, leaves
      both stores as the other actions alone would have left them. Ending it disarms corrections, except that a cancel
      leaves them aimed where the other actions alone would. */
  lemma EphemeralTakeLeavesNoTrace(hash: Bytes -> string, f: State, tail: Option<(seq<Sample>, Decode)>, end: PhraseEnd,
                                   during: seq<Action>, last: Action, g: State)
    requires Shape(f) && !f.recording && (forall a :: a in during ==> DuringTake(a)) && Ends(last)
    requires g == Act(hash, Ffi.Run(hash, Act(hash, f, ToggleEphemeral(tail, end)).0, during), last).0
    ensures var without := Ffi.Run(hash, f, Others(during));
            && g.host == without.host && !g.recording
            && g.lastCommit == if last.Cancel? then without.lastCommit else None
  {
    var start := Act(hash, f, ToggleEphemeral(tail, end)).0;
    ActKeepsShape(hash, f, ToggleEphemeral(tail, end));
    LiveEphemeralIsInvisible(hash, start, f, during);
    var live := Ffi.Run(hash, start, during);
    if last.Toggle? || last.ToggleEphemeral? { StoppedEphemeral(hash, live, last.tail, last.end); }
  }

  // ---------------------------------------------------------------- corrections after it

  lemma {:induction false} RunIsHealthy(hash: Bytes -> string, f: State, actions: seq<Action>)
    requires Healthy(f)
    ensures Healthy(Ffi.Run(hash, f, actions))
  {
    if actions != [] {
      RunIsHealthy(hash, f, actions[..|actions| - 1]);
      ActIsHealthy(hash, Ffi.Run(hash, f, actions[..|actions| - 1]), actions[|actions| - 1]);
    }
  }

  /** A field correction changes nothing after an ephemeral take exactly when the take was not cancelled, or nothing had
      been committed before it: a cancelled one leaves the earlier take armed. */
  lemma EphemeralTakeDisarmsIff(hash: Bytes -> string, f: State, tail: Option<(seq<Sample>, Decode)>, end: PhraseEnd,
                                during: seq<Action>, last: Action, g: State)
    requires Shape(f) && Healthy(f) && !f.recording && (forall a :: a in during ==> DuringTake(a)) && Ends(last)
    requires g == Act(hash, Ffi.Run(hash, Act(hash, f, ToggleEphemeral(tail, end)).0, during), last).0
    ensures (forall text: string :: Reported(g, text).0.host == g.host) <==> !last.Cancel? || f.lastCommit.None?
  {
    EphemeralTakeLeavesNoTrace(hash, f, tail, end, during, last, g);
    OthersDuring(during);
    OthersKeepArmed(hash, f, Others(during));
    RunIsHealthy(hash, f, Others(during));
    DisarmedIff(g);
  }

  lemma {:induction false} OthersDuring(actions: seq<Action>)
    requires forall a :: a in actions ==> DuringTake(a)
    ensures forall a :: a in Others(actions) ==> DuringTake(a) && !OfTake(a)
  {
    if actions != [] {
      assert actions[|actions| - 1] in actions;
      OthersDuring(actions[..|actions| - 1]);
    }
  }

  /** Corrections, edits and syncs may change what is armed, but not whether anything is. */
  lemma {:induction false} OthersKeepArmed(hash: Bytes -> string, f: State, actions: seq<Action>)
    requires forall a :: a in actions ==> DuringTake(a) && !OfTake(a)
    ensures Ffi.Run(hash, f, actions).lastCommit.None? <==> f.lastCommit.None?
  {
    if actions != [] {
      assert actions[|actions| - 1] in actions;
      OthersKeepArmed(hash, f, actions[..|actions| - 1]);
      OtherKeepsArmed(hash, Ffi.Run(hash, f, actions[..|actions| - 1]), actions[|actions| - 1]);
    }
  }

  lemma OtherKeepsArmed(hash: Bytes -> string, f: State, a: Action)
    requires DuringTake(a) && !OfTake(a)
    ensures Act(hash, f, a).0.lastCommit.None? <==> f.lastCommit.None?
  {
  }

  lemma DisarmedIff(g: State)
    requires Agrees(g)
    ensures (forall text: string :: Reported(g, text).0.host == g.host) <==> g.lastCommit.None?
  {
    if g.lastCommit.Some? {
      var text := g.lastCommit.value.1 + "x";
      ArmedAmends(g, text);
      assert Reported(g, text).0.host != g.host;
    }
  }

  lemma ArmedAmends(g: State, text: string)
    requires Agrees(g) && g.lastCommit.Some? && text != g.lastCommit.value.1
    ensures Reported(g, text).0.host.db.edits != g.host.db.edits
  {
    var db, s := g.host.db, g.lastCommit.value.0;
    assert (s, NextEditIndex(db.edits, s)) in Amended(db, s, g.lastCommit.value.1, text).edits;
  }

  /** Corrections aim at no session of `old`, and those sessions are all still there. */
  predicate Beyond(f: State, old': set<string>) {
    old' <= f.host.db.sessions.Keys && (f.lastCommit.Some? ==> f.lastCommit.value.0 !in old')
  }

  lemma CaptureIsNew(h: Hosts.Host, s: SessionId, text: string, payload: Bytes, digest: string, now: nat,
                     disk: AudioStore.Disk)
    ensures var (after, ok) := Hosts.CaptureTake(h, s, text, payload, digest, now, disk);
            h.db.sessions.Keys <= after.db.sessions.Keys && (ok ==> s !in h.db.sessions)
  {
  }

  lemma {:induction false} FlipKeepsSessions(db: Db, gone: seq<Learning>)
    ensures Eviction.Flip(db, gone).sessions == db.sessions
  {
    if gone != [] { FlipKeepsSessions(db, gone[..|gone| - 1]); }
  }

  lemma PersistedStaysBeyond(hash: Bytes -> string, f: State, text: string, payload: Bytes, id: SessionId, now: nat,
                             disk: AudioStore.Disk, old': set<string>)
    requires Beyond(f, old')
    ensures Beyond(Persisted(hash, f, text, payload, id, now, disk).0, old')
  {
    var (host, ok) := Hosts.CaptureTake(f.host, id, text, payload, hash(payload), now, disk);
    CaptureIsNew(f.host, id, text, payload, hash(payload), now, disk);
    var k := Eviction.HowMany(host.db, host.files, DEFAULT_USER, f.cap);
    FlipKeepsSessions(host.db, Outbox(host.db, DEFAULT_USER)[..k]);
  }

  lemma FinalizedStaysBeyond(hash: Bytes -> string, f: State, outcome: Outcome, end: PhraseEnd, old': set<string>)
    requires Beyond(f, old')
    ensures Beyond(Finalized(hash, f, outcome, end).0, old')
  {
    if outcome.Speech? && !f.ephemeral && end.encoded.Some? {
      PersistedStaysBeyond(hash, f, outcome.text, end.encoded.value, end.id, end.now, end.disk, old');
    }
  }

  lemma {:induction false} PushAllStaysBeyond(hash: Bytes -> string, f: State, snippets: seq<Snippet>,
                                              old': set<string>)
    requires Beyond(f, old')
    ensures Beyond(PushAll(hash, f, snippets).0, old')
  {
    if snippets != [] {
      PushAllStaysBeyond(hash, f, snippets[..|snippets| - 1], old');
      PushOneStaysBeyond(hash, PushAll(hash, f, snippets[..|snippets| - 1]).0, snippets[|snippets| - 1], old');
    }
  }

  lemma PushOneStaysBeyond(hash: Bytes -> string, f: State, snippet: Snippet, old': set<string>)
    requires Beyond(f, old')
    ensures Beyond(PushOne(hash, f, snippet).0, old')
  {
    if f.take.Some? {
      FoldOneSameStore(f, f.take.value, snippet.audio, snippet.decode);
      var (g, take) := FoldOne(f, f.take.value, snippet.audio, snippet.decode);
      if g.continuous {
        FinalizedStaysBeyond(hash, g.(take := Some(FRESH_TAKE)), Close(take, snippet.end.whole), snippet.end, old');
      }
    }
  }

  lemma StoppedStaysBeyond(hash: Bytes -> string, f: State, tail: Option<(seq<Sample>, Decode)>, end: PhraseEnd,
                           old': set<string>)
    requires Beyond(f, old')
    ensures Beyond(Stopped(hash, f, tail, end).0, old')
  {
    if f.take.Some? {
      var g, take := f.(take := None), f.take.value;
      if tail.Some? {
        FoldOneSameStore(g, take, tail.value.0, tail.value.1);
        var folded := FoldOne(g, take, tail.value.0, tail.value.1);
        g, take := folded.0, folded.1;
      }
      FinalizedStaysBeyond(hash, g, Close(take, end.whole), end, old');
    }
  }

  lemma CorrectedStaysBeyond(f: State, s: string, from: string, to: string, old': set<string>)
    requires Beyond(f, old')
    ensures Beyond(Corrected(f, s, from, to).0, old')
  {
  }

  lemma {:induction false} ConfirmKeepsSessions(h: Hosts.Host, learnings: seq<Learning>, n: nat)
    requires n <= |learnings|
    ensures SyncClient.ConfirmUpTo(h, learnings, n).0.db.sessions == h.db.sessions
  {
    if n > 0 { ConfirmKeepsSessions(h, learnings, n - 1); }
  }

  lemma ActStaysBeyond(hash: Bytes -> string, f: State, a: Action, old': set<string>)
    requires Beyond(f, old')
    ensures Beyond(Act(hash, f, a).0, old')
  {
    match a
    case Toggle(tail, end) => StoppedStaysBeyond(hash, f, tail, end, old');
    case ToggleEphemeral(tail, end) => StoppedStaysBeyond(hash, f, tail, end, old');
    case PushFrame(snippets) => PushAllStaysBeyond(hash, f, snippets, old');
    case ReportCorrection(corrected) =>
      if f.lastCommit.Some? {
        CorrectedStaysBeyond(f, f.lastCommit.value.0, f.lastCommit.value.1, corrected, old');
      }
    case HistoryEdited(id, corrected) =>
      if id in f.host.db.history {
        CorrectedStaysBeyond(f, f.host.db.history[id].session, f.host.db.history[id].text, corrected, old');
      }
    case ConfirmSynced(learnings) => ConfirmKeepsSessions(f.host, learnings, |learnings|);
    case StartContinuous =>
    case Cancel =>
    case SetCap(bytes) =>
    case Reopen =>
  }

  lemma {:induction false} RunStaysBeyond(hash: Bytes -> string, f: State, actions: seq<Action>, old': set<string>)
    requires Beyond(f, old')
    ensures Beyond(Ffi.Run(hash, f, actions), old')
  {
    if actions != [] {
      RunStaysBeyond(hash, f, actions[..|actions| - 1], old');
      ActStaysBeyond(hash, Ffi.Run(hash, f, actions[..|actions| - 1]), actions[|actions| - 1], old');
    }
  }

  function CommittedSessions(db: Db): set<string> {
    set s | s in db.sessions && db.sessions[s].state == Committed
  }

  /** These sessions, with their candidates and history rows, are as they were. */
  predicate SessionsAsWere(db: Db, after: Db, old': set<string>) {
    && (forall s :: s in old' && s in db.sessions ==> s in after.sessions && after.sessions[s] == db.sessions[s])
    && (forall i :: i in db.candidates && db.candidates[i].session in old' ==>
          i in after.candidates && after.candidates[i] == db.candidates[i])
    && (forall i :: i in db.history && db.history[i].session in old' ==>
          i in after.history && after.history[i] == db.history[i])
  }

  lemma CorrectionMisses(f: State, text: string, old': set<string>)
    requires Beyond(f, old')
    ensures SessionsAsWere(f.host.db, Reported(f, text).0.host.db, old')
  {
    if f.lastCommit.Some? && f.lastCommit.value.1 != text {
      AmendMisses(f.host.db, f.lastCommit.value.0, f.lastCommit.value.1, text, old');
    }
  }

  lemma AmendMisses(db: Db, s: string, from: string, to: string, old': set<string>)
    requires s !in old'
    ensures SessionsAsWere(db, TryAmend(db, s, from, to).0, old')
  {
  }

  /** Once an ephemeral take ended otherwise than by a cancel, and whatever happens later (takes silent, cancelled,
      ephemeral or stored, edits of the history, corrections, restarts, syncs): as long as no further session was
      committed, nothing is armed and a field correction changes nothing at all; and even afterwards it leaves every
      session stored by then as it is. */
  lemma CorrectionsStayDisarmed(hash: Bytes -> string, earlier: seq<Action>, tail: Option<(seq<Sample>, Decode)>,
                                end: PhraseEnd, during: seq<Action>, last: Action, later: seq<Action>, text: string,
                                f: State, g: State, h: State)
    requires f == Ffi.Run(hash, FRESH, earlier) && !f.recording
    requires (forall a :: a in during ==> DuringTake(a)) && Ends(last) && !last.Cancel?
    requires g == Act(hash, Ffi.Run(hash, Act(hash, f, ToggleEphemeral(tail, end)).0, during), last).0
    requires h == Ffi.Run(hash, g, later)
    ensures CommittedSessions(h.host.db) == CommittedSessions(g.host.db) ==>
              h.lastCommit.None? && Reported(h, text) == (h, true)
    ensures SessionsAsWere(h.host.db, Reported(h, text).0.host.db, g.host.db.sessions.Keys)
  {
    EveryRunHasShape(hash, earlier);
    LastCommitAgrees(hash, earlier);
    EphemeralTakeLeavesNoTrace(hash, f, tail, end, during, last, g);
    RunIsHealthy(hash, f, Others(during));
    RunIsHealthy(hash, g, later);
    RunStaysBeyond(hash, g, later, g.host.db.sessions.Keys);
    CorrectionMisses(h, text, g.host.db.sessions.Keys);
    if h.lastCommit.Some? { ArmedIsCommitted(h, g.host.db); }
  }

  lemma ArmedIsCommitted(h: State, db: Db)
    requires Agrees(h) && Beyond(h, db.sessions.Keys) && h.lastCommit.Some?
    ensures h.lastCommit.value.0 in CommittedSessions(h.host.db) - CommittedSessions(db)
  {
  }
}

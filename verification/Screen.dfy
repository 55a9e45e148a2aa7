/** What is on the keyboard's screen: while a take is live its preview, and afterwards nothing, unless ending it failed.
    */
module Screen {
  import opened Basics
  import opened StreamingTake
  import opened Ffi
  import FfiLaws
  import LastCommit
  import Typing

  /** The text composed in the field, read off the calls: shown or replaced, and gone once cancelled or committed. */
  function Shown(calls: seq<Callback>): Option<string> {
    if calls == [] then None
    else
      match calls[|calls| - 1]
      case ShowPreedit(text) => Some(text)
      case UpdatePreedit(text) => Some(text)
      case CancelPreedit => None
      case CommitText(_) => None
      case _ => Shown(calls[..|calls| - 1])
  }

  /** A preview is begun only where there is none and updated only where there is one. */
  predicate Orderly(calls: seq<Callback>) {
    calls == [] ||
    (Orderly(calls[..|calls| - 1]) &&
     match calls[|calls| - 1]
     case ShowPreedit(_) => Shown(calls[..|calls| - 1]).None?
     case UpdatePreedit(_) => Shown(calls[..|calls| - 1]).Some?
     case _ => true)
  }

  lemma ShownAfter(calls: seq<Callback>, call: Callback)
    ensures Shown(calls + [call]) ==
            match call
            case ShowPreedit(text) => Some(text)
            case UpdatePreedit(text) => Some(text)
            case CancelPreedit => None
            case CommitText(_) => None
            case _ => Shown(calls)
    ensures Orderly(calls + [call]) <==>
            Orderly(calls) && (call.ShowPreedit? ==> Shown(calls).None?) && (call.UpdatePreedit? ==> Shown(calls).Some?)
  {
    assert (calls + [call])[..|calls|] == calls;
  }

  /** The screen holds the preview of the core. */
  predicate Mirrors(f: State) { f.started ==> Shown(f.calls) == Some(f.preedit) }

  /** And nothing else. */
  predicate Clean(f: State) { Orderly(f.calls) && Mirrors(f) && (!f.started ==> Shown(f.calls) == None) }

  // ---------------------------------------------------------------- one phrase

  lemma FoldOneMirrors(f: State, take: Take, audio: seq<Sample>, decode: Decode)
    requires Mirrors(f)
    ensures var g := FoldOne(f, take, audio, decode).0; Mirrors(g) && (Clean(f) ==> Clean(g))
  {
    var g := FoldOne(f, take, audio, decode).0;
    if g.calls != f.calls { ShownAfter(f.calls, g.calls[|f.calls|]); }
  }

  /** A phrase that ends well leaves nothing on the screen, and one that fails leaves it as it was. */
  lemma FinalizedShows(hash: Bytes -> string, f: State, outcome: Outcome, end: PhraseEnd)
    requires LastCommit.Good(f.host.db) && Typing.Known(f) && Mirrors(f)
    ensures var (g, ok) := Finalized(hash, f, outcome, end);
            && (Clean(f) ==> Orderly(g.calls) && Shown(g.calls) == if ok then None else Shown(f.calls))
            && (!ok ==> g.calls == f.calls)
  {
    match outcome
    case Silent => ShownAfter(f.calls, CancelPreedit);
    case Speech(text, _) =>
      ShownAfter(f.calls, CommitText(text));
      if !f.ephemeral && end.encoded.Some? { PersistedTypes(hash, f, text, end.encoded.value, end); }
  }

  lemma PersistedTypes(hash: Bytes -> string, f: State, text: string, payload: Bytes, end: PhraseEnd)
    requires LastCommit.Good(f.host.db) && Typing.Known(f)
    ensures var (g, ok) := Persisted(hash, f, text, payload, end.id, end.now, end.disk);
            g.calls == f.calls + if ok then [CommitText(text)] else []
  {
    Typing.CaptureCommits(f.host, end.id, text, payload, hash(payload), end.now, end.disk);
    if end.id !in f.host.db.sessions { Typing.NeverTyped(f, end.id); }
    Typing.NothingMore(f.calls);
  }

  lemma IdleShows(f: State)
    ensures Shown(Idle(f).calls) == Shown(f.calls) && (Orderly(Idle(f).calls) <==> Orderly(f.calls)) && !Idle(f).started
  {
    ShownAfter(f.calls, RecordingStatus(false));
  }

  lemma StoppedShows(hash: Bytes -> string, f: State, tail: Option<(seq<Sample>, Decode)>, end: PhraseEnd)
    requires FfiLaws.Shape(f) && LastCommit.Good(f.host.db) && Typing.Known(f) && Mirrors(f)
    ensures var (g, ok) := Stopped(hash, f, tail, end);
            && Mirrors(g) && (Clean(f) && ok ==> Clean(g))
            && (Clean(f) && f.recording && !f.continuous ==>
                  (Shown(g.calls).None? <==> ok || Folded(f.take.value, tail).text == ""))
  {
    var g, take := f.(take := None), f.take;
    if take.None? {
      IdleShows(f);
      ShownAfter(f.calls, RecordingStatus(false));
    } else {
      var folded := take.value;
      if tail.Some? {
        FoldOneMirrors(g, folded, tail.value.0, tail.value.1);
        LastCommit.FoldOneSameStore(g, folded, tail.value.0, tail.value.1);
        FfiLaws.FoldOneKeeps(g, folded, tail.value.0, tail.value.1);
        Typing.FoldOneSpeaks(g, folded, tail.value.0, tail.value.1);
        var pair := FoldOne(g, folded, tail.value.0, tail.value.1);
        g, folded := pair.0, pair.1;
      }
      FinalizedShows(hash, g, Close(folded, end.whole), end);
      IdleShows(Finalized(hash, g, Close(folded, end.whole), end).0);
    }
  }

  function Folded(take: Take, tail: Option<(seq<Sample>, Decode)>): Take {
    if tail.Some? then Fold(take, tail.value.0, tail.value.1).0 else take
  }

  /** Stopping a one-shot take takes its preview off the screen exactly when it returns well, or there was no preview: a
      failed stop leaves the text composed in the field, although the core has forgotten it. */
  lemma StopClearsScreenIff(hash: Bytes -> string, f: State, tail: Option<(seq<Sample>, Decode)>, end: PhraseEnd)
    requires FfiLaws.Shape(f) && LastCommit.Good(f.host.db) && Typing.Known(f) && Clean(f)
    requires f.recording && !f.continuous
    ensures var (g, ok) := Stopped(hash, f, tail, end);
            Shown(g.calls).None? <==> ok || Folded(f.take.value, tail).text == ""
  {
    StoppedShows(hash, f, tail, end);
  }

  lemma PushOneShows(hash: Bytes -> string, f: State, snippet: Snippet)
    requires LastCommit.Good(f.host.db) && Typing.Known(f) && Mirrors(f)
    ensures var (g, ok) := PushOne(hash, f, snippet); Mirrors(g) && (Clean(f) && ok ==> Clean(g))
  {
    if f.take.Some? {
      FoldOneMirrors(f, f.take.value, snippet.audio, snippet.decode);
      LastCommit.FoldOneSameStore(f, f.take.value, snippet.audio, snippet.decode);
      Typing.FoldOneSpeaks(f, f.take.value, snippet.audio, snippet.decode);
      var (g, take) := FoldOne(f, f.take.value, snippet.audio, snippet.decode);
      if g.continuous {
        var begun, outcome := g.(take := Some(FRESH_TAKE)), Close(take, snippet.end.whole);
        FinalizedShows(hash, begun, outcome, snippet.end);
        FfiLaws.FinalizedKeeps(hash, begun, outcome, snippet.end);
      }
    }
  }

  lemma {:induction false} PushAllShows(hash: Bytes -> string, f: State, snippets: seq<Snippet>)
    requires LastCommit.Healthy(f) && Typing.Known(f) && Mirrors(f) && !(f.continuous && f.ephemeral)
    ensures var (g, ok) := PushAll(hash, f, snippets); Mirrors(g) && (Clean(f) && ok ==> Clean(g))
  {
    if snippets != [] {
      var init := snippets[..|snippets| - 1];
      PushAllShows(hash, f, init);
      Typing.PushAllSpeaks(hash, f, init);
      if PushAll(hash, f, init).1 { PushOneShows(hash, PushAll(hash, f, init).0, snippets[|snippets| - 1]); }
    }
  }

  lemma AbortedShows(f: State)
    requires Mirrors(f)
    ensures Mirrors(Aborted(f).0) && (Clean(f) ==> Clean(Aborted(f).0))
  {
    if f.recording {
      var calls := if f.started then f.calls + [CancelPreedit] else f.calls;
      ShownAfter(f.calls, CancelPreedit);
      ShownAfter(calls, RecordingStatus(false));
    }
  }

  lemma BeginningShows(f: State)
    requires Mirrors(f) && (f.recording || !f.started)
    ensures Mirrors(ContinuousStarted(f)) && (Clean(f) ==> Clean(ContinuousStarted(f)))
    ensures !f.recording ==>
              forall ephemeral: bool :: var g := Started(f.(continuous := false, ephemeral := ephemeral));
                Mirrors(g) && (Clean(f) ==> Clean(g))
  {
    ShownAfter(f.calls, RecordingStatus(true));
  }

  // ---------------------------------------------------------------- every run

  lemma ToggledShows(hash: Bytes -> string, f: State, ephemeral: bool, tail: Option<(seq<Sample>, Decode)>,
                     end: PhraseEnd)
    requires Typing.Ready(f) && Mirrors(f)
    ensures var (g, ok) := Toggled(hash, f, ephemeral, tail, end); Mirrors(g) && (Clean(f) && ok ==> Clean(g))
  {
    if f.recording { StoppedShows(hash, f, tail, end); } else { BeginningShows(f); }
  }

  lemma PushedShows(hash: Bytes -> string, f: State, snippets: seq<Snippet>)
    requires Typing.Ready(f) && Mirrors(f)
    ensures var (g, ok) := Pushed(hash, f, snippets); Mirrors(g) && (Clean(f) && ok ==> Clean(g))
  {
    if f.recording { PushAllShows(hash, f, snippets); }
  }

  lemma CorrectingShows(hash: Bytes -> string, f: State, a: Action)
    requires Typing.Corrects(a)
    ensures var g := Act(hash, f, a).0; g.calls == f.calls && g.started == f.started && g.preedit == f.preedit
  {
  }

  lemma ActShows(hash: Bytes -> string, f: State, a: Action)
    requires Typing.Ready(f) && Mirrors(f)
    ensures var (g, ok) := Act(hash, f, a); Mirrors(g) && (Clean(f) && ok ==> Clean(g))
  {
    if a.Toggle? {
      ToggledShows(hash, f, false, a.tail, a.end);
    } else if a.ToggleEphemeral? {
      ToggledShows(hash, f, true, a.tail, a.end);
    } else if a.PushFrame? {
      PushedShows(hash, f, a.snippets);
    } else if a.Cancel? {
      AbortedShows(f);
    } else if a.StartContinuous? {
      BeginningShows(f);
    } else if Typing.Corrects(a) {
      CorrectingShows(hash, f, a);
    }
  }

  /** Every action of the run returned well. */
  predicate AllWell(hash: Bytes -> string, actions: seq<Action>) {
    actions == [] ||
    (AllWell(hash, actions[..|actions| - 1]) &&
     Act(hash, Ffi.Run(hash, FRESH, actions[..|actions| - 1]), actions[|actions| - 1]).1)
  }

  /** Over every run the screen holds the preview of the core, in a one-shot take the text folded so far; and as long as
      nothing failed it holds nothing else, and previews are begun, updated and taken away in order. */
  lemma {:induction false} ScreenMirrorsTake(hash: Bytes -> string, actions: seq<Action>)
    ensures var f := Ffi.Run(hash, FRESH, actions);
            && Mirrors(f) && (AllWell(hash, actions) ==> Clean(f))
            && (f.recording ==> f.take.Some?)
            && (f.recording && !f.continuous && f.take.value.text != "" ==> Shown(f.calls) == Some(f.take.value.text))
  {
    Typing.EveryRunIsReady(hash, actions);
    if actions != [] {
      var init := actions[..|actions| - 1];
      ScreenMirrorsTake(hash, init);
      Typing.EveryRunIsReady(hash, init);
      ActShows(hash, Ffi.Run(hash, FRESH, init), actions[|actions| - 1]);
    }
  }

  // ---------------------------------------------------------------- failures the user hears of

  /** The error messages shown, in order. */
  function Errors(calls: seq<Callback>): seq<string> {
    if calls == [] then []
    else
      var last := calls[|calls| - 1];
      Errors(calls[..|calls| - 1]) + if last.DictationError? then [last.message] else []
  }

  lemma ErrorsAfter(calls: seq<Callback>, call: Callback)
    ensures Errors(calls + [call]) == Errors(calls) + if call.DictationError? then [call.message] else []
    ensures !call.DictationError? ==> Errors(calls + [call]) == Errors(calls)
  {
    assert (calls + [call])[..|calls|] == calls;
    Typing.NothingMore(Errors(calls));
  }

  /** What the user is to hear of a decode: its failure, unless the last one in the take had the same code. */
  function Failure(take: Take, decode: Decode): seq<string> {
    if decode.Undecoded? && take.notified != Some(decode.code) then [decode.message] else []
  }

  lemma FoldOneTells(f: State, take: Take, audio: seq<Sample>, decode: Decode)
    ensures Errors(FoldOne(f, take, audio, decode).0.calls) == Errors(f.calls) + Failure(take, decode)
  {
    var g := FoldOne(f, take, audio, decode).0;
    Typing.NothingMore(Errors(f.calls));
    if g.calls != f.calls { ErrorsAfter(f.calls, g.calls[|f.calls|]); }
  }

  lemma FinalizedTells(hash: Bytes -> string, f: State, outcome: Outcome, end: PhraseEnd)
    ensures Errors(Finalized(hash, f, outcome, end).0.calls) == Errors(f.calls)
  {
    ErrorsAfter(f.calls, CancelPreedit);
    if outcome.Speech? { ErrorsAfter(f.calls, CommitText(outcome.text)); }
  }

  /** The failures of the snippets of one buffer, each read against the take it was folded into. */
  function FrameFailures(hash: Bytes -> string, f: State, snippets: seq<Snippet>): seq<string> {
    if snippets == [] then []
    else
      var init, last := snippets[..|snippets| - 1], snippets[|snippets| - 1];
      var (g, ok) := PushAll(hash, f, init);
      FrameFailures(hash, f, init) + if ok && g.take.Some? then Failure(g.take.value, last.decode) else []
  }

  lemma PushOneTells(hash: Bytes -> string, f: State, snippet: Snippet)
    ensures Errors(PushOne(hash, f, snippet).0.calls) ==
            Errors(f.calls) + if f.take.Some? then Failure(f.take.value, snippet.decode) else []
  {
    Typing.NothingMore(Errors(f.calls));
    if f.take.Some? {
      FoldOneTells(f, f.take.value, snippet.audio, snippet.decode);
      var (g, take) := FoldOne(f, f.take.value, snippet.audio, snippet.decode);
      if g.continuous {
        FinalizedTells(hash, g.(take := Some(FRESH_TAKE)), Close(take, snippet.end.whole), snippet.end);
      }
    }
  }

  lemma {:induction false} PushAllTells(hash: Bytes -> string, f: State, snippets: seq<Snippet>)
    ensures Errors(PushAll(hash, f, snippets).0.calls) == Errors(f.calls) + FrameFailures(hash, f, snippets)
  {
    Typing.NothingMore(Errors(f.calls));
    if snippets != [] {
      var init, last := snippets[..|snippets| - 1], snippets[|snippets| - 1];
      PushAllTells(hash, f, init);
      var (g, ok) := PushAll(hash, f, init);
      Typing.NothingMore(FrameFailures(hash, f, init));
      if ok {
        PushOneTells(hash, g, last);
        Associate(Errors(f.calls), FrameFailures(hash, f, init),
                  if g.take.Some? then Failure(g.take.value, last.decode) else []);
      }
    }
  }

  /** What the user is to hear of one action. */
  function Failures(hash: Bytes -> string, f: State, a: Action): seq<string> {
    if !f.recording || f.take.None? then []
    else
      match a
      case Toggle(tail, _) => if tail.Some? then Failure(f.take.value, tail.value.1) else []
      case ToggleEphemeral(tail, _) => if tail.Some? then Failure(f.take.value, tail.value.1) else []
      case PushFrame(snippets) => FrameFailures(hash, f, snippets)
      case _ => []
  }

  lemma StoppedTells(hash: Bytes -> string, f: State, tail: Option<(seq<Sample>, Decode)>, end: PhraseEnd)
    requires f.take.Some?
    ensures Errors(Stopped(hash, f, tail, end).0.calls) ==
            Errors(f.calls) + if tail.Some? then Failure(f.take.value, tail.value.1) else []
  {
    var g, take := f.(take := None), f.take.value;
    Typing.NothingMore(Errors(f.calls));
    if tail.Some? {
      FoldOneTells(g, take, tail.value.0, tail.value.1);
      var pair := FoldOne(g, take, tail.value.0, tail.value.1);
      g, take := pair.0, pair.1;
    }
    FinalizedTells(hash, g, Close(take, end.whole), end);
    ErrorsAfter(Finalized(hash, g, Close(take, end.whole), end).0.calls, RecordingStatus(false));
  }

  lemma ToggledTells(hash: Bytes -> string, f: State, ephemeral: bool, tail: Option<(seq<Sample>, Decode)>,
                     end: PhraseEnd)
    requires f.recording <==> f.take.Some?
    ensures Errors(Toggled(hash, f, ephemeral, tail, end).0.calls) ==
            Errors(f.calls) + if f.recording && tail.Some? then Failure(f.take.value, tail.value.1) else []
  {
    Typing.NothingMore(Errors(f.calls));
    if f.recording { StoppedTells(hash, f, tail, end); } else { ErrorsAfter(f.calls, RecordingStatus(true)); }
  }

  lemma AbortedTells(f: State)
    ensures Errors(Aborted(f).0.calls) == Errors(f.calls) && Errors(ContinuousStarted(f).calls) == Errors(f.calls)
  {
    var calls := if f.started then f.calls + [CancelPreedit] else f.calls;
    ErrorsAfter(f.calls, CancelPreedit);
    ErrorsAfter(calls, RecordingStatus(false));
    ErrorsAfter(f.calls, RecordingStatus(true));
  }

  lemma ActTells(hash: Bytes -> string, f: State, a: Action, g: State)
    requires FfiLaws.Shape(f) && !a.Reopen? && g == Act(hash, f, a).0
    ensures Errors(g.calls) == Errors(f.calls) + Failures(hash, f, a)
  {
    Typing.NothingMore(Errors(f.calls));
    if a.Toggle? {
      ToggledTells(hash, f, false, a.tail, a.end);
    } else if a.ToggleEphemeral? {
      ToggledTells(hash, f, true, a.tail, a.end);
    } else if a.PushFrame? {
      if f.recording { PushAllTells(hash, f, a.snippets); }
    } else if a.Cancel? || a.StartContinuous? {
      AbortedTells(f);
    } else {
      CorrectingShows(hash, f, a);
    }
  }

  /** What the user is to hear of a run, since the core was opened. */
  function AllFailures(hash: Bytes -> string, actions: seq<Action>): seq<string> {
    if actions == [] || actions[|actions| - 1].Reopen? then []
    else
      var init := actions[..|actions| - 1];
      AllFailures(hash, init) + Failures(hash, Ffi.Run(hash, FRESH, init), actions[|actions| - 1])
  }

  /** Over every run the user is told of exactly the failed decodes that do not repeat the last failure of their take,
      in order. */
  lemma {:induction false} EveryFailureIsShown(hash: Bytes -> string, actions: seq<Action>)
    ensures Errors(Ffi.Run(hash, FRESH, actions).calls) == AllFailures(hash, actions)
  {
    if actions != [] {
      var init, a := actions[..|actions| - 1], actions[|actions| - 1];
      EveryFailureIsShown(hash, init);
      FfiLaws.EveryRunHasShape(hash, init);
      if !a.Reopen? { ActTells(hash, Ffi.Run(hash, FRESH, init), a, Ffi.Run(hash, FRESH, actions)); }
    }
  }
}

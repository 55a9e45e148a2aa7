/** What the take machine keeps through any interleaving of takes and corrections. */
module FfiLaws {
  import opened Basics
  import Tables
  import AudioStore
  import Hosts
  import opened StreamingTake
  import opened Ffi

  // ---------------------------------------------------------------- flags, preedit and status callbacks

  function Statuses(calls: seq<Callback>): seq<bool> {
    if calls == [] then []
    else
      var init, last := calls[..|calls| - 1], calls[|calls| - 1];
      Statuses(init) + if last.RecordingStatus? then [last.on] else []
  }

  lemma StatusAfter(calls: seq<Callback>, call: Callback)
    ensures Statuses(calls + [call]) == Statuses(calls) + if call.RecordingStatus? then [call.on] else []
  {
    assert (calls + [call])[..|calls|] == calls;
  }

  /** The status pushes are on, off, on, off, ... and the last one tells whether it is recording. */
  predicate Alternate(statuses: seq<bool>, recording: bool) {
    && (forall i :: 0 <= i < |statuses| ==> (statuses[i] <==> i % 2 == 0))
    && (|statuses| % 2 == 1 <==> recording)
  }

  /** Recording iff there is a take; never both modes; idle is clean; the preedit is started iff it has text, and in a
      one-shot take it is the text the take has folded. */
  predicate Shape(f: State) {
    && (f.recording <==> f.take.Some?)
    && !(f.continuous && f.ephemeral)
    && (!f.recording ==> !f.continuous && !f.ephemeral && f.preedit == "" && !f.started)
    && (f.started <==> f.preedit != "")
    && (f.recording && !f.continuous ==> f.preedit == f.take.value.text)
    && Alternate(Statuses(f.calls), f.recording)
  }

  /** Fields no phrase touches. */
  predicate SameMode(f: State, g: State) {
    g.recording == f.recording && g.continuous == f.continuous && g.ephemeral == f.ephemeral && g.cap == f.cap &&
    Statuses(g.calls) == Statuses(f.calls)
  }

  lemma FoldOneKeeps(f: State, take: Take, audio: seq<Sample>, decode: Decode)
    ensures var (g, after) := FoldOne(f, take, audio, decode);
            && SameMode(f, g) && g.take == f.take && g.host == f.host && g.lastCommit == f.lastCommit
            && ((f.started <==> f.preedit != "") ==> (g.started <==> g.preedit != ""))
            && (f.preedit == take.text ==> g.preedit == after.text)
  {
    ObserveKeeps(f, Fold(take, audio, decode).1);
  }

  lemma ObserveKeeps(f: State, notice: Notice)
    ensures var g := Observe(f, notice);
            && SameMode(f, g) && g.take == f.take && g.host == f.host && g.lastCommit == f.lastCommit
            && g.preedit == (if notice.SnippetCommitted? then f.preedit + notice.chunk else f.preedit)
            && g.started == (f.started || notice.SnippetCommitted?)
  {
    var g := Observe(f, notice);
    if g.calls != f.calls { StatusAfter(f.calls, g.calls[|f.calls|]); }
  }

  lemma AnnouncedKeeps(g: State, text: string, id: Tables.SessionId)
    ensures var h := Announced(g, text, id);
            SameMode(g, h) && h.take == g.take && h.preedit == g.preedit && h.started == g.started
  {
    StatusAfter(g.calls, CommitText(text));
  }

  lemma FinalizedKeeps(hash: Bytes -> string, f: State, outcome: Outcome, end: PhraseEnd)
    ensures var g := Finalized(hash, f, outcome, end).0;
            SameMode(f, g) && g.take == f.take && g.preedit == f.preedit && g.started == f.started
  {
    match outcome
    case Silent => StatusAfter(f.calls, CancelPreedit);
    case Speech(text, _) =>
      if f.ephemeral {
        StatusAfter(f.calls, CommitText(text));
      } else if end.encoded.Some? {
        PersistedKeeps(hash, f, text, end.encoded.value, end.id, end.now, end.disk);
      }
  }

  lemma PersistedKeeps(hash: Bytes -> string, f: State, text: string, payload: Bytes, id: Tables.SessionId, now: nat,
                       disk: AudioStore.Disk)
    ensures var g := Persisted(hash, f, text, payload, id, now, disk).0;
            SameMode(f, g) && g.take == f.take && g.preedit == f.preedit && g.started == f.started
  {
    var host := Hosts.CaptureTake(f.host, id, text, payload, hash(payload), now, disk).0;
    AnnouncedKeeps(f.(host := host), text, id);
  }

  lemma {:induction false} PushAllKeeps(hash: Bytes -> string, f: State, snippets: seq<Snippet>)
    requires Shape(f) && f.recording
    ensures var g := PushAll(hash, f, snippets).0; SameMode(f, g) && Shape(g)
  {
    if snippets != [] {
      var g, last := PushAll(hash, f, snippets[..|snippets| - 1]).0, snippets[|snippets| - 1];
      PushAllKeeps(hash, f, snippets[..|snippets| - 1]);
      PushOneKeeps(hash, g, last);
    }
  }

  lemma PushOneKeeps(hash: Bytes -> string, f: State, snippet: Snippet)
    requires Shape(f) && f.recording
    ensures var g := PushOne(hash, f, snippet).0; SameMode(f, g) && Shape(g)
  {
    FoldOneKeeps(f, f.take.value, snippet.audio, snippet.decode);
    var (g, take) := FoldOne(f, f.take.value, snippet.audio, snippet.decode);
    if g.continuous { FinalizedKeeps(hash, g.(take := Some(FRESH_TAKE)), Close(take, snippet.end.whole), snippet.end); }
  }

  lemma IdleHasShape(h: State)
    requires h.take.None? && Alternate(Statuses(h.calls), true)
    ensures Shape(Idle(h))
  {
    StatusAfter(h.calls, RecordingStatus(false));
  }

  lemma EndedHasShape(hash: Bytes -> string, f: State, outcome: Outcome, end: PhraseEnd)
    requires f.take.None? && Alternate(Statuses(f.calls), true)
    ensures Shape(Idle(Finalized(hash, f, outcome, end).0))
  {
    FinalizedKeeps(hash, f, outcome, end);
    IdleHasShape(Finalized(hash, f, outcome, end).0);
  }

  lemma StoppedKeeps(hash: Bytes -> string, f: State, tail: Option<(seq<Sample>, Decode)>, end: PhraseEnd)
    requires Shape(f) && f.recording
    ensures Shape(Stopped(hash, f, tail, end).0)
  {
    var g, take := f.(take := None), f.take.value;
    if tail.Some? {
      FoldOneKeeps(g, take, tail.value.0, tail.value.1);
      var folded := FoldOne(g, take, tail.value.0, tail.value.1);
      g, take := folded.0, folded.1;
    }
    EndedHasShape(hash, g, Close(take, end.whole), end);
  }

  lemma StartedHasShape(f: State)
    requires Shape(f) && !f.recording
    ensures Shape(Started(f)) && Shape(Started(f.(continuous := true))) && Shape(Started(f.(ephemeral := true)))
  {
    StatusAfter(f.calls, RecordingStatus(true));
  }

  lemma AbortedHasShape(f: State)
    requires Shape(f)
    ensures Shape(Aborted(f).0)
  {
    if f.recording {
      StatusAfter(f.calls, CancelPreedit);
      var g := f.(take := None, recording := false, continuous := false, ephemeral := false,
                  preedit := "", started := false);
      IdleHasShape(if f.started then Say(g, CancelPreedit) else g);
    }
  }

  lemma ToggledKeeps(hash: Bytes -> string, f: State, ephemeral: bool, tail: Option<(seq<Sample>, Decode)>,
                     end: PhraseEnd)
    requires Shape(f)
    ensures Shape(Toggled(hash, f, ephemeral, tail, end).0)
  {
    if f.recording {
      StoppedKeeps(hash, f, tail, end);
    } else {
      StartedHasShape(f);
      assert f.(continuous := false, ephemeral := ephemeral) == f.(ephemeral := ephemeral);
      assert f.(ephemeral := false) == f;
    }
  }

  lemma PushedKeeps(hash: Bytes -> string, f: State, snippets: seq<Snippet>)
    requires Shape(f)
    ensures Shape(Pushed(hash, f, snippets).0)
  {
    if f.recording { PushAllKeeps(hash, f, snippets); }
  }

  lemma ContinuousHasShape(f: State)
    requires Shape(f)
    ensures Shape(ContinuousStarted(f))
  {
    if !f.recording {
      StartedHasShape(f);
      assert f.(continuous := true, ephemeral := false) == f.(continuous := true);
    }
  }

  lemma AmendedHasShape(f: State, s: string, from: string, to: string)
    requires Shape(f)
    ensures Shape(Corrected(f, s, from, to).0)
  {
  }

  lemma ActKeepsShape(hash: Bytes -> string, f: State, a: Action)
    requires Shape(f)
    ensures Shape(Act(hash, f, a).0)
  {
    match a
    case Toggle(tail, end) => ToggledKeeps(hash, f, false, tail, end);
    case ToggleEphemeral(tail, end) => ToggledKeeps(hash, f, true, tail, end);
    case StartContinuous => ContinuousHasShape(f);
    case PushFrame(snippets) => PushedKeeps(hash, f, snippets);
    case Cancel => AbortedHasShape(f);
    case ReportCorrection(corrected) =>
      if f.lastCommit.Some? { AmendedHasShape(f, f.lastCommit.value.0, f.lastCommit.value.1, corrected); }
    case HistoryEdited(id, corrected) =>
      if id in f.host.db.history {
        AmendedHasShape(f, f.host.db.history[id].session, f.host.db.history[id].text, corrected);
      }
    case SetCap(bytes) =>
    case ConfirmSynced(learnings) =>
    case Reopen =>
  }

  /** In every run from a fresh core, whatever fails along the way. */
  lemma {:induction false} EveryRunHasShape(hash: Bytes -> string, actions: seq<Action>)
    ensures Shape(Ffi.Run(hash, FRESH, actions))
  {
    if actions != [] {
      EveryRunHasShape(hash, actions[..|actions| - 1]);
      ActKeepsShape(hash, Ffi.Run(hash, FRESH, actions[..|actions| - 1]), actions[|actions| - 1]);
    }
  }
}

/** The in-process take machine the phone's keyboard drives. */
module Ffi {
  import opened Basics
  import opened Tables
  import StoreInvariant
  import opened AudioStore
  import Eviction
  import opened Hosts
  import opened StreamingTake
  import MetadataStore
  import SyncClient

  datatype Callback =
    | RecordingStatus(on: bool)
    | ShowPreedit(text: string)
    | UpdatePreedit(text: string)
    | CancelPreedit
    | CommitText(text: string)
    | DictationError(message: string)

  /** A finished snippet with what decoding it gives, and what decoding the whole phrase after it would give. */
  datatype Snippet = Snippet(audio: seq<Sample>, decode: Decode, end: PhraseEnd)

  /** What the outside world supplies when a phrase ends: the whole-phrase decode, the encoded recording if encoding
      works, the fresh session id and the time. */
  datatype PhraseEnd = PhraseEnd(whole: Decode, encoded: Option<Bytes>, id: SessionId, now: nat, disk: Disk)

  /** The fields of `Inner`, the callbacks made so far, and the device's stores. */
  datatype State = State(
    recording: bool, continuous: bool, ephemeral: bool, take: Option<Take>, preedit: string, started: bool,
    lastCommit: Option<(SessionId, string)>, cap: nat, typedKeys: set<string>, calls: seq<Callback>, host: Host)

  const DEFAULT_CAP: nat := 1_073_741_824

  // ---------------------------------------------------------------- spec of the steps

  function Say(f: State, call: Callback): State { f.(calls := f.calls + [call]) }

  function Started(f: State): State {
    Say(f.(take := Some(FRESH_TAKE), preedit := "", started := false, recording := true), RecordingStatus(true))
  }

  /** The observer: the preedit holds the whole text so far; the first chunk shows it, later ones update it. */
  function Observe(f: State, notice: Notice): State {
    match notice
    case SnippetCommitted(chunk) =>
      var text := f.preedit + chunk;
      Say(f.(preedit := text, started := true), if f.started then UpdatePreedit(text) else ShowPreedit(text))
    case TranscribeFailed(message) => Say(f, DictationError(message))
    case _ => f
  }

  function FoldOne(f: State, take: Take, audio: seq<Sample>, decode: Decode): (State, Take) {
    var (after, notice) := Fold(take, audio, decode);
    (Observe(f, notice), after)
  }

  /** The storage cap at work on the default user's outbox. */
  function Capped(h: Host, cap: nat): Host {
    var o := Outbox(h.db, DEFAULT_USER);
    var k := Eviction.HowMany(h.db, h.files, DEFAULT_USER, cap);
    Host(Eviction.Flip(h.db, o[..k]), h.files - Eviction.Keys(o[..k]))
  }

  /** `finalize_outcome`: what a finished phrase stores and types. */
  function Finalized(hash: Bytes -> string, f: State, outcome: Outcome, end: PhraseEnd): (State, bool) {
    var g := if f.ephemeral then f.(lastCommit := None) else f;
    match outcome
    case Silent => (if g.started then Say(g, CancelPreedit) else g, true)
    case Speech(text, _) =>
      if g.ephemeral then (Say(g, CommitText(text)), true)
      else if end.encoded.None? then (g, false)
      else Persisted(hash, g, text, end.encoded.value, end.id, end.now, end.disk)
  }

  function Persisted(hash: Bytes -> string, g: State, text: string, payload: Bytes, id: SessionId, now: nat, disk: Disk)
    : (State, bool)
  {
    var (host, ok) := CaptureTake(g.host, id, text, payload, hash(payload), now, disk);
    (if ok then Announced(g.(host := host), text, id) else g.(host := host), ok)
  }

  /** Once stored: type the text unless its key was typed before, aim corrections at it, and apply the cap. */
  function Announced(g: State, text: string, id: SessionId): State {
    var key := FinalKey(UtteranceKey(id));
    var typed := if key in g.typedKeys then g else Say(g.(typedKeys := g.typedKeys + {key}), CommitText(text));
    typed.(host := Capped(g.host, g.cap), lastCommit := Some((id, text)))
  }

  function PushOne(hash: Bytes -> string, f: State, snippet: Snippet): (State, bool) {
    if f.take.None? then (f, false)
    else
      var (g, take) := FoldOne(f, f.take.value, snippet.audio, snippet.decode);
      if !g.continuous then (g.(take := Some(take)), true)
      else
        var (h, ok) := Finalized(hash, g.(take := Some(FRESH_TAKE)), Close(take, snippet.end.whole), snippet.end);
        if ok then (h.(preedit := "", started := false), true) else (h, false)
  }

  /** The snippets one buffer completed, in order; the first error stops. */
  function PushAll(hash: Bytes -> string, f: State, snippets: seq<Snippet>): (State, bool) {
    if snippets == [] then (f, true)
    else
      var (g, ok) := PushAll(hash, f, snippets[..|snippets| - 1]);
      if ok then PushOne(hash, g, snippets[|snippets| - 1]) else (g, false)
  }

  function Pushed(hash: Bytes -> string, f: State, snippets: seq<Snippet>): (State, bool) {
    if !f.recording || f.take.None? then (f, false) else PushAll(hash, f, snippets)
  }

  function Idle(f: State): State {
    Say(f.(recording := false, continuous := false, ephemeral := false, preedit := "", started := false),
        RecordingStatus(false))
  }

  function Stopped(hash: Bytes -> string, f: State, tail: Option<(seq<Sample>, Decode)>, end: PhraseEnd)
    : (State, bool)
  {
    if f.take.None? then (Say(f.(recording := false), RecordingStatus(false)), true)
    else
      var (g, take) := if tail.Some? then FoldOne(f.(take := None), f.take.value, tail.value.0, tail.value.1)
                       else (f.(take := None), f.take.value);
      var (h, ok) := Finalized(hash, g, Close(take, end.whole), end);
      (Idle(h), ok)
  }

  function Toggled(hash: Bytes -> string, f: State, ephemeral: bool, tail: Option<(seq<Sample>, Decode)>,
                   end: PhraseEnd)
    : (State, bool)
  {
    if f.recording then Stopped(hash, f, tail, end)
    else (Started(f.(continuous := false, ephemeral := ephemeral)), true)
  }

  function ContinuousStarted(f: State): State {
    if f.recording then f else Started(f.(continuous := true, ephemeral := false))
  }

  function Aborted(f: State): (State, bool) {
    if !f.recording then (f, false)
    else
      var g := f.(take := None, recording := false, continuous := false, ephemeral := false,
                  preedit := "", started := false);
      (Say(if f.started then Say(g, CancelPreedit) else g, RecordingStatus(false)), true)
  }

  /** One amendment: the new database and whether it went through. */
  function TryAmend(db: Db, s: string, from: string, to: string): (Db, bool) {
    match AmendCorrection(db, s, from, to)
    case Done(after) => (after, true)
    case Failed(_) => (db, false)
  }

  /** Amends a session and, if it is the last commit, keeps the cache in step. */
  function Corrected(f: State, s: string, from: string, to: string): (State, bool) {
    var (db, ok) := TryAmend(f.host.db, s, from, to);
    var g := f.(host := f.host.(db := db));
    if ok && f.lastCommit.Some? && f.lastCommit.value.0 == s
    then (g.(lastCommit := Some((f.lastCommit.value.0, to))), ok) else (g, ok)
  }

  function Reported(f: State, corrected: string): (State, bool) {
    if f.lastCommit.None? || f.lastCommit.value.1 == corrected then (f, true)
    else Corrected(f, f.lastCommit.value.0, f.lastCommit.value.1, corrected)
  }

  function Edited(f: State, id: nat, corrected: string): (State, bool) {
    if id !in f.host.db.history then (f, false)
    else Corrected(f, f.host.db.history[id].session, f.host.db.history[id].text, corrected)
  }

  /** Every copy of the session's text that training or the history will read says `text`. */
  predicate ReadsAs(db: Db, s: string, text: string) {
    && s in db.sessions && db.sessions[s].committedText == Some(text) && db.sessions[s].finalPreedit == Some(text)
    && (forall i :: i in db.candidates && db.candidates[i].session == s ==>
          db.candidates[i].transcript == text && db.candidates[i].corrected == text &&
          db.candidates[i].source == AcceptedWithEdit)
    && (forall i :: i in db.history && db.history[i].session == s && db.history[i].committed ==>
          db.history[i].text == text)
  }

  /** An amendment to another text goes through exactly when the session is there, and then reaches every copy. */
  lemma AmendingReads(db: Db, s: string, from: string, to: string)
    ensures TryAmend(db, s, from, to).1 <==> from == to || s in db.sessions
    ensures var (after, ok) := TryAmend(db, s, from, to);
            ok ==> if from == to then after == db else ReadsAs(after, s, to)
  {
  }

  lemma EntryHasSession(db: Db, id: nat)
    requires StoreInvariant.Sound(Done(db)) && id in db.history
    ensures db.history[id].session in db.sessions
  {
  }

  /** `confirm_synced`, with the learnings of the batch the caller hands back. */
  function Acknowledged(f: State, learnings: seq<Learning>): (State, bool) {
    var (host, ok) := SyncClient.ConfirmUpTo(f.host, learnings, |learnings|);
    (f.(host := host), ok)
  }

  /** A new core over the same data directory: the stores stay, everything in memory starts over. */
  function Reopened(f: State): State { FRESH.(host := f.host) }

  datatype Action =
    | Toggle(tail: Option<(seq<Sample>, Decode)>, end: PhraseEnd)
    | ToggleEphemeral(tail: Option<(seq<Sample>, Decode)>, end: PhraseEnd)
    | StartContinuous
    | PushFrame(snippets: seq<Snippet>)
    | Cancel
    | ReportCorrection(corrected: string)
    | HistoryEdited(id: nat, corrected: string)
    | SetCap(bytes: nat)
    | ConfirmSynced(learnings: seq<Learning>)
    | Reopen

  function Act(hash: Bytes -> string, f: State, a: Action): (State, bool) {
    match a
    case Toggle(tail, end) => Toggled(hash, f, false, tail, end)
    case ToggleEphemeral(tail, end) => Toggled(hash, f, true, tail, end)
    case StartContinuous => (ContinuousStarted(f), true)
    case PushFrame(snippets) => Pushed(hash, f, snippets)
    case Cancel => Aborted(f)
    case ReportCorrection(corrected) => Reported(f, corrected)
    case HistoryEdited(id, corrected) => Edited(f, id, corrected)
    case SetCap(bytes) => (f.(cap := bytes), true)
    case ConfirmSynced(learnings) => Acknowledged(f, learnings)
    case Reopen => (Reopened(f), true)
  }

  const FRESH := State(false, false, false, None, "", false, None, DEFAULT_CAP, {}, [], Host(EMPTY, map[]))

  function Run(hash: Bytes -> string, f: State, actions: seq<Action>): State {
    if actions == [] then f
    else Act(hash, Run(hash, f, actions[..|actions| - 1]), actions[|actions| - 1]).0
  }

  // ---------------------------------------------------------------- the object

  class Inner {
    const hash: Bytes -> string
    const store: MetadataStore.MetadataStore
    const audio: FileAudioStore
    var recording: bool
    var continuous: bool
    var ephemeral: bool
    var take: Option<Take>
    var preedit: string
    var preeditStarted: bool
    var lastCommit: Option<(SessionId, string)>
    var audioStorageCap: nat
    var typedKeys: set<string>
    var calls: seq<Callback>

    ghost predicate Valid()
      reads store
    {
      StoreInvariant.Sound(Done(store.db))
    }

    ghost function Now(): State
      reads this, store, audio
    {
      State(recording, continuous, ephemeral, take, preedit, preeditStarted, lastCommit, audioStorageCap, typedKeys,
            calls, Host(store.db, audio.files))
    }

    constructor (hash: Bytes -> string)
      ensures Valid() && fresh(store) && fresh(audio) && Now() == FRESH && this.hash == hash
    {
      this.hash := hash;
      store := new MetadataStore.MetadataStore();
      audio := new FileAudioStore();
      recording, continuous, ephemeral, take := false, false, false, None;
      preedit, preeditStarted, lastCommit := "", false, None;
      audioStorageCap, typedKeys, calls := DEFAULT_CAP, {}, [];
      new;
      StoreInvariant.EveryReachableStateIsValid([]);
    }

    constructor Reopen(previous: Inner)
      requires previous.Valid()
      ensures Valid() && store == previous.store && audio == previous.audio && hash == previous.hash
      ensures Now() == Reopened(previous.Now())
    {
      hash, store, audio := previous.hash, previous.store, previous.audio;
      recording, continuous, ephemeral, take := false, false, false, None;
      preedit, preeditStarted, lastCommit := "", false, None;
      audioStorageCap, typedKeys, calls := DEFAULT_CAP, {}, [];
    }

    method StartRecording()
      modifies this
      ensures Now() == Started(old(Now()))
    {
      take := Some(FRESH_TAKE);
      preedit, preeditStarted := "", false;
      recording := true;
      calls := calls + [RecordingStatus(true)];
    }

    /** Folds one snippet into the given take and tells the keyboard. */
    method FoldSnippet(current: Take, snippet: seq<Sample>, decode: Decode) returns (after: Take)
      modifies this
      ensures (Now(), after) == FoldOne(old(Now()), current, snippet, decode)
    {
      var folded := Fold(current, snippet, decode);
      after := folded.0;
      match folded.1 {
        case SnippetCommitted(chunk) =>
          preedit := preedit + chunk;
          calls := calls + [if preeditStarted then UpdatePreedit(preedit) else ShowPreedit(preedit)];
          preeditStarted := true;
        case TranscribeFailed(message) => calls := calls + [DictationError(message)];
        case _ =>
      }
    }

    method FinalizeOutcome(outcome: Outcome, end: PhraseEnd) returns (ok: bool)
      requires Valid()
      modifies this, store, audio
      ensures Valid() && (Now(), ok) == Finalized(hash, old(Now()), outcome, end)
    {
      if ephemeral { lastCommit := None; }
      match outcome {
        case Silent =>
          if preeditStarted { calls := calls + [CancelPreedit]; }
          return true;
        case Speech(text, _) =>
          if ephemeral {
            calls := calls + [CommitText(text)];
            return true;
          }
          if end.encoded.None? { return false; }
          ok := Persist(text, end.encoded.value, end.id, end.now, end.disk);
      }
    }

    method Persist(text: string, payload: Bytes, id: SessionId, now: nat, disk: Disk) returns (ok: bool)
      requires Valid()
      modifies this, store, audio
      ensures Valid() && (Now(), ok) == Persisted(hash, old(Now()), text, payload, id, now, disk)
    {
      ok := Store(text, payload, id, now, disk);
      if ok { ok := Announce(text, id); }
    }

    method Announce(text: string, id: SessionId) returns (ok: bool)
      requires Valid()
      modifies this, store, audio
      ensures Valid() && ok && Now() == Announced(old(Now()), text, id)
    {
      var key := FinalKey(UtteranceKey(id));
      if key !in typedKeys {
        calls := calls + [CommitText(text)];
        typedKeys := typedKeys + {key};
      }
      lastCommit := Some((id, text));
      ok := ReclaimOverCap();
    }

    method ReclaimOverCap() returns (ok: bool)
      requires Valid()
      modifies store, audio
      ensures Valid() && ok && Host(store.db, audio.files) == Capped(old(Host(store.db, audio.files)), audioStorageCap)
    {
      Eviction.ReachableOutboxIsAddressable(store.db, DEFAULT_USER);
      Eviction.OutboxAfterFlip(store.db, DEFAULT_USER,
                               Eviction.HowMany(store.db, audio.files, DEFAULT_USER, audioStorageCap));
      var evicted := store.EvictCapturedAudioOverCap(DEFAULT_USER, audioStorageCap, audio);
      ok := evicted.Some?;
    }

    /** The four store and file calls of a finished take; the first failure ends it. */
    method Store(text: string, payload: Bytes, id: SessionId, now: nat, disk: Disk) returns (ok: bool)
      requires Valid()
      modifies store, audio
      ensures Valid()
      ensures (Host(store.db, audio.files), ok) ==
              CaptureTake(old(Host(store.db, audio.files)), id, text, payload, hash(payload), now, disk)
    {
      CaptureKeepsValid(Host(store.db, audio.files), id, text, payload, hash(payload), now, disk);
      var u := UtteranceKey(id);
      var created := store.CreateSession(id, Some(text), now);
      if created.Some? { return false; }
      var written := audio.WriteSourceAudio(DEFAULT_USER, u, payload, disk);
      if written.Err? { return false; }
      var stamped := store.SetAudioDigest(u, hash(payload));
      if stamped.Some? { return false; }
      var committed := store.CommitSession(id, text, FinalKey(u), now);
      return committed.None?;
    }

    method PushSnippet(snippet: Snippet) returns (ok: bool)
      requires Valid()
      modifies this, store, audio
      ensures Valid() && (Now(), ok) == PushOne(hash, old(Now()), snippet)
    {
      if take.None? { return false; }
      var folded := FoldSnippet(take.value, snippet.audio, snippet.decode);
      if !continuous {
        take := Some(folded);
        return true;
      }
      take := Some(FRESH_TAKE);
      ok := FinalizeOutcome(Close(folded, snippet.end.whole), snippet.end);
      if ok { preedit, preeditStarted := "", false; }
    }

    method PushPcmFrame(snippets: seq<Snippet>) returns (ok: bool)
      requires Valid()
      modifies this, store, audio
      ensures Valid() && (Now(), ok) == Pushed(hash, old(Now()), snippets)
    {
      if !recording || take.None? { return false; }
      ok := true;
      var i := 0;
      while i < |snippets| && ok
        invariant 0 <= i <= |snippets| && Valid()
        invariant (Now(), ok) == PushAll(hash, old(Now()), snippets[..i])
      {
        assert snippets[..i + 1][..i] == snippets[..i];
        ok := PushSnippet(snippets[i]);
        i := i + 1;
      }
      if ok { assert snippets[..i] == snippets; } else { ErrorStops(hash, old(Now()), snippets, i); }
    }

    method StopRecording(tail: Option<(seq<Sample>, Decode)>, end: PhraseEnd) returns (ok: bool)
      requires Valid()
      modifies this, store, audio
      ensures Valid() && (Now(), ok) == Stopped(hash, old(Now()), tail, end)
    {
      if take.None? {
        recording := false;
        calls := calls + [RecordingStatus(false)];
        return true;
      }
      var current := take.value;
      take := None;
      if tail.Some? { current := FoldSnippet(current, tail.value.0, tail.value.1); }
      ok := EndTake(current, end);
    }

    method EndTake(current: Take, end: PhraseEnd) returns (ok: bool)
      requires Valid()
      modifies this, store, audio
      ensures Valid()
      ensures Now() == Idle(Finalized(hash, old(Now()), Close(current, end.whole), end).0)
      ensures ok == Finalized(hash, old(Now()), Close(current, end.whole), end).1
    {
      ok := FinalizeOutcome(Close(current, end.whole), end);
      GoIdle();
    }

    method GoIdle()
      modifies this
      ensures Now() == Idle(old(Now()))
    {
      recording, continuous, ephemeral := false, false, false;
      preedit, preeditStarted := "", false;
      calls := calls + [RecordingStatus(false)];
    }

    method ToggleRecording(tail: Option<(seq<Sample>, Decode)>, end: PhraseEnd) returns (ok: bool)
      requires Valid()
      modifies this, store, audio
      ensures Valid() && (Now(), ok) == Toggled(hash, old(Now()), false, tail, end)
    {
      if recording {
        ok := StopRecording(tail, end);
      } else {
        continuous, ephemeral := false, false;
        StartRecording();
        ok := true;
      }
    }

    method ToggleEphemeralRecording(tail: Option<(seq<Sample>, Decode)>, end: PhraseEnd) returns (ok: bool)
      requires Valid()
      modifies this, store, audio
      ensures Valid() && (Now(), ok) == Toggled(hash, old(Now()), true, tail, end)
    {
      if recording {
        ok := StopRecording(tail, end);
      } else {
        continuous, ephemeral := false, true;
        StartRecording();
        ok := true;
      }
    }

    method StartContinuousRecording()
      modifies this
      ensures Now() == ContinuousStarted(old(Now()))
    {
      if recording { return; }
      continuous, ephemeral := true, false;
      StartRecording();
    }

    method CancelRecording() returns (ok: bool)
      modifies this
      ensures (Now(), ok) == Aborted(old(Now()))
    {
      if !recording { return false; }
      take, recording, continuous, ephemeral := None, false, false, false;
      var hadPreedit := preeditStarted;
      preedit, preeditStarted := "", false;
      if hadPreedit { calls := calls + [CancelPreedit]; }
      calls := calls + [RecordingStatus(false)];
      return true;
    }

    method Amend(s: string, from: string, to: string) returns (ok: bool)
      requires Valid()
      modifies this, store
      ensures Valid() && (Now(), ok) == Corrected(old(Now()), s, from, to)
      ensures ok <==> from == to || s in old(store.db).sessions
      ensures ok ==> if from == to then store.db == old(store.db) else ReadsAs(store.db, s, to)
      ensures ok ==> lastCommit == if old(lastCommit).Some? && old(lastCommit).value.0 == s
                                   then Some((old(lastCommit).value.0, to)) else old(lastCommit)
      ensures !ok ==> Now() == old(Now())
    {
      ok := AmendStored(s, from, to);
      if ok && lastCommit.Some? && lastCommit.value.0 == s { lastCommit := Some((lastCommit.value.0, to)); }
    }

    method AmendStored(s: string, from: string, to: string) returns (ok: bool)
      requires Valid()
      modifies store
      ensures Valid() && (store.db, ok) == TryAmend(old(store.db), s, from, to)
      ensures ok <==> from == to || s in old(store.db).sessions
      ensures ok ==> if from == to then store.db == old(store.db) else ReadsAs(store.db, s, to)
    {
      AmendingReads(store.db, s, from, to);
      StoreInvariant.AmendKeeps(store.db, s, from, to);
      var error := store.AmendCorrection(s, from, to);
      ok := error.None?;
    }

    method ReportFieldCorrection(corrected: string) returns (ok: bool)
      requires Valid()
      modifies this, store
      ensures Valid() && (Now(), ok) == Reported(old(Now()), corrected)
      ensures old(lastCommit).None? ==> ok && Now() == old(Now())
      ensures old(lastCommit).Some? && old(lastCommit).value.1 == corrected ==> ok && Now() == old(Now())
      ensures old(lastCommit).Some? && old(lastCommit).value.1 != corrected ==>
                var s := old(lastCommit).value.0;
                && (ok <==> s in old(store.db).sessions)
                && (ok ==> ReadsAs(store.db, s, corrected) && lastCommit == Some((s, corrected)))
                && (!ok ==> Now() == old(Now()))
    {
      if lastCommit.None? || corrected == lastCommit.value.1 { return true; }
      ok := Amend(lastCommit.value.0, lastCommit.value.1, corrected);
    }

    method EditHistory(id: nat, corrected: string) returns (ok: bool)
      requires Valid()
      modifies this, store
      ensures Valid() && (Now(), ok) == Edited(old(Now()), id, corrected)
      ensures ok <==> id in old(store.db).history
      ensures ok ==>
                var row := old(store.db).history[id];
                && (row.text != corrected ==> ReadsAs(store.db, row.session, corrected))
                && (row.text == corrected ==> store.db == old(store.db))
                && lastCommit == if old(lastCommit).Some? && old(lastCommit).value.0 == row.session
                                 then Some((old(lastCommit).value.0, corrected)) else old(lastCommit)
      ensures !ok ==> Now() == old(Now())
    {
      if id !in store.db.history { return false; }
      EntryHasSession(store.db, id);
      ok := Amend(store.db.history[id].session, store.db.history[id].text, corrected);
    }

    method ConfirmSynced(learnings: seq<Learning>) returns (ok: bool)
      requires Valid()
      modifies store, audio
      ensures Valid() && (Now(), ok) == Acknowledged(old(Now()), learnings)
      ensures ok <==> forall l :: l in learnings ==> l.candidate in old(store.db).candidates
      ensures ok ==>
                && MetadataStore.OnlySynced(old(store.db), store.db, SyncClient.Ids(learnings))
                && forall l :: l in learnings ==> store.db.candidates[l.candidate].status == Synced
    {
      SyncClient.AllConfirmable(store.db, learnings);
      SyncClient.ConfirmKeepsValid(Host(store.db, audio.files), learnings, |learnings|);
      ok := SyncClient.ConfirmShipped(store, audio, learnings);
    }

    method SetAudioStorageCap(bytes: nat)
      modifies this
      ensures Now() == old(Now()).(cap := bytes)
    {
      audioStorageCap := bytes;
    }
  }

  lemma {:induction false} ErrorStops(hash: Bytes -> string, f: State, snippets: seq<Snippet>, n: nat)
    requires n <= |snippets| && !PushAll(hash, f, snippets[..n]).1
    ensures PushAll(hash, f, snippets) == PushAll(hash, f, snippets[..n])
    decreases |snippets| - n
  {
    if n == |snippets| {
      assert snippets[..n] == snippets;
    } else {
      assert snippets[..n + 1][..n] == snippets[..n];
      ErrorStops(hash, f, snippets, n + 1);
    }
  }
}

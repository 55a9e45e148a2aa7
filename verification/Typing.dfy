/** What is typed: over runs of the keyboard, the texts committed into the field are the texts of the finished phrases,
    and the texts stored. */
module Typing {
  import opened Basics
  import opened Tables
  import AudioStore
  import Hosts
  import opened StreamingTake
  import opened Ffi
  import opened LastCommit
  import StoreLaws
  import IngestLaws
  import SyncClient
  import FfiLaws

  // ---------------------------------------------------------------- reading calls and log

  /** The texts committed into the field, in order. */
  function TypedTexts(calls: seq<Callback>): seq<string> {
    if calls == [] then []
    else
      var last := calls[|calls| - 1];
      TypedTexts(calls[..|calls| - 1]) + if last.CommitText? then [last.text] else []
  }

  /** The texts of the committed sessions, in the order of their commits. */
  function CommittedTexts(log: seq<Event>): seq<string> {
    if log == [] then []
    else
      var last := log[|log| - 1];
      CommittedTexts(log[..|log| - 1]) + if last.kind == SessionCommitted then [last.payload] else []
  }

  function TextOf(call: Callback): seq<string> { if call.CommitText? then [call.text] else [] }

  lemma TypedAfter(calls: seq<Callback>, call: Callback)
    ensures TypedTexts(calls + [call]) == TypedTexts(calls) + TextOf(call)
    ensures !call.CommitText? ==> TypedTexts(calls + [call]) == TypedTexts(calls)
  {
    assert (calls + [call])[..|calls|] == calls;
    NothingMore(TypedTexts(calls));
  }

  lemma CommittedAfter(log: seq<Event>, e: Event)
    ensures CommittedTexts(log + [e]) ==
            CommittedTexts(log) + if e.kind == SessionCommitted then [e.payload] else []
  {
    assert (log + [e])[..|log|] == log;
  }

  lemma NothingMore<T>(a: seq<T>)
    ensures a + [] == a
  {
  }

  /** The take's own keys belong to sessions that are stored. */
  predicate Known(f: State) { forall key :: key in f.typedKeys ==> OfLive(key, f.host.db.sessions.Keys) }

  predicate OfLive(key: string, live: set<string>) {
    exists s :: s in live && key == Hosts.FinalKey(UtteranceKey(s))
  }

  /** From one state to the next, these texts were typed and these committed to the store; sessions are only added. */
  predicate Speaks(f: State, g: State, typed: seq<string>, stored: seq<string>) {
    && TypedTexts(g.calls) == TypedTexts(f.calls) + typed
    && CommittedTexts(g.host.db.log) == CommittedTexts(f.host.db.log) + stored
    && f.host.db.sessions.Keys <= g.host.db.sessions.Keys
  }

  lemma QuietSpeaks(f: State, g: State)
    requires TypedTexts(g.calls) == TypedTexts(f.calls)
    requires CommittedTexts(g.host.db.log) == CommittedTexts(f.host.db.log)
    requires f.host.db.sessions.Keys <= g.host.db.sessions.Keys
    ensures Speaks(f, g, [], [])
  {
    NothingMore(TypedTexts(f.calls));
    NothingMore(CommittedTexts(f.host.db.log));
  }

  lemma SpeaksOn(f: State, g: State, h: State, typed: seq<string>, stored: seq<string>, typed': seq<string>,
                 stored': seq<string>)
    requires Speaks(f, g, typed, stored) && Speaks(g, h, typed', stored')
    ensures Speaks(f, h, typed + typed', stored + stored')
  {
    Associate(TypedTexts(f.calls), typed, typed');
    Associate(CommittedTexts(f.host.db.log), stored, stored');
  }

  lemma KnownStays(f: State, g: State)
    requires Known(f) && g.typedKeys == f.typedKeys && f.host.db.sessions.Keys <= g.host.db.sessions.Keys
    ensures Known(g)
  {
    forall key | key in g.typedKeys ensures OfLive(key, g.host.db.sessions.Keys) {
      var s :| s in f.host.db.sessions.Keys && key == Hosts.FinalKey(UtteranceKey(s));
      assert s in g.host.db.sessions.Keys;
    }
  }

  // ---------------------------------------------------------------- one phrase

  lemma FoldOneSpeaks(f: State, take: Take, audio: seq<Sample>, decode: Decode)
    ensures var g := FoldOne(f, take, audio, decode).0; Speaks(f, g, [], []) && g.typedKeys == f.typedKeys
  {
    ObservedSpeaks(f, Fold(take, audio, decode).1, FoldOne(f, take, audio, decode).0);
  }

  lemma ObservedSpeaks(f: State, notice: Notice, g: State)
    requires g == Observe(f, notice)
    ensures Speaks(f, g, [], []) && g.typedKeys == f.typedKeys
  {
    if g.calls != f.calls { TypedAfter(f.calls, g.calls[|f.calls|]); }
    QuietSpeaks(f, g);
  }

  /** The events of a capture, as far as it gets. */
  ghost predicate CaptureLogged(before: Db, after: Db, s: SessionId, text: string, ok: bool) {
    && before.sessions.Keys <= after.sessions.Keys
    && (ok ==> s !in before.sessions && s in after.sessions)
    && exists created, committed: Event :: IsCreated(created) && IsCommitted(committed, text) &&
         (if ok then after.log == before.log + [created] + [committed]
          else after.log == before.log || after.log == before.log + [created])
  }

  predicate IsCreated(e: Event) { e.kind == SessionCreated }
  predicate IsCommitted(e: Event, text: string) { e.kind == SessionCommitted && e.payload == text }

  lemma CaptureLogs(h: Hosts.Host, s: SessionId, text: string, payload: Bytes, digest: string, now: nat,
                    disk: AudioStore.Disk)
    requires Good(h.db)
    ensures var (after, ok) := Hosts.CaptureTake(h, s, text, payload, digest, now, disk);
            CaptureLogged(h.db, after.db, s, text, ok)
  {
    var (after, ok) := Hosts.CaptureTake(h, s, text, payload, digest, now, disk);
    if CreateSession(h.db, s, Some(text), now).Done? {
      FinalKeyIsFresh(h.db.log, h.db.sessions.Keys, s);
      PreparedIs(h.db, s, text, digest, now);
      KeyStillFresh(h.db, s, text, digest, now);
      CaptureOutcome(h, s, text, payload, digest, now, disk);
      OutcomeLogged(h.db, Prepared(h.db, s, text, digest, now), s, text, digest, now, after.db, ok);
    } else {
      NothingLogged(h.db, s, text);
    }
  }

  lemma NothingLogged(db: Db, s: SessionId, text: string)
    ensures CaptureLogged(db, db, s, text, false)
  {
    assert IsCreated(Event(0, SessionCreated, s, text, ""));
    assert IsCommitted(Event(0, SessionCommitted, s, text, ""), text);
  }

  lemma OutcomeLogged(db: Db, prepared: Db, s: SessionId, text: string, digest: string, now: nat, after: Db, ok: bool)
    requires CreateSession(db, s, Some(text), now).Done? && prepared == Prepared(db, s, text, digest, now)
    requires if ok then after == CommittedAs(prepared, s, text, Hosts.FinalKey(UtteranceKey(s)), now)
             else after == prepared || after == CreateSession(db, s, Some(text), now).db
    ensures CaptureLogged(db, after, s, text, ok)
  {
    var created := Event(db.lastEventId + 1, SessionCreated, s, text, CreatedKey(s));
    var committed := Event(db.lastEventId + 2, SessionCommitted, s, text, Hosts.FinalKey(UtteranceKey(s)));
    assert IsCreated(created) && IsCommitted(committed, text);
    assert prepared.log == db.log + [created];
  }

  lemma LoggedTexts(before: Db, after: Db, s: SessionId, text: string, ok: bool)
    requires CaptureLogged(before, after, s, text, ok)
    ensures CommittedTexts(after.log) == CommittedTexts(before.log) + if ok then [text] else []
  {
    var created, committed: Event :| IsCreated(created) && IsCommitted(committed, text) &&
      (if ok then after.log == before.log + [created] + [committed]
       else after.log == before.log || after.log == before.log + [created]);
    CommittedAfter(before.log, created);
    CommittedAfter(before.log + [created], committed);
    NothingMore(CommittedTexts(before.log));
  }

  /** A capture adds its session and, exactly when it completes, one commit event with its text. */
  lemma CaptureCommits(h: Hosts.Host, s: SessionId, text: string, payload: Bytes, digest: string, now: nat,
                       disk: AudioStore.Disk)
    requires Good(h.db)
    ensures var (after, ok) := Hosts.CaptureTake(h, s, text, payload, digest, now, disk);
            && CommittedTexts(after.db.log) == CommittedTexts(h.db.log) + (if ok then [text] else [])
            && h.db.sessions.Keys <= after.db.sessions.Keys
            && (ok ==> s !in h.db.sessions && s in after.db.sessions)
  {
    CaptureLogs(h, s, text, payload, digest, now, disk);
    var (after, ok) := Hosts.CaptureTake(h, s, text, payload, digest, now, disk);
    LoggedTexts(h.db, after.db, s, text, ok);
  }

  lemma NeverTyped(f: State, id: SessionId)
    requires Known(f) && id !in f.host.db.sessions
    ensures Hosts.FinalKey(UtteranceKey(id)) !in f.typedKeys
  {
    if Hosts.FinalKey(UtteranceKey(id)) in f.typedKeys {
      var s :| s in f.host.db.sessions.Keys && Hosts.FinalKey(UtteranceKey(id)) == Hosts.FinalKey(UtteranceKey(s));
      FinalKeyInjective(s, id);
    }
  }

  lemma AnnouncedSpeaks(f: State, g: State, text: string, id: SessionId)
    requires Known(f) && id !in f.host.db.sessions && id in g.host.db.sessions
    requires g == f.(host := g.host) && f.host.db.sessions.Keys <= g.host.db.sessions.Keys
    requires CommittedTexts(g.host.db.log) == CommittedTexts(f.host.db.log) + [text]
    ensures Speaks(f, Announced(g, text, id), [text], [text]) && Known(Announced(g, text, id))
  {
    var h := Announced(g, text, id);
    NeverTyped(f, id);
    TypedAfter(f.calls, CommitText(text));
    CapKeepsRows(g.host, g.cap);
    KnownStays(f, f.(host := h.host));
    assert OfLive(Hosts.FinalKey(UtteranceKey(id)), h.host.db.sessions.Keys);
  }

  lemma PersistedSpeaks(hash: Bytes -> string, f: State, text: string, payload: Bytes, id: SessionId, now: nat,
                        disk: AudioStore.Disk)
    requires Good(f.host.db) && Known(f)
    ensures var (g, ok) := Persisted(hash, f, text, payload, id, now, disk);
            Known(g) && Speaks(f, g, if ok then [text] else [], if ok then [text] else [])
  {
    var (host, ok) := Hosts.CaptureTake(f.host, id, text, payload, hash(payload), now, disk);
    CaptureCommits(f.host, id, text, payload, hash(payload), now, disk);
    if ok {
      AnnouncedSpeaks(f, f.(host := host), text, id);
    } else {
      KnownStays(f, f.(host := host));
      NothingMore(TypedTexts(f.calls));
    }
  }

  /** What a finished phrase says: its text, if it has one and all went well. */
  function Said(outcome: Outcome, ok: bool): seq<string> { if outcome.Speech? && ok then [outcome.text] else [] }

  /** A finished phrase types its text exactly when it returns well, and commits it to the store exactly when it is not
      ephemeral. */
  lemma FinalizedSpeaks(hash: Bytes -> string, f: State, outcome: Outcome, end: PhraseEnd)
    requires Good(f.host.db) && Known(f)
    ensures var (g, ok) := Finalized(hash, f, outcome, end);
            Known(g) && Speaks(f, g, Said(outcome, ok), if f.ephemeral then [] else Said(outcome, ok))
  {
    NothingMore(TypedTexts(f.calls));
    NothingMore(CommittedTexts(f.host.db.log));
    match outcome
    case Silent => TypedAfter(f.calls, CancelPreedit);
    case Speech(text, _) =>
      if f.ephemeral {
        TypedAfter(f.calls, CommitText(text));
      } else if end.encoded.Some? {
        PersistedSpeaks(hash, f, text, end.encoded.value, end.id, end.now, end.disk);
      }
  }

  // ---------------------------------------------------------------- one action

  /** The text a live take ends with, once its unpaused tail is folded in. */
  function Ending(take: Take, tail: Option<(seq<Sample>, Decode)>, end: PhraseEnd): Outcome {
    Close(if tail.Some? then Fold(take, tail.value.0, tail.value.1).0 else take, end.whole)
  }

  lemma IdleSpeaks(f: State, g: State, typed: seq<string>, stored: seq<string>)
    requires Speaks(f, g, typed, stored) && Known(g)
    ensures Speaks(f, Idle(g), typed, stored) && Known(Idle(g))
  {
    TypedAfter(g.calls, RecordingStatus(false));
  }

  /** The core and the take once the tail is folded in. */
  function Flushed(f: State, take: Take, tail: Option<(seq<Sample>, Decode)>): (State, Take) {
    if tail.Some? then FoldOne(f, take, tail.value.0, tail.value.1) else (f, take)
  }

  lemma FlushedSpeaks(f: State, take: Take, tail: Option<(seq<Sample>, Decode)>)
    requires Good(f.host.db) && Known(f)
    ensures var g := Flushed(f, take, tail).0;
            && Good(g.host.db) && Known(g) && g.ephemeral == f.ephemeral && g.host == f.host
            && TypedTexts(g.calls) == TypedTexts(f.calls)
  {
    if tail.Some? {
      FoldOneSpeaks(f, take, tail.value.0, tail.value.1);
      FfiLaws.FoldOneKeeps(f, take, tail.value.0, tail.value.1);
    }
  }

  lemma StoppedIs(hash: Bytes -> string, f: State, take: Take, tail: Option<(seq<Sample>, Decode)>, end: PhraseEnd,
                  g: State, folded: Take, h: State, ok: bool)
    requires f.take == Some(take) && (g, folded) == Flushed(f.(take := None), take, tail)
    requires (h, ok) == Finalized(hash, g, Close(folded, end.whole), end)
    ensures Stopped(hash, f, tail, end) == (Idle(h), ok) && Ending(take, tail, end) == Close(folded, end.whole)
  {
  }

  lemma StoppedSpeaks(hash: Bytes -> string, f: State, take: Take, tail: Option<(seq<Sample>, Decode)>, end: PhraseEnd)
    requires Good(f.host.db) && Known(f) && f.take == Some(take)
    ensures var (g, ok) := Stopped(hash, f, tail, end);
            var said := Said(Ending(take, tail, end), ok);
            Known(g) && Speaks(f, g, said, if f.ephemeral then [] else said)
  {
    var (g, folded) := Flushed(f.(take := None), take, tail);
    FlushedSpeaks(f.(take := None), take, tail);
    FinalizedSpeaks(hash, g, Close(folded, end.whole), end);
    var (h, ok) := Finalized(hash, g, Close(folded, end.whole), end);
    var said := Said(Close(folded, end.whole), ok);
    StoppedIs(hash, f, take, tail, end, g, folded, h, ok);
    IdleSpeaks(f, h, said, if f.ephemeral then [] else said);
  }

  /** The phrases a buffer's snippets finish in continuous mode. */
  function Phrases(hash: Bytes -> string, f: State, snippets: seq<Snippet>): seq<string> {
    if snippets == [] then []
    else
      var init, last := snippets[..|snippets| - 1], snippets[|snippets| - 1];
      var (g, ok) := PushAll(hash, f, init);
      Phrases(hash, f, init) + if ok then Phrase(hash, g, last) else []
  }

  function Phrase(hash: Bytes -> string, f: State, snippet: Snippet): seq<string> {
    if f.take.None? || !f.continuous then []
    else
      Said(Close(Fold(f.take.value, snippet.audio, snippet.decode).0, snippet.end.whole), PushOne(hash, f, snippet).1)
  }

  /** The live take, folded, and the outcome of its phrase. */
  lemma PhraseSpeaks(hash: Bytes -> string, f: State, outcome: Outcome, end: PhraseEnd)
    requires Good(f.host.db) && Known(f) && f.continuous && !f.ephemeral
    ensures var (g, ok) := Finalized(hash, f, outcome, end);
            && Known(g) && Speaks(f, g, Said(outcome, ok), Said(outcome, ok)) && g.continuous && !g.ephemeral
  {
    FinalizedSpeaks(hash, f, outcome, end);
    FfiLaws.FinalizedKeeps(hash, f, outcome, end);
  }

  lemma PushOneSpeaks(hash: Bytes -> string, f: State, snippet: Snippet)
    requires Good(f.host.db) && Known(f) && !(f.continuous && f.ephemeral)
    ensures var (g, ok) := PushOne(hash, f, snippet);
            && Known(g) && Speaks(f, g, Phrase(hash, f, snippet), Phrase(hash, f, snippet))
            && g.ephemeral == f.ephemeral && g.continuous == f.continuous
  {
    NothingMore(TypedTexts(f.calls));
    NothingMore(CommittedTexts(f.host.db.log));
    if f.take.Some? {
      FoldOneSpeaks(f, f.take.value, snippet.audio, snippet.decode);
      FfiLaws.FoldOneKeeps(f, f.take.value, snippet.audio, snippet.decode);
      var (g, take) := FoldOne(f, f.take.value, snippet.audio, snippet.decode);
      if f.continuous {
        var outcome, end := Close(take, snippet.end.whole), snippet.end;
        PhraseSpeaks(hash, g.(take := Some(FRESH_TAKE)), outcome, end);
        var (h, ok) := Finalized(hash, g.(take := Some(FRESH_TAKE)), outcome, end);
        PushedOne(hash, f, snippet, g, take, h, ok);
      }
    }
  }

  lemma PushedOne(hash: Bytes -> string, f: State, snippet: Snippet, g: State, take: Take, h: State, ok: bool)
    requires f.take.Some? && f.continuous && g.continuous
    requires (g, take) == FoldOne(f, f.take.value, snippet.audio, snippet.decode)
    requires (h, ok) == Finalized(hash, g.(take := Some(FRESH_TAKE)), Close(take, snippet.end.whole), snippet.end)
    ensures PushOne(hash, f, snippet) == (if ok then h.(preedit := "", started := false) else h, ok)
    ensures Phrase(hash, f, snippet) == Said(Close(take, snippet.end.whole), ok)
  {
  }

  lemma {:induction false} PushAllSpeaks(hash: Bytes -> string, f: State, snippets: seq<Snippet>)
    requires Healthy(f) && Known(f) && !(f.continuous && f.ephemeral)
    ensures var g := PushAll(hash, f, snippets).0;
            && Healthy(g) && Known(g) && Speaks(f, g, Phrases(hash, f, snippets), Phrases(hash, f, snippets))
            && g.ephemeral == f.ephemeral && g.continuous == f.continuous
  {
    NothingMore(TypedTexts(f.calls));
    NothingMore(CommittedTexts(f.host.db.log));
    PushAllIsHealthy(hash, f, snippets);
    if snippets != [] {
      var init, last := snippets[..|snippets| - 1], snippets[|snippets| - 1];
      PushAllSpeaks(hash, f, init);
      var (g, ok) := PushAll(hash, f, init);
      NothingMore(Phrases(hash, f, init));
      if ok {
        PushOneSpeaks(hash, g, last);
        var more := Phrase(hash, g, last);
        SpeaksOn(f, g, PushOne(hash, g, last).0, Phrases(hash, f, init), Phrases(hash, f, init), more, more);
      }
    }
  }

  /** What an action gives the user: the text of the take it ends, the phrases a continuous take finishes, and otherwise
      nothing. */
  function Finished(hash: Bytes -> string, f: State, a: Action): seq<string> {
    match a
    case Toggle(tail, end) => if f.take.None? then [] else Said(Ending(f.take.value, tail, end), Act(hash, f, a).1)
    case ToggleEphemeral(tail, end) =>
      if f.take.None? then [] else Said(Ending(f.take.value, tail, end), Act(hash, f, a).1)
    case PushFrame(snippets) => if f.recording then Phrases(hash, f, snippets) else []
    case _ => []
  }

  lemma AmendingLogs(db: Db, s: string, from: string, to: string)
    ensures var after := TryAmend(db, s, from, to).0; after.log == db.log && after.sessions.Keys == db.sessions.Keys
  {
  }

  lemma CorrectedSpeaks(f: State, s: string, from: string, to: string)
    ensures var g := Corrected(f, s, from, to).0; Speaks(f, g, [], []) && g.typedKeys == f.typedKeys
  {
    AmendingLogs(f.host.db, s, from, to);
    OnlyAmended(f, s, from, to, Corrected(f, s, from, to).0);
  }

  lemma OnlyAmended(f: State, s: string, from: string, to: string, g: State)
    requires g == Corrected(f, s, from, to).0
    requires var after := TryAmend(f.host.db, s, from, to).0;
             after.log == f.host.db.log && after.sessions.Keys == f.host.db.sessions.Keys
    ensures Speaks(f, g, [], []) && g.typedKeys == f.typedKeys
  {
    assert g.calls == f.calls && g.host.db == TryAmend(f.host.db, s, from, to).0;
    QuietSpeaks(f, g);
  }

  lemma {:induction false} ConfirmingLogs(h: Hosts.Host, learnings: seq<Learning>, n: nat)
    requires n <= |learnings|
    ensures var after := SyncClient.ConfirmUpTo(h, learnings, n).0.db;
            after.log == h.db.log && after.sessions == h.db.sessions
  {
    if n > 0 { ConfirmingLogs(h, learnings, n - 1); }
  }

  lemma ToggledSpeaks(hash: Bytes -> string, f: State, ephemeral: bool, tail: Option<(seq<Sample>, Decode)>,
                      end: PhraseEnd)
    requires FfiLaws.Shape(f) && Healthy(f) && Known(f)
    ensures var (g, ok) := Toggled(hash, f, ephemeral, tail, end);
            var said := if f.take.None? then [] else Said(Ending(f.take.value, tail, end), ok);
            Known(g) && Speaks(f, g, said, if f.ephemeral then [] else said)
  {
    NothingMore(TypedTexts(f.calls));
    NothingMore(CommittedTexts(f.host.db.log));
    if f.recording {
      StoppedSpeaks(hash, f, f.take.value, tail, end);
    } else {
      TypedAfter(f.calls, RecordingStatus(true));
    }
  }

  lemma AbortedSpeaks(f: State)
    requires Known(f)
    ensures Known(Aborted(f).0) && Speaks(f, Aborted(f).0, [], [])
  {
    if f.recording {
      var calls := if f.started then f.calls + [CancelPreedit] else f.calls;
      TypedAfter(f.calls, CancelPreedit);
      TypedAfter(calls, RecordingStatus(false));
    }
    QuietSpeaks(f, Aborted(f).0);
  }

  predicate Corrects(a: Action) { a.ReportCorrection? || a.HistoryEdited? || a.ConfirmSynced? || a.SetCap? }

  lemma CorrectingSpeaks(hash: Bytes -> string, f: State, a: Action)
    requires Corrects(a) && Known(f)
    ensures Known(Act(hash, f, a).0) && Speaks(f, Act(hash, f, a).0, [], [])
  {
    if a.ReportCorrection? {
      ReportingSpeaks(f, a.corrected);
    } else if a.HistoryEdited? {
      EditingSpeaks(f, a.id, a.corrected);
    } else if a.ConfirmSynced? {
      ConfirmingLogs(f.host, a.learnings, |a.learnings|);
      QuietSpeaks(f, Acknowledged(f, a.learnings).0);
    } else {
      QuietSpeaks(f, f.(cap := a.bytes));
    }
  }

  lemma ReportingSpeaks(f: State, text: string)
    requires Known(f)
    ensures Known(Reported(f, text).0) && Speaks(f, Reported(f, text).0, [], [])
  {
    if f.lastCommit.Some? {
      CorrectedSpeaks(f, f.lastCommit.value.0, f.lastCommit.value.1, text);
      if f.lastCommit.value.1 != text { KnownStays(f, Reported(f, text).0); }
    }
  }

  lemma EditingSpeaks(f: State, id: nat, text: string)
    requires Known(f)
    ensures Known(Edited(f, id, text).0) && Speaks(f, Edited(f, id, text).0, [], [])
  {
    if id in f.host.db.history {
      CorrectedSpeaks(f, f.host.db.history[id].session, f.host.db.history[id].text, text);
      KnownStays(f, Edited(f, id, text).0);
    }
  }

  /** Every action of a core types exactly what it finishes, and commits to the store just that, or nothing if the live
      take is ephemeral. */
  lemma ActSpeaks(hash: Bytes -> string, f: State, a: Action, g: State)
    requires FfiLaws.Shape(f) && Healthy(f) && Known(f) && !a.Reopen? && g == Act(hash, f, a).0
    ensures Known(g) && Speaks(f, g, Finished(hash, f, a), if f.ephemeral then [] else Finished(hash, f, a))
  {
    if a.Toggle? {
      ToggledSpeaks(hash, f, false, a.tail, a.end);
    } else if a.ToggleEphemeral? {
      ToggledSpeaks(hash, f, true, a.tail, a.end);
    } else if a.PushFrame? {
      PushedSpeaks(hash, f, a.snippets);
    } else if a.Cancel? {
      AbortedSpeaks(f);
    } else if a.StartContinuous? {
      StartedSpeaks(f);
    } else {
      CorrectingSpeaks(hash, f, a);
    }
  }

  lemma PushedSpeaks(hash: Bytes -> string, f: State, snippets: seq<Snippet>)
    requires FfiLaws.Shape(f) && Healthy(f) && Known(f)
    ensures var said := if f.recording then Phrases(hash, f, snippets) else [];
            Known(Pushed(hash, f, snippets).0) &&
            Speaks(f, Pushed(hash, f, snippets).0, said, if f.ephemeral then [] else said)
  {
    NothingMore(TypedTexts(f.calls));
    NothingMore(CommittedTexts(f.host.db.log));
    if f.recording {
      PushAllSpeaks(hash, f, snippets);
      if f.ephemeral { OneShotIsQuiet(hash, f, snippets); }
    }
  }

  lemma {:induction false} OneShotIsQuiet(hash: Bytes -> string, f: State, snippets: seq<Snippet>)
    requires Healthy(f) && Known(f) && !f.continuous
    ensures Phrases(hash, f, snippets) == []
  {
    if snippets != [] {
      OneShotIsQuiet(hash, f, snippets[..|snippets| - 1]);
      PushAllSpeaks(hash, f, snippets[..|snippets| - 1]);
    }
  }

  lemma StartedSpeaks(f: State)
    requires Known(f)
    ensures Known(ContinuousStarted(f)) && Speaks(f, ContinuousStarted(f), [], [])
  {
    TypedAfter(f.calls, RecordingStatus(true));
    QuietSpeaks(f, ContinuousStarted(f));
  }

  // ---------------------------------------------------------------- every run

  /** Everything a run of actions gives the user, in order. */
  function AllFinished(hash: Bytes -> string, f: State, actions: seq<Action>): seq<string> {
    if actions == [] then []
    else
      var init, last := actions[..|actions| - 1], actions[|actions| - 1];
      AllFinished(hash, f, init) + Finished(hash, Ffi.Run(hash, f, init), last)
  }

  predicate StaysOpen(actions: seq<Action>) { forall a :: a in actions ==> !a.Reopen? }
  predicate AllPersisted(actions: seq<Action>) { forall a :: a in actions ==> !a.ToggleEphemeral? }

  ghost predicate Ready(f: State) { FfiLaws.Shape(f) && Healthy(f) && Known(f) }

  lemma {:induction false} EveryRunIsReady(hash: Bytes -> string, actions: seq<Action>)
    ensures Ready(Ffi.Run(hash, FRESH, actions))
  {
    FfiLaws.EveryRunHasShape(hash, actions);
    LastCommitAgrees(hash, actions);
    if actions != [] {
      var init, last := actions[..|actions| - 1], actions[|actions| - 1];
      EveryRunIsReady(hash, init);
      if !last.Reopen? { ActSpeaks(hash, Ffi.Run(hash, FRESH, init), last, Ffi.Run(hash, FRESH, actions)); }
    }
  }

  lemma StaysPersisted(hash: Bytes -> string, f: State, a: Action)
    requires FfiLaws.Shape(f) && !f.ephemeral && !a.ToggleEphemeral?
    ensures !Act(hash, f, a).0.ephemeral
  {
    if a.Toggle? && f.recording {
      assert Act(hash, f, a).0 == Stopped(hash, f, a.tail, a.end).0;
    } else if a.PushFrame? && f.recording {
      FfiLaws.PushAllKeeps(hash, f, a.snippets);
    }
  }

  /** Over every run of the keyboard, from any reachable state and until the next restart: what is typed into the field
      is exactly what was finished, in order; and as long as no transcription-only take is made, it is exactly what was
      committed to the store. */
  lemma {:induction false} TypedIsCommitted(hash: Bytes -> string, earlier: seq<Action>, later: seq<Action>, f: State,
                                            g: State)
    requires f == Ffi.Run(hash, FRESH, earlier) && g == Ffi.Run(hash, f, later) && StaysOpen(later)
    ensures Ready(g) && TypedTexts(g.calls) == TypedTexts(f.calls) + AllFinished(hash, f, later)
    ensures !f.ephemeral && AllPersisted(later) ==>
              !g.ephemeral &&
              CommittedTexts(g.host.db.log) == CommittedTexts(f.host.db.log) + AllFinished(hash, f, later)
  {
    NothingMore(TypedTexts(f.calls));
    NothingMore(CommittedTexts(f.host.db.log));
    if later == [] {
      EveryRunIsReady(hash, earlier);
    } else {
      var init, a := later[..|later| - 1], later[|later| - 1];
      var h := Ffi.Run(hash, f, init);
      assert a in later;
      TypedIsCommitted(hash, earlier, init, f, h);
      ActSpeaks(hash, h, a, g);
      StepReady(hash, h, a, g);
      if !h.ephemeral && !a.ToggleEphemeral? { StaysPersisted(hash, h, a); }
      Associate(TypedTexts(f.calls), AllFinished(hash, f, init), Finished(hash, h, a));
      Associate(CommittedTexts(f.host.db.log), AllFinished(hash, f, init), Finished(hash, h, a));
    }
  }

  lemma StepReady(hash: Bytes -> string, f: State, a: Action, g: State)
    requires Ready(f) && g == Act(hash, f, a).0 && Known(g)
    ensures Ready(g)
  {
    FfiLaws.ActKeepsShape(hash, f, a);
    ActIsHealthy(hash, f, a);
  }

  // ---------------------------------------------------------------- a take that goes well

  /** On a working disk a capture under an unused id completes. */
  lemma CaptureSucceeds(h: Hosts.Host, s: SessionId, text: string, payload: Bytes, digest: string, now: nat)
    requires Good(h.db) && IngestLaws.FreshId(h, s)
    ensures Hosts.CaptureTake(h, s, text, payload, digest, now, AudioStore.Works).1
  {
    IngestLaws.FreshSession(h.db, s, text, now);
    FinalKeyIsFresh(h.db.log, h.db.sessions.Keys, s);
    StoreLaws.CommitOpen(h.db, Hosts.FinalKey(UtteranceKey(s)));
    PreparedIs(h.db, s, text, digest, now);
    KeyStillFresh(h.db, s, text, digest, now);
    AudioStore.StoredPathIsSourceKey(s);
    PreparedCommits(h.db, s, text, digest, now);
  }

  lemma PreparedCommits(db: Db, s: SessionId, text: string, digest: string, now: nat)
    requires CreateSession(db, s, Some(text), now).Done?
    requires !HasKey(Prepared(db, s, text, digest, now).log, Hosts.FinalKey(UtteranceKey(s)))
    requires forall i :: i in db.candidates ==> db.candidates[i].key != Hosts.FinalKey(UtteranceKey(s))
    ensures CommitSession(Prepared(db, s, text, digest, now), s, text, Hosts.FinalKey(UtteranceKey(s)), now).Done?
  {
  }

  /** Stopping a take that heard speech, under an unused id, with the recording encoded and the disk working, returns
      well: its text is typed and is what the store says of the new session. */
  lemma GoodTakeIsTyped(hash: Bytes -> string, f: State, tail: Option<(seq<Sample>, Decode)>, end: PhraseEnd)
    requires Ready(f) && f.recording && !f.ephemeral && Ending(f.take.value, tail, end).Speech?
    requires end.encoded.Some? && end.disk.Works? && IngestLaws.FreshId(f.host, end.id)
    ensures var (g, ok) := Act(hash, f, Toggle(tail, end));
            var text := Ending(f.take.value, tail, end).text;
            && ok && TypedTexts(g.calls) == TypedTexts(f.calls) + [text]
            && Says(g.host.db, end.id, text) && g.lastCommit == Some((end.id, text))
  {
    var take, text, payload := f.take.value, Ending(f.take.value, tail, end).text, end.encoded.value;
    var (g, folded) := Flushed(f.(take := None), take, tail);
    FlushedSpeaks(f.(take := None), take, tail);
    CaptureSucceeds(f.host, end.id, text, payload, hash(payload), end.now);
    CaptureSays(f.host, end.id, text, payload, hash(payload), end.now, AudioStore.Works);
    var (h, ok) := Finalized(hash, g, Close(folded, end.whole), end);
    StoppedIs(hash, f, take, tail, end, g, folded, h, ok);
    WellPersisted(hash, g, text, end, h, ok);
    StoppedSpeaks(hash, f, take, tail, end);
  }

  lemma WellPersisted(hash: Bytes -> string, g: State, text: string, end: PhraseEnd, h: State, ok: bool)
    requires end.encoded.Some? && end.disk.Works?
    requires (h, ok) == Persisted(hash, g, text, end.encoded.value, end.id, end.now, end.disk)
    requires var (host, well) := Hosts.CaptureTake(g.host, end.id, text, end.encoded.value, hash(end.encoded.value),
                                                   end.now, AudioStore.Works);
             well && Says(host.db, end.id, text)
    ensures ok && Says(h.host.db, end.id, text) && h.lastCommit == Some((end.id, text))
  {
    var host := Hosts.CaptureTake(g.host, end.id, text, end.encoded.value, hash(end.encoded.value), end.now,
                                  AudioStore.Works).0;
    CapSays(host, g.cap, end.id, text);
  }
}

/** One live take: how decoded snippets become a preview, a recording and one final text. */
module StreamingTake {
  import opened Basics

  /** A sample as captured; the pipeline only stores and concatenates them. */
  type Sample = int

  datatype Decode = Heard(text: string) | Undecoded(code: string, message: string)

  datatype Take = Take(samples: seq<Sample>, text: string, lastSnippet: Option<string>, notified: Option<string>)

  const FRESH_TAKE := Take([], "", None, None)

  datatype Notice = SnippetCommitted(chunk: string) | SnippetDropped | TranscribeFailed(message: string) | Quiet

  datatype Outcome = Silent | Speech(text: string, samples: seq<Sample>)

  // ---------------------------------------------------------------- text rules

  function TrimStart(text: string): (t: string)
    ensures |t| <= |text| && (t == "" || !IsSpace(t[0]))
  {
    if text != "" && IsSpace(text[0]) then TrimStart(text[1..]) else text
  }

  function TrimEnd(text: string): (t: string)
    ensures |t| <= |text| && t == text[..|t|] && (t == "" || !IsSpace(t[|t| - 1]))
  {
    if text != "" && IsSpace(text[|text| - 1]) then TrimEnd(text[..|text| - 1]) else text
  }

  function Trim(text: string): string { TrimEnd(TrimStart(text)) }

  /** Which characters beyond ASCII are letters or digits; any answer will do. */
  const UNICODE_ALPHANUMERIC: char -> bool

  /** `char::is_alphanumeric`. */
  predicate IsWordChar(c: char) {
    'a' <= c <= 'z' || 'A' <= c <= 'Z' || '0' <= c <= '9' || (c >= '\U{80}' && UNICODE_ALPHANUMERIC(c))
  }

  /** How many brackets are open after the text; an unmatched closing one is ignored. */
  function Depth(text: string): nat {
    if text == "" then 0
    else
      var before, c := Depth(text[..|text| - 1]), text[|text| - 1];
      if c == '[' || c == '(' then before + 1
      else if (c == ']' || c == ')') && before > 0 then before - 1 else before
  }

  /** Every word character sits inside a bracketed marker. */
  predicate IsNoise(text: string) {
    forall i :: 0 <= i < |text| && IsWordChar(text[i]) ==> Depth(text[..i]) > 0
  }

  /** Opening brackets less closing ones. */
  function Surplus(text: string): int {
    if text == "" then 0
    else
      Surplus(text[..|text| - 1]) +
      match text[|text| - 1]
      case '[' => 1
      case '(' => 1
      case ']' => -1
      case ')' => -1
      case _ => 0
  }

  /** What is open after the text is the largest surplus of a stretch that ends it. */
  lemma {:induction false} DepthIsLargestSurplus(text: string)
    ensures forall j :: 0 <= j <= |text| ==> Surplus(text[j..]) <= Depth(text)
    ensures exists j :: 0 <= j <= |text| && Surplus(text[j..]) == Depth(text)
  {
    if text == "" {
      assert Surplus(text[0..]) == 0;
    } else {
      var init := text[..|text| - 1];
      DepthIsLargestSurplus(init);
      forall j | 0 <= j < |text|
        ensures Surplus(text[j..]) == Surplus(init[j..]) + Surplus([text[|text| - 1]])
      {
        assert text[j..][..|text| - 1 - j] == init[j..];
        assert Surplus("") == 0;
      }
      assert text[|text|..] == "";
      var j :| 0 <= j <= |init| && Surplus(init[j..]) == Depth(init);
      assert Surplus(text[j..]) == Depth(init) + Surplus([text[|text| - 1]]);
      if Depth(text) == 0 { assert Surplus(text[|text|..]) == 0; }
    }
  }

  /** More brackets were opened than closed again since some point before here. */
  predicate Inside(text: string) { exists j :: 0 <= j <= |text| && Surplus(text[j..]) > 0 }

  lemma InsideIsDeep(text: string)
    ensures Inside(text) <==> Depth(text) > 0
  {
    DepthIsLargestSurplus(text);
  }

  /** A transcript is noise exactly when every letter and digit in it stands inside brackets, round or square, where a
      closing bracket too many counts for nothing. */
  lemma NoiseStandsInBrackets(text: string)
    ensures IsNoise(text) <==> forall i :: 0 <= i < |text| && IsWordChar(text[i]) ==> Inside(text[..i])
  {
    forall i | 0 <= i <= |text| ensures Inside(text[..i]) <==> Depth(text[..i]) > 0 { InsideIsDeep(text[..i]); }
  }

  method IsNoiseTranscript(text: string) returns (noise: bool)
    ensures noise == IsNoise(text)
  {
    var depth: nat := 0;
    for i := 0 to |text|
      invariant depth == Depth(text[..i])
      invariant forall j :: 0 <= j < i && IsWordChar(text[j]) ==> Depth(text[..j]) > 0
    {
      assert text[..i + 1][..i] == text[..i];
      if text[i] == '[' || text[i] == '(' {
        depth := depth + 1;
      } else if text[i] == ']' || text[i] == ')' {
        depth := if depth > 0 then depth - 1 else 0;
      } else if depth == 0 && IsWordChar(text[i]) {
        return false;
      }
    }
    return true;
  }

  /** What a snippet adds to the text so far, with its joining space; nothing for blank or noise-only decodes. */
  function SnippetChunk(soFar: string, decoded: string): Option<string> {
    var text := Trim(decoded);
    if text == "" || IsNoise(text) then None else Some(if soFar == "" then text else " " + text)
  }

  function FinalText(whole: string, previewed: string): string {
    var text := Trim(whole);
    if text == "" || IsNoise(text) then previewed else text
  }

  // ---------------------------------------------------------------- steps

  /** `fold_snippet`. A failed decode leaves the audio out; it is surfaced unless the last failure had the same code. */
  function Fold(t: Take, snippet: seq<Sample>, decode: Decode): (Take, Notice) {
    match decode
    case Undecoded(code, message) =>
      if t.notified == Some(code) then (t, Quiet) else (t.(notified := Some(code)), TranscribeFailed(message))
    case Heard(text) =>
      var kept := t.(samples := t.samples + snippet);
      var chunk := SnippetChunk(t.text, text);
      if chunk.None? then (kept, SnippetDropped)
      else (kept.(text := t.text + chunk.value, lastSnippet := Some(Trim(text))), SnippetCommitted(chunk.value))
  }

  /** `finalize_phrase`: the phrase's outcome; the take itself starts over. */
  function Close(t: Take, whole: Decode): Outcome {
    if t.samples == [] then Silent
    else
      var text := match whole case Heard(heard) => FinalText(heard, t.text) case Undecoded(_, _) => t.text;
      if Trim(text) == "" then Silent else Speech(text, t.samples)
  }

  // ---------------------------------------------------------------- laws

  lemma TrimIsTrimmed(text: string)
    ensures var t := Trim(text); t == "" || (!IsSpace(t[0]) && !IsSpace(t[|t| - 1]))
  {
  }

  predicate Cuts(text: string, front: string, middle: string, back: string) {
    AllSpace(front) && AllSpace(back) && text == front + middle + back
  }

  /** Trimming cuts white space off both ends, and nothing else. */
  lemma TrimCuts(text: string)
    ensures exists front: string, back: string :: Cuts(text, front, Trim(text), back)
  {
    var started := TrimStart(text);
    StartCuts(text);
    EndCuts(started);
    Halves(text, |text| - |started|, started, |TrimEnd(started)|);
    assert Cuts(text, text[..|text| - |started|], Trim(text), started[|TrimEnd(started)|..]);
  }

  lemma Halves(text: string, n: nat, rest: string, m: nat)
    requires n <= |text| && rest == text[n..] && m <= |rest|
    ensures text == text[..n] + rest[..m] + rest[m..]
  {
  }

  lemma {:induction false} StartCuts(text: string)
    ensures TrimStart(text) == text[|text| - |TrimStart(text)|..] && AllSpace(text[..|text| - |TrimStart(text)|])
  {
    if text != "" && IsSpace(text[0]) {
      StartCuts(text[1..]);
      var n := |text| - |TrimStart(text)|;
      assert text[..n] == [text[0]] + text[1..][..n - 1];
    }
  }

  lemma {:induction false} EndCuts(text: string)
    ensures TrimEnd(text) == text[..|TrimEnd(text)|] && AllSpace(text[|TrimEnd(text)|..])
  {
    if text != "" && IsSpace(text[|text| - 1]) {
      var init := text[..|text| - 1];
      EndCuts(init);
      assert text[|TrimEnd(text)|..] == init[|TrimEnd(text)|..] + [text[|text| - 1]];
    }
  }

  lemma {:induction false} TrimmedStays(text: string)
    requires text != "" && !IsSpace(text[0]) && !IsSpace(text[|text| - 1])
    ensures Trim(text) == text
  {
  }

  predicate AllSpace(text: string) { forall i :: 0 <= i < |text| ==> IsSpace(text[i]) }

  lemma {:induction false} BlankIffAllSpace(text: string)
    ensures Trim(text) == "" <==> AllSpace(text)
  {
    if text != "" && IsSpace(text[0]) {
      BlankIffAllSpace(text[1..]);
      assert forall i :: 1 <= i < |text| ==> text[i] == text[1..][i - 1];
    } else if text != "" {
      assert TrimEnd(text) != "" by { FirstStays(text); }
    }
  }

  lemma {:induction false} FirstStays(text: string)
    requires text != "" && !IsSpace(text[0])
    ensures TrimEnd(text) != ""
  {
    if IsSpace(text[|text| - 1]) { FirstStays(text[..|text| - 1]); }
  }

  /** A previewed text is empty or holds a word character, and carries no doubled joining space at either end. */
  predicate WellPreviewed(text: string) {
    text == "" || (!IsSpace(text[0]) && !IsSpace(text[|text| - 1]))
  }

  /** A chunk joins with one space when there is text already, and the text stays without a blank at either end. */
  lemma ChunkJoins(text: string, decoded: string)
    requires WellPreviewed(text) && SnippetChunk(text, decoded).Some?
    ensures var chunk := SnippetChunk(text, decoded).value;
            chunk != "" && (text != "" <==> chunk[0] == ' ') && WellPreviewed(text + chunk)
  {
    TrimIsTrimmed(decoded);
  }

  /** Folding only ever appends: the text gains exactly the announced chunk, the recording the snippet or nothing. */
  lemma FoldAppends(t: Take, snippet: seq<Sample>, decode: Decode)
    requires WellPreviewed(t.text)
    ensures var (after, notice) := Fold(t, snippet, decode);
            && after.text == t.text + (if notice.SnippetCommitted? then notice.chunk else "")
            && WellPreviewed(after.text)
            && (after.samples == t.samples + snippet <==> decode.Heard? || snippet == [])
            && (notice.SnippetCommitted? ==> notice.chunk != "" && (t.text != "" <==> notice.chunk[0] == ' '))
  {
    if decode.Heard? {
      if SnippetChunk(t.text, decode.text).Some? { ChunkJoins(t.text, decode.text); }
    } else if snippet != [] {
      assert |t.samples + snippet| != |t.samples|;
    }
  }

  function FoldAll(t: Take, snippets: seq<(seq<Sample>, Decode)>): Take {
    if snippets == [] then t
    else
      var init, last := snippets[..|snippets| - 1], snippets[|snippets| - 1];
      Fold(FoldAll(t, init), last.0, last.1).0
  }

  /** All that was said, decoded or not. */
  function Spoken(snippets: seq<(seq<Sample>, Decode)>): seq<Sample> {
    if snippets == [] then [] else Spoken(snippets[..|snippets| - 1]) + snippets[|snippets| - 1].0
  }

  /** This snippet's audio is lost: it was not empty, and decoding it failed. */
  predicate LeftOut(snippet: (seq<Sample>, Decode)) { snippet.1.Undecoded? && snippet.0 != [] }

  predicate NoneLeftOut(snippets: seq<(seq<Sample>, Decode)>) { forall s :: s in snippets ==> !LeftOut(s) }

  /** The recording holds all its take's audio, in order, exactly when no snippet with audio in it failed to decode;
      otherwise it is shorter, and nothing later brings the audio back. */
  lemma {:induction false} RecordingIsWholeIff(snippets: seq<(seq<Sample>, Decode)>)
    ensures FoldAll(FRESH_TAKE, snippets).samples == Spoken(snippets) <==> NoneLeftOut(snippets)
    ensures !NoneLeftOut(snippets) ==> |FoldAll(FRESH_TAKE, snippets).samples| < |Spoken(snippets)|
  {
    if snippets != [] {
      var init, last := snippets[..|snippets| - 1], snippets[|snippets| - 1];
      assert snippets == init + [last];
      RecordingIsWholeIff(init);
      assert NoneLeftOut(snippets) <==> NoneLeftOut(init) && !LeftOut(last);
      assert last.1.Undecoded? && last.0 == [] ==> Spoken(init) + [] == Spoken(init);
    }
  }

  /** A decode that heard words. */
  predicate Usable(decode: Decode) {
    decode.Heard? && Trim(decode.text) != "" && !IsNoise(Trim(decode.text))
  }

  /** What the snippets said, one trimmed text for each decode that heard words. */
  function Words(snippets: seq<(seq<Sample>, Decode)>): seq<string> {
    if snippets == [] then []
    else
      var last := snippets[|snippets| - 1].1;
      Words(snippets[..|snippets| - 1]) + if Usable(last) then [Trim(last.text)] else []
  }

  /** The words with one space between each two. */
  function Spaced(words: seq<string>): string {
    if words == [] then ""
    else if |words| == 1 then words[0]
    else Spaced(words[..|words| - 1]) + " " + words[|words| - 1]
  }

  lemma {:induction false} SpacedIsBlankIff(words: seq<string>)
    requires "" !in words
    ensures Spaced(words) == "" <==> words == []
  {
  }

  lemma {:induction false} WordsAreNotBlank(snippets: seq<(seq<Sample>, Decode)>)
    ensures "" !in Words(snippets)
  {
    if snippets != [] { WordsAreNotBlank(snippets[..|snippets| - 1]); }
  }

  lemma SpacedGrows(words: seq<string>, word: string)
    ensures Spaced(words + [word]) == if words == [] then word else Spaced(words) + (" " + word)
  {
    assert (words + [word])[..|words|] == words;
    if words != [] { Associate(Spaced(words), " ", word); }
  }

  /** Over any take: the preview is what the snippets said, one space between each two, and the correction window holds
      the last of them. */
  lemma {:induction false} PreviewIsSpaced(snippets: seq<(seq<Sample>, Decode)>)
    ensures var t := FoldAll(FRESH_TAKE, snippets);
            t.text == Spaced(Words(snippets)) && t.lastSnippet == LastOf(Words(snippets))
  {
    if snippets != [] {
      var init, last := snippets[..|snippets| - 1], snippets[|snippets| - 1];
      PreviewIsSpaced(init);
      WordsAreNotBlank(init);
      FoldSpaces(FoldAll(FRESH_TAKE, init), Words(init), last.0, last.1);
    }
  }

  lemma FoldSpaces(t: Take, words: seq<string>, snippet: seq<Sample>, decode: Decode)
    requires t.text == Spaced(words) && t.lastSnippet == LastOf(words) && "" !in words
    ensures var after, more := Fold(t, snippet, decode).0, words + if Usable(decode) then [Trim(decode.text)] else [];
            after.text == Spaced(more) && after.lastSnippet == LastOf(more)
  {
    SpacedIsBlankIff(words);
    if Usable(decode) {
      SpacedGrows(words, Trim(decode.text));
    } else {
      assert words + [] == words;
    }
  }

  /** A take with a recording ends in the whole decode's text if that heard words, else in what its snippets said; it is
      silent if neither heard any, or if nothing was recorded. Its recording is the take's. */
  lemma TakeEndsIn(snippets: seq<(seq<Sample>, Decode)>, whole: Decode)
    ensures var recording := FoldAll(FRESH_TAKE, snippets).samples;
            Close(FoldAll(FRESH_TAKE, snippets), whole) ==
            if recording == [] then Silent
            else if Usable(whole) then Speech(Trim(whole.text), recording)
            else if Words(snippets) != [] then Speech(Spaced(Words(snippets)), recording)
            else Silent
  {
    var t := FoldAll(FRESH_TAKE, snippets);
    PreviewIsSpaced(snippets);
    WordsAreNotBlank(snippets);
    SpacedIsBlankIff(Words(snippets));
    PreviewIsWell(snippets);
    ClosesIn(t, whole);
  }

  lemma ClosesIn(t: Take, whole: Decode)
    requires WellPreviewed(t.text)
    ensures Close(t, whole) == if t.samples == [] then Silent
                               else if Usable(whole) then Speech(Trim(whole.text), t.samples)
                               else if t.text != "" then Speech(t.text, t.samples)
                               else Silent
  {
    if t.text != "" { TrimmedStays(t.text); }
    if Usable(whole) {
      TrimIsTrimmed(whole.text);
      TrimmedStays(Trim(whole.text));
    }
  }

  lemma {:induction false} PreviewIsWell(snippets: seq<(seq<Sample>, Decode)>)
    ensures WellPreviewed(FoldAll(FRESH_TAKE, snippets).text)
  {
    if snippets != [] {
      var init, last := snippets[..|snippets| - 1], snippets[|snippets| - 1];
      PreviewIsWell(init);
      FoldAppends(FoldAll(FRESH_TAKE, init), last.0, last.1);
    }
  }

  /** Text the user saw is never lost: whenever a preview was typed, the take ends in speech, with the whole decode's
      text if that heard words, else with the preview itself. */
  lemma PreviewNeverLost(snippets: seq<(seq<Sample>, Decode)>, whole: Decode)
    requires forall s :: s in snippets ==> s.0 != []
    ensures var t := FoldAll(FRESH_TAKE, snippets);
            t.text != "" ==>
              t.samples != [] &&
              Close(t, whole) == Speech(if Usable(whole) then Trim(whole.text) else t.text, t.samples)
  {
    FoldedWell(snippets);
    TakeEndsIn(snippets, whole);
    PreviewIsSpaced(snippets);
  }

  lemma {:induction false} FoldedWell(snippets: seq<(seq<Sample>, Decode)>)
    requires forall s :: s in snippets ==> s.0 != []
    ensures var t := FoldAll(FRESH_TAKE, snippets); WellPreviewed(t.text) && (t.text != "" ==> t.samples != [])
  {
    if snippets != [] {
      var init, last := snippets[..|snippets| - 1], snippets[|snippets| - 1];
      FoldedWell(init);
      assert last in snippets;
      FoldAppends(FoldAll(FRESH_TAKE, init), last.0, last.1);
    }
  }

  // ---------------------------------------------------------------- announced failures

  /** The codes of the failed decodes, in order. */
  function Failing(snippets: seq<(seq<Sample>, Decode)>): seq<string> {
    if snippets == [] then []
    else
      var last := snippets[|snippets| - 1].1;
      Failing(snippets[..|snippets| - 1]) + if last.Undecoded? then [last.code] else []
  }

  /** The codes the user hears about while the snippets are folded into the take. */
  function AnnouncedCodes(t: Take, snippets: seq<(seq<Sample>, Decode)>): seq<string> {
    if snippets == [] then []
    else
      var init, last := snippets[..|snippets| - 1], snippets[|snippets| - 1];
      AnnouncedCodes(t, init) + if Fold(FoldAll(t, init), last.0, last.1).1.TranscribeFailed? then [last.1.code] else []
  }

  function LastOf(codes: seq<string>): Option<string> {
    if codes == [] then None else Some(codes[|codes| - 1])
  }

  /** Consecutive repeats collapsed to one. */
  function Collapsed(codes: seq<string>): seq<string> {
    if codes == [] then []
    else
      var init, last := codes[..|codes| - 1], codes[|codes| - 1];
      Collapsed(init) + if LastOf(init) == Some(last) then [] else [last]
  }

  lemma CollapsedAppend(codes: seq<string>, c: string)
    ensures Collapsed(codes + [c]) == Collapsed(codes) + if LastOf(codes) == Some(c) then [] else [c]
  {
    assert (codes + [c])[..|codes|] == codes;
  }

  /** Over any take: the announced codes are the failing codes with consecutive repeats collapsed, whatever was heard in
      between. */
  lemma {:induction false} AnnouncedIsCollapsed(snippets: seq<(seq<Sample>, Decode)>)
    ensures AnnouncedCodes(FRESH_TAKE, snippets) == Collapsed(Failing(snippets))
    ensures FoldAll(FRESH_TAKE, snippets).notified == LastOf(Failing(snippets))
  {
    if snippets != [] {
      var init, last := snippets[..|snippets| - 1], snippets[|snippets| - 1].1;
      AnnouncedIsCollapsed(init);
      if last.Undecoded? {
        CollapsedAppend(Failing(init), last.code);
        assert AnnouncedCodes(FRESH_TAKE, snippets) == Collapsed(Failing(init) + [last.code]);
      } else {
        assert Failing(init) + [] == Failing(init);
      }
    }
  }

  predicate Once(codes: seq<string>) {
    forall i, j :: 0 <= i < j < |codes| ==> codes[i] != codes[j]
  }

  /** No code returns after a different one. */
  predicate Grouped(codes: seq<string>) {
    forall i, j, k :: 0 <= i < j < k < |codes| && codes[i] == codes[k] ==> codes[j] == codes[i]
  }

  lemma {:induction false} CollapsedKeepsCodes(codes: seq<string>)
    ensures forall c :: c in Collapsed(codes) <==> c in codes
  {
    if codes != [] {
      var init := codes[..|codes| - 1];
      CollapsedKeepsCodes(init);
      assert codes == init + [codes[|codes| - 1]];
      assert LastOf(init).Some? ==> LastOf(init).value in init;
    }
  }

  lemma {:induction false} CollapsedOnceIffGrouped(codes: seq<string>)
    ensures Once(Collapsed(codes)) <==> Grouped(codes)
  {
    if codes != [] {
      var init, last := codes[..|codes| - 1], codes[|codes| - 1];
      CollapsedOnceIffGrouped(init);
      CollapsedKeepsCodes(init);
      GroupedAppend(init, last);
      assert codes == init + [last];
      OnceAppend(Collapsed(init), last);
      assert Collapsed(init) + [] == Collapsed(init);
    }
  }

  lemma OnceAppend(codes: seq<string>, c: string)
    ensures Once(codes + [c]) <==> Once(codes) && c !in codes
  {
    var after := codes + [c];
    assert forall i :: 0 <= i < |codes| ==> after[i] == codes[i];
    assert after[|codes|] == c;
    if Once(after) {
      forall i, j | 0 <= i < j < |codes| ensures codes[i] != codes[j] { assert after[i] != after[j]; }
    }
  }

  lemma GroupedAppend(codes: seq<string>, c: string)
    ensures Grouped(codes + [c]) <==> Grouped(codes) && (c !in codes || codes[|codes| - 1] == c)
  {
    var n, after := |codes|, codes + [c];
    if Grouped(after) {
      forall i, j, k | 0 <= i < j < k < n && codes[i] == codes[k] ensures codes[j] == codes[i] {
        assert after[i] == after[k] && after[j] == codes[j];
      }
      if i :| 0 <= i < n - 1 && codes[i] == c {
        assert after[i] == after[n] && after[n - 1] == after[i];
      }
    }
    if Grouped(codes) && (c !in codes || codes[n - 1] == c) {
      forall i, j | 0 <= i < j < n && codes[i] == c ensures codes[j] == c {
        assert codes[i] in codes && codes[n - 1] == codes[i];
      }
    }
  }

  /** The user hears of each code at most once in a take exactly when no failing code returns after a different one. */
  lemma AnnouncedOnceIff(snippets: seq<(seq<Sample>, Decode)>)
    ensures Once(AnnouncedCodes(FRESH_TAKE, snippets)) <==> Grouped(Failing(snippets))
  {
    AnnouncedIsCollapsed(snippets);
    CollapsedOnceIffGrouped(Failing(snippets));
  }

  lemma {:induction false} NothingCollapsed(codes: seq<string>)
    requires forall i :: 0 < i < |codes| ==> codes[i - 1] != codes[i]
    ensures Collapsed(codes) == codes
  {
    if codes != [] {
      NothingCollapsed(codes[..|codes| - 1]);
      assert codes == codes[..|codes| - 1] + [codes[|codes| - 1]];
    }
  }

  /** So two codes taking turns are announced every time, not once each. */
  lemma AlternatingFailuresRepeat(snippets: seq<(seq<Sample>, Decode)>, a: string, b: string)
    requires a != b && Failing(snippets) == [a, b, a, b]
    ensures AnnouncedCodes(FRESH_TAKE, snippets) == [a, b, a, b] && !Once(AnnouncedCodes(FRESH_TAKE, snippets))
  {
    NothingCollapsed([a, b, a, b]);
    AnnouncedIsCollapsed(snippets);
    assert [a, b, a, b][0] == [a, b, a, b][2];
  }
}

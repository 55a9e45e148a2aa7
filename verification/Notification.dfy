/** The desktop notification of a failed helper: its text on one line each, cut to the end, escaped and put together. */
module Notification {
  import opened Basics
  import opened StderrTail

  // ---------------------------------------------------------------- one line

  /** `char::is_control`: the Unicode category Cc. */
  predicate IsControl(c: char) { c < ' ' || '\U{7F}' <= c <= '\U{9F}' }

  /** What could steer a terminal: controls, zero-width marks and the bidirectional overrides. */
  predicate Steers(c: char) { IsControl(c) || '\U{200B}' <= c <= '\U{200F}' || '\U{202A}' <= c <= '\U{202E}' }

  /** `strip_control`. */
  function Stripped(text: string): (t: string)
    ensures |t| == |text|
  {
    seq(|text|, i requires 0 <= i < |text| => if Steers(text[i]) then ' ' else text[i])
  }

  /** `split_whitespace`: the maximal runs of characters that are not blank. */
  function Words(text: string): seq<string> {
    if text == "" then []
    else
      var c, rest := text[0], Words(text[1..]);
      if IsSpace(c) then rest
      else if |text| == 1 || IsSpace(text[1]) || rest == [] then [[c]] + rest
      else [[c] + rest[0]] + rest[1..]
  }

  function Joined(words: seq<string>): string {
    if words == [] then "" else if |words| == 1 then words[0] else words[0] + " " + Joined(words[1..])
  }

  /** `single_line`. */
  function SingleLine(text: string): string { Joined(Words(Stripped(text))) }

  /** A word as the splitter leaves it. */
  predicate IsWord(w: string) { w != "" && forall c :: c in w ==> !IsSpace(c) }

  predicate Plain(text: string) { forall c :: c in text ==> !Steers(c) && (IsSpace(c) ==> c == ' ') }

  lemma {:induction false} WordsAreWords(text: string)
    ensures forall w :: w in Words(text) ==> IsWord(w) && forall c :: c in w ==> c in text
    ensures text != "" && !IsSpace(text[0]) ==> Words(text) != []
  {
    if text != "" {
      WordsAreWords(text[1..]);
      var c, rest := text[0], Words(text[1..]);
      forall w | w in Words(text) ensures IsWord(w) && forall d :: d in w ==> d in text {
        if !IsSpace(c) && |text| > 1 && !IsSpace(text[1]) && w == [c] + rest[0] { assert rest[0] in rest; }
      }
    }
  }

  lemma {:induction false} WordThenRest(w: string, tail: string)
    requires IsWord(w) && (tail == "" || IsSpace(tail[0]))
    ensures Words(w + tail) == [w] + Words(tail)
  {
    var text := w + tail;
    assert text[0] == w[0] && text[1..] == w[1..] + tail;
    if |w| == 1 {
      assert w == [w[0]] && text[1..] == tail;
    } else {
      assert IsWord(w[1..]) && text[1] == w[1] && w[1] in w;
      WordThenRest(w[1..], tail);
      assert [w[0]] + w[1..] == w;
    }
  }

  /** Joining words and splitting them again gives the words back. */
  lemma {:induction false} WordsOfJoined(words: seq<string>)
    requires forall w :: w in words ==> IsWord(w)
    ensures Words(Joined(words)) == words
  {
    if |words| == 1 {
      WordThenRest(words[0], "");
      assert words[0] + "" == words[0] && Words("") == [];
    } else if words != [] {
      WordsOfJoined(words[1..]);
      var tail := " " + Joined(words[1..]);
      WordThenRest(words[0], tail);
      assert tail[0] == ' ' && tail[1..] == Joined(words[1..]);
      assert Joined(words) == words[0] + tail;
    }
  }

  lemma {:induction false} JoinedIsPlain(words: seq<string>)
    requires forall w :: w in words ==> IsWord(w) && Plain(w)
    ensures Plain(Joined(words))
  {
    if |words| == 1 {
      assert words[0] in words;
    } else if words != [] {
      JoinedIsPlain(words[1..]);
      assert words[0] in words;
    }
  }

  lemma StrippedIsPlain(text: string)
    ensures forall c :: c in Stripped(text) ==> !Steers(c)
    ensures forall i :: 0 <= i < |text| ==> Stripped(text)[i] == if Steers(text[i]) then ' ' else text[i]
    ensures (forall c :: c in text ==> !Steers(c)) ==> Stripped(text) == text
  {
  }

  /** The line keeps the words, carries nothing that steers a terminal and no blank but single spaces between words, and
      making it one line again changes nothing. */
  lemma SingleLineIsClean(text: string)
    ensures Plain(SingleLine(text)) && '\n' !in SingleLine(text)
    ensures Words(SingleLine(text)) == Words(Stripped(text))
    ensures SingleLine(SingleLine(text)) == SingleLine(text)
  {
    var words := Words(Stripped(text));
    WordsAreWords(Stripped(text));
    StrippedIsPlain(text);
    WordsOfJoined(words);
    JoinedIsPlain(words);
    StrippedIsPlain(SingleLine(text));
  }

  lemma {:induction false} JoinedIsShort(text: string)
    ensures |Joined(Words(text))| <= |text|
    ensures Words(text) != [] && IsSpace(text[0]) ==> |Joined(Words(text))| < |text|
  {
    if text != "" {
      JoinedIsShort(text[1..]);
      WordsAreWords(text[1..]);
    }
  }

  // ---------------------------------------------------------------- the body

  const MAX_BODY_CHARS := 600
  const REFERENCE_MARK := "{reference}"
  const LINE_BREAK := "\n"
  const TRUNCATED_NOTE := " [stderr truncated]"

  /** `str::replace` of the reference mark. */
  function Filled(hint: string, reference: string): string {
    if hint == "" then ""
    else if REFERENCE_MARK <= hint then reference + Filled(hint[|REFERENCE_MARK|..], reference)
    else [hint[0]] + Filled(hint[1..], reference)
  }

  function Note(truncated: bool): string { if truncated then TRUNCATED_NOTE else "" }

  /** What the helper said, as the line below the headline. */
  function Below(stderr: string, truncated: bool): string {
    if stderr == "" then "" else Line(KeepTail(SingleLine(stderr), MAX_BODY_CHARS), Note(truncated))
  }

  function Line(tail: string, note: string): string { LINE_BREAK + tail + note }

  /** What the user is meant to read of the failure. */
  function Message(headline: string, stderr: string, truncated: bool): string {
    SingleLine(headline) + Below(stderr, truncated)
  }

  /** What the log lines and the notification of one failure share: the process id and a running number. */
  function Reference(pid: nat, sequence: nat): (reference: string)
    ensures IsReference(reference)
  {
    Dec(pid) + "-" + Dec(sequence)
  }

  /** No two failures share a reference. */
  lemma ReferencesApart(pid: nat, sequence: nat, pid': nat, sequence': nat)
    requires Reference(pid, sequence) == Reference(pid', sequence')
    ensures pid == pid' && sequence == sequence'
  {
    var a, b := Reference(pid, sequence), Reference(pid', sequence');
    assert a[|Dec(pid)|] == '-' && b[|Dec(pid')|] == '-';
    assert |Dec(pid)| == |Dec(pid')|;
    assert Dec(pid) == a[..|Dec(pid)|] && Dec(pid') == b[..|Dec(pid')|];
    assert Dec(sequence) == a[|Dec(pid)| + 1..] && Dec(sequence') == b[|Dec(pid')| + 1..];
    DecInjective(pid, pid');
    DecInjective(sequence, sequence');
  }

  predicate IsReference(text: string) {
    text != "" && forall i :: 0 <= i < |text| ==> text[i] == '-' || '0' <= text[i] <= '9'
  }

  function Details(hint: string, reference: string): string {
    if hint == "" then "" else "\nReference: " + reference + ". Details: " + Filled(hint, reference)
  }

  /** The body `report` hands to the notifier, appended to piece by piece. */
  method Body(headline: string, stderr: string, truncated: bool, hint: string, pid: nat, sequence: nat)
    returns (body: string)
    ensures body == Escaped(Message(headline, stderr, truncated)) + Details(hint, Reference(pid, sequence))
  {
    var reference := Reference(pid, sequence);
    var line := EscapeMarkup(SingleLine(headline));
    var below := "";
    if stderr != "" { below := EscapedBelow(KeepTail(SingleLine(stderr), MAX_BODY_CHARS), truncated); }
    EscapedAppend(SingleLine(headline), Below(stderr, truncated));
    body := line + below;
    body := body + Details(hint, reference);
  }

  method EscapedBelow(tail: string, truncated: bool) returns (below: string)
    ensures below == Escaped(Line(tail, Note(truncated)))
  {
    var escaped := EscapeMarkup(tail);
    NoteIsUnmarked(truncated);
    EscapedLine(tail, Note(truncated));
    below := LINE_BREAK + escaped + Note(truncated);
  }

  /** Text that reads the same escaped. */
  predicate Unmarked(text: string) { '&' !in text && '<' !in text && '>' !in text }

  lemma NoteIsUnmarked(truncated: bool)
    ensures Unmarked(Note(truncated)) && |Note(truncated)| <= 19 && '\n' !in Note(truncated)
  {
  }

  lemma EscapedLine(tail: string, note: string)
    requires Unmarked(note)
    ensures Escaped(Line(tail, note)) == LINE_BREAK + Escaped(tail) + note
  {
    UnmarkedStays(LINE_BREAK);
    UnmarkedStays(note);
    EscapedAppend(LINE_BREAK, tail);
    EscapedAppend(LINE_BREAK + tail, note);
  }

  lemma {:induction false} EscapedAppend(a: string, b: string)
    ensures Escaped(a + b) == Escaped(a) + Escaped(b)
    decreases |b|
  {
    if b == "" {
      assert a + b == a && Escaped(a) + "" == Escaped(a);
    } else {
      var init, last := b[..|b| - 1], b[|b| - 1];
      LastOfAppend(a, b);
      EscapedAppend(a, init);
      Associate(Escaped(a), Escaped(init), Entity(last));
    }
  }

  lemma LastOfAppend(a: string, b: string)
    requires b != ""
    ensures (a + b)[..|a + b| - 1] == a + b[..|b| - 1] && (a + b)[|a + b| - 1] == b[|b| - 1]
  {
  }

  lemma {:induction false} UnmarkedStays(text: string)
    requires Unmarked(text)
    ensures Escaped(text) == text
  {
    if text != "" {
      var init, last := text[..|text| - 1], text[|text| - 1];
      assert last in text && text == init + [last];
      UnmarkedStays(init);
    }
  }

  lemma {:induction false} ShownPrefix(text: string, rest: string)
    ensures Shown(Escaped(text) + rest) == text + Shown(rest)
  {
    if text == "" {
      assert Escaped(text) + rest == rest && text + Shown(rest) == Shown(rest);
    } else {
      assert text == [text[0]] + text[1..];
      EscapedFront(text[0], text[1..]);
      ShownPrefix(text[1..], rest);
      Associate(Entity(text[0]), Escaped(text[1..]), rest);
      ShownEntity(text[0], Escaped(text[1..]) + rest);
      Associate([text[0]], text[1..], Shown(rest));
    }
  }

  lemma HarmlessAppend(a: string, b: string)
    requires Harmless(a)
    ensures Harmless(a + b) <==> Harmless(b)
  {
    var markup := a + b;
    assert forall i :: 0 <= i < |b| ==> markup[|a| + i] == b[i] && markup[|a| + i..] == b[i..];
    if Harmless(b) {
      forall i | 0 <= i < |markup| && markup[i] == '&' ensures StartsEntity(markup[i..]) {
        if i < |a| {
          assert a[i] == '&' && markup[i..] == a[i..] + b;
        } else {
          assert b[i - |a|] == '&' && markup[i..] == b[i - |a|..];
        }
      }
    }
  }

  predicate EndsWith(text: string, end: string) {
    |end| <= |text| && text[|text| - |end|..] == end
  }

  lemma KeepsTheEnd(start: string, end: string, max: nat)
    requires |end| <= max
    ensures EndsWith(KeepTail(start + end, max), end)
  {
    var text := start + end;
    if |text| > max { assert text[|text| - max..][max - |end|..] == end; }
  }

  lemma EndsFurther(front: string, text: string, end: string, note: string)
    requires EndsWith(text, end)
    ensures EndsWith(front + text + note, end + note)
  {
    var whole := front + text + note;
    assert whole[|whole| - |end + note|..] == text[|text| - |end|..] + note;
  }

  /** The reason a helper died is the last thing it wrote: whatever it wrote before, the last 600 characters of its line
      are what the message ends with, followed by a note if there was more than was kept. */
  lemma LastWordsSurvive(headline: string, stderr: string, truncated: bool, start: string, end: string)
    requires stderr != "" && SingleLine(stderr) == start + end && |end| <= 600
    ensures EndsWith(Message(headline, stderr, truncated), end + if truncated then " [stderr truncated]" else "")
  {
    var tail := KeepTail(SingleLine(stderr), MAX_BODY_CHARS);
    KeepsTheEnd(start, end, MAX_BODY_CHARS);
    EndsFurther(SingleLine(headline) + LINE_BREAK, tail, end, Note(truncated));
    MessageIs(SingleLine(headline), tail, Note(truncated));
  }

  lemma MessageIs(line: string, tail: string, note: string)
    ensures line + Line(tail, note) == line + LINE_BREAK + tail + note
  {
  }

  lemma KeptTailIsBounded(text: string)
    ensures |Escaped(KeepTail(text, MAX_BODY_CHARS))| <= 3001
  {
    EscapedIsHarmless(KeepTail(text, MAX_BODY_CHARS));
    if |text| > MAX_BODY_CHARS {
      var tail := text[|text| - MAX_BODY_CHARS..];
      EscapedFront(ELLIPSIS, tail);
      EscapedIsHarmless(tail);
    }
  }

  /** However much the helper printed, the body carries at most 3001 characters of it, a line break and a note. */
  lemma BelowIsBounded(stderr: string, truncated: bool)
    ensures |Escaped(Below(stderr, truncated))| <= 3021
  {
    if stderr != "" {
      var tail := KeepTail(SingleLine(stderr), MAX_BODY_CHARS);
      KeptTailIsBounded(SingleLine(stderr));
      NoteIsUnmarked(truncated);
      EscapedLine(tail, Note(truncated));
    }
  }

  // ---------------------------------------------------------------- the hint in the body

  /** A text of letters and signs no reference has: it starts the filled-in hint exactly when it starts the hint. */
  lemma {:induction false} StartsAlike(word: string, hint: string, reference: string)
    requires IsReference(reference)
    requires forall i :: 0 <= i < |word| ==> word[i] in "&;ampltg"
    ensures word <= hint <==> word <= Filled(hint, reference)
  {
    if word == "" || hint == "" {
    } else if REFERENCE_MARK <= hint {
      assert hint[0] == REFERENCE_MARK[0] == '{' && Filled(hint, reference)[0] == reference[0];
    } else {
      var filled := Filled(hint, reference);
      StartsAlike(word[1..], hint[1..], reference);
      assert filled[0] == hint[0] && filled[1..] == Filled(hint[1..], reference);
      Prefixed(word, hint);
      Prefixed(word, filled);
    }
  }

  lemma Prefixed(word: string, text: string)
    requires word != "" && text != ""
    ensures word <= text <==> word[0] == text[0] && word[1..] <= text[1..]
  {
  }

  lemma StartsEntityAlike(hint: string, reference: string)
    requires IsReference(reference)
    ensures StartsEntity(hint) <==> StartsEntity(Filled(hint, reference))
  {
    StartsAlike("&amp;", hint, reference);
    StartsAlike("&lt;", hint, reference);
    StartsAlike("&gt;", hint, reference);
  }

  lemma UnmarkedIsHarmless(text: string)
    requires Unmarked(text)
    ensures Harmless(text)
  {
  }

  /** Being harmless, read from the front. */
  lemma HarmlessFront(text: string)
    requires text != ""
    ensures Harmless(text) <==>
            text[0] != '<' && text[0] != '>' && (text[0] == '&' ==> StartsEntity(text)) && Harmless(text[1..])
  {
    var rest := text[1..];
    assert text[0..] == text && forall i :: 0 <= i < |rest| ==> rest[i] == text[i + 1] && rest[i..] == text[i + 1..];
    if Harmless(text) {
      assert forall i :: 0 <= i < |rest| && rest[i] == '&' ==> text[i + 1] == '&';
    }
    if Harmless(rest) && text[0] != '<' && text[0] != '>' && (text[0] == '&' ==> StartsEntity(text)) {
      forall i | 0 <= i < |text| && text[i] == '&' ensures StartsEntity(text[i..]) {
        if i > 0 { assert rest[i - 1] == '&' && rest[i - 1..] == text[i..]; }
      }
    }
  }

  /** Filling in the reference neither makes a hint harmful nor mends one. */
  lemma {:induction false} FilledIsHarmlessIff(hint: string, reference: string)
    requires IsReference(reference)
    ensures Harmless(Filled(hint, reference)) <==> Harmless(hint)
  {
    if hint == "" {
    } else if REFERENCE_MARK <= hint {
      var rest := hint[|REFERENCE_MARK|..];
      FilledIsHarmlessIff(rest, reference);
      UnmarkedIsHarmless(reference);
      UnmarkedIsHarmless(REFERENCE_MARK);
      HarmlessAppend(reference, Filled(rest, reference));
      HarmlessAppend(REFERENCE_MARK, rest);
      assert hint == REFERENCE_MARK + rest;
    } else {
      var filled := Filled(hint, reference);
      FilledIsHarmlessIff(hint[1..], reference);
      StartsEntityAlike(hint, reference);
      assert filled[0] == hint[0] && filled[1..] == Filled(hint[1..], reference);
      HarmlessFront(hint);
      HarmlessFront(filled);
    }
  }

  lemma DetailsAreHarmlessIff(hint: string, reference: string)
    requires IsReference(reference)
    ensures Harmless(Details(hint, reference)) <==> Harmless(hint)
  {
    if hint != "" {
      var front := "\nReference: " + reference + ". Details: ";
      UnmarkedIsHarmless(front);
      HarmlessAppend(front, Filled(hint, reference));
      FilledIsHarmlessIff(hint, reference);
    }
  }

  /** What the user reads is the headline on its own line, the end of the helper's output on the next and then the hint,
      whatever markup the helper printed. The body is harmless markup exactly when the hint the reporter was given is,
      because the hint alone is not escaped. Only the headline and the hint are unbounded. */
  lemma NotificationBody(headline: string, stderr: string, truncated: bool, hint: string, pid: nat, sequence: nat)
    ensures var message, reference := Message(headline, stderr, truncated), Reference(pid, sequence);
            var body := Escaped(message) + Details(hint, reference);
            && Shown(body) == message + Shown(Details(hint, reference))
            && (Harmless(body) <==> Harmless(hint))
            && |body| <= 5 * |headline| + 3021 + |Details(hint, reference)|
  {
    var message, reference := Message(headline, stderr, truncated), Reference(pid, sequence);
    ShownPrefix(message, Details(hint, reference));
    EscapedIsHarmless(message);
    HarmlessAppend(Escaped(message), Details(hint, reference));
    DetailsAreHarmlessIff(hint, reference);
    EscapedAppend(SingleLine(headline), Below(stderr, truncated));
    EscapedIsHarmless(SingleLine(headline));
    JoinedIsShort(Stripped(headline));
    BelowIsBounded(stderr, truncated);
  }

  const GREP := "grep {reference} "

  /** `with_log_file`. */
  function LogFileHint(path: string): string { GREP + path }

  /** No reference mark starts before position `n`. */
  predicate Unmentioned(hint: string, n: nat)
    requires n <= |hint|
  {
    forall i :: 0 <= i < n ==> !(REFERENCE_MARK <= hint[i..])
  }

  /** The reference takes the place of the mark, and of nothing else. */
  lemma {:induction false} FilledAtMark(front: string, back: string, reference: string)
    requires Unmentioned(front + "{reference}" + back, |front|)
    ensures Filled(front + "{reference}" + back, reference) == front + (reference + Filled(back, reference))
    decreases |front|
  {
    var hint := front + "{reference}" + back;
    if front == "" {
      assert hint == "{reference}" + back && hint[|REFERENCE_MARK|..] == back;
    } else {
      assert hint[0..] == hint && !(REFERENCE_MARK <= hint);
      assert hint[1..] == front[1..] + "{reference}" + back;
      forall i | 0 <= i < |front| - 1 ensures !(REFERENCE_MARK <= hint[1..][i..]) {
        assert hint[1..][i..] == hint[i + 1..];
      }
      FilledAtMark(front[1..], back, reference);
      assert [hint[0]] + (front[1..] + (reference + Filled(back, reference)))
             == front + (reference + Filled(back, reference));
    }
  }

  /** With no mark in it a hint stays as it is. */
  lemma {:induction false} FilledWithout(hint: string, reference: string)
    requires Unmentioned(hint, |hint|)
    ensures Filled(hint, reference) == hint
  {
    if hint != "" {
      assert hint[0..] == hint;
      forall i | 0 <= i < |hint| - 1 ensures !(REFERENCE_MARK <= hint[1..][i..]) {
        assert hint[1..][i..] == hint[i + 1..];
      }
      FilledWithout(hint[1..], reference);
      assert [hint[0]] + hint[1..] == hint;
    }
  }

  /** A reporter with a log file tells the user to search that file for the reference it prints. */
  lemma GrepFindsTheReference(path: string, reference: string)
    requires Unmentioned(path, |path|)
    ensures Details(LogFileHint(path), reference) ==
            "\nReference: " + reference + ". Details: " + ("grep " + (reference + (" " + path)))
  {
    var hint := LogFileHint(path);
    assert hint == "grep " + "{reference}" + (" " + path);
    forall i | 0 <= i < 5 ensures !(REFERENCE_MARK <= hint[i..]) {
      assert hint[i] == "grep "[i] && REFERENCE_MARK[0] == '{';
    }
    forall i | 0 <= i < |" " + path| ensures !(REFERENCE_MARK <= (" " + path)[i..]) {
      if i == 0 {
        assert (" " + path)[0] == ' ' && REFERENCE_MARK[0] == '{';
      } else {
        assert (" " + path)[i..] == path[i - 1..];
      }
    }
    FilledAtMark("grep ", " " + path, reference);
    FilledWithout(" " + path, reference);
  }

  /** So a reporter with a log file sends harmless markup exactly when the file's path is: a bracket in a directory name
      reaches the notifier. */
  lemma LogPathDecides(headline: string, stderr: string, truncated: bool, path: string, pid: nat, sequence: nat)
    ensures var message := Message(headline, stderr, truncated);
            var details := Details(LogFileHint(path), Reference(pid, sequence));
            Harmless(Escaped(message) + details) <==> Harmless(path)
  {
    NotificationBody(headline, stderr, truncated, LogFileHint(path), pid, sequence);
    LogFileHintIsHarmlessIff(path);
  }

  lemma LogFileHintIsHarmlessIff(path: string)
    ensures Harmless(LogFileHint(path)) <==> Harmless(path)
  {
    UnmarkedIsHarmless(GREP);
    HarmlessAppend(GREP, path);
  }

  /** The message splits at its first line break into the headline and the end of the output, neither of which has one.
      */
  lemma MessageHasTwoLines(headline: string, stderr: string, truncated: bool)
    requires stderr != ""
    ensures var line, message := SingleLine(headline), Message(headline, stderr, truncated);
            && |line| < |message| && message[..|line|] == line && message[|line|] == '\n'
            && '\n' !in line && '\n' !in message[|line| + 1..]
  {
    SingleLineIsClean(headline);
    SingleLineIsClean(stderr);
    NoteIsUnmarked(truncated);
    TwoLines(SingleLine(headline), KeepTail(SingleLine(stderr), MAX_BODY_CHARS), Note(truncated));
  }

  lemma TwoLines(line: string, tail: string, note: string)
    requires '\n' !in tail && '\n' !in note
    ensures var message := line + Line(tail, note);
            && |line| < |message| && message[..|line|] == line && message[|line|] == '\n'
            && '\n' !in message[|line| + 1..]
  {
    assert (line + Line(tail, note))[|line| + 1..] == tail + note;
  }
}

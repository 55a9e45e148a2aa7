/** The bounded tail of a helper's error output, and its escaping for a notification. */
module StderrTail {
  import opened Basics

  const MAX_BYTES := 16384

  /** One call of `read`: some bytes, an interruption, end of stream or another error. */
  datatype Read = Got(chunk: seq<Byte>) | Interrupted | End | Error

  /** Reads end at the first end of stream or hard error; an empty chunk is an end of stream. */
  predicate Ends(r: Read) { r.End? || r.Error? || (r.Got? && r.chunk == []) }

  /** The calls made before the stream ended. */
  function Length(calls: seq<Read>): (n: nat)
    ensures n <= |calls| && (n < |calls| ==> Ends(calls[n])) && forall i :: 0 <= i < n ==> !Ends(calls[i])
  {
    if calls == [] || Ends(calls[0]) then 0 else 1 + Length(calls[1..])
  }

  /** The bytes of the first `n` calls, however they were cut. */
  function Written(calls: seq<Read>, n: nat): seq<Byte>
    requires n <= |calls|
  {
    if n == 0 then []
    else if calls[n - 1].Got? then Written(calls, n - 1) + calls[n - 1].chunk else Written(calls, n - 1)
  }

  function Stream(calls: seq<Read>): seq<Byte> { Written(calls, Length(calls)) }

  function Tail(bytes: seq<Byte>): seq<Byte> {
    if |bytes| <= MAX_BYTES then bytes else bytes[|bytes| - MAX_BYTES..]
  }

  /** One more chunk: append it and cut the front off if that is too much. */
  function Keep(kept: seq<Byte>, truncated: bool, chunk: seq<Byte>): (seq<Byte>, bool) {
    var grown := kept + chunk;
    if |grown| > MAX_BYTES then (grown[|grown| - MAX_BYTES..], true) else (grown, truncated)
  }

  function KeptOf(calls: seq<Read>, n: nat): (seq<Byte>, bool)
    requires n <= |calls|
  {
    if n == 0 then ([], false)
    else
      var (kept, truncated) := KeptOf(calls, n - 1);
      if calls[n - 1].Got? then Keep(kept, truncated, calls[n - 1].chunk) else (kept, truncated)
  }

  lemma {:induction false} KeptIsTail(calls: seq<Read>, n: nat)
    requires n <= |calls|
    ensures KeptOf(calls, n) == (Tail(Written(calls, n)), |Written(calls, n)| > MAX_BYTES)
  {
    if n > 0 {
      KeptIsTail(calls, n - 1);
      if calls[n - 1].Got? { TailGrows(Written(calls, n - 1), calls[n - 1].chunk); }
    }
  }

  /** `drain_stderr`: whatever the sizes of the reads and wherever signals interrupt them, exactly the last 16384 bytes
      are kept, and `truncated` tells whether there were more. */
  method Drain(calls: seq<Read>) returns (retained: seq<Byte>, truncated: bool)
    ensures |retained| == Min(|Stream(calls)|, 16384)
    ensures retained == Stream(calls)[|Stream(calls)| - |retained|..]
    ensures truncated == (|Stream(calls)| > 16384)
  {
    retained, truncated := [], false;
    var i := 0;
    while i < |calls| && !Ends(calls[i])
      invariant 0 <= i <= Length(calls) && (retained, truncated) == KeptOf(calls, i)
    {
      if calls[i].Got? {
        retained := retained + calls[i].chunk;
        if |retained| > MAX_BYTES {
          retained := retained[|retained| - MAX_BYTES..];
          truncated := true;
        }
      }
      i := i + 1;
    }
    KeptIsTail(calls, i);
  }

  lemma CutTwice(bytes: seq<Byte>, a: nat, b: nat)
    requires a + b <= |bytes|
    ensures bytes[a..][b..] == bytes[a + b..]
  {
  }

  /** Keeping the tail of what was kept and read is keeping the tail of everything. */
  lemma TailGrows(seen: seq<Byte>, chunk: seq<Byte>)
    ensures Keep(Tail(seen), |seen| > MAX_BYTES, chunk) == (Tail(seen + chunk), |seen + chunk| > MAX_BYTES)
  {
    if |seen| > MAX_BYTES {
      var cut := |seen| - MAX_BYTES;
      assert (seen + chunk)[cut..] == Tail(seen) + chunk;
      CutTwice(seen + chunk, cut, |chunk|);
      assert chunk == [] ==> Tail(seen) + chunk == Tail(seen);
    }
  }

  // ---------------------------------------------------------------- truncating and escaping

  const ELLIPSIS: char := '\U{2026}'

  /** `truncate_keeping_tail`. */
  function KeepTail(text: string, max: nat): string {
    if |text| <= max then text else [ELLIPSIS] + text[|text| - max..]
  }

  function Entity(c: char): string {
    if c == '&' then "&amp;" else if c == '<' then "&lt;" else if c == '>' then "&gt;" else [c]
  }

  function Escaped(text: string): string {
    if text == "" then "" else Escaped(text[..|text| - 1]) + Entity(text[|text| - 1])
  }

  method EscapeMarkup(text: string) returns (escaped: string)
    ensures escaped == Escaped(text)
  {
    escaped := "";
    for i := 0 to |text|
      invariant escaped == Escaped(text[..i])
    {
      assert text[..i + 1][..i] == text[..i];
      escaped := escaped + Entity(text[i]);
    }
    assert text[..|text|] == text;
  }

  /** What the notification shows: the markup reader turns entities back into characters. */
  function Shown(markup: string): string {
    if markup == "" then ""
    else if "&amp;" <= markup then "&" + Shown(markup[5..])
    else if "&lt;" <= markup then "<" + Shown(markup[4..])
    else if "&gt;" <= markup then ">" + Shown(markup[4..])
    else [markup[0]] + Shown(markup[1..])
  }

  lemma FrontOf(c: char, text: string)
    requires text != ""
    ensures ([c] + text)[..|text|] == [c] + text[..|text| - 1] && ([c] + text)[|text|] == text[|text| - 1]
  {
  }

  lemma {:induction false} EscapedFront(c: char, text: string)
    ensures Escaped([c] + text) == Entity(c) + Escaped(text)
  {
    if text == "" {
      assert [c] + text == [c] && [c][..0] == "";
      assert "" + Entity(c) == Entity(c) == Entity(c) + "";
    } else {
      var init, last := text[..|text| - 1], text[|text| - 1];
      FrontOf(c, text);
      EscapedFront(c, init);
      Associate(Entity(c), Escaped(init), Entity(last));
    }
  }

  lemma ShownEntity(c: char, markup: string)
    ensures Shown(Entity(c) + markup) == [c] + Shown(markup)
  {
    var text := Entity(c) + markup;
    assert text[0] == Entity(c)[0] && text[|Entity(c)|..] == markup;
    if c == '&' {
      assert "&amp;" <= text;
    } else if c == '<' {
      assert text[1] == 'l' && "&amp;"[1] == 'a';
      assert "&lt;" <= text;
    } else if c == '>' {
      assert text[1] == 'g' && "&amp;"[1] == 'a' && "&lt;"[1] == 'l';
      assert "&gt;" <= text;
    } else {
      assert "&amp;"[0] == '&' && "&lt;"[0] == '&' && "&gt;"[0] == '&';
    }
  }

  /** Escaping loses nothing: what is shown is the text that was escaped. */
  lemma {:induction false} ShownIsText(text: string)
    ensures Shown(Escaped(text)) == text
  {
    if text != "" {
      assert text == [text[0]] + text[1..];
      EscapedFront(text[0], text[1..]);
      ShownIsText(text[1..]);
      ShownEntity(text[0], Escaped(text[1..]));
    }
  }

  predicate StartsEntity(markup: string) {
    "&amp;" <= markup || "&lt;" <= markup || "&gt;" <= markup
  }

  /** No angle bracket is left, and every ampersand starts a complete entity. */
  predicate Harmless(markup: string) {
    '<' !in markup && '>' !in markup && forall i :: 0 <= i < |markup| && markup[i] == '&' ==> StartsEntity(markup[i..])
  }

  lemma HarmlessEntity(prior: string, c: char)
    requires Harmless(prior)
    ensures Harmless(prior + Entity(c))
  {
    var entity := Entity(c);
    var markup := prior + entity;
    forall i | 0 <= i < |markup| && markup[i] == '&' ensures StartsEntity(markup[i..]) {
      if i < |prior| {
        assert prior[i] == '&' && markup[i..] == prior[i..] + entity;
      } else {
        assert entity[i - |prior|] == '&';
        assert i == |prior| && markup[i..] == entity;
      }
    }
  }

  lemma {:induction false} EscapedIsHarmless(text: string)
    ensures Harmless(Escaped(text)) && |Escaped(text)| <= 5 * |text|
  {
    if text != "" {
      EscapedIsHarmless(text[..|text| - 1]);
      HarmlessEntity(Escaped(text[..|text| - 1]), text[|text| - 1]);
    }
  }
}

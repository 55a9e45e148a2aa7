/** Shared vocabulary: options, bytes, decimal printing, string order. */
module Basics {

  datatype Option<+T> = None | Some(value: T)

  type Byte = b: int | 0 <= b < 256
  type Bytes = seq<Byte>

  const U64_MAX: nat := 0xFFFF_FFFF_FFFF_FFFF

  /** `char::is_whitespace`: the Unicode property White_Space. */
  predicate IsSpace(c: char) {
    c == ' ' || '\t' <= c <= '\r' || c == '\U{85}' || c == '\U{A0}' || c == '\U{1680}' ||
    '\U{2000}' <= c <= '\U{200A}' || c == '\U{2028}' || c == '\U{2029}' || c == '\U{202F}' || c == '\U{205F}' ||
    c == '\U{3000}'
  }

  function Min(a: nat, b: nat): nat { if a <= b then a else b }

  /** `format!("{n}")`. */
  function Dec(n: nat): (text: string)
    ensures |text| > 0
    ensures forall i :: 0 <= i < |text| ==> '0' <= text[i] <= '9'
  {
    if n < 10 then [DigitChar(n)] else Dec(n / 10) + [DigitChar(n % 10)]
  }

  function DigitChar(d: nat): char
    requires d < 10
  {
    ('0' as int + d) as char
  }

  lemma {:induction false} DecInjective(a: nat, b: nat)
    requires Dec(a) == Dec(b)
    ensures a == b
    decreases a
  {
    var x, y := Dec(a), Dec(b);
    assert x[|x| - 1] == DigitChar(a % 10) && y[|y| - 1] == DigitChar(b % 10);
    if a >= 10 && b >= 10 {
      assert x[..|x| - 1] == Dec(a / 10) && y[..|y| - 1] == Dec(b / 10);
      DecInjective(a / 10, b / 10);
    }
  }

  /** The last `:` of a key splits it: two keys `p:x`, `q:y` with no colon in `x` and `y` agree only when both halves
      agree. */
  lemma LastColonSplits(p: string, x: string, q: string, y: string)
    requires ':' !in x && ':' !in y
    requires p + ":" + x == q + ":" + y
    ensures p == q && x == y
  {
    var k, l := p + ":" + x, q + ":" + y;
    assert k[|p|] == ':' && l[|q|] == ':';
    assert forall i :: |p| < i < |k| ==> k[i] in x;
    assert forall i :: |q| < i < |l| ==> l[i] in y;
    assert |p| == |q|;
    assert k[..|p|] == p && k[|p| + 1..] == x;
    assert l[..|q|] == q && l[|q| + 1..] == y;
  }

  lemma Associate<T>(a: seq<T>, b: seq<T>, c: seq<T>)
    ensures a + b + c == a + (b + c)
  {
  }

  lemma DecHasNoColon(n: nat)
    ensures ':' !in Dec(n)
  {
  }

  /** The largest number of a finite set, or 0: `COALESCE(MAX(x), 0)`. */
  function MaxOrZero(xs: set<nat>): (m: nat)
    ensures forall x :: x in xs ==> x <= m
    ensures xs == {} ==> m == 0
    ensures xs != {} ==> m in xs
  {
    if xs == {} then 0
    else
      MaxExists(xs);
      var m :| m in xs && forall x :: x in xs ==> x <= m;
      m
  }

  lemma MaxExists(xs: set<nat>)
    requires xs != {}
    ensures exists m :: m in xs && forall x :: x in xs ==> x <= m
  {
    var a :| a in xs;
    var rest := xs - {a};
    if rest == {} {
      assert xs == {a};
      assert a in xs && forall x :: x in xs ==> x <= a;
    } else {
      MaxExists(rest);
      var b :| b in rest && forall x :: x in rest ==> x <= b;
      var m := if a <= b then b else a;
      assert forall x :: x in xs ==> x == a || x in rest;
      assert m in xs && forall x :: x in xs ==> x <= m;
    }
  }

  /** Lexicographic order on strings: SQLite's binary collation. */
  predicate StrLess(a: string, b: string) {
    if |b| == 0 then false
    else if |a| == 0 then true
    else a[0] < b[0] || (a[0] == b[0] && StrLess(a[1..], b[1..]))
  }

  lemma {:induction false} StrLessTotal(a: string, b: string)
    ensures a == b || StrLess(a, b) || StrLess(b, a)
  {
    if |a| > 0 && |b| > 0 && a[0] == b[0] {
      StrLessTotal(a[1..], b[1..]);
      assert a == [a[0]] + a[1..] && b == [b[0]] + b[1..];
    }
  }

  lemma {:induction false} StrLessTransitive(a: string, b: string, c: string)
    requires StrLess(a, b) && StrLess(b, c)
    ensures StrLess(a, c)
  {
    if |a| > 0 && a[0] == b[0] == c[0] {
      StrLessTransitive(a[1..], b[1..], c[1..]);
    }
  }

  lemma {:induction false} StrLessIrreflexive(a: string)
    ensures !StrLess(a, a)
  {
    if |a| > 0 { StrLessIrreflexive(a[1..]); }
  }
}

/**
 * The pieces of Go's standard library that minimega's host statistics rely on:
 * strings.Fields, strings.Join, strconv.Atoi, "%v" formatting of an int, the
 * truncating integer division of Go and the wrap-around of a 64-bit int.
 */
module GoText {
  import opened Wrappers

  /** unicode.IsSpace: the characters strings.Fields splits on. */
  predicate IsSpace(c: char) {
    || c == '\t' || c == '\n' || c == '\U{000B}' || c == '\U{000C}' || c == '\r' || c == ' '
    || c == '\U{0085}' || c == '\U{00A0}' || c == '\U{1680}'
    || ('\U{2000}' <= c <= '\U{200A}')
    || c == '\U{2028}' || c == '\U{2029}' || c == '\U{202F}' || c == '\U{205F}' || c == '\U{3000}'
  }

  /** A field as strings.Fields produces it: non-empty and free of white space. */
  predicate IsWord(w: string) {
    |w| > 0 && forall i :: 0 <= i < |w| ==> !IsSpace(w[i])
  }

  /** Length of the run of non-space characters at the start of `s`. */
  function WordLen(s: string): (n: nat)
    ensures n <= |s|
    ensures forall i :: 0 <= i < n ==> !IsSpace(s[i])
    ensures n < |s| ==> IsSpace(s[n])
  {
    if s == [] || IsSpace(s[0]) then 0 else 1 + WordLen(s[1..])
  }

  /** strings.Fields: the maximal runs of non-space characters, in order. */
  function Fields(s: string): (fs: seq<string>)
    ensures forall i :: 0 <= i < |fs| ==> IsWord(fs[i])
    decreases |s|
  {
    if s == [] then []
    else if IsSpace(s[0]) then Fields(s[1..])
    else
      var n := WordLen(s);
      [s[..n]] + Fields(s[n..])
  }

  /** strings.Join: the parts with `sep` between neighbours. */
  function Join(parts: seq<string>, sep: string): string
  {
    if parts == [] then ""
    else if |parts| == 1 then parts[0]
    else parts[0] + sep + Join(parts[1..], sep)
  }

  /** Splitting words joined by single spaces gives the words back. */
  lemma {:induction false} FieldsOfJoin(ws: seq<string>)
    requires forall i :: 0 <= i < |ws| ==> IsWord(ws[i])
    ensures Fields(Join(ws, " ")) == ws
  {
    if ws == [] {
    } else {
      var w := ws[0];
      var s := Join(ws, " ");
      var n := WordLen(s);
      if |ws| == 1 {
        assert s == w;
        assert n == |w|;
        assert s[..n] == w && s[n..] == [];
      } else {
        var rest := Join(ws[1..], " ");
        assert s == w + " " + rest;
        assert s[|w|] == ' ';
        assert forall i :: 0 <= i < |w| ==> s[i] == w[i];
        assert n == |w|;
        assert s[..n] == w;
        var tail := s[n..];
        assert tail == " " + rest;
        assert tail[1..] == rest;
        assert Fields(tail) == Fields(rest);
        FieldsOfJoin(ws[1..]);
      }
    }
  }

  const Int64Min: int := -0x8000_0000_0000_0000
  const Int64Max: int := 0x7fff_ffff_ffff_ffff

  /** Go's `int` on a 64-bit platform. */
  type Int64 = x: int | Int64Min <= x <= Int64Max

  predicate IsDigit(c: char) { '0' <= c <= '9' }

  predicate AllDigits(s: string) { forall i :: 0 <= i < |s| ==> IsDigit(s[i]) }

  /** The number a string of decimal digits denotes. */
  function DigitsValue(s: string): nat
    requires AllDigits(s)
  {
    if s == [] then 0
    else 10 * DigitsValue(s[..|s| - 1]) + (s[|s| - 1] as int - '0' as int)
  }

  /**
   * strconv.Atoi on a 64-bit platform: an optional sign, then at least one
   * decimal digit and nothing else, and a value that fits in an int64.
   */
  function Atoi(s: string): (r: Option<int>)
    ensures r.Some? ==> Int64Min <= r.value <= Int64Max
    // accepted strings: digits, or a sign followed by digits
    ensures r.Some? ==> (|s| > 0 && AllDigits(s)) || (|s| > 1 && (s[0] == '+' || s[0] == '-') && AllDigits(s[1..]))
    // the value of each accepted shape, and rejection when it does not fit
    ensures |s| > 0 && AllDigits(s) ==>
      r == if DigitsValue(s) <= Int64Max then Some(DigitsValue(s)) else None
    ensures |s| > 1 && s[0] == '+' && AllDigits(s[1..]) ==>
      r == if DigitsValue(s[1..]) <= Int64Max then Some(DigitsValue(s[1..])) else None
    ensures |s| > 1 && s[0] == '-' && AllDigits(s[1..]) ==>
      r == if DigitsValue(s[1..]) <= -Int64Min then Some(-(DigitsValue(s[1..]) as int)) else None
  {
    var negative := |s| > 0 && s[0] == '-';
    var digits := if |s| > 0 && (s[0] == '-' || s[0] == '+') then s[1..] else s;
    if digits == [] || !AllDigits(digits) then None
    else
      var v: int := if negative then -(DigitsValue(digits) as int) else DigitsValue(digits);
      if Int64Min <= v <= Int64Max then Some(v) else None
  }

  function DigitChar(d: nat): char
    requires d < 10
  {
    ('0' as int + d) as char
  }

  /** The decimal digits of a natural number, without leading zeros. */
  function NatDigits(n: nat): (s: string)
    ensures |s| > 0 && AllDigits(s)
    ensures DigitsValue(s) == n
    ensures |s| > 1 ==> s[0] != '0'
  {
    var last := DigitChar(n % 10);
    if n < 10 then [last]
    else
      var s := NatDigits(n / 10) + [last];
      assert s[..|s| - 1] == NatDigits(n / 10);
      s
  }

  /**
   * "%v" applied to an int: decimal without leading zeros, with a leading '-'
   * when negative and no '+'; Atoi reads it back.
   */
  function Itoa(n: int): (s: string)
    ensures IsWord(s)
    ensures n >= 0 ==> AllDigits(s) && (|s| > 1 ==> s[0] != '0')
    ensures n < 0 ==> |s| > 1 && s[0] == '-' && AllDigits(s[1..]) && s[1] != '0'
    ensures Int64Min <= n <= Int64Max ==> Atoi(s) == Some(n)
  {
    if n < 0 then
      var s := "-" + NatDigits(-n);
      assert s[1..] == NatDigits(-n);
      s
    else NatDigits(n)
  }

  /** Go's integer `/`: the quotient is truncated toward zero. */
  function GoDiv(x: int, d: int): (q: int)
    requires d > 0
    ensures x >= 0 ==> 0 <= x - q * d < d
    ensures x < 0 ==> -d < x - q * d <= 0
    ensures x >= 0 ==> 0 <= q <= x
    ensures x < 0 ==> x <= q <= 0
  {
    var q := if x >= 0 then x / d else -((-x) / d);
    var a := if x >= 0 then x else -x;
    assert 0 <= a / d <= a by { DivBound(a, d); }
    q
  }

  lemma DivBound(a: int, d: int)
    requires a >= 0 && d > 0
    ensures 0 <= a / d <= a
  {
    var q := a / d;
    assert a == q * d + a % d;
    assert q * d >= q by { MulAtLeast(q, d); }
  }

  lemma MulAtLeast(q: int, d: int)
    requires q >= 0 && d >= 1
    ensures q * d >= q
  {
    assert q * d == q + q * (d - 1);
  }

  /** The int64 that an unbounded integer wraps to. */
  function Wrap64(x: int): (r: int)
    ensures Int64Min <= r <= Int64Max
    ensures (x - r) % 0x1_0000_0000_0000_0000 == 0
    ensures Int64Min <= x <= Int64Max ==> r == x
  {
    (x - Int64Min) % 0x1_0000_0000_0000_0000 + Int64Min
  }
}

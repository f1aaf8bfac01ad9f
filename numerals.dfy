/** Numeral text: the JSON number grammar of section 6 of RFC 8259, the
    tokenizer that recognises it, canonical decimal formatting of integers and
    the range-checked integer reading behind the integer accessors. */
module Numerals {
  import opened Wrappers

  /** The signed ranges of the integer setters and accessors; each is the
      constraint of the newtype below it. */
  predicate InInt32(n: int) { -0x8000_0000 <= n <= 0x7fff_ffff }
  predicate InInt64(n: int) { -0x8000_0000_0000_0000 <= n <= 0x7fff_ffff_ffff_ffff }

  /** The widths of the integer setters and accessors. */
  newtype Int32 = x: int | InInt32(x)
  newtype Int64 = x: int | InInt64(x)
  newtype UInt64 = x: int | 0 <= x <= 0xffff_ffff_ffff_ffff

  predicate IsDigit(c: char) { '0' <= c <= '9' }

  predicate AllDigits(s: string) { forall i :: 0 <= i < |s| ==> IsDigit(s[i]) }

  /** Every character of s in positions a to b (exclusive) is a digit. */
  predicate DigitsIn(s: string, a: nat, b: nat)
    requires a <= b <= |s|
  {
    forall k :: a <= k < b ==> IsDigit(s[k])
  }

  /** A character that can continue a numeral: a digit, a decimal point or
      an exponent marker. */
  predicate NumberChar(c: char) { IsDigit(c) || c == '.' || c == 'e' || c == 'E' }

  // ---------------------------------------------------------------------
  // The grammar, stated declaratively over positions of a text

  /** int = "0" / digit1-9 *DIGIT, in positions a to b */
  ghost predicate IntPartIn(s: string, a: nat, b: nat)
    requires a <= b <= |s|
  {
    a < b && IsDigit(s[a]) && (if s[a] == '0' then b == a + 1 else DigitsIn(s, a, b))
  }

  /** frac = [ "." 1*DIGIT ], in positions a to b */
  ghost predicate FracIn(s: string, a: nat, b: nat)
    requires a <= b <= |s|
  {
    b == a || (a + 2 <= b && s[a] == '.' && DigitsIn(s, a + 1, b))
  }

  /** exp = [ ("e" / "E") [ "-" / "+" ] 1*DIGIT ], in positions a to b */
  ghost predicate ExpIn(s: string, a: nat, b: nat)
    requires a <= b <= |s|
  {
    b == a ||
    (a + 2 <= b && (s[a] == 'e' || s[a] == 'E') &&
     var d := if s[a + 1] == '+' || s[a + 1] == '-' then a + 2 else a + 1;
     d < b && DigitsIn(s, d, b))
  }

  /** int frac exp, in positions a to b */
  ghost predicate UnsignedIn(s: string, a: nat, b: nat)
    requires a <= b <= |s|
  {
    exists i, j | a < i <= j <= b :: IntPartIn(s, a, i) && FracIn(s, i, j) && ExpIn(s, j, b)
  }

  function SignLen(s: string): (k: nat)
    ensures k <= |s|
  {
    if |s| > 0 && s[0] == '-' then 1 else 0
  }

  /** number = [ "-" ] int [ frac ] [ exp ] */
  ghost predicate IsNumeral(t: string)
  {
    UnsignedIn(t, SignLen(t), |t|)
  }

  /** The grammar looks only at the positions it covers: two texts that agree
      there agree on it. */
  lemma UnsignedInAgree(s: string, t: string, a: nat, b: nat)
    requires a <= b <= |s| && b <= |t|
    requires forall k :: a <= k < b ==> s[k] == t[k]
    requires UnsignedIn(s, a, b)
    ensures UnsignedIn(t, a, b)
  {
    var i, j :| a < i <= j <= b && IntPartIn(s, a, i) && FracIn(s, i, j) && ExpIn(s, j, b);
    assert IntPartIn(t, a, i) && FracIn(t, i, j) && ExpIn(t, j, b);
  }

  // ---------------------------------------------------------------------
  // The tokenizer

  /** End of the run of digits that starts at position a. */
  function DigitRun(s: string, a: nat): (b: nat)
    requires a <= |s|
    ensures a <= b <= |s| && DigitsIn(s, a, b)
    ensures b < |s| ==> !IsDigit(s[b])
    decreases |s| - a
  {
    if a == |s| || !IsDigit(s[a]) then a else DigitRun(s, a + 1)
  }

  /** The digit run ends exactly at the first non-digit. */
  lemma DigitRunOf(s: string, a: nat, b: nat)
    requires a <= b <= |s| && DigitsIn(s, a, b)
    requires b == |s| || !IsDigit(s[b])
    ensures DigitRun(s, a) == b
  {
  }

  /** End of the integer part that starts at a; a zero followed by more
      digits is refused. */
  function IntEnd(s: string, a: nat): (r: Option<nat>)
    requires a <= |s|
    ensures r.Some? ==> a < r.value <= |s|
  {
    var b := DigitRun(s, a);
    if b == a || (s[a] == '0' && b > a + 1) then None else Some(b)
  }

  /** End of the optional fraction that starts at a. */
  function FracEnd(s: string, a: nat): (r: Option<nat>)
    requires a <= |s|
    ensures r.Some? ==> a <= r.value <= |s|
  {
    if a < |s| && s[a] == '.' then
      var b := DigitRun(s, a + 1);
      if b == a + 1 then None else Some(b)
    else Some(a)
  }

  /** End of the optional exponent that starts at a. */
  function ExpEnd(s: string, a: nat): (r: Option<nat>)
    requires a <= |s|
    ensures r.Some? ==> a <= r.value <= |s|
  {
    if a < |s| && (s[a] == 'e' || s[a] == 'E') then
      var d := if a + 1 < |s| && (s[a + 1] == '+' || s[a + 1] == '-') then a + 2 else a + 1;
      var b := DigitRun(s, d);
      if b == d then None else Some(b)
    else Some(a)
  }

  /** End of the numeral that starts at the beginning of s. */
  function NumberEnd(s: string): (r: Option<nat>)
    ensures r.Some? ==> 0 < r.value <= |s|
  {
    var a := SignLen(s);
    match IntEnd(s, a)
    case None => None
    case Some(i) =>
      match FracEnd(s, i)
      case None => None
      case Some(j) => ExpEnd(s, j)
  }

  /** Recognises the numeral at the start of s and returns its exact text and
      what follows it. Whatever it accepts is a numeral of the grammar. */
  function ParseNumber(s: string): (r: Option<(string, string)>)
    ensures r.Some? ==> s == r.value.0 + r.value.1 && IsNumeral(r.value.0)
  {
    match NumberEnd(s)
    case None => None
    case Some(n) =>
      NumberEndNumeral(s);
      Some((s[..n], s[n..]))
  }

  /** The text the tokenizer recognises is a numeral on its own. */
  lemma NumberEndNumeral(s: string)
    requires NumberEnd(s).Some?
    ensures IsNumeral(s[..NumberEnd(s).value])
  {
    var n := NumberEnd(s).value;
    NumberEndSound(s);
    assert SignLen(s[..n]) == SignLen(s);
    UnsignedInAgree(s, s[..n], SignLen(s), n);
  }

  // ---------------------------------------------------------------------
  // Soundness: what the tokenizer accepts is in the grammar

  lemma NumberEndSound(s: string)
    requires NumberEnd(s).Some?
    ensures UnsignedIn(s, SignLen(s), NumberEnd(s).value)
  {
    var a := SignLen(s);
    var i := IntEnd(s, a).value;
    var j := FracEnd(s, i).value;
    var b := ExpEnd(s, j).value;
    assert IntPartIn(s, a, i);
    assert FracIn(s, i, j);
    assert ExpIn(s, j, b);
  }

  // ---------------------------------------------------------------------
  // Exactness: every numeral of the grammar is recognised in full

  /** Each stage of the tokenizer stops where the grammar's part ends, when
      the character after the whole numeral cannot continue it. */
  lemma ExpEndExact(s: string, j: nat, b: nat)
    requires j <= b <= |s| && ExpIn(s, j, b)
    requires b == |s| || !NumberChar(s[b])
    ensures ExpEnd(s, j) == Some(b)
  {
    if b > j {
      var d := if s[j + 1] == '+' || s[j + 1] == '-' then j + 2 else j + 1;
      DigitRunOf(s, d, b);
    }
  }

  lemma FracEndExact(s: string, i: nat, j: nat, b: nat)
    requires i <= j <= b <= |s| && FracIn(s, i, j) && ExpIn(s, j, b)
    requires b == |s| || !NumberChar(s[b])
    ensures FracEnd(s, i) == Some(j)
  {
    if j > i {
      DigitRunOf(s, i + 1, j);
    }
  }

  lemma IntEndExact(s: string, a: nat, i: nat, j: nat, b: nat)
    requires a < i <= j <= b <= |s| && IntPartIn(s, a, i) && FracIn(s, i, j) && ExpIn(s, j, b)
    requires b == |s| || !NumberChar(s[b])
    ensures IntEnd(s, a) == Some(i)
  {
    DigitRunOf(s, a, i);
  }

  /** The tokenizer finds exactly the numeral t at the start of t + rest,
      whenever the first character of rest cannot continue it. */
  lemma ParseNumberExact(t: string, rest: string)
    requires IsNumeral(t)
    requires rest == [] || !NumberChar(rest[0])
    ensures ParseNumber(t + rest) == Some((t, rest))
  {
    var s := t + rest;
    var a := SignLen(t);
    assert SignLen(s) == a;
    assert forall k :: 0 <= k < |t| ==> s[k] == t[k];
    UnsignedInAgree(t, s, a, |t|);
    var i, j :| a < i <= j <= |t| && IntPartIn(s, a, i) && FracIn(s, i, j) && ExpIn(s, j, |t|);
    assert |t| < |s| ==> s[|t|] == rest[0];
    IntEndExact(s, a, i, j, |t|);
    FracEndExact(s, i, j, |t|);
    ExpEndExact(s, j, |t|);
    assert s[..|t|] == t && s[|t|..] == rest;
  }

  /** The tokenizer runs to the end of a text exactly when the whole text is
      a numeral. */
  lemma NumberEndWhole(t: string)
    ensures NumberEnd(t) == Some(|t|) <==> IsNumeral(t)
  {
    if IsNumeral(t) {
      assert t + [] == t;
      ParseNumberExact(t, []);
    }
    if NumberEnd(t) == Some(|t|) {
      var r := ParseNumber(t);
      assert r == Some((t[..|t|], t[|t|..]));
      assert t[..|t|] == t;
    }
  }

  /** The whole-text check behind setNumStr: it accepts exactly the numerals
      of the grammar. */
  function ValidNumStr(t: string): (r: bool)
    ensures r <==> IsNumeral(t)
  {
    NumberEndWhole(t);
    NumberEnd(t) == Some(|t|)
  }

  // ---------------------------------------------------------------------
  // Integers as canonical decimal text

  function DigitChar(d: nat): (c: char)
    requires d < 10
    ensures IsDigit(c)
  {
    (('0' as int) + d) as char
  }

  /** Decimal text of a natural number, most significant digit first. */
  function NatText(n: nat): (t: string)
    ensures |t| > 0 && AllDigits(t)
    ensures n == 0 ==> t == "0"
    ensures n > 0 ==> t[0] != '0'
  {
    if n < 10 then [DigitChar(n)]
    else NatText(n / 10) + [DigitChar(n % 10)]
  }

  /** Canonical decimal text of an integer: a minus sign for negative values
      and no leading zeros. */
  function IntText(n: int): (t: string)
    ensures |t| > 0 && (t[0] == '-' <==> n < 0)
    ensures var u := t[SignLen(t)..]; |u| > 0 && AllDigits(u) && (u[0] != '0' || |u| == 1)
  {
    if n < 0 then "-" + NatText(-n) else NatText(n)
  }

  /** The value of a run of decimal digits. */
  function DigitsValue(s: string): (n: nat)
    requires AllDigits(s)
  {
    if s == [] then 0
    else DigitsValue(s[..|s| - 1]) * 10 + ((s[|s| - 1] as int) - ('0' as int))
  }

  /** The integer denoted by an optionally signed run of digits; None for any
      other text (a fraction or an exponent makes the text not an integer). */
  function ParseInt(t: string): (r: Option<int>)
    ensures r.Some? <==> var u := t[SignLen(t)..]; |u| > 0 && AllDigits(u)
    ensures r.Some? && r.value < 0 ==> SignLen(t) == 1
  {
    var k := SignLen(t);
    var u := t[k..];
    if |u| > 0 && AllDigits(u) then
      var m: int := DigitsValue(u);
      Some(if k == 1 then -m else m)
    else None
  }

  lemma {:induction false} DigitsValueNatText(n: nat)
    ensures DigitsValue(NatText(n)) == n
  {
    if n >= 10 {
      var t := NatText(n);
      assert t[..|t| - 1] == NatText(n / 10);
      DigitsValueNatText(n / 10);
    }
  }

  /** Formatting an integer and reading it back gives the integer. */
  lemma IntTextRoundTrip(n: int)
    ensures ParseInt(IntText(n)) == Some(n)
  {
    var m: nat := if n < 0 then -n else n;
    DigitsValueNatText(m);
    if n < 0 {
      assert IntText(n)[1..] == NatText(m);
    }
  }

  /** Formatted integers are numerals of the grammar. */
  lemma IntTextIsNumeral(n: int)
    ensures IsNumeral(IntText(n))
  {
    var t := IntText(n);
    var a := SignLen(t);
    var m: nat := if n < 0 then -n else n;
    assert t[a..] == NatText(m);
    assert IntPartIn(t, a, |t|) && FracIn(t, |t|, |t|) && ExpIn(t, |t|, |t|);
  }

  /** Appending a digit to the text of a positive number gives the text of
      ten times the number plus that digit. */
  lemma NatTextSnoc(n: nat, d: nat)
    requires 0 < n && d < 10
    ensures NatText(n * 10 + d) == NatText(n) + [DigitChar(d)]
  {
    assert (n * 10 + d) / 10 == n && (n * 10 + d) % 10 == d;
  }

  /** An optionally signed run of digits without a superfluous leading zero
      is a numeral. */
  lemma IntegerNumeral(t: string)
    requires var u := t[SignLen(t)..]; |u| > 0 && AllDigits(u) && (u[0] != '0' || |u| == 1)
    ensures IsNumeral(t)
  {
    var a := SignLen(t);
    assert t[a..][0] == t[a];
    assert forall k :: a <= k < |t| ==> t[k] == t[a..][k - a];
    assert IntPartIn(t, a, |t|) && FracIn(t, |t|, |t|) && ExpIn(t, |t|, |t|);
  }

  function Pow10(k: nat): (p: nat)
    ensures p >= 1
  {
    if k == 0 then 1 else 10 * Pow10(k - 1)
  }

  /** A run of digits without a leading zero is at least 10^(length - 1). */
  lemma {:induction false} DigitsValueLowerBound(s: string)
    requires |s| > 0 && AllDigits(s) && s[0] != '0'
    ensures DigitsValue(s) >= Pow10(|s| - 1)
  {
    if |s| > 1 {
      var p := s[..|s| - 1];
      assert p[0] == s[0];
      DigitsValueLowerBound(p);
    }
  }

  lemma {:induction false} PowMonotone(j: nat, k: nat)
    requires j <= k
    ensures Pow10(j) <= Pow10(k)
  {
    if j < k { PowMonotone(j, k - 1); }
  }
}

/**
 * Python's `int(s, 16)` on a string, restricted to the forms an Ethereum
 * JSON-RPC node sends for a quantity: an optional `0x`/`0X` prefix followed by
 * one or more hexadecimal digits of either case. Anything else is the
 * `ValueError` path, here `None`. (Python also admits surrounding whitespace,
 * a sign and `_` between digits; those strings are `None` here.)
 */
module Hex {
  import opened Wrappers

  predicate IsHexDigit(c: char) {
    '0' <= c <= '9' || 'a' <= c <= 'f' || 'A' <= c <= 'F'
  }

  predicate AllHexDigits(s: string) {
    forall i :: 0 <= i < |s| ==> IsHexDigit(s[i])
  }

  function DigitValue(c: char): (d: nat)
    requires IsHexDigit(c)
    ensures d < 16
  {
    if '0' <= c <= '9' then c as int - '0' as int
    else if 'a' <= c <= 'f' then c as int - 'a' as int + 10
    else c as int - 'A' as int + 10
  }

  /** The number a string of hex digits denotes, most significant digit first. */
  function HexValue(s: string): nat
    requires AllHexDigits(s)
  {
    if s == [] then 0 else 16 * HexValue(s[..|s| - 1]) + DigitValue(s[|s| - 1])
  }

  predicate HasRadixPrefix(s: string) {
    |s| >= 2 && s[0] == '0' && (s[1] == 'x' || s[1] == 'X')
  }

  /** What is left once the optional `0x`/`0X` prefix is removed. */
  function Digits(s: string): string {
    if HasRadixPrefix(s) then s[2..] else s
  }

  /** `int(s, 16)`: `Some(n)` when it returns `n`, `None` when it raises. */
  function ParseHex(s: string): (r: Option<nat>)
    ensures r.Some? <==> |Digits(s)| > 0 && AllHexDigits(Digits(s))
  {
    var d := Digits(s);
    if |d| > 0 && AllHexDigits(d) then Some(HexValue(d)) else None
  }

  // ---------------------------------------------------------------------
  // Encoding: the node's side of a quantity, lower-case and without
  // leading zeros.

  function HexChar(d: nat): (c: char)
    requires d < 16
    ensures IsHexDigit(c) && DigitValue(c) == d && IsLowerOrDecimal(c)
  {
    if d < 10 then ('0' as int + d) as char else ('a' as int + d - 10) as char
  }

  predicate IsLowerOrDecimal(c: char) {
    !('A' <= c <= 'Z')
  }

  /** The canonical spelling of a digit string: lower case, no leading zeros
      (a lone `0` is kept). */
  predicate IsCanonical(d: string) {
    |d| > 0 && AllHexDigits(d) &&
    (forall i :: 0 <= i < |d| ==> IsLowerOrDecimal(d[i])) &&
    (|d| == 1 || d[0] != '0')
  }

  /** The lower-case hex digits of `n`, without leading zeros. */
  function ToHex(n: nat): (s: string)
    ensures IsCanonical(s)
  {
    if n < 16 then [HexChar(n)]
    else
      var hi := ToHex(n / 16);
      assert hi[0] != '0' by { if |hi| == 1 { assert DigitValue(hi[0]) == n / 16 > 0; } }
      hi + [HexChar(n % 16)]
  }

  /** `s` with every ASCII capital letter made lower case. */
  function Lower(s: string): (r: string)
    ensures |r| == |s|
    ensures forall i :: 0 <= i < |s| ==> r[i] == LowerChar(s[i])
  {
    if s == [] then [] else Lower(s[..|s| - 1]) + [LowerChar(s[|s| - 1])]
  }

  function LowerChar(c: char): (l: char)
    ensures IsLowerOrDecimal(l)
    ensures IsHexDigit(l) <==> IsHexDigit(c)
    ensures IsHexDigit(c) ==> DigitValue(l) == DigitValue(c)
  {
    if 'A' <= c <= 'Z' then (c as int - 'A' as int + 'a' as int) as char else c
  }

  /** `d` without its leading zeros, keeping at least one digit. */
  function StripZeros(d: string): (r: string)
    ensures |r| <= |d|
    ensures |d| > 0 ==> |r| > 0 && (|r| == 1 || r[0] != '0')
    ensures r == d[|d| - |r|..]
  {
    if |d| > 1 && d[0] == '0' then StripZeros(d[1..]) else d
  }

  /** The canonical spelling of the same number. */
  function Canonical(d: string): string {
    StripZeros(Lower(d))
  }

  // ---------------------------------------------------------------------
  // Lemmas

  lemma {:induction false} HexValueOfToHex(n: nat)
    ensures HexValue(ToHex(n)) == n
  {
    if n >= 16 {
      var s := ToHex(n);
      assert s[..|s| - 1] == ToHex(n / 16);
      HexValueOfToHex(n / 16);
    }
  }

  /** Decoding `"0x"` followed by the node's encoding of `n` gives back `n`;
      so do the `0X` spelling and the bare digits. */
  lemma ParseHexRoundTrip(n: nat)
    ensures ParseHex("0x" + ToHex(n)) == Some(n)
    ensures ParseHex("0X" + ToHex(n)) == Some(n)
    ensures ParseHex(ToHex(n)) == Some(n)
  {
    HexValueOfToHex(n);
    var h := ToHex(n);
    assert ("0x" + h)[2..] == h;
    assert ("0X" + h)[2..] == h;
    assert |h| >= 2 ==> h[1] != 'x' && h[1] != 'X';
  }

  lemma {:induction false} HexValueLower(d: string)
    requires AllHexDigits(d)
    ensures AllHexDigits(Lower(d)) && HexValue(Lower(d)) == HexValue(d)
  {
    if d != [] {
      var l := Lower(d);
      assert l[..|l| - 1] == Lower(d[..|d| - 1]);
      HexValueLower(d[..|d| - 1]);
    }
  }

  /** A leading zero does not change the value. */
  lemma {:induction false} HexValueLeadingZero(d: string)
    requires AllHexDigits(d)
    ensures AllHexDigits(['0'] + d) && HexValue(['0'] + d) == HexValue(d)
  {
    var z := ['0'] + d;
    if d != [] {
      assert z[..|z| - 1] == ['0'] + d[..|d| - 1];
      HexValueLeadingZero(d[..|d| - 1]);
    }
  }

  lemma {:induction false} HexValueStripZeros(d: string)
    requires AllHexDigits(d)
    ensures HexValue(StripZeros(d)) == HexValue(d)
  {
    if |d| > 1 && d[0] == '0' {
      assert d == ['0'] + d[1..];
      HexValueLeadingZero(d[1..]);
      HexValueStripZeros(d[1..]);
    }
  }

  /** A digit string that does not start with `0` denotes a positive number. */
  lemma {:induction false} HexValuePositive(d: string)
    requires AllHexDigits(d) && |d| > 0 && d[0] != '0'
    ensures HexValue(d) > 0
  {
    if |d| > 1 {
      HexValuePositive(d[..|d| - 1]);
    }
  }

  /** Encoding is the inverse of decoding on canonical spellings. */
  lemma {:induction false} ToHexOfHexValue(d: string)
    requires IsCanonical(d)
    ensures ToHex(HexValue(d)) == d
  {
    var n := HexValue(d);
    if |d| > 1 {
      var hi := d[..|d| - 1];
      HexValuePositive(hi);
      assert IsCanonical(hi);
      ToHexOfHexValue(hi);
      assert n / 16 == HexValue(hi) && n % 16 == DigitValue(d[|d| - 1]);
      assert HexChar(n % 16) == d[|d| - 1] by {
        HexCharOfDigit(d[|d| - 1]);
      }
      assert d == hi + [d[|d| - 1]];
    } else {
      HexCharOfDigit(d[0]);
    }
  }

  lemma HexCharOfDigit(c: char)
    requires IsHexDigit(c) && IsLowerOrDecimal(c)
    ensures HexChar(DigitValue(c)) == c
  {
  }

  /** The value `int(s, 16)` returns, re-encoded, is the canonical spelling
      of the digits that were read: decoding loses only case and leading
      zeros. */
  lemma ParseHexCanonical(s: string, n: nat)
    requires ParseHex(s) == Some(n)
    ensures ToHex(n) == Canonical(Digits(s))
  {
    var d := Digits(s);
    CanonicalValue(d);
    ToHexOfHexValue(Canonical(d));
  }

  /** The canonical spelling is canonical and denotes the same number. */
  lemma CanonicalValue(d: string)
    requires |d| > 0 && AllHexDigits(d)
    ensures IsCanonical(Canonical(d)) && HexValue(Canonical(d)) == HexValue(d)
  {
    var l := Lower(d);
    HexValueLower(d);
    HexValueStripZeros(l);
    LowerIsLower(d);
    var c := StripZeros(l);
    SuffixIsLowerHex(l, |l| - |c|);
    assert c == l[|l| - |c|..];
  }

  lemma LowerIsLower(d: string)
    ensures forall i :: 0 <= i < |Lower(d)| ==> IsLowerOrDecimal(Lower(d)[i])
  {
    var l := Lower(d);
    forall i | 0 <= i < |l| ensures IsLowerOrDecimal(l[i]) {
      assert l[i] == LowerChar(d[i]);
    }
  }

  lemma SuffixIsLowerHex(l: string, k: nat)
    requires k <= |l| && AllHexDigits(l)
    requires forall i :: 0 <= i < |l| ==> IsLowerOrDecimal(l[i])
    ensures AllHexDigits(l[k..])
    ensures forall i :: 0 <= i < |l[k..]| ==> IsLowerOrDecimal(l[k..][i])
  {
    forall i | 0 <= i < |l[k..]| ensures IsHexDigit(l[k..][i]) && IsLowerOrDecimal(l[k..][i]) {
      assert l[k..][i] == l[k + i];
    }
  }

  /** `int(s, 16)` ignores the case of letters, in the prefix and the digits. */
  lemma ParseHexIgnoresCase(s: string)
    ensures ParseHex(Lower(s)) == ParseHex(s)
  {
    var l := Lower(s);
    assert HasRadixPrefix(l) <==> HasRadixPrefix(s);
    assert Digits(l) == Lower(Digits(s));
    if |Digits(s)| > 0 && AllHexDigits(Digits(s)) {
      HexValueLower(Digits(s));
    } else if |Digits(s)| > 0 {
      var i :| 0 <= i < |Digits(s)| && !IsHexDigit(Digits(s)[i]);
      assert !IsHexDigit(Digits(l)[i]);
    }
  }

  /** The prefix is optional: after `0x` or `0X` the same digits decode to
      the same number as on their own. */
  lemma ParseHexPrefixOptional(d: string)
    requires AllHexDigits(d)
    ensures ParseHex("0x" + d) == ParseHex("0X" + d) == ParseHex(d)
  {
    assert ("0x" + d)[2..] == d;
    assert ("0X" + d)[2..] == d;
    assert |d| >= 2 ==> d[1] != 'x' && d[1] != 'X';
  }

  /** A prefix with no digits after it, or no digits at all, raises. */
  lemma ParseHexNeedsDigits()
    ensures ParseHex("0x") == None && ParseHex("0X") == None && ParseHex("") == None
  {
  }

  /** Quantities as the node sends them. */
  lemma ParseHexExamples()
    ensures ParseHex("0x10") == Some(16)
    ensures ParseHex("0x3b9aca00") == Some(1000000000)
    ensures ParseHex("0x0") == Some(0)
  {
    assert ("0x10")[2..] == "10";
    assert ("0x3b9aca00")[2..] == "3b9aca00";
    assert ("0x0")[2..] == "0";
    assert "3b"[..1] == "3";
    assert "3b9"[..2] == "3b";
    assert "3b9a"[..3] == "3b9";
    assert "3b9ac"[..4] == "3b9a";
    assert "3b9aca"[..5] == "3b9ac";
    assert "3b9aca0"[..6] == "3b9aca";
    assert "3b9aca00"[..7] == "3b9aca0";
    assert "10"[..1] == "1";
    assert HexValue("10") == 16;
  }
}

/** The few Python string operations the core relies on. */
module Strings {
  import opened Wrappers

  predicate StartsWith(s: string, prefix: string) {
    |prefix| <= |s| && s[..|prefix|] == prefix
  }

  /** `s.removeprefix(prefix)`. */
  function RemovePrefix(s: string, prefix: string): (r: string)
    ensures StartsWith(s, prefix) ==> prefix + r == s
    ensures !StartsWith(s, prefix) ==> r == s
  {
    if StartsWith(s, prefix) then s[|prefix|..] else s
  }

  /** `sep.join(parts)`. */
  function Join(sep: string, parts: seq<string>): string {
    if parts == [] then ""
    else if |parts| == 1 then parts[0]
    else parts[0] + sep + Join(sep, parts[1..])
  }

  /** Position of the last occurrence of `c`, `s.rfind(c)` with None for -1. */
  function LastIndexOf(s: string, c: char): (r: Option<nat>)
    ensures r.None? <==> c !in s
    ensures r.Some? ==> r.value < |s| && s[r.value] == c && c !in s[r.value + 1..]
  {
    if s == [] then None
    else if s[|s| - 1] == c then Some(|s| - 1)
    else
      var r := LastIndexOf(s[..|s| - 1], c);
      assert s == s[..|s| - 1] + [s[|s| - 1]];
      r
  }

  /** Position of the first occurrence of `c`, `s.find(c)` with None for -1. */
  function FirstIndexOf(s: string, c: char): (r: Option<nat>)
    ensures r.None? <==> c !in s
    ensures r.Some? ==> r.value < |s| && s[r.value] == c && c !in s[..r.value]
  {
    if s == [] then None
    else if s[0] == c then Some(0)
    else
      match FirstIndexOf(s[1..], c)
      case None => None
      case Some(i) =>
        assert s[..i + 1] == [s[0]] + s[1..][..i];
        Some(i + 1)
  }

  lemma FirstIndexOfConcat(a: string, b: string, c: char)
    requires c !in a
    requires b != [] && b[0] == c
    ensures FirstIndexOf(a + b, c) == Some(|a|)
  {
    assert (a + b)[|a|] == c;
    assert (a + b)[..|a|] == a;
  }

  // Decimal numerals, as written by Python's `format(n, "d")`.

  function DigitChar(d: nat): char
    requires d < 10
  {
    "0123456789"[d]
  }

  predicate IsDigit(c: char) {
    '0' <= c <= '9'
  }

  /** `str(n)` for a natural number: no leading zeros, "0" for zero. */
  function Digits(n: nat): (s: string)
    ensures s != [] && forall i :: 0 <= i < |s| ==> IsDigit(s[i])
  {
    if n < 10 then [DigitChar(n)] else Digits(n / 10) + [DigitChar(n % 10)]
  }

  /** `f"{n:03d}"`: the numeral left-padded with zeros to at least three characters. */
  function Format03(n: nat): (s: string)
    ensures |s| >= 3 && forall i :: 0 <= i < |s| ==> IsDigit(s[i])
  {
    var d := Digits(n);
    if |d| >= 3 then d else ZeroPad(3 - |d|, d)
  }

  /** `k` zeros in front of `s`. */
  function ZeroPad(k: nat, s: string): (t: string)
    ensures |t| == k + |s|
  {
    seq(k, _ => '0') + s
  }

  /** The number a string of digits denotes, the partner of Digits and Format03. */
  function DecimalValue(s: string): nat
    requires forall i :: 0 <= i < |s| ==> IsDigit(s[i])
  {
    if s == [] then 0
    else
      assert IsDigit(s[|s| - 1]);
      DecimalValue(s[..|s| - 1]) * 10 + (s[|s| - 1] as int - '0' as int)
  }

  lemma {:induction false} DigitsValue(n: nat)
    ensures DecimalValue(Digits(n)) == n
  {
    if n >= 10 {
      DigitsValue(n / 10);
      var s := Digits(n);
      assert s[..|s| - 1] == Digits(n / 10);
    }
  }

  lemma {:induction false} LeadingZerosValue(k: nat, s: string)
    requires forall i :: 0 <= i < |s| ==> IsDigit(s[i])
    ensures forall i :: 0 <= i < k + |s| ==> IsDigit(ZeroPad(k, s)[i])
    ensures DecimalValue(ZeroPad(k, s)) == DecimalValue(s)
  {
    var t := ZeroPad(k, s);
    assert forall i :: 0 <= i < k + |s| ==> IsDigit(t[i]) by {
      forall i | 0 <= i < k + |s| ensures IsDigit(t[i]) {
        if i >= k { assert t[i] == s[i - k]; }
      }
    }
    if s == [] {
      assert t == seq(k, _ => '0');
      ZerosValue(k);
    } else {
      var s' := s[..|s| - 1];
      LeadingZerosValue(k, s');
      assert t[..|t| - 1] == ZeroPad(k, s');
    }
  }

  lemma {:induction false} ZerosValue(k: nat)
    ensures DecimalValue(seq(k, _ => '0')) == 0
  {
    if k > 0 {
      ZerosValue(k - 1);
      assert seq(k, _ => '0')[..k - 1] == seq(k - 1, _ => '0');
    }
  }

  /** Reading a zero-padded numeral back gives the number: the padding loses nothing. */
  lemma Format03Value(n: nat)
    ensures DecimalValue(Format03(n)) == n
  {
    DigitsValue(n);
    var d := Digits(n);
    if |d| < 3 {
      LeadingZerosValue(3 - |d|, d);
    }
  }

  /** Distinct numbers get distinct names. */
  lemma Format03Injective(m: nat, n: nat)
    requires Format03(m) == Format03(n)
    ensures m == n
  {
    Format03Value(m);
    Format03Value(n);
  }

  lemma {:induction false} DigitsLength(n: nat)
    ensures n < 10 ==> |Digits(n)| == 1
    ensures 10 <= n < 100 ==> |Digits(n)| == 2
    ensures 100 <= n < 1000 ==> |Digits(n)| == 3
  {
    if n >= 10 {
      DigitsLength(n / 10);
    }
  }

  /** Below 1000 the padded numeral is exactly three characters wide. */
  lemma Format03Width(n: nat)
    requires n < 1000
    ensures |Format03(n)| == 3
  {
    DigitsLength(n);
  }
}

/** Shared vocabulary: optional values, results, machine integer bounds, decimal
    text and separator-joined text. */
module Basics {
  datatype Option<+T> = None | Some(value: T)

  datatype Result<+T> = Ok(value: T) | Err(error: string)

  const UINT64_END: nat := 0x1_0000_0000_0000_0000
  // PostgreSQL BIGINT and INTEGER are signed.
  const BIGINT_END: nat := 0x8000_0000_0000_0000
  const INTEGER_END: nat := 0x8000_0000

  function Min(a: nat, b: nat): nat {
    if a < b then a else b
  }

  function CeilDiv(a: nat, b: nat): (q: nat)
    requires b > 0
    ensures a <= q * b < a + b
  {
    (a + b - 1) / b
  }

  /** Only one whole number of batches covers a range without a spare batch. */
  lemma CeilDivUnique(a: nat, b: nat, n: nat)
    requires b > 0
    requires a <= n * b < a + b
    ensures n == CeilDiv(a, b)
  {
    var q := CeilDiv(a, b);
    assert n < q ==> (n + 1) * b <= q * b;
    assert q < n ==> (q + 1) * b <= n * b;
  }

  lemma MulMonotone(a: nat, b: nat, c: nat)
    requires a <= b
    ensures a * c <= b * c
  {
    assert b * c == a * c + (b - a) * c;
  }

  /** That many batches do not cover the range. */
  lemma CeilDivAbove(a: nat, b: nat, n: nat)
    requires b > 0 && n * b < a
    ensures n < CeilDiv(a, b)
  {
    var q := CeilDiv(a, b);
    if q <= n {
      MulMonotone(q, n, b);
    }
  }

  // ---- Decimal text ----

  function DigitChar(d: nat): (c: char)
    requires d < 10
  {
    '0' + d as char
  }

  predicate IsDigit(c: char) {
    '0' <= c <= '9'
  }

  ghost predicate AllDigits(s: string) {
    forall i :: 0 <= i < |s| ==> IsDigit(s[i])
  }

  function PrintNat(n: nat): (s: string)
    ensures s != "" && AllDigits(s)
  {
    if n < 10 then [DigitChar(n)] else PrintNat(n / 10) + [DigitChar(n % 10)]
  }

  function PrintInt(i: int): string {
    if i < 0 then "-" + PrintNat(-i) else PrintNat(i)
  }

  function DigitsValue(s: string): nat
    requires AllDigits(s)
  {
    if s == "" then 0
    else DigitsValue(s[..|s| - 1]) * 10 + (s[|s| - 1] as int - '0' as int)
  }

  predicate HasNonDigit(s: string) {
    exists i :: 0 <= i < |s| && !IsDigit(s[i])
  }

  /** Base-10 unsigned parsing: empty text, any non-digit and any value of 2^64
      or more are errors; leading zeros are accepted. */
  function ParseUint64(s: string): (r: Result<nat>)
    ensures r.Ok? ==> r.value < UINT64_END
  {
    if s == "" then Err("empty string")
    else if HasNonDigit(s) then Err("invalid syntax")
    else if DigitsValue(s) >= UINT64_END then Err("value out of range")
    else Ok(DigitsValue(s))
  }

  lemma {:induction false} PrintedValue(n: nat)
    ensures DigitsValue(PrintNat(n)) == n
  {
    if n >= 10 {
      PrintedValue(n / 10);
      var s := PrintNat(n / 10) + [DigitChar(n % 10)];
      assert s[..|s| - 1] == PrintNat(n / 10);
    } else {
      assert PrintNat(n)[..0] == "";
    }
  }

  lemma PrintParse(n: nat)
    ensures ParseUint64(PrintNat(n)) == if n < UINT64_END then Ok(n) else Err("value out of range")
  {
    PrintedValue(n);
  }

  /** `k` zeros. */
  function Zeros(k: nat): (s: string)
    ensures |s| == k && forall i :: 0 <= i < k ==> s[i] == '0'
  {
    seq(k, i => '0')
  }

  lemma {:induction false} LeadingZeros(k: nat, s: string)
    requires AllDigits(s)
    ensures AllDigits(Zeros(k) + s) && DigitsValue(Zeros(k) + s) == DigitsValue(s)
  {
    var t := Zeros(k) + s;
    if s == "" {
      assert t == Zeros(k);
      ZerosValue(k);
    } else {
      LeadingZeros(k, s[..|s| - 1]);
      assert t[..|t| - 1] == Zeros(k) + s[..|s| - 1];
    }
  }

  lemma {:induction false} ZerosValue(k: nat)
    ensures AllDigits(Zeros(k)) && DigitsValue(Zeros(k)) == 0
  {
    if k > 0 {
      ZerosValue(k - 1);
      assert Zeros(k)[..k - 1] == Zeros(k - 1);
    }
  }

  /** A text of digits is the decimal text of its value after some zeros. */
  lemma {:induction false} DigitsArePrinted(s: string) returns (k: nat)
    requires AllDigits(s) && s != ""
    ensures s == Zeros(k) + PrintNat(DigitsValue(s)) || (DigitsValue(s) == 0 && s == Zeros(k))
  {
    var init, d := s[..|s| - 1], s[|s| - 1] as int - '0' as int;
    assert s == init + [s[|s| - 1]] && DigitChar(d) == s[|s| - 1];
    if init == "" {
      k := 0;
      assert s == Zeros(0) + PrintNat(d);
    } else {
      k := DigitsArePrinted(init);
      var n := DigitsValue(init);
      if n == 0 {
        k := |init|;
        ZerosOnly(init);
        assert s == Zeros(k) + PrintNat(d);
      } else {
        assert PrintNat(n * 10 + d) == PrintNat(n) + [DigitChar(d)];
        assert s == Zeros(k) + PrintNat(DigitsValue(s));
      }
    }
  }

  lemma {:induction false} ZerosOnly(s: string)
    requires AllDigits(s) && DigitsValue(s) == 0
    ensures s == Zeros(|s|)
  {
    if s != "" {
      ZerosOnly(s[..|s| - 1]);
      assert s == s[..|s| - 1] + [s[|s| - 1]];
    }
  }

  /** What parses, and to which number: the decimal text of a number below 2^64, with any
      zeros before it, and nothing else. */
  lemma ParsesExactly(s: string, n: nat)
    ensures ParseUint64(s) == Ok(n) <==> n < 0x1_0000_0000_0000_0000 && exists k :: s == Zeros(k) + PrintNat(n)
  {
    if n < UINT64_END && exists k :: s == Zeros(k) + PrintNat(n) {
      var k :| s == Zeros(k) + PrintNat(n);
      LeadingZeros(k, PrintNat(n));
      PrintedValue(n);
    }
    if ParseUint64(s) == Ok(n) {
      assert AllDigits(s);
      var k := DigitsArePrinted(s);
      if s == Zeros(k) && n == 0 {
        assert s == Zeros(k - 1) + PrintNat(0);
      }
    }
  }

  lemma PrintIntInjective(i: int, j: int)
    requires PrintInt(i) == PrintInt(j)
    ensures i == j
  {
    assert (PrintInt(i)[0] == '-') == (i < 0) && (PrintInt(j)[0] == '-') == (j < 0);
    assert i < 0 ==> PrintInt(i)[1..] == PrintNat(-i) && PrintInt(j)[1..] == PrintNat(-j);
    PrintedValue(if i < 0 then -i else i);
    PrintedValue(if j < 0 then -j else j);
  }

  // ---- Separator-joined text ----

  function Join(parts: seq<string>, sep: char): string {
    if parts == [] then ""
    else if |parts| == 1 then parts[0]
    else parts[0] + [sep] + Join(parts[1..], sep)
  }

  predicate Without(s: string, sep: char) {
    sep !in s
  }

  lemma CutAtSeparator(a: string, b: string, x: string, y: string, sep: char)
    requires Without(a, sep) && Without(b, sep)
    requires a + [sep] + x == b + [sep] + y
    ensures a == b && x == y
  {
    var l, r := a + [sep] + x, b + [sep] + y;
    assert l[|a|] == sep && r[|b|] == sep;
    assert forall i :: 0 <= i < |a| ==> l[i] == a[i] && a[i] in a;
    assert forall i :: 0 <= i < |b| ==> r[i] == b[i] && b[i] in b;
    assert a == l[..|a|] == r[..|b|] == b;
    assert x == l[|a| + 1..] && y == r[|b| + 1..];
  }

  /** Joining separator-free parts loses nothing. */
  lemma {:induction false} JoinInjective(ps: seq<string>, qs: seq<string>, sep: char)
    requires |ps| == |qs|
    requires forall i :: 0 <= i < |ps| ==> Without(ps[i], sep) && Without(qs[i], sep)
    requires Join(ps, sep) == Join(qs, sep)
    ensures ps == qs
  {
    if |ps| >= 2 {
      CutAtSeparator(ps[0], qs[0], Join(ps[1..], sep), Join(qs[1..], sep), sep);
      JoinInjective(ps[1..], qs[1..], sep);
      assert ps == [ps[0]] + ps[1..] && qs == [qs[0]] + qs[1..];
    }
  }
}

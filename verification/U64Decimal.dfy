/** requireCanonicalU64Decimal (apps/cli/src/ledger-governed-dispatch-resolver.ts). */
module U64Decimal {
  import opened Seqs

  const MAX_U64_DECIMAL := "18446744073709551615"
  const U64_LIMIT := 0x1_0000_0000_0000_0000

  predicate Digit(c: char) { '0' <= c <= '9' }

  predicate Digits(s: string) { forall i :: 0 <= i < |s| ==> Digit(s[i]) }

  /** /^(?:0|[1-9][0-9]*)$/ */
  predicate Canonical(s: string) { s == "0" || (s != "" && Digits(s) && s[0] != '0') }

  /** requireCanonicalU64Decimal: the pattern, the length, and at full length the string comparison. */
  predicate Accepts(s: string) {
    Canonical(s) && |s| <= |MAX_U64_DECIMAL| && (|s| == |MAX_U64_DECIMAL| ==> StrLe(s, MAX_U64_DECIMAL))
  }

  function DigitValue(c: char): int { c as int - '0' as int }

  /** The number a digit string writes. */
  function ValueOf(s: string): int {
    if s == "" then 0 else 10 * ValueOf(s[..|s| - 1]) + DigitValue(s[|s| - 1])
  }

  function Pow10(n: nat): nat { if n == 0 then 1 else 10 * Pow10(n - 1) }

  function DigitChar(d: int): char
    requires 0 <= d < 10
  {
    ('0' as int + d) as char
  }

  /** The shortest decimal of a number. */
  function Decimal(n: nat): string { if n < 10 then [DigitChar(n)] else Decimal(n / 10) + [DigitChar(n % 10)] }

  // -------------------------------------------------------------- round trip

  lemma {:induction false} DecimalReads(n: nat)
    ensures Canonical(Decimal(n)) && ValueOf(Decimal(n)) == n && (n > 0 ==> Decimal(n)[0] != '0')
  {
    if n >= 10 {
      DecimalReads(n / 10);
      var s := Decimal(n);
      assert s[..|s| - 1] == Decimal(n / 10);
    } else {
      var s := Decimal(n);
      assert s[..0] == "";
    }
  }

  lemma {:induction false} ValueBound(s: string)
    requires Digits(s)
    ensures 0 <= ValueOf(s) < Pow10(|s|)
  {
    if s != "" { ValueBound(s[..|s| - 1]); }
  }

  lemma {:induction false} ValueAtLeast(s: string)
    requires Digits(s) && s != "" && s[0] != '0'
    ensures ValueOf(s) >= Pow10(|s| - 1)
  {
    if |s| > 1 {
      ValueAtLeast(s[..|s| - 1]);
    } else {
      assert s[..0] == "";
    }
  }

  lemma {:induction false} DecimalOfValue(s: string)
    requires Canonical(s)
    ensures ValueOf(s) >= 0 && Decimal(ValueOf(s)) == s
  {
    ValueBound(s);
    var n := |s| - 1;
    if n > 0 {
      var t := s[..n];
      DecimalOfValue(t);
      ValueAtLeast(t);
      PowPositive(|t| - 1);
      assert ValueOf(s) == 10 * ValueOf(t) + DigitValue(s[n]);
      assert ValueOf(s) / 10 == ValueOf(t) && ValueOf(s) % 10 == DigitValue(s[n]);
      assert s == t + [s[n]];
    } else {
      assert s[..0] == "" && s == [s[0]];
    }
  }

  lemma {:induction false} PowPositive(n: nat)
    ensures Pow10(n) >= 1
  {
    if n > 0 { PowPositive(n - 1); }
  }

  lemma {:induction false} PowGrows(m: nat, n: nat)
    requires m <= n
    ensures Pow10(m) <= Pow10(n)
  {
    if m < n { PowGrows(m, n - 1); }
  }

  // ------------------------------------------------------------ string order

  lemma {:induction false} ValueFront(c: char, s: string)
    ensures ValueOf([c] + s) == DigitValue(c) * Pow10(|s|) + ValueOf(s)
  {
    var t := [c] + s;
    if s == "" {
      assert t[..0] == "" && t[|t| - 1] == c;
    } else {
      ValueFront(c, s[..|s| - 1]);
      assert t[..|t| - 1] == [c] + s[..|s| - 1];
    }
  }

  /** At equal length, string order is numeric order. */
  lemma {:induction false} OrderAtEqualLength(a: string, b: string)
    requires Digits(a) && Digits(b) && |a| == |b|
    ensures StrLe(a, b) <==> ValueOf(a) <= ValueOf(b)
  {
    if a != "" {
      var x, y := a[1..], b[1..];
      assert a == [a[0]] + x && b == [b[0]] + y;
      ValueFront(a[0], x);
      ValueFront(b[0], y);
      ValueBound(x);
      ValueBound(y);
      OrderAtEqualLength(x, y);
      FrontDecides(DigitValue(a[0]), DigitValue(b[0]), Pow10(|x|), ValueOf(x), ValueOf(y));
    }
  }

  lemma {:induction false} FrontDecides(c: int, d: int, p: int, x: int, y: int)
    requires 0 <= x < p && 0 <= y < p
    ensures c < d ==> c * p + x < d * p + y
    ensures c > d ==> c * p + x > d * p + y
  {
    if c < d { assert (c + 1) * p <= d * p; }
    if c > d { assert (d + 1) * p <= c * p; }
  }

  /** Shorter first, then string order: on canonical decimals that is numeric order. */
  lemma {:induction false} LengthThenOrder(a: string, b: string)
    requires Canonical(a) && Canonical(b)
    ensures (|a| < |b| || (|a| == |b| && StrLe(a, b))) <==> ValueOf(a) <= ValueOf(b)
  {
    if |a| == |b| {
      OrderAtEqualLength(a, b);
    } else if |a| < |b| {
      Shorter(a, b);
    } else {
      Shorter(b, a);
    }
  }

  lemma {:induction false} Shorter(a: string, b: string)
    requires Canonical(a) && Canonical(b) && |a| < |b|
    ensures ValueOf(a) < ValueOf(b)
  {
    ValueBound(a);
    ValueAtLeast(b);
    PowGrows(|a|, |b| - 1);
  }

  // ------------------------------------------------------------- the theorem

  lemma {:induction false} ValueJoin(a: string, b: string)
    ensures ValueOf(a + b) == ValueOf(a) * Pow10(|b|) + ValueOf(b)
  {
    if b == "" {
      assert a + b == a;
    } else {
      var n := |b| - 1;
      ValueJoin(a, b[..n]);
      assert (a + b)[..|a| + n] == a + b[..n];
      Tenfold(ValueOf(a), Pow10(n));
    }
  }

  lemma {:induction false} Tenfold(x: int, p: int)
    ensures x * (10 * p) == 10 * (x * p)
  {
  }

  lemma {:induction false} FiveDigits(a: char, b: char, c: char, d: char, e: char)
    ensures ValueOf([a, b, c, d, e])
            == 10000 * DigitValue(a) + 1000 * DigitValue(b) + 100 * DigitValue(c) + 10 * DigitValue(d) + DigitValue(e)
  {
    assert [a][..0] == [] && [a, b][..1] == [a] && [a, b, c][..2] == [a, b];
    assert [a, b, c, d][..3] == [a, b, c] && [a, b, c, d, e][..4] == [a, b, c, d];
    assert ValueOf([a]) == DigitValue(a);
    assert ValueOf([a, b]) == 10 * ValueOf([a]) + DigitValue(b);
    assert ValueOf([a, b, c]) == 10 * ValueOf([a, b]) + DigitValue(c);
    assert ValueOf([a, b, c, d]) == 10 * ValueOf([a, b, c]) + DigitValue(d);
  }

  lemma {:induction false} MaxValue()
    ensures Canonical(MAX_U64_DECIMAL) && ValueOf(MAX_U64_DECIMAL) == U64_LIMIT - 1
  {
    var a, b, c, d := "18446", "74407", "37095", "51615";
    FiveDigits('1', '8', '4', '4', '6');
    FiveDigits('7', '4', '4', '0', '7');
    FiveDigits('3', '7', '0', '9', '5');
    FiveDigits('5', '1', '6', '1', '5');
    assert Pow10(5) == 100000 by { assert Pow10(3) == 1000; }
    ValueJoin(a, b);
    ValueJoin(a + b, c);
    ValueJoin(a + b + c, d);
    assert MAX_U64_DECIMAL == a + b + c + d;
  }

  /** A string is accepted exactly when its number fits in 64 bits and it is that number's own decimal. */
  lemma {:induction false} AcceptsExactlyU64(s: string)
    ensures Accepts(s) <==> 0 <= ValueOf(s) < U64_LIMIT && s == Decimal(ValueOf(s))
  {
    MaxValue();
    if Canonical(s) {
      DecimalOfValue(s);
      LengthThenOrder(s, MAX_U64_DECIMAL);
    } else if 0 <= ValueOf(s) {
      DecimalReads(ValueOf(s));
    }
  }

  /** Every number below 2^64 has one accepted string, and no digit string for it is shorter. */
  lemma {:induction false} DecimalIsShortest(n: nat, s: string)
    requires n < U64_LIMIT && Digits(s) && s != "" && ValueOf(s) == n
    ensures Accepts(Decimal(n)) && |Decimal(n)| <= |s| && (Accepts(s) ==> s == Decimal(n))
  {
    DecimalReads(n);
    AcceptsExactlyU64(Decimal(n));
    AcceptsExactlyU64(s);
    if n > 0 {
      ValueAtLeast(Decimal(n));
      ValueBound(s);
      if |s| < |Decimal(n)| { PowGrows(|s|, |Decimal(n)| - 1); }
    }
  }
}

/** Decimal text: the digit strings that strconv.Atoi accepts, and the digit strings that
    strconv.Itoa (and fmt's %d, and net.IP.String for each octet) produce. */
module Decimal {
  import opened Basics

  const MinInt64: int := -0x8000_0000_0000_0000
  const MaxInt64: int := 0x7FFF_FFFF_FFFF_FFFF

  predicate IsDigit(c: char) {
    '0' <= c <= '9'
  }

  predicate AllDigits(s: string) {
    forall i | 0 <= i < |s| :: IsDigit(s[i])
  }

  function DigitValue(c: char): nat
    requires IsDigit(c)
  {
    c as int - '0' as int
  }

  function DigitChar(d: nat): (c: char)
    requires d < 10
    ensures IsDigit(c) && DigitValue(c) == d
  {
    ('0' as int + d) as char
  }

  /** The value of a string of decimal digits, most significant digit first. */
  function Value(s: string): nat
    requires AllDigits(s)
  {
    if |s| == 0 then 0 else Value(s[..|s| - 1]) * 10 + DigitValue(s[|s| - 1])
  }

  /** Decimal rendering of a natural number, without leading zeros. */
  function Itoa(n: nat): (s: string)
    ensures |s| >= 1 && AllDigits(s)
    ensures n < 10 <==> |s| == 1
    ensures n > 0 ==> s[0] != '0'
    ensures Value(s) == n
  {
    if n < 10 then [DigitChar(n)]
    else
      var init := Itoa(n / 10);
      var s := init + [DigitChar(n % 10)];
      assert s[..|s| - 1] == init;
      s
  }

  /** Digits without a leading zero are the rendering of their own value. */
  lemma {:induction false} ItoaValue(s: string)
    requires |s| >= 1 && AllDigits(s) && (|s| == 1 || s[0] != '0')
    ensures Itoa(Value(s)) == s
    decreases |s|
  {
    var d := DigitValue(s[|s| - 1]);
    if |s| == 1 {
      assert DigitChar(d) == s[0];
    } else {
      var init := s[..|s| - 1];
      assert init[0] == s[0];
      ItoaValue(init);
      assert Value(init) > 0;
      var n := Value(s);
      assert n == Value(init) * 10 + d && n >= 10;
      assert n / 10 == Value(init) && n % 10 == d;
      assert DigitChar(d) == s[|s| - 1];
      assert s == init + [s[|s| - 1]];
    }
  }

  /** Decimal rendering of a signed integer, as strconv.Itoa gives it. */
  function FormatInt(n: int): (s: string)
    ensures |s| >= 1
  {
    if n < 0 then "-" + Itoa(-n) else Itoa(n)
  }

  /** strconv.Atoi: an optional '+' or '-', then one or more decimal digits (leading zeros
      allowed, no underscores), with the value inside the 64-bit int range. */
  function Atoi(s: string): (r: Option<int>)
    ensures r.Some? ==> MinInt64 <= r.value <= MaxInt64
    ensures r.Some? ==> |s| >= 1 && (IsDigit(s[0]) || s[0] == '+' || s[0] == '-')
  {
    var signed := |s| >= 1 && (s[0] == '+' || s[0] == '-');
    var digits := if signed then s[1..] else s;
    if |digits| == 0 || !AllDigits(digits) then None
    else
      var v: int := if signed && s[0] == '-' then 0 - (Value(digits) as int) else Value(digits);
      if v < MinInt64 || v > MaxInt64 then None else Some(v)
  }

  /** Leading zeros do not change a decimal value. */
  lemma {:induction false} ValueLeadingZero(s: string)
    requires AllDigits(s)
    ensures AllDigits("0" + s) && Value("0" + s) == Value(s)
  {
    var t := "0" + s;
    assert AllDigits(t) by {
      forall i | 0 <= i < |t| ensures IsDigit(t[i]) {
        if i > 0 {
          assert t[i] == s[i - 1];
        }
      }
    }
    if |s| > 0 {
      var init := s[..|s| - 1];
      assert t[..|t| - 1] == "0" + init;
      ValueLeadingZero(init);
    }
  }

  /** Atoi reads back what FormatInt writes, for every value in the 64-bit range. */
  lemma AtoiFormatInt(n: int)
    requires MinInt64 <= n <= MaxInt64
    ensures Atoi(FormatInt(n)) == Some(n)
  {
    if n < 0 {
      assert FormatInt(n)[1..] == Itoa(-n);
    }
  }

  /** A zero-padded rendering reads back as the same number. */
  lemma AtoiZeroPadded(n: nat)
    requires n <= MaxInt64
    ensures Atoi("0" + Itoa(n)) == Some(n)
  {
    ValueLeadingZero(Itoa(n));
  }

  /** An explicit '+' sign reads back as the same number. */
  lemma AtoiPlusSign(n: nat)
    requires n <= MaxInt64
    ensures Atoi("+" + Itoa(n)) == Some(n)
  {
    assert ("+" + Itoa(n))[1..] == Itoa(n);
  }
}

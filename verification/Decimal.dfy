/** Decimal notation, as Go prints unsigned integers. */
module Decimal {

  function Digit(n: int): char
    requires 0 <= n < 10
  {
    '0' + n as char
  }

  function Digits(n: nat): (s: string)
    ensures s != []
    ensures |s| == 1 <==> n < 10
  {
    if n < 10 then [Digit(n)] else Digits(n / 10) + [Digit(n % 10)]
  }

  /** Different numbers are written differently. */
  lemma {:induction false} DigitsInjective(m: nat, n: nat)
    requires Digits(m) == Digits(n)
    ensures m == n
  {
    if m >= 10 && n >= 10 {
      var s, t := Digits(m), Digits(n);
      assert s[..|s| - 1] == Digits(m / 10) && t[..|t| - 1] == Digits(n / 10);
      assert s[|s| - 1] == Digit(m % 10) && t[|t| - 1] == Digit(n % 10);
      DigitsInjective(m / 10, n / 10);
    }
  }

  predicate IsDigit(c: char) {
    '0' <= c <= '9'
  }

  /** Decimal notation consists of digits and has no leading zero, but for zero itself. */
  predicate IsDecimal(s: string) {
    s != [] && (forall k :: 0 <= k < |s| ==> IsDigit(s[k])) && (|s| > 1 ==> s[0] != '0')
  }

  lemma {:induction false} DigitsAreDecimal(n: nat)
    ensures IsDecimal(Digits(n)) && (n > 0 ==> Digits(n)[0] != '0')
  {
    if n >= 10 { DigitsAreDecimal(n / 10); }
  }

  /** Everything that is so written is the notation of a number. */
  lemma {:induction false} DecimalIsDigits(s: string) returns (n: nat)
    requires IsDecimal(s)
    ensures Digits(n) == s
  {
    var d := s[|s| - 1];
    var last: nat := d as int - '0' as int;
    assert Digit(last) == d;
    if |s| == 1 {
      n := last;
      assert s == [d];
    } else {
      var init := s[..|s| - 1];
      var m := DecimalIsDigits(init);
      assert m != 0 by {
        assert Digits(0) == [Digit(0)] && Digit(0) == '0' && init[0] == s[0] != '0';
      }
      n := 10 * m + last;
      assert n / 10 == m && n % 10 == last;
      assert s == init + [d];
    }
  }

  /** What a string of digits is worth, the last digit counting once. */
  function ValueOf(s: string): nat
    requires forall k :: 0 <= k < |s| ==> IsDigit(s[k])
  {
    if s == [] then 0 else
      assert IsDigit(s[|s| - 1]);
      10 * ValueOf(s[..|s| - 1]) + (s[|s| - 1] as int - '0' as int)
  }

  /** The notation of a number is worth the number. */
  lemma {:induction false} DigitsAreWorth(n: nat)
    ensures (forall k :: 0 <= k < |Digits(n)| ==> IsDigit(Digits(n)[k])) && ValueOf(Digits(n)) == n
  {
    DigitsAreDecimal(n);
    var s := Digits(n);
    if n < 10 {
      assert s[..0] == [];
    } else {
      DigitsAreWorth(n / 10);
      assert s[..|s| - 1] == Digits(n / 10);
    }
  }

}

/** Lower-case hexadecimal as Go's encoding/hex writes and reads it. */
module Hex {
  import opened Bytes

  function Digit(n: int): char
    requires 0 <= n < 16
  {
    if n < 10 then '0' + n as char else 'a' + (n - 10) as char
  }

  function EncodeToString(bs: Bytes): string {
    if bs == [] then "" else
      [Digit(bs[0] / 16), Digit(bs[0] % 16)] + EncodeToString(bs[1..])
  }

  /** The value of a digit of either case, or 16 for a character that is none. */
  function Value(c: char): (v: int)
    ensures 0 <= v <= 16
  {
    if '0' <= c <= '9' then (c - '0') as int
    else if 'a' <= c <= 'f' then (c - 'a') as int + 10
    else if 'A' <= c <= 'F' then (c - 'A') as int + 10
    else 16
  }

  /** The bytes decoded up to the end or to the first fault: the callers ignore the error. */
  function DecodeString(s: string): Bytes {
    if |s| < 2 || Value(s[0]) == 16 || Value(s[1]) == 16 then []
    else [Value(s[0]) * 16 + Value(s[1])] + DecodeString(s[2..])
  }

  /** Decoding gives back what was encoded. */
  lemma {:induction false} RoundTrip(bs: Bytes)
    ensures DecodeString(EncodeToString(bs)) == bs
  {
    if bs != [] {
      RoundTrip(bs[1..]);
      var s := EncodeToString(bs);
      assert Value(Digit(bs[0] / 16)) == bs[0] / 16 && Value(Digit(bs[0] % 16)) == bs[0] % 16;
      assert s[2..] == EncodeToString(bs[1..]);
    }
  }

  /** Go's order on strings. */
  predicate StringLess(s: string, t: string) {
    t != [] && (s == [] || s[0] < t[0] || (s[0] == t[0] && StringLess(s[1..], t[1..])))
  }

  predicate BytesLess(s: Bytes, t: Bytes) {
    t != [] && (s == [] || s[0] < t[0] || (s[0] == t[0] && BytesLess(s[1..], t[1..])))
  }

  lemma DigitOrder(m: int, n: int)
    requires 0 <= m < 16 && 0 <= n < 16
    ensures Digit(m) < Digit(n) <==> m < n
    ensures Digit(m) == Digit(n) <==> m == n
  {}

  /** The hexadecimal forms are ordered as the bytes are. */
  lemma {:induction false} PreservesOrder(a: Bytes, b: Bytes)
    ensures StringLess(EncodeToString(a), EncodeToString(b)) <==> BytesLess(a, b)
  {
    if a != [] && b != [] {
      var s, t := EncodeToString(a), EncodeToString(b);
      DigitOrder(a[0] / 16, b[0] / 16);
      DigitOrder(a[0] % 16, b[0] % 16);
      PreservesOrder(a[1..], b[1..]);
      assert s[1..][0] == s[1] && t[1..][0] == t[1];
      assert s[1..][1..] == EncodeToString(a[1..]) && t[1..][1..] == EncodeToString(b[1..]);
    }
  }

  lemma {:induction false} StringLessAsymmetric(s: string, t: string)
    requires StringLess(s, t)
    ensures !StringLess(t, s) && s != t
  {
    if s != [] && s[0] == t[0] { StringLessAsymmetric(s[1..], t[1..]); }
  }

  lemma {:induction false} StringLessTransitive(s: string, t: string, u: string)
    requires StringLess(s, t) && StringLess(t, u)
    ensures StringLess(s, u)
  {
    if s != [] && s[0] == t[0] == u[0] { StringLessTransitive(s[1..], t[1..], u[1..]); }
  }

  lemma {:induction false} StringLessConnected(s: string, t: string)
    ensures StringLess(s, t) || StringLess(t, s) || s == t
  {
    if s != [] && t != [] && s[0] == t[0] {
      StringLessConnected(s[1..], t[1..]);
      assert s == [s[0]] + s[1..] && t == [t[0]] + t[1..];
    }
  }

  /** Two lower-case digits per byte, the high one first. */
  lemma {:induction false} DigitsInPlain(bs: Bytes, i: nat)
    requires i < |bs|
    ensures |EncodeToString(bs)| == 2 * |bs|
    ensures EncodeToString(bs)[2 * i] == "0123456789abcdef"[bs[i] / 16]
    ensures EncodeToString(bs)[2 * i + 1] == "0123456789abcdef"[bs[i] % 16]
  {
    DigitInPlain(bs[0] / 16);
    DigitInPlain(bs[0] % 16);
    if i > 0 { DigitsInPlain(bs[1..], i - 1); } else { EncodedLength(bs[1..]); }
  }

  lemma {:induction false} EncodedLength(bs: Bytes)
    ensures |EncodeToString(bs)| == 2 * |bs|
  {
    if bs != [] { EncodedLength(bs[1..]); }
  }

  lemma DigitInPlain(n: int)
    requires 0 <= n < 16
    ensures Digit(n) == "0123456789abcdef"[n]
  {}

}

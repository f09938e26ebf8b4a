/** Bytes as numbers: exclusive or, text, hexadecimal. */
module Octets {
  import opened Text
  import opened Depot

  /** Exclusive or of two numbers, bit by bit. */
  function Xor(a: nat, b: nat): nat
  {
    if a == 0 && b == 0 then 0 else 2 * Xor(a / 2, b / 2) + if a % 2 == b % 2 then 0 else 1
  }

  lemma {:induction false} XorBound(a: nat, b: nat, n: nat)
    requires a < Pow2(n) && b < Pow2(n)
    ensures Xor(a, b) < Pow2(n)
  {
    if a != 0 || b != 0 {
      XorBound(a / 2, b / 2, n - 1);
    }
  }

  function Pow2(n: nat): (p: nat)
    ensures p > 0
  {
    if n == 0 then 1 else 2 * Pow2(n - 1)
  }

  /** Applying the same number twice gives the first one back. */
  lemma {:induction false} XorTwice(a: nat, b: nat)
    ensures Xor(Xor(a, b), b) == a
  {
    if a != 0 || b != 0 {
      var x := Xor(a / 2, b / 2);
      var bit := if a % 2 == b % 2 then 0 else 1;
      assert (2 * x + bit) / 2 == x && (2 * x + bit) % 2 == bit;
      XorTwice(a / 2, b / 2);
      if 2 * x + bit == 0 && b == 0 {
        XorZero(a / 2);
      }
    }
  }

  function Bit(a: nat, i: nat): nat
  {
    if i == 0 then a % 2 else Bit(a / 2, i - 1)
  }

  /** Bit by bit: set where the two numbers differ. */
  lemma {:induction false} XorBits(a: nat, b: nat, i: nat)
    ensures Bit(Xor(a, b), i) == if Bit(a, i) == Bit(b, i) then 0 else 1
    decreases i
  {
    if a == 0 && b == 0 {
      if i > 0 {
        XorBits(0, 0, i - 1);
      }
    } else {
      var x, bit := Xor(a / 2, b / 2), if a % 2 == b % 2 then 0 else 1;
      assert (2 * x + bit) / 2 == x && (2 * x + bit) % 2 == bit;
      if i > 0 {
        XorBits(a / 2, b / 2, i - 1);
      }
    }
  }

  lemma {:induction false} XorZero(a: nat)
    ensures Xor(a, 0) == a
  {
    if a != 0 {
      XorZero(a / 2);
    }
  }

  function XorByte(a: Byte, b: Byte): Byte
  {
    assert Pow2(8) == 256 by {
      assert Pow2(4) == 16;
    }
    XorBound(a, b, 8);
    Xor(a, b)
  }

  function XorBytes(a: Bytes, b: Bytes): (r: Bytes)
    requires |a| == |b|
    ensures |r| == |a|
  {
    seq(|a|, i requires 0 <= i < |a| => XorByte(a[i], b[i]))
  }

  lemma XorBytesTwice(a: Bytes, b: Bytes)
    requires |a| == |b|
    ensures XorBytes(XorBytes(a, b), b) == a
  {
    forall i | 0 <= i < |a| ensures XorBytes(XorBytes(a, b), b)[i] == a[i] {
      XorTwice(a[i], b[i]);
    }
  }

  // ---- Text ----

  /** A Go string made from bytes, one character per byte. */
  function AsText(b: Bytes): (s: string)
    ensures |s| == |b|
  {
    seq(|b|, i requires 0 <= i < |b| => b[i] as char)
  }

  predicate ByteText(s: string)
  {
    forall i :: 0 <= i < |s| ==> s[i] as int < 256
  }

  function AsBytes(s: string): (b: Bytes)
    requires ByteText(s)
    ensures |b| == |s| && AsText(b) == s
  {
    seq(|s|, i requires 0 <= i < |s| => s[i] as int)
  }

  // ---- Hexadecimal ----

  function HexDigit(n: nat): char
    requires n < 16
  {
    if n < 10 then (n + '0' as int) as char else (n - 10 + 'a' as int) as char
  }

  /** The value of a digit in either case. */
  function DigitValue(c: char): (r: Option<nat>)
    ensures r.Some? ==> r.value < 16
  {
    if '0' <= c <= '9' then Some(c as int - '0' as int)
    else if 'a' <= c <= 'f' then Some(c as int - 'a' as int + 10)
    else if 'A' <= c <= 'F' then Some(c as int - 'A' as int + 10)
    else None
  }

  /** Go's hex.EncodeToString. */
  function Hex(b: Bytes): (s: string)
    ensures |s| == 2 * |b|
  {
    if b == [] then "" else [HexDigit(b[0] / 16), HexDigit(b[0] % 16)] + Hex(b[1..])
  }

  /** Go's hex.DecodeString. */
  function Unhex(s: string): (r: Option<Bytes>)
    ensures r.Some? ==> |s| == 2 * |r.value|
  {
    if s == "" then Some([])
    else if |s| == 1 then None
    else
      var hi, lo, rest := DigitValue(s[0]), DigitValue(s[1]), Unhex(s[2..]);
      if hi.Some? && lo.Some? && rest.Some? then Some([16 * hi.value + lo.value] + rest.value) else None
  }

  /** Lower-case hexadecimal text of whole bytes. */
  predicate LowerHex(s: string)
  {
    Unhex(s).Some? && forall i :: 0 <= i < |s| ==> !('A' <= s[i] <= 'F')
  }

  function FromHex(s: string): (b: Bytes)
    requires LowerHex(s)
    ensures |s| == 2 * |b|
  {
    Unhex(s).value
  }

  lemma LowerDigit(c: char)
    requires DigitValue(c).Some? && !('A' <= c <= 'F')
    ensures HexDigit(DigitValue(c).value) == c
  {
  }

  lemma {:induction false} HexFromHex(s: string)
    requires LowerHex(s)
    ensures Hex(FromHex(s)) == s
  {
    if s != "" {
      var hi, lo := DigitValue(s[0]).value, DigitValue(s[1]).value;
      assert LowerHex(s[2..]);
      HexFromHex(s[2..]);
      LowerDigit(s[0]);
      LowerDigit(s[1]);
      HexOfPair(hi, lo, FromHex(s[2..]));
      assert FromHex(s) == [16 * hi + lo] + FromHex(s[2..]);
      assert s == [s[0], s[1]] + s[2..];
    }
  }

  lemma {:induction false} HexOfPair(hi: nat, lo: nat, rest: Bytes)
    requires hi < 16 && lo < 16
    ensures Hex([16 * hi + lo] + rest) == [HexDigit(hi), HexDigit(lo)] + Hex(rest)
  {
    var b := [16 * hi + lo] + rest;
    assert b[1..] == rest;
  }

  /** Digits in order; a letter counts the same in either case. */
  lemma DigitsInOrder(c: char)
    ensures DigitValue(c).Some? <==> c in "0123456789abcdefABCDEF"
    ensures DigitValue(c).Some? ==> "0123456789abcdef"[DigitValue(c).value] == LowerChar(c) == HexDigit(DigitValue(c).value)
  {
    if DigitValue(c).Some? {
      var n := DigitValue(c).value;
      assert "0123456789abcdefABCDEF"[if 'A' <= c <= 'F' then n + 6 else n] == c;
    }
  }

  /** Every sequence of bytes reads back from its hexadecimal text. */
  lemma {:induction false} UnhexHex(b: Bytes)
    ensures Unhex(Hex(b)) == Some(b)
  {
    if b != [] {
      UnhexHex(b[1..]);
      LowerPair(b[0]);
      assert Hex(b)[2..] == Hex(b[1..]);
      assert b == [b[0]] + b[1..];
    }
  }

  lemma LowerPair(n: Byte)
    ensures DigitValue(HexDigit(n / 16)) == Some(n / 16) && DigitValue(HexDigit(n % 16)) == Some(n % 16) && 16 * (n / 16) + n % 16 == n
  {
  }

  /** Text reads as bytes exactly when it is an even number of digits. */
  lemma {:induction false} UnhexExactly(s: string)
    ensures Unhex(s).Some? <==> |s| % 2 == 0 && forall i :: 0 <= i < |s| ==> DigitValue(s[i]).Some?
  {
    if |s| > 1 {
      UnhexExactly(s[2..]);
      assert forall i :: 2 <= i < |s| ==> s[2..][i - 2] == s[i];
    }
  }
}

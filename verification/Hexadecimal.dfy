/** Exclusive or of words given by their hexadecimal digits, for the values that published
    algorithms are known by. */
module Hexadecimal {
  import opened Bits

  /** A hexadecimal digit. */
  datatype Nibble = Nibble(b3: bool, b2: bool, b1: bool, b0: bool)
  {
    function Value(): nat { Append(Append(Append(Append(0, b3), b2), b1), b0) }
  }

  /** `x` followed by one more binary digit. */
  function Append(x: nat, b: bool): nat { 2 * x + if b then 1 else 0 }

  lemma AppendParts(x: nat, b: bool)
    ensures Append(x, b) / 2 == x && Append(x, b) % 2 == if b then 1 else 0
  {}

  lemma {:induction false} XorAppend(x: nat, a: bool, y: nat, b: bool, z: nat)
    requires Xor(x, y) == z
    ensures Xor(Append(x, a), Append(y, b)) == Append(z, a != b)
  {
    var p, q := Append(x, a), Append(y, b);
    AppendParts(x, a);
    AppendParts(y, b);
    XorSplit(p, q);
    assert Xor(p, q) == 2 * (Xor(p, q) / 2) + Xor(p, q) % 2;
  }

  lemma {:induction false} XorAppendTwo(x: nat, a1: bool, a0: bool, y: nat, b1: bool, b0: bool, z: nat)
    requires Xor(x, y) == z
    ensures Xor(Append(Append(x, a1), a0), Append(Append(y, b1), b0)) == Append(Append(z, a1 != b1), a0 != b0)
  {
    XorAppend(x, a1, y, b1, z);
    XorAppend(Append(x, a1), a0, Append(y, b1), b0, Append(z, a1 != b1));
  }

  function Digits(d: nat): Nibble {
    if d >= 8 then LowThree(d - 8, true) else LowThree(d, false)
  }

  function LowThree(d: nat, b3: bool): Nibble {
    if d >= 4 then LowTwo(d - 4, b3, true) else LowTwo(d, b3, false)
  }

  function LowTwo(d: nat, b3: bool, b2: bool): Nibble {
    Nibble(b3, b2, d >= 2, d == 1 || d == 3)
  }

  function XorNibble(a: Nibble, b: Nibble): Nibble {
    Nibble(a.b3 != b.b3, a.b2 != b.b2, a.b1 != b.b1, a.b0 != b.b0)
  }

  lemma {:induction false} XorOfNibbles(a: Nibble, b: Nibble)
    ensures Xor(a.Value(), b.Value()) == XorNibble(a, b).Value()
  {
    var none := 0;
    XorZero(none);
    XorAppendTwo(none, a.b3, a.b2, none, b.b3, b.b2, none);
    XorAppendTwo(Append(Append(none, a.b3), a.b2), a.b1, a.b0, Append(Append(none, b.b3), b.b2), b.b1, b.b0,
                 Append(Append(none, a.b3 != b.b3), a.b2 != b.b2));
  }

  lemma ValueOf(d: nat)
    requires d < 16
    ensures Digits(d).Value() == d
  {}

  /** The exclusive or of two digits. */
  predicate XorsDigit(x: nat, y: nat, z: nat) {
    XorNibble(Digits(x), Digits(y)) == Digits(z)
  }

  lemma {:induction false} XorDigitIs(x: nat, y: nat, z: nat)
    requires x < 16 && y < 16 && z < 16 && XorsDigit(x, y, z)
    ensures Xor(x, y) == z
  {
    XorOfNibbles(Digits(x), Digits(y));
    ValueOf(x);
    ValueOf(y);
    ValueOf(z);
  }

  /** `x` followed by one more digit. */
  function With(x: nat, d: nat): nat { 16 * x + d }

  lemma {:induction false} XorWith(x: nat, a: nat, y: nat, b: nat, z: nat, c: nat)
    requires a < 16 && b < 16 && c < 16 && Xor(x, y) == z && XorsDigit(a, b, c)
    ensures Xor(With(x, a), With(y, b)) == With(z, c)
  {
    XorSixteens(x, a, y, b);
    XorDigitIs(a, b, c);
  }

  /** A word of eight digits. */
  datatype Word8 = Word8(d7: nat, d6: nat, d5: nat, d4: nat, d3: nat, d2: nat, d1: nat, d0: nat)
  {
    predicate Ok() {
      d7 < 16 && d6 < 16 && d5 < 16 && d4 < 16 && d3 < 16 && d2 < 16 && d1 < 16 && d0 < 16
    }

    function Upper(): nat { With(With(With(d7, d6), d5), d4) }

    function Value(): (x: Word)
      requires Ok()
    {
      With(With(With(With(Upper(), d3), d2), d1), d0)
    }
  }

  lemma ValueIs(a: Word8)
    requires a.Ok()
    ensures a.Value() == a.d7 * 0x1000_0000 + a.d6 * 0x100_0000 + a.d5 * 0x10_0000 + a.d4 * 0x1_0000
                         + a.d3 * 0x1000 + a.d2 * 0x100 + a.d1 * 0x10 + a.d0
  {}

  predicate Xors(a: Word8, b: Word8, c: Word8) {
    && XorsDigit(a.d7, b.d7, c.d7) && XorsDigit(a.d6, b.d6, c.d6)
    && XorsDigit(a.d5, b.d5, c.d5) && XorsDigit(a.d4, b.d4, c.d4)
    && XorsDigit(a.d3, b.d3, c.d3) && XorsDigit(a.d2, b.d2, c.d2)
    && XorsDigit(a.d1, b.d1, c.d1) && XorsDigit(a.d0, b.d0, c.d0)
  }

  lemma {:induction false} XorUpper(a: Word8, b: Word8, c: Word8)
    requires a.Ok() && b.Ok() && c.Ok() && Xors(a, b, c)
    ensures Xor(a.Upper(), b.Upper()) == c.Upper()
  {
    XorDigitIs(a.d7, b.d7, c.d7);
    XorWith(a.d7, a.d6, b.d7, b.d6, c.d7, c.d6);
    XorWith(With(a.d7, a.d6), a.d5, With(b.d7, b.d6), b.d5, With(c.d7, c.d6), c.d5);
    XorWith(With(With(a.d7, a.d6), a.d5), a.d4, With(With(b.d7, b.d6), b.d5), b.d4,
            With(With(c.d7, c.d6), c.d5), c.d4);
  }

  /** The exclusive or of two words is that of their digits. */
  lemma {:induction false} XorWords(a: Word8, b: Word8, c: Word8)
    requires a.Ok() && b.Ok() && c.Ok() && Xors(a, b, c)
    ensures Xor(a.Value(), b.Value()) == c.Value()
  {
    XorUpper(a, b, c);
    var x, y, z := a.Upper(), b.Upper(), c.Upper();
    XorWith(x, a.d3, y, b.d3, z, c.d3);
    var x3, y3, z3 := With(x, a.d3), With(y, b.d3), With(z, c.d3);
    XorWith(x3, a.d2, y3, b.d2, z3, c.d2);
    var x2, y2, z2 := With(x3, a.d2), With(y3, b.d2), With(z3, c.d2);
    XorWith(x2, a.d1, y2, b.d1, z2, c.d1);
    XorWith(With(x2, a.d1), a.d0, With(y2, b.d1), b.d0, With(z2, c.d1), c.d0);
  }
}

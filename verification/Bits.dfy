/** Bitwise operations on natural numbers, digit by digit, and the 32-bit word built on
    them. */
module Bits {
  import opened IntMath

  function And(x: nat, y: nat): nat {
    if x == 0 then 0 else 2 * And(x / 2, y / 2) + if x % 2 == 1 && y % 2 == 1 then 1 else 0
  }

  function Or(x: nat, y: nat): nat {
    if x == 0 then y else 2 * Or(x / 2, y / 2) + if x % 2 == 1 || y % 2 == 1 then 1 else 0
  }

  function Xor(x: nat, y: nat): nat
    decreases x + y
  {
    if x == 0 then y else 2 * Xor(x / 2, y / 2) + if x % 2 != y % 2 then 1 else 0
  }

  /** Digit `k` of a number, the least significant first. */
  predicate Digit(x: nat, k: nat)
    decreases k, x
  {
    if k == 0 then x % 2 == 1 else Digit(x / 2, k - 1)
  }

  lemma {:induction false} NoDigit(k: nat)
    ensures !Digit(0, k)
  {
    if k > 0 { NoDigit(k - 1); }
  }

  /** The operations, digit by digit. */
  lemma {:induction false} DigitOf(x: nat, y: nat, k: nat)
    ensures Digit(And(x, y), k) == (Digit(x, k) && Digit(y, k))
    ensures Digit(Or(x, y), k) == (Digit(x, k) || Digit(y, k))
    ensures Digit(Xor(x, y), k) == (Digit(x, k) != Digit(y, k))
    decreases k
  {
    if x == 0 {
      NoDigit(k);
    } else if k == 0 {
      LastOf(x, y);
    } else {
      HalfOf(x, y);
      DigitOf(x / 2, y / 2, k - 1);
    }
  }

  lemma {:induction false} LastOf(x: nat, y: nat)
    requires x > 0
    ensures And(x, y) % 2 == 1 <==> x % 2 == 1 && y % 2 == 1
    ensures Or(x, y) % 2 == 1 <==> x % 2 == 1 || y % 2 == 1
    ensures Xor(x, y) % 2 == 1 <==> x % 2 != y % 2
  {
    EvenPlus(And(x / 2, y / 2), x % 2 == 1 && y % 2 == 1);
    EvenPlus(Or(x / 2, y / 2), x % 2 == 1 || y % 2 == 1);
    EvenPlus(Xor(x / 2, y / 2), x % 2 != y % 2);
  }

  lemma EvenPlus(half: nat, odd: bool)
    ensures (2 * half + if odd then 1 else 0) % 2 == if odd then 1 else 0
  {}

  lemma {:induction false} HalfOf(x: nat, y: nat)
    requires x > 0
    ensures And(x, y) / 2 == And(x / 2, y / 2) && Or(x, y) / 2 == Or(x / 2, y / 2)
    ensures Xor(x, y) / 2 == Xor(x / 2, y / 2)
  {}

  predicate PowerOfTwo(n: nat) {
    n == 1 || (n > 0 && n % 2 == 0 && PowerOfTwo(n / 2))
  }

  /** Neither operation leaves the range its operands share. */
  lemma {:induction false} Bounded(x: nat, y: nat, n: nat)
    requires PowerOfTwo(n) && x < n && y < n
    ensures Xor(x, y) < n && Or(x, y) < n
    decreases n
  {
    if x > 0 { Bounded(x / 2, y / 2, n / 2); }
  }

  lemma {:induction false} XorCommutes(x: nat, y: nat)
    ensures Xor(x, y) == Xor(y, x)
    decreases x + y
  {
    if x > 0 && y > 0 {
      XorCommutes(x / 2, y / 2);
    } else if x > 0 {
      XorZero(x);
    } else if y > 0 {
      XorZero(y);
    }
  }

  lemma {:induction false} XorZero(x: nat)
    ensures Xor(x, 0) == x
  {
    if x > 0 { XorZero(x / 2); }
  }

  lemma {:induction false} AndZero(x: nat)
    ensures And(x, 0) == 0
  {
    if x > 0 { AndZero(x / 2); }
  }

  /** Masking with n - 1 is the remainder by n, for a power of two. */
  lemma {:induction false} AndMask(x: nat, n: nat)
    requires PowerOfTwo(n)
    ensures And(x, n - 1) == x % n
    decreases n
  {
    if n == 1 {
      AndZero(x);
    } else if x == 0 {
      QuotientIs(0, 0, n);
    } else {
      var h := n / 2;
      AndMask(x / 2, h);
      AndMaskStep(x, h);
    }
  }

  lemma {:induction false} AndMaskStep(x: nat, h: nat)
    requires x > 0 && h > 0 && And(x / 2, h - 1) == x / 2 % h
    ensures And(x, 2 * h - 1) == x % (2 * h)
  {
    RemainderByDouble(x, h);
    assert (2 * h - 1) / 2 == h - 1 && (2 * h - 1) % 2 == 1;
  }

  lemma RemainderByDouble(x: nat, h: nat)
    requires h > 0
    ensures x % (2 * h) == 2 * (x / 2 % h) + x % 2
  {
    var y := x / 2;
    var q, r := y / h, y % h;
    assert q * (2 * h) == 2 * (q * h);
    QuotientIs(x, q, 2 * h);
  }

  /** The defining equation, without the special case. */
  lemma XorSplit(x: nat, y: nat)
    ensures Xor(x, y) / 2 == Xor(x / 2, y / 2)
    ensures Xor(x, y) % 2 == if x % 2 != y % 2 then 1 else 0
  {}

  /** Exclusive or twice with the same number changes nothing. */
  lemma {:induction false} XorTwice(x: nat, y: nat)
    ensures Xor(Xor(x, y), y) == x
    decreases x + y
  {
    if y == 0 {
      XorZero(x);
    } else if x == 0 {
      XorSelf(y);
    } else {
      XorTwice(x / 2, y / 2);
      XorSplit(x, y);
      XorSplit(Xor(x, y), y);
    }
  }

  lemma {:induction false} XorSelf(x: nat)
    ensures Xor(x, x) == 0
  {
    if x > 0 { XorSelf(x / 2); }
  }

  /** High parts and low parts apart. */
  lemma {:induction false} XorParts(a: nat, b: nat, c: nat, d: nat, k: nat)
    requires b < TwoTo(k) && d < TwoTo(k)
    ensures Xor(a * TwoTo(k) + b, c * TwoTo(k) + d) == Xor(a, c) * TwoTo(k) + Xor(b, d)
    decreases k
  {
    if k == 0 {
      assert b == 0 && d == 0 && Xor(0, 0) == 0;
    } else {
      var x := HalfOfMultiple(a, k);
      var y := HalfOfMultiple(c, k);
      var z := HalfOfMultiple(Xor(a, c), k);
      XorParts(a, b / 2, c, d / 2, k - 1);
      XorOfHalves(x, b, y, d, z);
    }
  }

  lemma XorOfHalves(x: nat, b: nat, y: nat, d: nat, z: nat)
    requires Xor(x + b / 2, y + d / 2) == z + Xor(b / 2, d / 2)
    ensures Xor(2 * x + b, 2 * y + d) == 2 * z + Xor(b, d)
  {
    XorSplit(2 * x + b, 2 * y + d);
    XorSplit(b, d);
    HalfOfSum(x, b);
    HalfOfSum(y, d);
  }

  lemma HalfOfSum(x: nat, b: nat)
    ensures (2 * x + b) / 2 == x + b / 2 && (2 * x + b) % 2 == b % 2
  {}

  lemma XorSixteens(a: nat, b: nat, c: nat, d: nat)
    requires b < 16 && d < 16
    ensures Xor(16 * a + b, 16 * c + d) == 16 * Xor(a, c) + Xor(b, d)
  {
    assert TwoTo(4) == 16;
    XorParts(a, b, c, d, 4);
  }

  /** Exclusive or of numbers of two digits. */
  function XorPair(a: nat, b: nat): nat {
    (if a / 2 != b / 2 then 2 else 0) + if a % 2 != b % 2 then 1 else 0
  }

  lemma XorPairIs(a: nat, b: nat)
    requires a < 4 && b < 4
    ensures Xor(a, b) == XorPair(a, b)
  {
    assert Xor(a, b) % 2 == if a % 2 != b % 2 then 1 else 0;
    assert Xor(a / 2, b / 2) == if a / 2 != b / 2 then 1 else 0;
  }

  type Byte = x: int | 0 <= x < 256

  function XorByte(x: Byte, y: Byte): Byte {
    Times16(1);
    Times16(0x10);
    Bounded(x, y, 0x100);
    Xor(x, y)
  }

  /** For bytes: exclusive or can be undone, and told apart. */
  lemma XorByteLaws(x: Byte, y: Byte, z: Byte)
    ensures XorByte(XorByte(x, y), y) == x
    ensures XorByte(XorByte(x, y), x) == y
    ensures XorByte(x, y) == XorByte(x, z) ==> y == z
    ensures XorByte(x, 0) == x
  {
    XorTwice(x, y);
    XorCommutes(x, y);
    XorCommutes(x, z);
    XorTwice(y, x);
    XorTwice(z, x);
    XorZero(x);
  }

  const TWO32: nat := 0x1_0000_0000

  /** A 32-bit word, on which addition, subtraction and left shifts wrap around. */
  type Word = x: int | 0 <= x < TWO32

  function Add(x: Word, y: Word): Word { (x + y) % TWO32 }

  function Sub(x: Word, y: Word): Word { (x - y) % TWO32 }

  function Shl(x: Word, k: nat): Word
    decreases k, x
  {
    if k == 0 then x else Shl((2 * x) % TWO32, k - 1)
  }

  function Shr(x: Word, k: nat): Word
    decreases k, x
  {
    if k == 0 then x else Shr(x / 2, k - 1)
  }

  function XorWord(x: Word, y: Word): Word {
    Word32();
    Bounded(x, y, TWO32);
    Xor(x, y)
  }

  /** Rotation to the left by `k` places. */
  function Rot(x: Word, k: nat): Word
    requires k <= 32
  {
    Word32();
    Bounded(Shl(x, k), Shr(x, 32 - k), TWO32);
    Or(Shl(x, k), Shr(x, 32 - k))
  }

  // What shifts and rotations do to the number.

  lemma {:induction false} ShlIs(x: Word, k: nat)
    ensures Shl(x, k) == x * TwoTo(k) % TWO32
    decreases k
  {
    if k > 0 {
      var y, t := 2 * x, TwoTo(k - 1);
      ShlIs(y % TWO32, k - 1);
      RemainderOfProduct(y, t, TWO32);
      Twice(x, t);
    }
  }

  lemma {:induction false} ShrIs(x: Word, k: nat)
    ensures Shr(x, k) == x / TwoTo(k)
    decreases k
  {
    if k > 0 {
      ShrIs(x / 2, k - 1);
      QuotientOfQuotient(x, 2, TwoTo(k - 1));
    }
  }

  lemma {:induction false} OrZero(x: nat)
    ensures Or(x, 0) == x
  {
    if x > 0 { OrZero(x / 2); }
  }

  /** Numbers with no digit in common add up: here one that is a multiple of 2^k, one below it. */
  lemma {:induction false} OrIsSum(x: nat, m: nat, low: nat, k: nat)
    requires x == m * TwoTo(k) && low < TwoTo(k)
    ensures Or(x, low) == x + low
    decreases k
  {
    if k == 0 {
      OrZero(x);
    } else if x > 0 {
      var half := HalfOfMultiple(m, k);
      OrIsSum(half, m, low / 2, k - 1);
      OrOfHalves(x, half, low);
    }
  }

  lemma HalfOfMultiple(m: nat, k: nat) returns (half: nat)
    requires k > 0
    ensures half == m * TwoTo(k - 1) && m * TwoTo(k) == 2 * half
  {
    half := m * TwoTo(k - 1);
    assert m * (2 * TwoTo(k - 1)) == 2 * half;
  }

  lemma OrOfHalves(x: nat, half: nat, low: nat)
    requires x == 2 * half > 0 && Or(half, low / 2) == half + low / 2
    ensures Or(x, low) == x + low
  {}

  lemma TwoTo32()
    ensures TwoTo(32) == TWO32
  {
    assert TwoTo(8) == 0x100;
    TwoToSum(8, 8);
    TwoToSum(16, 16);
  }

  /** Rotation moves the digits up by `k`, and those that leave at the top come in below. */
  lemma RotIs(x: Word, k: nat)
    requires 0 < k < 32
    ensures Rot(x, k) == x * TwoTo(k) % TWO32 + x / TwoTo(32 - k)
  {
    var up, rest := TwoTo(k), TwoTo(32 - k);
    ShlIs(x, k);
    ShrIs(x, 32 - k);
    TwoTo32();
    TwoToSum(32 - k, k);
    ShiftedUp(x, up, rest);
    TopBelow(x, up, rest);
    OrIsSum(x % rest * up, x % rest, x / rest, k);
  }

  lemma ShiftedUp(x: nat, up: nat, rest: nat)
    requires up > 0 && rest > 0
    ensures rest * up > 0 && x * up % (rest * up) == x % rest * up
  {
    var q, r := x / rest, x % rest;
    assert x == q * rest + r;
    assert (q * rest + r) * up == q * (rest * up) + r * up;
    assert r * up <= (rest - 1) * up;
    assert (rest - 1) * up == rest * up - up;
    QuotientIs(x * up, q, rest * up);
  }

  lemma TopBelow(x: nat, up: nat, rest: nat)
    requires rest > 0 && x < rest * up
    ensures x / rest < up
  {
    var q := x / rest;
    assert x == q * rest + x % rest;
    assert rest * (up - q) == rest * up - q * rest;
    SignOfProduct(rest, up - q);
    assert up - q == 0 ==> rest * (up - q) == 0;
  }

  lemma Times2(n: nat)
    requires PowerOfTwo(n)
    ensures PowerOfTwo(2 * n)
  {
    assert (2 * n) / 2 == n && n > 0;
  }

  lemma Times16(n: nat)
    requires PowerOfTwo(n)
    ensures PowerOfTwo(16 * n)
  {
    var n2, n4, n8 := 2 * n, 4 * n, 8 * n;
    Times2(n);
    Times2(n2);
    Times2(n4);
    Times2(n8);
  }

  lemma Word32()
    ensures PowerOfTwo(TWO32)
  {
    Times16(1);
    Times16(0x10);
    Times16(0x100);
    Times16(0x1000);
    Times16(0x1_0000);
    Times16(0x10_0000);
    Times16(0x100_0000);
    Times16(0x1000_0000);
  }
}

/** PMBus LINEAR11 words as components/bc_hal/TPS546.c reads and writes them (PMBus
    specification part II, section 7.1): eleven bits of mantissa, five of exponent, both
    two's complement.  Arithmetic is over exact reals. */
module Slinear11 {
  type Word16 = x: int | 0 <= x < 0x1_0000

  /** Doubled, and halved, `n` times. */
  function Up(v: real, n: nat): real { if n == 0 then v else 2.0 * Up(v, n - 1) }

  function Down(v: real, n: nat): real { if n == 0 then v else Down(v, n - 1) / 2.0 }

  function Scaled(v: real, exponent: int): real {
    if exponent >= 0 then Up(v, exponent) else Down(v, -exponent)
  }

  // ---------------------------------------------------------------- reading

  function Exponent(x: Word16): (e: int)
    ensures -16 <= e < 16
  {
    var top := x / 0x800;
    if x >= 0x8000 then -((0x1F - top) + 1) else top
  }

  function Mantissa(x: Word16): (m: int)
    ensures -1024 <= m < 1024
  {
    var low := x % 0x400;
    if x / 0x400 % 2 == 1 then -((0x3FF - low) + 1) else low
  }

  function ToReal(x: Word16): real {
    Scaled(Mantissa(x) as real, Exponent(x))
  }

  /** As an integer, cut off towards zero. */
  function ToInt(x: Word16): int {
    var r := ToReal(x);
    if r >= 0.0 then r.Floor else -((-r).Floor)
  }

  // ---------------------------------------------------------------- writing

  /** The word of a mantissa and exponent; nothing keeps the mantissa to its field. */
  function Packed(exponent: int, mantissa: int): Word16 {
    (exponent % 32 * 0x800 + mantissa) % 0x1_0000
  }

  /** The first of sixteen halvings, from the `i`th on, that brings a value below 1024. */
  function Halvings(v: real, i: nat): (n: nat)
    requires i <= 16
    ensures i <= n <= 16
    decreases 16 - i
  {
    if i == 16 || Down(v, i).Floor < 1024 then i else Halvings(v, i + 1)
  }

  function FromInt(v: int): Word16 {
    if v < 0 then 0
    else
      var n := Halvings(v as real, 0);
      if n == 16 then 0 else Packed(n, Down(v as real, n).Floor)
  }

  method Int2Slinear11(value: int) returns (word: Word16)
    ensures word == FromInt(value)
  {
    if value < 0 {
      return 0;
    }
    var i, mantissa := 0, 0;
    while i <= 15
      invariant 0 <= i <= 16 && Halvings(value as real, 0) == Halvings(value as real, i)
    {
      mantissa := Down(value as real, i).Floor;
      if mantissa < 1024 {
        break;
      }
      i := i + 1;
    }
    if i == 16 {
      return 0;
    }
    return Packed(i, mantissa);
  }

  /** The first of sixteen doublings, from the `i`th on, that brings a value to 1024. */
  function Doublings(v: real, i: nat): (n: nat)
    requires i <= 16
    ensures i <= n <= 16
    decreases 16 - i
  {
    if i == 16 || Up(v, i).Floor >= 1024 then i else Doublings(v, i + 1)
  }

  function FromReal(v: real): Word16 {
    if v <= 0.0 then 0
    else
      var n := Doublings(v, 0);
      if n == 16 then 0 else Packed(1 - n, Scaled(v, n - 1).Floor)
  }

  method Float2Slinear11(value: real) returns (word: Word16)
    ensures word == FromReal(value)
  {
    if value <= 0.0 {
      return 0;
    }
    var i, exponent, mantissa := 0, 0, 0;
    while i <= 15
      invariant 0 <= i <= 16 && Doublings(value, 0) == Doublings(value, i)
    {
      mantissa := Up(value, i).Floor;
      if mantissa >= 1024 {
        exponent := i - 1;
        mantissa := Scaled(value, exponent).Floor;
        break;
      }
      i := i + 1;
    }
    if i == 16 {
      return 0;
    }
    return Packed(-exponent, mantissa);
  }

  // ---------------------------------------------------------------- the fields

  /** A word reads back as the mantissa and exponent packed into it exactly when they fit. */
  lemma PackedReads(exponent: int, mantissa: int)
    requires -16 <= exponent < 16 && 0 <= mantissa
    ensures Exponent(Packed(exponent, mantissa)) == exponent && Mantissa(Packed(exponent, mantissa)) == mantissa
      <==> mantissa < 1024
  {
    if mantissa < 1024 {
      var top := exponent % 32;
      assert top == if exponent >= 0 then exponent else exponent + 32;
      var x := top * 0x800 + mantissa;
      assert Packed(exponent, mantissa) == x;
      assert x / 0x800 == top && x / 0x400 == 2 * top && x % 0x400 == mantissa;
    }
  }

  /** The fields of any word: the mantissa is its low eleven bits and the exponent the five above,
      each in two's complement. */
  lemma FieldsAre(x: Word16, m: int, e: int)
    requires -1024 <= m < 1024 && -16 <= e < 16
    ensures m == Mantissa(x) && e == Exponent(x) <==> (m - x) % 0x800 == 0 && (e - x / 0x800) % 32 == 0
  {
    MantissaIs(x, m);
    ExponentIs(x, e);
  }

  lemma MantissaIs(x: Word16, m: int)
    requires -1024 <= m < 1024
    ensures m == Mantissa(x) <==> (m - x) % 0x800 == 0
  {
    var k, low := x / 0x800, x % 0x800;
    assert x == k * 0x800 + low;
    assert x / 0x400 == 2 * k + low / 0x400 && low / 0x400 < 2;
    assert (m - x) % 0x800 == (m - low) % 0x800;
  }

  lemma ExponentIs(x: Word16, e: int)
    requires -16 <= e < 16
    ensures e == Exponent(x) <==> (e - x / 0x800) % 32 == 0
  {}

  /** Reading as an integer cuts the fraction off, on either side of zero. */
  lemma ToIntTruncates(x: Word16)
    ensures var (r, i) := (ToReal(x), ToInt(x));
      if r >= 0.0 then i >= 0 && i as real <= r < i as real + 1.0 else i <= 0 && i as real - 1.0 < r <= i as real
  {}

  // ---------------------------------------------------------------- scaling

  lemma {:induction false} UpDown(v: real, n: nat)
    ensures Up(Down(v, n), n) == v && Down(Up(v, n), n) == v
  {
    if n > 0 {
      UpDown(v, n - 1);
      HalfUp(Down(v, n - 1), n - 1);
      DoubleDown(Up(v, n - 1), n - 1);
    }
  }

  lemma {:induction false} HalfUp(v: real, n: nat)
    ensures Up(v / 2.0, n) == Up(v, n) / 2.0
  {
    if n > 0 { HalfUp(v, n - 1); }
  }

  lemma {:induction false} DoubleDown(v: real, n: nat)
    ensures Down(2.0 * v, n) == 2.0 * Down(v, n)
  {
    if n > 0 { DoubleDown(v, n - 1); }
  }

  /** Scaling is linear and keeps order. */
  lemma {:induction false} UpLinear(a: real, b: real, n: nat)
    ensures Up(a + b, n) == Up(a, n) + Up(b, n)
    ensures a < b ==> Up(a, n) < Up(b, n)
  {
    if n > 0 { UpLinear(a, b, n - 1); }
  }

  lemma {:induction false} DownLinear(a: real, b: real, n: nat)
    ensures Down(a + b, n) == Down(a, n) + Down(b, n)
    ensures a < b ==> Down(a, n) < Down(b, n)
  {
    if n > 0 { DownLinear(a, b, n - 1); }
  }

  lemma {:induction false} Times512(n: nat)
    ensures Up(512.0, n) == 512.0 * Up(1.0, n) && Down(512.0, n) == 512.0 * Down(1.0, n)
    ensures Up(1.0, n) > 0.0 && Down(1.0, n) > 0.0
  {
    if n > 0 { Times512(n - 1); }
  }

  lemma {:induction false} DownShrinks(v: real, i: nat, j: nat)
    requires v >= 0.0 && i <= j
    ensures 0.0 <= Down(v, j) <= Down(v, i)
    decreases j
  {
    if i < j {
      DownShrinks(v, i, j - 1);
    } else if i > 0 {
      DownShrinks(v, i - 1, i - 1);
    }
  }

  lemma {:induction false} UpGrows(v: real, i: nat, j: nat)
    requires v >= 0.0 && i <= j
    ensures 0.0 <= Up(v, i) <= Up(v, j)
    decreases j
  {
    if i < j {
      UpGrows(v, i, j - 1);
    } else if i > 0 {
      UpGrows(v, i - 1, i - 1);
    }
  }

  /** What cutting off a fraction costs, scaled. */
  lemma CutUp(v: real, n: nat, m: int)
    requires v >= 0.0 && m == Down(v, n).Floor
    ensures Up(m as real, n) <= v < Up(m as real, n) + Up(1.0, n)
    ensures m >= 512 ==> 512.0 * (v - Up(m as real, n)) < v
  {
    UpDown(v, n);
    UpLinear(m as real, Down(v, n), n);
    UpLinear(m as real, 1.0, n);
    UpLinear(Down(v, n), m as real + 1.0, n);
    UpLinear(512.0, m as real, n);
    Times512(n);
  }

  lemma CutDown(v: real, n: nat, m: int)
    requires v >= 0.0 && m == Up(v, n).Floor
    ensures Down(m as real, n) <= v < Down(m as real, n) + Down(1.0, n)
    ensures m >= 512 ==> 512.0 * (v - Down(m as real, n)) < v
  {
    UpDown(v, n);
    DownLinear(m as real, Up(v, n), n);
    DownLinear(m as real, 1.0, n);
    DownLinear(Up(v, n), m as real + 1.0, n);
    DownLinear(512.0, m as real, n);
    Times512(n);
  }

  // ---------------------------------------------------------------- what writing an integer loses

  lemma {:induction false} HalvingsIs(v: real, i: nat)
    requires v >= 0.0 && i <= 16
    ensures var n := Halvings(v, i);
      && (n < 16 ==> Down(v, n).Floor < 1024)
      && (n > i ==> Down(v, n - 1).Floor >= 1024)
    decreases 16 - i
  {
    if i < 16 && Down(v, i).Floor >= 1024 { HalvingsIs(v, i + 1); }
  }

  /** The exponent unit of a word. */
  function UnitOf(x: Word16): real { Scaled(1.0, Exponent(x)) }

  lemma FifteenUp()
    ensures Up(1024.0, 15) == 33554432.0
  {
    assert Up(1024.0, 5) == 32768.0;
    assert Up(1024.0, 10) == 1048576.0;
  }

  lemma FifteenIff(v: real)
    requires v >= 0.0
    ensures Down(v, 15).Floor >= 1024 <==> v >= 33554432.0
  {
    var d, k := Down(v, 15), 15;
    FifteenUp();
    UpDown(v, k);
    UpLinear(d, 1024.0, k);
    UpLinear(1024.0, d, k);
  }

  /** A value can be written exactly when it is below 2^25. */
  lemma WritableIff(v: real)
    requires v >= 0.0
    ensures Halvings(v, 0) < 16 <==> v < 33554432.0
  {
    var n := Halvings(v, 0);
    HalvingsIs(v, 0);
    FifteenIff(v);
    DownShrinks(v, if n < 15 then n else 15, 15);
  }

  /** Negative values are written as zero, like zero itself. */
  lemma NothingNegative(v: int, x: real)
    requires v <= 0 && x <= 0.0
    ensures FromInt(v) == 0 && FromReal(x) == 0
  {
    assert Down(0.0, 0) == 0.0;
  }

  /** Integers below 1024 are exact; those below 2^25 lose less than their unit, and less than
      a 512th; no others can be written. */
  lemma IntLoss(v: int)
    requires v >= 0
    ensures v >= 0x200_0000 ==> FromInt(v) == 0
    ensures v < 1024 ==> ToInt(FromInt(v)) == v
    ensures v < 0x200_0000 ==> var d := ToReal(FromInt(v));
      && d <= v as real < d + UnitOf(FromInt(v))
      && (if v < 1024 then d == v as real else 512.0 * (v as real - d) < v as real)
  {
    var r := v as real;
    var n := Halvings(r, 0);
    HalvingsIs(r, 0);
    WritableIff(r);
    if n < 16 {
      var m := Down(r, n).Floor;
      DownShrinks(r, n, n);
      PackedReads(n, m);
      CutUp(r, n, m);
      if n > 0 {
        assert Down(r, n) == Down(r, n - 1) / 2.0;
        DownShrinks(r, 0, n - 1);
      }
    }
  }

  // ---------------------------------------------------------------- what writing a real loses

  lemma {:induction false} DoublingsIs(v: real, i: nat)
    requires v >= 0.0 && i <= 16
    ensures var n := Doublings(v, i);
      && (n < 16 ==> Up(v, n).Floor >= 1024)
      && (n > i ==> Up(v, n - 1).Floor < 1024)
    decreases 16 - i
  {
    if i < 16 && Up(v, i).Floor < 1024 { DoublingsIs(v, i + 1); }
  }

  lemma FiveMore(v: real, n: nat)
    ensures Up(v, n + 5) == 32.0 * Up(v, n)
  {
    assert Up(v, n + 2) == 4.0 * Up(v, n);
    assert Up(v, n + 4) == 4.0 * Up(v, n + 2);
  }

  lemma Once(v: real)
    ensures Scaled(v, 1) == 2.0 * v && Scaled(v, -1) == v / 2.0
  {
    assert Up(v, 0) == Down(v, 0) == v;
  }

  lemma FifteenDoubled(v: real)
    requires v >= 0.0
    ensures Up(v, 15).Floor >= 1024 <==> v >= 0.03125
  {
    FiveMore(v, 0);
    FiveMore(v, 5);
    FiveMore(v, 10);
  }

  lemma ReachedIff(v: real)
    requires v >= 0.0
    ensures Doublings(v, 0) < 16 <==> v >= 0.03125
  {
    var n := Doublings(v, 0);
    DoublingsIs(v, 0);
    FifteenDoubled(v);
    UpGrows(v, if n < 15 then n else 15, 15);
  }

  /** The mantissa the search settles on, for a value it can write. */
  function Settled(v: real): (int, int)
    requires v > 0.0
  {
    var n := Doublings(v, 0);
    (1 - n, Scaled(v, n - 1).Floor)
  }

  /** The search settles on a mantissa of 512 or more, which fits its field exactly when the
      value is below 2048. */
  lemma SettledIs(v: real)
    requires v >= 0.03125
    ensures var (e, m) := Settled(v);
      -14 <= e <= 1 && m >= 512 && (m < 1024 <==> v < 2048.0) && FromReal(v) == Packed(e, m)
      && (v >= 1024.0 ==> e == 1 && m == (v / 2.0).Floor)
      && (v < 1024.0 ==> e <= 0 && m == Up(v, -e).Floor)
  {
    var n := Doublings(v, 0);
    DoublingsIs(v, 0);
    ReachedIff(v);
    if n == 0 {
      Once(v);
    } else {
      UpGrows(v, 0, n - 1);
      assert Up(v, n) == 2.0 * Up(v, n - 1);
    }
  }

  /** Reals from 1/32 up to 2048 lose less than their unit, and less than a 512th; smaller ones
      are written as zero. */
  lemma RealLoss(v: real)
    requires 0.0 < v < 2048.0
    ensures v < 0.03125 ==> FromReal(v) == 0
    ensures v >= 0.03125 ==> var d := ToReal(FromReal(v));
      d <= v < d + UnitOf(FromReal(v)) && 512.0 * (v - d) < v
  {
    ReachedIff(v);
    if v >= 0.03125 {
      var (e, m) := Settled(v);
      SettledIs(v);
      PackedReads(e, m);
      if v >= 1024.0 {
        Once(v);
        CutUp(v, 1, m);
      } else {
        CutDown(v, -e, m);
      }
    }
  }

  /** From 2048 on the mantissa spills into the exponent: the word no longer reads back as the
      fields that were chosen. */
  lemma ReadsBackIff(v: real)
    requires v >= 0.03125
    ensures var (e, m) := Settled(v);
      Exponent(FromReal(v)) == e && Mantissa(FromReal(v)) == m <==> v < 2048.0
  {
    SettledIs(v);
    PackedReads(Settled(v).0, Settled(v).1);
  }

  /** Every real from 2048 up to 4096 reads back negative. */
  lemma SpillsNegative(v: real)
    requires 2048.0 <= v < 4096.0
    ensures ToReal(FromReal(v)) < 0.0
  {
    SettledIs(v);
    var m := (v / 2.0).Floor;
    var x := FromReal(v);
    assert x == 0x800 + m;
    assert x / 0x800 == 1 && x / 0x400 == 3 && x % 0x400 == m - 0x400;
    assert Mantissa(x) == m - 0x800 && Exponent(x) == 1;
    Once((m - 0x800) as real);
  }

  // ---------------------------------------------------------------- words that survive

  lemma {:induction false} UpDownPart(v: real, k: nat, j: nat)
    requires j <= k
    ensures Up(Down(v, k), j) == Down(v, k - j)
  {
    if j > 0 {
      UpDownPart(v, k, j - 1);
      assert Down(v, k - j + 1) == Down(v, k - j) / 2.0;
    }
  }

  /** Where the doublings stop. */
  lemma {:induction false} DoublingsAt(v: real, i: nat, n: nat)
    requires i <= n < 16 && Up(v, n).Floor >= 1024
    requires forall j | i <= j < n :: Up(v, j).Floor < 1024
    ensures Doublings(v, i) == n
    decreases n - i
  {
    if i < n { DoublingsAt(v, i + 1, n); }
  }

  lemma PackedIs(x: Word16)
    requires 0 <= Mantissa(x)
    ensures Packed(Exponent(x), Mantissa(x)) == x
  {
    var top := x / 0x800;
    assert x / 0x400 == 2 * top + x / 0x400 % 2;
    assert Exponent(x) % 32 == top;
  }

  /** Reading a word in the form the writer uses, and writing what it says, gives it back. */
  lemma WordSurvives(x: Word16)
    requires 512 <= Mantissa(x) && -14 <= Exponent(x) <= 1
    ensures FromReal(ToReal(x)) == x
  {
    var m, e := Mantissa(x), Exponent(x);
    var v := ToReal(x);
    PackedIs(x);
    if e == 1 {
      Once(m as real);
      DoublingsAt(v, 0, 0);
      Once(v);
    } else {
      var k := -e;
      assert v == Down(m as real, k);
      forall j | 0 <= j <= k ensures Up(v, j) <= m as real {
        UpDownPart(m as real, k, j);
        DownShrinks(m as real, 0, k - j);
      }
      UpDown(m as real, k);
      DoublingsAt(v, 0, k + 1);
      DownLinear(0.0, m as real, k);
      Zero(k);
    }
  }

  lemma {:induction false} Zero(n: nat)
    ensures Down(0.0, n) == 0.0
  {
    if n > 0 { Zero(n - 1); }
  }
}

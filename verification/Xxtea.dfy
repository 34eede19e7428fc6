/** The block cipher of components/bc_hal/eeprom.c: both directions rewrite the array in
    place, word by word, mixing each word with its two neighbours as they stand. */
module Xxtea {
  import opened IntMath
  import opened Bits
  import opened Hexadecimal

  /** How a word's neighbours and position are mixed into it and out of it again. */
  datatype Mixer<!W(!new)> = Mixer(into: (W, W, W, nat) -> W, out: (W, W, W, nat) -> W)
  {
    /** Mixing out undoes mixing in and the other way round, while the neighbours stay. */
    ghost predicate Invertible() {
      && (forall x, y, z, p: nat :: out(into(x, y, z, p), y, z, p) == x)
      && (forall x, y, z, p: nat :: into(out(x, y, z, p), y, z, p) == x)
    }
  }

  // ---------------------------------------------------------------- one pass over the array

  /** Position `p`'s neighbours in the cyclic order of `n` words. */
  function After(p: nat, n: nat): nat
    requires p < n
    ensures After(p, n) < n
  {
    if p + 1 < n then p + 1 else 0
  }

  function Before(p: nat, n: nat): nat
    requires p < n
    ensures Before(p, n) < n
  {
    if p > 0 then p - 1 else n - 1
  }

  function EncStep<W(!new)>(m: Mixer<W>, v: seq<W>, p: nat): (r: seq<W>)
    requires p < |v|
    ensures |r| == |v|
  {
    v[p := m.into(v[p], v[After(p, |v|)], v[Before(p, |v|)], p)]
  }

  function DecStep<W(!new)>(m: Mixer<W>, v: seq<W>, p: nat): (r: seq<W>)
    requires p < |v|
    ensures |r| == |v|
  {
    v[p := m.out(v[p], v[After(p, |v|)], v[Before(p, |v|)], p)]
  }

  /** The first `k` words mixed in, in rising order. */
  function EncPass<W(!new)>(m: Mixer<W>, v: seq<W>, k: nat): (r: seq<W>)
    requires k <= |v|
    ensures |r| == |v|
  {
    if k == 0 then v else EncStep(m, EncPass(m, v, k - 1), k - 1)
  }

  /** All words from `k` up mixed out, in falling order. */
  function DecPass<W(!new)>(m: Mixer<W>, v: seq<W>, k: nat): (r: seq<W>)
    requires k <= |v|
    ensures |r| == |v|
    decreases |v| - k
  {
    if k == |v| then v else DecStep(m, DecPass(m, v, k + 1), k)
  }

  /** A word is not its own neighbour, so a step can be undone where it was done. */
  lemma StepsInverse<W(!new)>(m: Mixer<W>, v: seq<W>, p: nat)
    requires p < |v| && |v| >= 2 && m.Invertible()
    ensures DecStep(m, EncStep(m, v, p), p) == v
    ensures EncStep(m, DecStep(m, v, p), p) == v
  {}

  lemma {:induction false} DecPassUndoes<W(!new)>(m: Mixer<W>, v: seq<W>, k: nat)
    requires k <= |v| && |v| >= 2 && m.Invertible()
    ensures DecPass(m, EncPass(m, v, |v|), k) == EncPass(m, v, k)
    decreases |v| - k
  {
    if k < |v| {
      DecPassUndoes(m, v, k + 1);
      StepsInverse(m, EncPass(m, v, k), k);
    }
  }

  lemma {:induction false} EncPassUndoes<W(!new)>(m: Mixer<W>, v: seq<W>, k: nat)
    requires k <= |v| && |v| >= 2 && m.Invertible()
    ensures EncPass(m, DecPass(m, v, 0), k) == DecPass(m, v, k)
  {
    if k > 0 {
      EncPassUndoes(m, v, k - 1);
      StepsInverse(m, DecPass(m, v, k), k - 1);
    }
  }

  lemma {:induction false} NotYet<W(!new)>(m: Mixer<W>, v: seq<W>, k: nat, p: nat)
    requires k <= p < |v|
    ensures EncPass(m, v, k)[p] == v[p]
  {
    if k > 0 { NotYet(m, v, k - 1, p); }
  }

  lemma {:induction false} NoMore<W(!new)>(m: Mixer<W>, v: seq<W>, k: nat, p: nat)
    requires p < k <= |v|
    ensures EncPass(m, v, k)[p] == EncPass(m, v, p + 1)[p]
    decreases k
  {
    if k > p + 1 { NoMore(m, v, k - 1, p); }
  }

  /** What a whole pass makes of each word: it is mixed with the next word as it was, the last one
      with the new first, and with the word before as it has become, the first one with the old
      last. */
  lemma {:induction false} PassIs<W(!new)>(m: Mixer<W>, v: seq<W>, w: seq<W>, p: nat)
    requires |v| >= 2 && p < |v| && w == EncPass(m, v, |v|)
    ensures w[p] == m.into(v[p], if p + 1 < |v| then v[p + 1] else w[0], if p > 0 then w[p - 1] else v[|v| - 1], p)
  {
    NoMore(m, v, |v|, p);
    NotYet(m, v, p, p);
    if p + 1 < |v| {
      NotYet(m, v, p, p + 1);
    } else {
      NoMore(m, v, |v|, 0);
      NoMore(m, v, p, 0);
    }
    if p > 0 {
      NoMore(m, v, |v|, p - 1);
    } else {
      NotYet(m, v, 0, |v| - 1);
    }
  }

  /** A mixer that adds an amount, worked out from the neighbours, and subtracts it again. */
  function Adding<W(!new)>(add: (W, W) -> W, sub: (W, W) -> W, amount: (W, W, nat) -> W): Mixer<W> {
    Mixer((x, y, z, p) => add(x, amount(y, z, p)), (x, y, z, p) => sub(x, amount(y, z, p)))
  }

  lemma AddingInvertible<W(!new)>(add: (W, W) -> W, sub: (W, W) -> W, amount: (W, W, nat) -> W)
    requires forall x, a :: sub(add(x, a), a) == x && add(sub(x, a), a) == x
    ensures Adding(add, sub, amount).Invertible()
  {}

  /** The forward inner loop, carrying the word just written in `z`. */
  method EncodePass<W(!new)>(v: array<W>, m: Mixer<W>, zIn: W) returns (z: W)
    requires v.Length >= 2 && zIn == v[v.Length - 1]
    modifies v
    ensures v[..] == EncPass(m, old(v[..]), v.Length)
    ensures z == v[v.Length - 1]
  {
    var n := v.Length;
    ghost var start := v[..];
    z := zIn;
    for p := 0 to n - 1
      invariant v[..] == EncPass(m, start, p)
      invariant z == v[Before(p, n)]
    {
      var y := v[p + 1];
      v[p] := m.into(v[p], y, z, p);
      z := v[p];
      assert v[..] == EncPass(m, start, p + 1);
    }
    var y := v[0];
    v[n - 1] := m.into(v[n - 1], y, z, n - 1);
    z := v[n - 1];
    assert v[..] == EncPass(m, start, n);
  }

  /** The backward inner loop, carrying the word just written in `y`. */
  method DecodePass<W(!new)>(v: array<W>, m: Mixer<W>, yIn: W) returns (y: W)
    requires v.Length >= 2 && yIn == v[0]
    modifies v
    ensures v[..] == DecPass(m, old(v[..]), 0)
    ensures y == v[0]
  {
    var n := v.Length;
    ghost var start := v[..];
    y := yIn;
    var p := n - 1;
    while p > 0
      invariant 0 <= p < n
      invariant v[..] == DecPass(m, start, p + 1)
      invariant y == v[After(p, n)]
    {
      var z := v[p - 1];
      v[p] := m.out(v[p], y, z, p);
      y := v[p];
      assert v[..] == DecPass(m, start, p);
      p := p - 1;
    }
    var z := v[n - 1];
    v[0] := m.out(v[0], y, z, 0);
    y := v[0];
    assert v[..] == DecPass(m, start, 0);
  }

  // ---------------------------------------------------------------- all rounds

  const DELTA: int := 0x9e3779b9

  /** What a round with running constant `sum` mixes into position `p` from its
      neighbours `y` and `z`: (sum, y, z, p) to the amount. */
  type Amount = (Word, Word, Word, nat) -> Word

  function MixerOf(f: Amount, sum: Word): Mixer<Word> {
    Adding(Add, Sub, (y: Word, z: Word, p: nat) => f(sum, y, z, p))
  }

  lemma {:induction false} MixerInvertible(f: Amount, sum: Word)
    ensures MixerOf(f, sum).Invertible()
  {
    AddingInvertible(Add, Sub, (y: Word, z: Word, p: nat) => f(sum, y, z, p));
  }

  /** The running constant of round `r`, which starts at 1. */
  function Schedule(r: nat): Word {
    if r == 0 then 0 else Add(Schedule(r - 1), DELTA)
  }

  lemma SubAfterAdd(x: Word, a: Word)
    ensures Sub(Add(x, a), a) == x
  {}

  /** The schedule reached by adding is the one reached by multiplying. */
  lemma {:induction false} ScheduleIsProduct(r: nat)
    ensures Schedule(r) == (r * DELTA) % TWO32
  {
    if r > 0 {
      ScheduleIsProduct(r - 1);
      var x := (r - 1) * DELTA;
      assert r * DELTA == x % TWO32 + DELTA + (x / TWO32) * TWO32;
      RemainderShift(x % TWO32 + DELTA, x / TWO32, TWO32);
    }
  }

  function Rounds(n: nat): nat
    requires n > 0
  {
    6 + 52 / n
  }

  /** Six rounds, and as many more as make up 52 words: 32 for two words, nine for sixteen. */
  lemma RoundsAre(n: nat)
    requires n > 0
    ensures Rounds(n) >= 6 && (Rounds(n) - 6) * n <= 52 < (Rounds(n) - 5) * n
    ensures Rounds(2) == 32 && Rounds(16) == 9
  {
    assert 52 / n * n + 52 % n == 52;
    assert (52 / n + 1) * n == 52 / n * n + n;
  }

  /** The constant is 2^32 divided by the golden ratio, cut off. */
  lemma DeltaIsGolden(d: int)
    requires d == 2 * DELTA + TWO32
    ensures d * d < 5 * TWO32 * TWO32 < (d + 2) * (d + 2)
  {
    assert d == 9603838834;
  }

  function EncRounds(f: Amount, v: seq<Word>, r: nat): (w: seq<Word>)
    ensures |w| == |v|
  {
    if r == 0 then v else EncPass(MixerOf(f, Schedule(r)), EncRounds(f, v, r - 1), |v|)
  }

  lemma MixerAdds(f: Amount, sum: Word, x: Word, y: Word, z: Word, p: nat)
    ensures MixerOf(f, sum).into(x, y, z, p) == (x + f(sum, y, z, p)) % TWO32
  {
    var add: (Word, Word) -> Word := Add;
    assert add(x, f(sum, y, z, p)) == Add(x, f(sum, y, z, p));
  }

  /** What a round makes of each word: to the word is added what is worked out from the running
      constant, the next word as it was before the round and the one before as it has become, going
      round at both ends. */
  lemma {:induction false} RoundIs(f: Amount, v: seq<Word>, r: nat, p: nat)
    requires |v| >= 2 && p < |v|
    ensures var (u, w) := (EncRounds(f, v, r), EncRounds(f, v, r + 1));
      var next := if p + 1 < |v| then u[p + 1] else w[0];
      var before := if p > 0 then w[p - 1] else u[|v| - 1];
      w[p] == (u[p] + f(((r + 1) * DELTA) % TWO32, next, before, p)) % TWO32
  {
    var u, w, sum := EncRounds(f, v, r), EncRounds(f, v, r + 1), Schedule(r + 1);
    ScheduleIsProduct(r + 1);
    PassIs(MixerOf(f, sum), u, w, p);
    MixerAdds(f, sum, u[p], if p + 1 < |v| then u[p + 1] else w[0], if p > 0 then w[p - 1] else u[|v| - 1], p);
  }

  /** Rounds `total` down to `r + 1` undone. */
  function DecRounds(f: Amount, v: seq<Word>, total: nat, r: nat): (w: seq<Word>)
    requires r <= total
    ensures |w| == |v|
    decreases total - r
  {
    if r == total then v
    else DecPass(MixerOf(f, Schedule(r + 1)), DecRounds(f, v, total, r + 1), 0)
  }

  function Encode(f: Amount, v: seq<Word>): (w: seq<Word>)
    ensures |w| == |v|
  {
    if |v| <= 1 then v else EncRounds(f, v, Rounds(|v|))
  }

  function Decode(f: Amount, v: seq<Word>): (w: seq<Word>)
    ensures |w| == |v|
  {
    if |v| <= 1 then v else DecRounds(f, v, Rounds(|v|), 0)
  }

  lemma {:induction false} DecRoundsUndo(f: Amount, v: seq<Word>, total: nat, r: nat)
    requires r <= total && |v| >= 2
    ensures DecRounds(f, EncRounds(f, v, total), total, r) == EncRounds(f, v, r)
    decreases total - r
  {
    if r < total {
      DecRoundsUndo(f, v, total, r + 1);
      MixerInvertible(f, Schedule(r + 1));
      DecPassUndoes(MixerOf(f, Schedule(r + 1)), EncRounds(f, v, r), 0);
    }
  }

  lemma {:induction false} EncRoundsUndo(f: Amount, v: seq<Word>, total: nat, r: nat)
    requires r <= total && |v| >= 2
    ensures EncRounds(f, DecRounds(f, v, total, 0), r) == DecRounds(f, v, total, r)
    decreases r
  {
    if r > 0 {
      EncRoundsUndo(f, v, total, r - 1);
      MixerInvertible(f, Schedule(r));
      EncPassUndoes(MixerOf(f, Schedule(r)), DecRounds(f, v, total, r), |v|);
    }
  }

  /** Each direction undoes the other, for every array and whatever is mixed in. */
  lemma RoundTrip(f: Amount, v: seq<Word>)
    ensures Decode(f, Encode(f, v)) == v
    ensures Encode(f, Decode(f, v)) == v
  {
    if |v| >= 2 {
      DecRoundsUndo(f, v, Rounds(|v|), 0);
      EncRoundsUndo(f, v, Rounds(|v|), Rounds(|v|));
    }
  }

  // ---------------------------------------------------------------- the keyed mix

  type Key = k: seq<Word> | |k| == 4 witness [0, 0, 0, 0]

  /** Which key word position `p` uses in a round: (p & 3) ^ ((sum >> 2) & 3). */
  function KeyIndex(p: nat, sum: Word): (i: nat)
    ensures i < 4
  {
    (if ((p / 2) % 2 == 1) != ((sum / 8) % 2 == 1) then 2 else 0)
    + (if (p % 2 == 1) != ((sum / 4) % 2 == 1) then 1 else 0)
  }

  function Mx(y: Word, z: Word, sum: Word, k: Word): Word {
    XorWord(Add(XorWord(Shr(z, 5), Shl(y, 2)), XorWord(Shr(y, 3), Shl(z, 4))),
            Add(XorWord(sum, y), XorWord(k, z)))
  }

  function Keyed(key: Key): Amount {
    (sum, y, z, p) => Mx(y, z, sum, key[KeyIndex(p, sum)])
  }

  /** The index as the source writes it. */
  lemma {:induction false} KeyIndexIs(p: nat, sum: Word)
    ensures KeyIndex(p, sum) == Xor(And(p, 3), And(sum / 4, 3))
  {
    AndMask(p, 4);
    AndMask(sum / 4, 4);
    XorPairIs(p % 4, sum / 4 % 4);
    TwoDigits(p);
    TwoDigits(sum / 4);
    assert sum / 4 / 2 == sum / 8;
  }

  lemma TwoDigits(x: nat)
    ensures x % 4 < 4 && x % 4 / 2 == x / 2 % 2 && x % 4 % 2 == x % 2
  {}

  lemma XorTells(x: Word, y: Word, z: Word)
    requires XorWord(x, z) == XorWord(y, z)
    ensures x == y
  {
    XorTwice(x, z);
    XorTwice(y, z);
  }

  lemma AddTells(a: Word, x: Word, y: Word)
    requires Add(a, x) == Add(a, y)
    ensures x == y
  {}

  /** What is mixed in tells the key words apart. */
  lemma MxTells(y: Word, z: Word, sum: Word, k: Word, l: Word)
    ensures Mx(y, z, sum, k) == Mx(y, z, sum, l) <==> k == l
  {
    if Mx(y, z, sum, k) == Mx(y, z, sum, l) {
      var shifts, own := Add(XorWord(Shr(z, 5), Shl(y, 2)), XorWord(Shr(y, 3), Shl(z, 4))), XorWord(sum, y);
      var x, x' := Add(own, XorWord(k, z)), Add(own, XorWord(l, z));
      XorCommutes(shifts, x);
      XorCommutes(shifts, x');
      XorTells(x, x', shifts);
      AddTells(own, XorWord(k, z), XorWord(l, z));
      XorTells(k, l, z);
    }
  }

  /** Two keys mix the same into a position, whatever its neighbours, if and only if they agree in
      the word that position uses in that round. */
  lemma KeyedSameIff(a: Key, b: Key, sum: Word, y: Word, z: Word, p: nat)
    ensures var i := Xor(And(p, 3), And(sum / 4, 3));
      i < 4 && (Keyed(a)(sum, y, z, p) == Keyed(b)(sum, y, z, p) <==> a[i] == b[i])
  {
    KeyIndexIs(p, sum);
    MxTells(y, z, sum, a[KeyIndex(p, sum)], b[KeyIndex(p, sum)]);
  }

  /** The shifts are those of the source: 5 down and 2 up, 3 down and 4 up. */
  lemma MxIs(y: Word, z: Word, sum: Word, k: Word)
    ensures Mx(y, z, sum, k)
      == XorWord(Add(XorWord(z / 32, 4 * y % TWO32), XorWord(y / 8, 16 * z % TWO32)),
                 Add(XorWord(sum, y), XorWord(k, z)))
  {
    ShiftsAre(y, z);
  }

  lemma ShiftsAre(y: Word, z: Word)
    ensures Shr(z, 5) == z / 32 && Shl(y, 2) == 4 * y % TWO32
    ensures Shr(y, 3) == y / 8 && Shl(z, 4) == 16 * z % TWO32
  {
    SmallPowers();
    ShrIs(z, 5);
    ShlIs(y, 2);
    ShrIs(y, 3);
    ShlIs(z, 4);
  }

  lemma SmallPowers()
    ensures TwoTo(2) == 4 && TwoTo(3) == 8 && TwoTo(4) == 16 && TwoTo(5) == 32
  {
    assert TwoTo(1) == 2;
  }

  /** A mix worked out by digits: `a` to `d` are the shifted neighbours, `ab` and the like what becomes
      of them, `left` and `right` the two sums. */
  datatype Working = Working(y: Word8, z: Word8, sum: Word8, k: Word8, a: Word8, b: Word8, c: Word8, d: Word8,
                             ab: Word8, cd: Word8, sy: Word8, kz: Word8, left: Word8, right: Word8, mix: Word8)
  {
    predicate Ok() {
      && y.Ok() && z.Ok() && sum.Ok() && k.Ok() && a.Ok() && b.Ok() && c.Ok() && d.Ok()
      && ab.Ok() && cd.Ok() && sy.Ok() && kz.Ok() && left.Ok() && right.Ok() && mix.Ok()
    }

    predicate Mixed() {
      Xors(a, b, ab) && Xors(c, d, cd) && Xors(sum, y, sy) && Xors(k, z, kz) && Xors(left, right, mix)
    }

    predicate ShiftedAndAdded()
      requires Ok()
    {
      && Shifted(y.Value(), z.Value(), a.Value(), b.Value(), c.Value(), d.Value())
      && Added(ab.Value(), cd.Value(), left.Value()) && Added(sy.Value(), kz.Value(), right.Value())
    }
  }

  predicate Shifted(y: Word, z: Word, a: Word, b: Word, c: Word, d: Word) {
    a == z / 32 && b == 4 * y % TWO32 && c == y / 8 && d == 16 * z % TWO32
  }

  predicate Added(x: Word, y: Word, sum: Word) { Add(x, y) == sum }

  lemma WorkingIs(w: Working)
    requires w.Ok() && w.Mixed() && w.ShiftedAndAdded()
    ensures Mx(w.y.Value(), w.z.Value(), w.sum.Value(), w.k.Value()) == w.mix.Value()
  {
    ShiftsAre(w.y.Value(), w.z.Value());
    XorWords(w.a, w.b, w.ab);
    XorWords(w.c, w.d, w.cd);
    XorWords(w.sum, w.y, w.sy);
    XorWords(w.k, w.z, w.kz);
    XorWords(w.left, w.right, w.mix);
  }

  /** Mx(0x89abcdef, 0x01234567, 0x9e3779b9, 0x616e6764), with all four arguments at work. */
  function Example(): Working {
    Working(Word8(8, 9, 10, 11, 12, 13, 14, 15), Word8(0, 1, 2, 3, 4, 5, 6, 7), Word8(9, 14, 3, 7, 7, 9, 11, 9),
            Word8(6, 1, 6, 14, 6, 7, 6, 4), Word8(0, 0, 0, 9, 1, 10, 2, 11), Word8(2, 6, 10, 15, 3, 7, 11, 12),
            Word8(1, 1, 3, 5, 7, 9, 11, 13), Word8(1, 2, 3, 4, 5, 6, 7, 0), Word8(2, 6, 10, 6, 2, 13, 9, 7),
            Word8(0, 3, 0, 1, 2, 15, 12, 13), Word8(1, 7, 9, 12, 11, 4, 5, 6), Word8(6, 0, 4, 13, 2, 2, 0, 3),
            Word8(2, 9, 10, 7, 5, 13, 6, 4), Word8(7, 7, 14, 9, 13, 6, 5, 9), Word8(5, 14, 4, 14, 8, 11, 3, 13))
  }

  lemma ExampleOk(w: Working)
    requires w == Example()
    ensures w.Ok()
  {}

  lemma ExampleMixed(w: Working)
    requires w == Example()
    ensures w.Mixed()
  {}

  lemma ExampleInputs(w: Working)
    requires w == Example() && w.Ok()
    ensures w.y.Value() == 0x89abcdef && w.z.Value() == 0x01234567
    ensures w.sum.Value() == 0x9e3779b9 && w.k.Value() == 0x616e6764
  {
    ValueIs(w.y);
    ValueIs(w.z);
    ValueIs(w.sum);
    ValueIs(w.k);
  }

  lemma ExampleShifts(w: Working)
    requires w == Example() && w.Ok()
    ensures w.a.Value() == 0x91a2b && w.b.Value() == 0x26af37bc
    ensures w.c.Value() == 0x113579bd && w.d.Value() == 0x12345670
  {
    ValueIs(w.a);
    ValueIs(w.b);
    ValueIs(w.c);
    ValueIs(w.d);
  }

  lemma ExampleMixes(w: Working)
    requires w == Example() && w.Ok()
    ensures w.ab.Value() == 0x26a62d97 && w.cd.Value() == 0x3012fcd
    ensures w.sy.Value() == 0x179cb456 && w.kz.Value() == 0x604d2203
  {
    ValueIs(w.ab);
    ValueIs(w.cd);
    ValueIs(w.sy);
    ValueIs(w.kz);
  }

  lemma ExampleSums(w: Working)
    requires w == Example() && w.Ok()
    ensures w.left.Value() == 0x29a75d64 && w.right.Value() == 0x77e9d659
    ensures w.mix.Value() == 0x5e4e8b3d
  {
    ValueIs(w.left);
    ValueIs(w.right);
    ValueIs(w.mix);
  }

  lemma ExampleShifted(w: Working)
    requires w == Example() && w.Ok()
    ensures w.ShiftedAndAdded()
  {
    ExampleInputs(w);
    ExampleShifts(w);
    ExampleMixes(w);
    ExampleSums(w);
    NumbersFit();
  }

  lemma NumbersFit()
    ensures Shifted(0x89abcdef, 0x01234567, 0x91a2b, 0x26af37bc, 0x113579bd, 0x12345670)
    ensures Added(0x26a62d97, 0x3012fcd, 0x29a75d64) && Added(0x179cb456, 0x604d2203, 0x77e9d659)
  {}

  /** It is 0x5e4e8b3d. */
  lemma MxValue(y: Word, z: Word, sum: Word, k: Word)
    requires y == 0x89abcdef && z == 0x01234567 && sum == 0x9e3779b9 && k == 0x616e6764
    ensures Mx(y, z, sum, k) == 0x5e4e8b3d
  {
    var w := Example();
    ExampleOk(w);
    ExampleMixed(w);
    ExampleInputs(w);
    ExampleSums(w);
    ExampleShifted(w);
    WorkingIs(w);
  }

  // ---------------------------------------------------------------- in place

  method EncodeInPlace(v: array<Word>, f: Amount)
    modifies v
    ensures v[..] == Encode(f, old(v[..]))
  {
    var n := v.Length;
    if n <= 1 {
      return;
    }
    var rounds := 6 + 52 / n;
    var sum: Word := 0;
    var z := v[n - 1];
    ghost var start, done := v[..], 0;
    while rounds != 0
      invariant 0 <= rounds && done == Rounds(n) - rounds
      invariant sum == Schedule(done)
      invariant z == v[n - 1]
      invariant v[..] == EncRounds(f, start, done)
    {
      sum := Add(sum, DELTA);
      z := EncodePass(v, MixerOf(f, sum), z);
      rounds := rounds - 1;
      done := done + 1;
    }
  }

  method DecodeInPlace(v: array<Word>, f: Amount)
    modifies v
    ensures v[..] == Decode(f, old(v[..]))
  {
    var n := v.Length;
    if n <= 1 {
      return;
    }
    var rounds := 6 + 52 / n;
    ScheduleIsProduct(rounds);
    var sum: Word := (rounds * DELTA) % TWO32;
    var y := v[0];
    ghost var start, total := v[..], rounds;
    while rounds != 0
      invariant 0 <= rounds <= total
      invariant sum == Schedule(rounds)
      invariant y == v[0]
      invariant v[..] == DecRounds(f, start, total, rounds)
    {
      y := DecodePass(v, MixerOf(f, sum), y);
      SubAfterAdd(Schedule(rounds - 1), DELTA);
      sum := Sub(sum, DELTA);
      rounds := rounds - 1;
    }
  }

  /** The cipher under a key: in place, for every length. */
  method XEncode(v: array<Word>, key: Key)
    modifies v
    ensures v[..] == Encode(Keyed(key), old(v[..]))
  {
    EncodeInPlace(v, Keyed(key));
  }

  method XDecode(v: array<Word>, key: Key)
    modifies v
    ensures v[..] == Decode(Keyed(key), old(v[..]))
  {
    DecodeInPlace(v, Keyed(key));
  }

  lemma FirstIndex(p: nat, sum: Word)
    requires p == 0 && sum == 0x9e3779b9
    ensures sum == Schedule(1) && KeyIndex(p, sum) == 2
  {
    assert Schedule(0) == 0;
  }

  /** And so with the key: in the first round the first word takes the third word of the key. */
  lemma KeyedValue(key: Key, y: Word, z: Word, sum: Word, p: nat)
    requires y == 0x89abcdef && z == 0x01234567 && sum == 0x9e3779b9 && key[2] == 0x616e6764 && p == 0
    ensures Keyed(key)(sum, y, z, p) == 0x5e4e8b3d
  {
    FirstIndex(p, sum);
    MxValue(y, z, sum, key[2]);
  }
}

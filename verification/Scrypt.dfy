/** The memory-hard core of components/stratum/scrypt.c, with its in-place arrays, against
    scrypt as RFC 7914 defines it, for block size parameter r = 1.

    The mixing is written for any word type and any word arithmetic; the last part supplies
    the 32-bit one. */
module Scrypt {
  import opened IntMath
  import Bits

  /** Word arithmetic: addition, exclusive or, left rotation, and the part of a word below
      a power of two. */
  datatype Ops<!W> = Ops(add: (W, W) -> W, xor: (W, W) -> W, rot: (W, nat) -> W, low: (W, nat) -> nat)

  // ---------------------------------------------------------------- Salsa20/8 (section 3)

  datatype Quad<W> = Quad(a: W, b: W, c: W, d: W)

  function QuarterRound<W>(o: Ops<W>, y: Quad<W>): Quad<W> {
    var z1 := o.xor(y.b, o.rot(o.add(y.a, y.d), 7));
    var z2 := o.xor(y.c, o.rot(o.add(z1, y.a), 9));
    var z3 := o.xor(y.d, o.rot(o.add(z2, z1), 13));
    var z0 := o.xor(y.a, o.rot(o.add(z3, z2), 18));
    Quad(z0, z1, z2, z3)
  }

  /** Quarter rounds down the columns of the 4 by 4 square, each from its diagonal word. */
  function ColumnRound<W>(o: Ops<W>, x: seq<W>): (r: seq<W>)
    requires |x| == 16
    ensures |r| == 16
  {
    var p := QuarterRound(o, Quad(x[0], x[4], x[8], x[12]));
    var q := QuarterRound(o, Quad(x[5], x[9], x[13], x[1]));
    var s := QuarterRound(o, Quad(x[10], x[14], x[2], x[6]));
    var t := QuarterRound(o, Quad(x[15], x[3], x[7], x[11]));
    [p.a, q.d, s.c, t.b, p.b, q.a, s.d, t.c, p.c, q.b, s.a, t.d, p.d, q.c, s.b, t.a]
  }

  /** Quarter rounds along the rows, each from its diagonal word. */
  function RowRound<W>(o: Ops<W>, y: seq<W>): (r: seq<W>)
    requires |y| == 16
    ensures |r| == 16
  {
    var p := QuarterRound(o, Quad(y[0], y[1], y[2], y[3]));
    var q := QuarterRound(o, Quad(y[5], y[6], y[7], y[4]));
    var s := QuarterRound(o, Quad(y[10], y[11], y[8], y[9]));
    var t := QuarterRound(o, Quad(y[15], y[12], y[13], y[14]));
    [p.a, p.b, p.c, p.d, q.d, q.a, q.b, q.c, s.c, s.d, s.a, s.b, t.b, t.c, t.d, t.a]
  }

  /** The square mirrored in its diagonal. */
  function Transposed<W>(x: seq<W>): (r: seq<W>)
    requires |x| == 16
    ensures |r| == 16
  {
    [x[0], x[4], x[8], x[12], x[1], x[5], x[9], x[13], x[2], x[6], x[10], x[14], x[3], x[7], x[11], x[15]]
  }

  /** A column round is a row round of the mirrored square. */
  lemma ColumnsAreRows<W>(o: Ops<W>, x: seq<W>)
    requires |x| == 16
    ensures ColumnRound(o, x) == Transposed(RowRound(o, Transposed(x)))
  {}

  /** `n` double rounds. */
  function DoubleRounds<W>(o: Ops<W>, x: seq<W>, n: nat): (r: seq<W>)
    requires |x| == 16
    ensures |r| == 16
    decreases n, |x|
  {
    if n == 0 then x else RowRound(o, ColumnRound(o, DoubleRounds(o, x, n - 1)))
  }

  function Zip<W>(f: (W, W) -> W, a: seq<W>, b: seq<W>): (r: seq<W>)
    requires |a| == |b|
    ensures |r| == |a|
  {
    seq(|a|, i requires 0 <= i < |a| => f(a[i], b[i]))
  }

  /** Four double rounds, then the input added back. */
  function Salsa8<W>(o: Ops<W>, b: seq<W>): (r: seq<W>)
    requires |b| == 16
    ensures |r| == 16
  {
    Zip(o.add, b, DoubleRounds(o, b, 4))
  }

  // ---------------------------------------------------------------- scryptBlockMix (section 4)

  /** The chain X := Salsa(X xor B[i]) over the first `n` blocks, and its output blocks. */
  function Chain<W>(o: Ops<W>, x: seq<W>, blocks: seq<seq<W>>, n: nat): (r: seq<seq<W>>)
    requires |x| == 16 && n <= |blocks| && forall i :: 0 <= i < |blocks| ==> |blocks[i]| == 16
    ensures |r| == n && forall i :: 0 <= i < n ==> |r[i]| == 16
  {
    if n == 0 then []
    else
      var done := Chain(o, x, blocks, n - 1);
      var last := if n == 1 then x else done[n - 2];
      done + [Salsa8(o, Zip(o.xor, last, blocks[n - 1]))]
  }

  /** BlockMix over 2r blocks: the chain starts from the last block, and the outputs with
      even index come before those with odd index. */
  function BlockMix<W>(o: Ops<W>, blocks: seq<seq<W>>): (r: seq<seq<W>>)
    requires |blocks| > 0 && |blocks| % 2 == 0
    requires forall i :: 0 <= i < |blocks| ==> |blocks[i]| == 16
    ensures |r| == |blocks| && forall i :: 0 <= i < |r| ==> |r[i]| == 16
  {
    var y := Chain(o, blocks[|blocks| - 1], blocks, |blocks|);
    var h := |blocks| / 2;
    seq(|blocks|, i requires 0 <= i < |blocks| => if i < h then y[2 * i] else y[2 * (i - h) + 1])
  }

  /** BlockMix of a buffer of two blocks, the case r = 1. */
  function BlockMix1<W>(o: Ops<W>, x: seq<W>): (r: seq<W>)
    requires |x| == 32
    ensures |r| == 32
  {
    var m := BlockMix(o, [x[..16], x[16..]]);
    m[0] + m[1]
  }

  /** One block of the buffer replaced by Salsa20/8 of its exclusive or with another. */
  function SalsaAt<W>(o: Ops<W>, x: seq<W>, at: nat, other: nat): (r: seq<W>)
    requires at + 16 <= |x| && other + 16 <= |x|
    ensures |r| == |x|
  {
    x[..at] + Salsa8(o, Zip(o.xor, x[at..at + 16], x[other..other + 16])) + x[at + 16..]
  }

  /** The two calls of the source. */
  function TwoSalsas<W>(o: Ops<W>, x: seq<W>): (r: seq<W>)
    requires |x| == 32
    ensures |r| == 32
  {
    SalsaAt(o, SalsaAt(o, x, 0, 16), 16, 0)
  }

  /** The two calls make one BlockMix, provided exclusive or is commutative. */
  lemma TwoSalsasMix<W(!new)>(o: Ops<W>, x: seq<W>)
    requires |x| == 32 && forall a, b :: o.xor(a, b) == o.xor(b, a)
    ensures TwoSalsas(o, x) == BlockMix1(o, x)
  {
    var b0, b1 := x[..16], x[16..];
    assert x[0..16] == b0 && x[16..32] == b1 && x[..0] == [];
    assert Zip(o.xor, b0, b1) == Zip(o.xor, b1, b0);
    var y0 := Salsa8(o, Zip(o.xor, b1, b0));
    var y1 := Salsa8(o, Zip(o.xor, y0, b1));
    ChainOfTwo(o, b0, b1);
    var once := SalsaAt(o, x, 0, 16);
    assert once == y0 + b1;
    assert once[16..32] == b1 && once[0..16] == y0 && once[..16] == y0 && once[32..] == [];
    assert Zip(o.xor, b1, y0) == Zip(o.xor, y0, b1);
  }

  lemma ChainOfTwo<W>(o: Ops<W>, b0: seq<W>, b1: seq<W>)
    requires |b0| == |b1| == 16
    ensures var y0 := Salsa8(o, Zip(o.xor, b1, b0));
      BlockMix(o, [b0, b1]) == [y0, Salsa8(o, Zip(o.xor, y0, b1))]
  {
    var b := [b0, b1];
    assert Chain(o, b1, b, 0) == [];
    assert Chain(o, b1, b, 1) == [Salsa8(o, Zip(o.xor, b1, b0))];
  }

  // ---------------------------------------------------------------- scryptROMix (section 5)

  /** How a buffer is mixed, and which table entry it selects. */
  datatype Kernel<!W> = Kernel(mix: seq<W> -> seq<W>, xor: (W, W) -> W, index: seq<W> -> nat)

  /** The buffer after `i` mixes: entry `i` of the table. */
  function Fill<W>(k: Kernel<W>, b: seq<W>, i: nat): seq<W> {
    if i == 0 then b else k.mix(Fill(k, b, i - 1))
  }

  /** The buffer combined with the table entry it selects. */
  function Looked<W>(k: Kernel<W>, b: seq<W>, x: seq<W>): seq<W> {
    var e := Fill(k, b, k.index(x));
    if |e| == |x| then Zip(k.xor, x, e) else x
  }

  /** The buffer after the first loop and `m` rounds of the second. */
  function Lookups<W>(k: Kernel<W>, b: seq<W>, n: nat, m: nat): seq<W> {
    if m == 0 then Fill(k, b, n) else k.mix(Looked(k, b, Lookups(k, b, n, m - 1)))
  }

  function ROMix<W>(k: Kernel<W>, b: seq<W>, n: nat): seq<W> {
    Lookups(k, b, n, n)
  }

  /** Only what the kernel does to 32-word buffers matters. */
  ghost predicate SameKernel<W(!new)>(k: Kernel<W>, l: Kernel<W>) {
    && k.xor == l.xor
    && forall x :: |x| == 32 ==> k.mix(x) == l.mix(x) && |k.mix(x)| == 32 && k.index(x) == l.index(x)
  }

  lemma {:induction false} SameFill<W(!new)>(k: Kernel<W>, l: Kernel<W>, b: seq<W>, i: nat)
    requires SameKernel(k, l) && |b| == 32
    ensures Fill(k, b, i) == Fill(l, b, i) && |Fill(k, b, i)| == 32
  {
    if i > 0 { SameFill(k, l, b, i - 1); }
  }

  lemma {:induction false} SameLookups<W(!new)>(k: Kernel<W>, l: Kernel<W>, b: seq<W>, n: nat, m: nat)
    requires SameKernel(k, l) && |b| == 32
    ensures Lookups(k, b, n, m) == Lookups(l, b, n, m) && |Lookups(k, b, n, m)| == 32
  {
    if m == 0 {
      SameFill(k, l, b, n);
    } else {
      SameLookups(k, l, b, n, m - 1);
      SameFill(k, l, b, k.index(Lookups(k, b, n, m - 1)));
    }
  }

  lemma SameROMix<W(!new)>(k: Kernel<W>, l: Kernel<W>, b: seq<W>, n: nat)
    requires SameKernel(k, l) && |b| == 32
    ensures ROMix(k, b, n) == ROMix(l, b, n)
  {
    SameLookups(k, l, b, n, n);
  }

  // ---------------------------------------------------------------- in place

  /** B[k] ^= Bx[k] for the sixteen words of two blocks of one buffer. */
  method XorInto<W>(o: Ops<W>, x: array<W>, at: nat, other: nat)
    requires x.Length == 32 && at + 16 <= 32 && other + 16 <= 32
    requires at + 16 <= other || other + 16 <= at
    modifies x
    ensures x[at..at + 16] == Zip(o.xor, old(x[at..at + 16]), old(x[other..other + 16]))
    ensures forall i :: 0 <= i < 32 && !(at <= i < at + 16) ==> x[i] == old(x[i])
  {
    ghost var b := Zip(o.xor, x[at..at + 16], x[other..other + 16]);
    for k := 0 to 16
      invariant forall i :: at <= i < at + k ==> x[i] == b[i - at]
      invariant forall i :: 0 <= i < 32 && !(at <= i < at + k) ==> x[i] == old(x[i])
    {
      x[at + k] := o.xor(x[at + k], x[other + k]);
    }
    assert x[at..at + 16] == b;
  }

  /** B[k] += sum[k] for the sixteen words of a block. */
  method AddInto<W>(o: Ops<W>, x: array<W>, at: nat, sum: seq<W>)
    requires x.Length == 32 && at + 16 <= 32 && |sum| == 16
    modifies x
    ensures x[at..at + 16] == Zip(o.add, old(x[at..at + 16]), sum)
    ensures forall i :: 0 <= i < 32 && !(at <= i < at + 16) ==> x[i] == old(x[i])
  {
    ghost var b := Zip(o.add, x[at..at + 16], sum);
    for k := 0 to 16
      invariant forall i :: at <= i < at + k ==> x[i] == b[i - at]
      invariant forall i :: 0 <= i < 32 && !(at <= i < at + k) ==> x[i] == old(x[i])
    {
      x[at + k] := o.add(x[at + k], sum[k]);
    }
    assert x[at..at + 16] == b;
  }

  /** The sixteen locals of the source through eight rounds. */
  method EightRounds<W>(o: Ops<W>, b: seq<W>) returns (r: seq<W>)
    requires |b| == 16
    ensures r == DoubleRounds(o, b, 4)
  {
    var x00, x01, x02, x03 := b[0], b[1], b[2], b[3];
    var x04, x05, x06, x07 := b[4], b[5], b[6], b[7];
    var x08, x09, x10, x11 := b[8], b[9], b[10], b[11];
    var x12, x13, x14, x15 := b[12], b[13], b[14], b[15];
    assert [x00, x01, x02, x03, x04, x05, x06, x07, x08, x09, x10, x11, x12, x13, x14, x15] == b;
    var i := 0;
    ghost var n := 0;
    while i < 8
      invariant i == 2 * n && n <= 4
      invariant [x00, x01, x02, x03, x04, x05, x06, x07, x08, x09, x10, x11, x12, x13, x14, x15]
             == DoubleRounds(o, b, n)
    {
      // Operate on columns.
      x04 := o.xor(x04, o.rot(o.add(x00, x12), 7));  x09 := o.xor(x09, o.rot(o.add(x05, x01), 7));
      x14 := o.xor(x14, o.rot(o.add(x10, x06), 7));  x03 := o.xor(x03, o.rot(o.add(x15, x11), 7));

      x08 := o.xor(x08, o.rot(o.add(x04, x00), 9));  x13 := o.xor(x13, o.rot(o.add(x09, x05), 9));
      x02 := o.xor(x02, o.rot(o.add(x14, x10), 9));  x07 := o.xor(x07, o.rot(o.add(x03, x15), 9));

      x12 := o.xor(x12, o.rot(o.add(x08, x04), 13)); x01 := o.xor(x01, o.rot(o.add(x13, x09), 13));
      x06 := o.xor(x06, o.rot(o.add(x02, x14), 13)); x11 := o.xor(x11, o.rot(o.add(x07, x03), 13));

      x00 := o.xor(x00, o.rot(o.add(x12, x08), 18)); x05 := o.xor(x05, o.rot(o.add(x01, x13), 18));
      x10 := o.xor(x10, o.rot(o.add(x06, x02), 18)); x15 := o.xor(x15, o.rot(o.add(x11, x07), 18));
      ghost var columns := [x00, x01, x02, x03, x04, x05, x06, x07, x08, x09, x10, x11, x12, x13, x14, x15];
      assert columns == ColumnRound(o, DoubleRounds(o, b, n));

      // Operate on rows.
      x01 := o.xor(x01, o.rot(o.add(x00, x03), 7));  x06 := o.xor(x06, o.rot(o.add(x05, x04), 7));
      x11 := o.xor(x11, o.rot(o.add(x10, x09), 7));  x12 := o.xor(x12, o.rot(o.add(x15, x14), 7));

      x02 := o.xor(x02, o.rot(o.add(x01, x00), 9));  x07 := o.xor(x07, o.rot(o.add(x06, x05), 9));
      x08 := o.xor(x08, o.rot(o.add(x11, x10), 9));  x13 := o.xor(x13, o.rot(o.add(x12, x15), 9));

      x03 := o.xor(x03, o.rot(o.add(x02, x01), 13)); x04 := o.xor(x04, o.rot(o.add(x07, x06), 13));
      x09 := o.xor(x09, o.rot(o.add(x08, x11), 13)); x14 := o.xor(x14, o.rot(o.add(x13, x12), 13));

      x00 := o.xor(x00, o.rot(o.add(x03, x02), 18)); x05 := o.xor(x05, o.rot(o.add(x04, x07), 18));
      x10 := o.xor(x10, o.rot(o.add(x09, x08), 18)); x15 := o.xor(x15, o.rot(o.add(x14, x13), 18));
      assert [x00, x01, x02, x03, x04, x05, x06, x07, x08, x09, x10, x11, x12, x13, x14, x15]
          == RowRound(o, columns);
      i := i + 2;
      n := n + 1;
    }
    return [x00, x01, x02, x03, x04, x05, x06, x07, x08, x09, x10, x11, x12, x13, x14, x15];
  }

  /** Salsa20/8 of the exclusive or of two blocks of `x`, written over the one at `at`. */
  method XorSalsa8<W>(o: Ops<W>, x: array<W>, at: nat, other: nat)
    requires x.Length == 32 && at + 16 <= 32 && other + 16 <= 32
    requires at + 16 <= other || other + 16 <= at
    modifies x
    ensures x[..] == SalsaAt(o, old(x[..]), at, other)
  {
    ghost var b := x[..];
    assert x[at..at + 16] == b[at..at + 16] && x[other..other + 16] == b[other..other + 16];
    XorInto(o, x, at, other);
    var sum := EightRounds(o, x[at..at + 16]);
    AddInto(o, x, at, sum);
    assert x[..] == x[..at] + x[at..at + 16] + x[at + 16..];
    assert x[..at] == b[..at] && x[at + 16..] == b[at + 16..];
  }

  /** The table entries filled so far. */
  ghost predicate Filled<W>(k: Kernel<W>, v: seq<W>, b: seq<W>, n: nat)
    requires 32 * n <= |v|
  {
    forall i :: 0 <= i < n ==> Entry(v, i) == Fill(k, b, i)
  }

  function Entry<W>(v: seq<W>, i: nat): (e: seq<W>)
    requires 32 * i + 32 <= |v|
    ensures |e| == 32
  {
    v[32 * i..32 * i + 32]
  }

  /** memcpy of the buffer to entry `i`. */
  method CopyOut<W>(v: array<W>, i: nat, x: array<W>)
    requires x.Length == 32 && 32 * i + 32 <= v.Length && x != v
    modifies v
    ensures Entry(v[..], i) == x[..]
    ensures forall j :: 0 <= j < i ==> Entry(v[..], j) == old(Entry(v[..], j))
  {
    ghost var before := v[..];
    forall m | 0 <= m < 32 { v[32 * i + m] := x[m]; }
    forall j | 0 <= j < i ensures Entry(v[..], j) == Entry(before, j) {
      assert forall m :: 32 * j <= m < 32 * j + 32 ==> v[m] == before[m];
    }
  }

  method XorFrom<W>(o: Ops<W>, x: array<W>, v: array<W>, i: nat)
    requires x.Length == 32 && 32 * i + 32 <= v.Length && x != v
    modifies x
    ensures x[..] == Zip(o.xor, old(x[..]), Entry(v[..], i))
  {
    ghost var r := Zip(o.xor, x[..], Entry(v[..], i));
    for m := 0 to 32
      invariant forall j :: 0 <= j < m ==> x[j] == r[j]
      invariant forall j :: m <= j < 32 ==> x[j] == old(x[j])
    {
      x[m] := o.xor(x[m], v[32 * i + m]);
    }
    assert x[..] == r;
  }

  /** The kernel the source applies to its buffer. */
  function SourceKernel<W>(o: Ops<W>, n: nat): Kernel<W> {
    Kernel(x => if |x| == 32 then TwoSalsas(o, x) else x, o.xor,
           x => if |x| == 32 then o.low(x[16], n) else 0)
  }

  /** One round of the first loop: record the buffer, then mix it. */
  method FillStep<W(!new)>(o: Ops<W>, x: array<W>, v: array<W>, i: nat, ghost k: Kernel<W>, ghost b: seq<W>)
    requires x.Length == 32 && 32 * i + 32 <= v.Length && x != v
    requires x[..] == Fill(k, b, i) && Filled(k, v[..], b, i)
    modifies x, v
    ensures x[..] == TwoSalsas(o, old(x[..])) && Filled(k, v[..], b, i + 1)
  {
    CopyOut(v, i, x);
    ghost var table := v[..];
    assert Filled(k, table, b, i + 1);
    XorSalsa8(o, x, 0, 16);
    XorSalsa8(o, x, 16, 0);
    assert v[..] == table;
  }

  /** One round of the second loop: combine with the selected entry, then mix. */
  method LookupStep<W(!new)>(o: Ops<W>, x: array<W>, v: array<W>, n: nat)
    requires x.Length == 32 && 32 * n <= v.Length && x != v
    requires o.low(x[16], n) < n
    modifies x
    ensures x[..] == TwoSalsas(o, Zip(o.xor, old(x[..]), Entry(v[..], o.low(old(x[16]), n))))
  {
    var j := o.low(x[16], n);
    XorFrom(o, x, v, j);
    XorSalsa8(o, x, 0, 16);
    XorSalsa8(o, x, 16, 0);
  }

  /** The first loop. */
  method FillTable<W(!new)>(o: Ops<W>, x: array<W>, v: array<W>, n: nat)
    requires x.Length == 32 && 32 * n <= v.Length && x != v
    modifies x, v
    ensures x[..] == Fill(SourceKernel(o, n), old(x[..]), n)
    ensures Filled(SourceKernel(o, n), v[..], old(x[..]), n)
  {
    ghost var b, k := x[..], SourceKernel(o, n);
    for i := 0 to n
      invariant x[..] == Fill(k, b, i)
      invariant Filled(k, v[..], b, i)
    {
      MixMeans(o, n, x[..]);
      FillStep(o, x, v, i, k, b);
    }
  }

  /** The core: `x` becomes the ROMix of what it held, with `v` as scratch space. */
  method ScryptCore<W(!new)>(o: Ops<W>, x: array<W>, v: array<W>, n: nat)
    requires x.Length == 32 && 32 * n <= v.Length && x != v
    requires forall w :: o.low(w, n) < n
    modifies x, v
    ensures x[..] == ROMix(SourceKernel(o, n), old(x[..]), n)
  {
    ghost var b, k := x[..], SourceKernel(o, n);
    FillTable(o, x, v, n);
    ghost var table := v[..];
    for i := 0 to n
      invariant x[..] == Lookups(k, b, n, i)
      invariant v[..] == table
    {
      LookupMeans(o, n, x[..], table, b);
      LookupStep(o, x, v, n);
    }
  }

  lemma MixMeans<W>(o: Ops<W>, n: nat, x: seq<W>)
    requires |x| == 32
    ensures SourceKernel(o, n).mix(x) == TwoSalsas(o, x)
  {}

  lemma LookupMeans<W>(o: Ops<W>, n: nat, x: seq<W>, table: seq<W>, b: seq<W>)
    requires |x| == 32 && 32 * n <= |table| && o.low(x[16], n) < n
    requires Filled(SourceKernel(o, n), table, b, n)
    ensures var k := SourceKernel(o, n);
      k.mix(Looked(k, b, x)) == TwoSalsas(o, Zip(o.xor, x, Entry(table, o.low(x[16], n))))
  {
    assert SourceKernel(o, n).index(x) == o.low(x[16], n);
  }

  // ---------------------------------------------------------------- 32-bit words

  type Word = Bits.Word

  /** The word arithmetic of the source. */
  function Ops32(): Ops<Word> {
    var add: (Word, Word) -> Word := Bits.Add;
    var xor: (Word, Word) -> Word := Bits.XorWord;
    var rot: (Word, nat) -> Word := Rotate;
    var low: (Word, nat) -> nat := Low;
    Ops(add, xor, rot, low)
  }

  function Rotate(x: Word, k: nat): Word {
    if k <= 32 then Bits.Rot(x, k) else x
  }

  /** x & (n - 1). */
  function Low(x: Word, n: nat): nat {
    if n > 0 then Bits.And(x, n - 1) else 0
  }

  // The rotations, and what a quarter round makes of a single one.

  lemma RotateIs(x: Word, k: nat)
    requires 0 < k < 32
    ensures Ops32().rot(x, k) == x * TwoTo(k) % Bits.TWO32 + x / TwoTo(32 - k)
  {
    Bits.RotIs(x, k);
  }

  lemma SalsaPowers()
    ensures TwoTo(7) == 0x80 && TwoTo(9) == 0x200 && TwoTo(13) == 0x2000 && TwoTo(18) == 0x4_0000
    ensures TwoTo(25) == 0x200_0000 && TwoTo(23) == 0x80_0000 && TwoTo(19) == 0x8_0000 && TwoTo(14) == 0x4000
  {
    TwoToSum(7, 2);
    TwoToSum(9, 4);
    TwoToSum(9, 9);
    TwoToSum(13, 1);
    TwoToSum(18, 1);
    TwoToSum(14, 9);
    TwoToSum(18, 7);
  }

  lemma XorWithOne(y: Word)
    requires y % 2 == 0
    ensures Bits.XorWord(1, y) == y + 1
  {
    Bits.XorSplit(1, y);
    assert Bits.Xor(0, y / 2) == y / 2;
  }

  lemma Mix7(w: Word, x: Word, r: Word, z: Word)
    requires Turned(x, 0x80, 0x200_0000, r) && Mixed(w, r, z)
    ensures Ops32().xor(w, Ops32().rot(x, 7)) == z
  {
    SalsaPowers();
    RotateIs(x, 7);
    MixedIs(w, r, z);
  }

  lemma Mix9(w: Word, x: Word, r: Word, z: Word)
    requires Turned(x, 0x200, 0x80_0000, r) && Mixed(w, r, z)
    ensures Ops32().xor(w, Ops32().rot(x, 9)) == z
  {
    SalsaPowers();
    RotateIs(x, 9);
    MixedIs(w, r, z);
  }

  lemma Mix13(w: Word, x: Word, r: Word, z: Word)
    requires Turned(x, 0x2000, 0x8_0000, r) && Mixed(w, r, z)
    ensures Ops32().xor(w, Ops32().rot(x, 13)) == z
  {
    SalsaPowers();
    RotateIs(x, 13);
    MixedIs(w, r, z);
  }

  lemma Mix18(w: Word, x: Word, r: Word, z: Word)
    requires Turned(x, 0x4_0000, 0x4000, r) && Mixed(w, r, z)
    ensures Ops32().xor(w, Ops32().rot(x, 18)) == z
  {
    SalsaPowers();
    RotateIs(x, 18);
    MixedIs(w, r, z);
  }

  /** `x` turned to the left, `up` and `rest` being the powers of two that go with it. */
  predicate Turned(x: int, up: nat, rest: nat, r: int) {
    rest > 0 && r == x * up % Bits.TWO32 + x / rest
  }

  /** `x` exclusive or `t`, in the cases that need no arithmetic: one of them is zero, or `x` is one
      and `t` even. */
  predicate Mixed(x: int, t: int, z: int) {
    (t == 0 && z == x) || (x == 0 && z == t) || (x == 1 && t % 2 == 0 && z == t + 1)
  }

  lemma MixedIs(x: Word, t: Word, z: Word)
    requires Mixed(x, t, z)
    ensures Bits.XorWord(x, t) == z
  {
    if t == 0 {
      Bits.XorZero(x);
    } else if x == 1 {
      XorWithOne(t);
    }
  }

  /** A quarter round worked out: `t` holds what the four rotations, by 7, 9, 13 and 18, give. */
  predicate WorkedOut(y: Quad<Word>, t: Quad<Word>, z: Quad<Word>) {
    && Turned((y.a + y.d) % Bits.TWO32, 0x80, 0x200_0000, t.b) && Mixed(y.b, t.b, z.b)
    && Turned((z.b + y.a) % Bits.TWO32, 0x200, 0x80_0000, t.c) && Mixed(y.c, t.c, z.c)
    && Turned((z.c + z.b) % Bits.TWO32, 0x2000, 0x8_0000, t.d) && Mixed(y.d, t.d, z.d)
    && Turned((z.d + z.c) % Bits.TWO32, 0x4_0000, 0x4000, t.a) && Mixed(y.a, t.a, z.a)
  }

  lemma QuarterRoundSteps(y: Quad<Word>, t: Quad<Word>, z: Quad<Word>)
    requires WorkedOut(y, t, z)
    ensures QuarterRound(Ops32(), y) == z
  {
    Mix7(y.b, Bits.Add(y.a, y.d), t.b, z.b);
    Mix9(y.c, Bits.Add(z.b, y.a), t.c, z.c);
    Mix13(y.d, Bits.Add(z.c, z.b), t.d, z.d);
    Mix18(y.a, Bits.Add(z.d, z.c), t.a, z.a);
  }

  lemma FirstPlace(y: Quad<Word>, t: Quad<Word>, z: Quad<Word>)
    requires y == Quad(1, 0, 0, 0) && t == Quad(0x08008144, 0x80, 0x10200, 0x20500000)
    requires z == Quad(0x08008145, 0x80, 0x10200, 0x20500000)
    ensures WorkedOut(y, t, z)
  {}

  lemma SecondPlace(y: Quad<Word>, t: Quad<Word>, z: Quad<Word>)
    requires y == Quad(0, 1, 0, 0) && t == Quad(0x88000100, 0, 0x200, 0x402000)
    requires z == Quad(0x88000100, 1, 0x200, 0x402000)
    ensures WorkedOut(y, t, z)
  {}

  lemma ThirdPlace(y: Quad<Word>, t: Quad<Word>, z: Quad<Word>)
    requires y == Quad(0, 0, 1, 0) && t == Quad(0x80040000, 0, 0, 0x2000)
    requires z == Quad(0x80040000, 0, 1, 0x2000)
    ensures WorkedOut(y, t, z)
  {}

  lemma FourthPlace(y: Quad<Word>, t: Quad<Word>, z: Quad<Word>)
    requires y == Quad(0, 0, 0, 1) && t == Quad(0x48044, 0x80, 0x10000, 0x20100000)
    requires z == Quad(0x48044, 0x80, 0x10000, 0x20100001)
    ensures WorkedOut(y, t, z)
  {}

  /** The values published with Salsa20 for a lone one in each place. */
  lemma QuarterRoundValues()
    ensures QuarterRound(Ops32(), Quad(1, 0, 0, 0)) == Quad(0x08008145, 0x80, 0x10200, 0x20500000)
    ensures QuarterRound(Ops32(), Quad(0, 1, 0, 0)) == Quad(0x88000100, 1, 0x200, 0x402000)
    ensures QuarterRound(Ops32(), Quad(0, 0, 1, 0)) == Quad(0x80040000, 0, 1, 0x2000)
    ensures QuarterRound(Ops32(), Quad(0, 0, 0, 1)) == Quad(0x48044, 0x80, 0x10000, 0x20100001)
  {
    var (y1, t1, z1) := (Quad(1, 0, 0, 0), Quad(0x08008144, 0x80, 0x10200, 0x20500000),
                         Quad(0x08008145, 0x80, 0x10200, 0x20500000));
    FirstPlace(y1, t1, z1);
    QuarterRoundSteps(y1, t1, z1);
    var (y2, t2, z2) := (Quad(0, 1, 0, 0), Quad(0x88000100, 0, 0x200, 0x402000),
                         Quad(0x88000100, 1, 0x200, 0x402000));
    SecondPlace(y2, t2, z2);
    QuarterRoundSteps(y2, t2, z2);
    var (y3, t3, z3) := (Quad(0, 0, 1, 0), Quad(0x80040000, 0, 0, 0x2000),
                         Quad(0x80040000, 0, 1, 0x2000));
    ThirdPlace(y3, t3, z3);
    QuarterRoundSteps(y3, t3, z3);
    var (y4, t4, z4) := (Quad(0, 0, 0, 1), Quad(0x48044, 0x80, 0x10000, 0x20100000),
                         Quad(0x48044, 0x80, 0x10000, 0x20100001));
    FourthPlace(y4, t4, z4);
    QuarterRoundSteps(y4, t4, z4);
  }

  lemma LowBelow(n: nat)
    requires Bits.PowerOfTwo(n)
    ensures forall w: Word :: Ops32().low(w, n) < n
  {
    forall w: Word ensures Ops32().low(w, n) < n {
      Bits.AndMask(w, n);
    }
  }

  /** The last block of the buffer read as a little-endian number. */
  function Integerify(x: seq<Word>): nat {
    if |x| == 0 then 0 else x[0] + Bits.TWO32 * Integerify(x[1..])
  }

  /** The kernel as RFC 7914 defines it for r = 1: BlockMix, and Integerify modulo N. */
  function RfcKernel(n: nat): Kernel<Word>
    requires n > 0
  {
    Kernel(x => if |x| == 32 then BlockMix1(Ops32(), x) else x, Ops32().xor,
           x => if |x| == 32 then Integerify(x[16..]) % n else 0)
  }

  /** Masking one word selects the entry that the whole block selects: N divides 2^32. */
  lemma LowWordSelects(x: seq<Word>, n: nat)
    requires |x| > 0 && Bits.PowerOfTwo(n) && n <= Bits.TWO32
    ensures Low(x[0], n) == Integerify(x) % n
  {
    Bits.AndMask(x[0], n);
    Bits.Word32();
    var m := DividesPowers(n, Bits.TWO32);
    HigherWordsVanish(x[0], Integerify(x[1..]), m, n, Bits.TWO32);
  }

  lemma HigherWordsVanish(low: nat, rest: nat, m: nat, n: nat, base: nat)
    requires n > 0 && base == m * n
    ensures (low + base * rest) % n == low % n
  {
    assert (m * n) * rest == (m * rest) * n;
    RemainderShift(low, m * rest, n);
  }

  /** A power of two divides every larger one. */
  lemma DividesPowers(n: nat, big: nat) returns (m: nat)
    requires Bits.PowerOfTwo(n) && Bits.PowerOfTwo(big) && n <= big
    ensures big == m * n
    decreases big
  {
    if n == big {
      m := 1;
    } else {
      OddPower(n, big);
      var h := DividesPowers(n, big / 2);
      m := 2 * h;
      assert m * n == 2 * (h * n);
    }
  }

  lemma {:induction false} OddPower(n: nat, big: nat)
    requires Bits.PowerOfTwo(n) && Bits.PowerOfTwo(big) && n < big
    ensures n <= big / 2
    decreases n
  {
    if n > 1 { OddPower(n / 2, big / 2); }
  }

  lemma KernelsAt(n: nat, x: seq<Word>)
    requires Bits.PowerOfTwo(n) && n <= Bits.TWO32 && |x| == 32
    requires forall a, b :: Ops32().xor(a, b) == Ops32().xor(b, a)
    ensures SourceKernel(Ops32(), n).mix(x) == RfcKernel(n).mix(x)
    ensures |RfcKernel(n).mix(x)| == 32
    ensures SourceKernel(Ops32(), n).index(x) == RfcKernel(n).index(x)
  {
    TwoSalsasMix(Ops32(), x);
    LowWordSelects(x[16..], n);
    assert x[16..][0] == x[16];
  }

  lemma XorIsCommutative()
    ensures forall a, b :: Ops32().xor(a, b) == Ops32().xor(b, a)
  {
    forall a: Word, b: Word ensures Ops32().xor(a, b) == Ops32().xor(b, a) {
      Bits.XorCommutes(a, b);
    }
  }

  lemma KernelsSame(n: nat) returns (k: Kernel<Word>, l: Kernel<Word>)
    requires Bits.PowerOfTwo(n) && n <= Bits.TWO32
    ensures k == SourceKernel(Ops32(), n) && l == RfcKernel(n)
    ensures SameKernel(k, l)
  {
    k, l := SourceKernel(Ops32(), n), RfcKernel(n);
    XorIsCommutative();
    forall x: seq<Word> | |x| == 32
      ensures SourceKernel(Ops32(), n).mix(x) == RfcKernel(n).mix(x)
      ensures |SourceKernel(Ops32(), n).mix(x)| == 32
      ensures SourceKernel(Ops32(), n).index(x) == RfcKernel(n).index(x)
    {
      KernelsAt(n, x);
    }
  }

  /** With 32-bit words and a power of two N, what the source applies is the RFC's. */
  lemma SourceIsRfc(n: nat, b: seq<Word>)
    requires Bits.PowerOfTwo(n) && n <= Bits.TWO32 && |b| == 32
    ensures ROMix(SourceKernel(Ops32(), n), b, n) == ROMix(RfcKernel(n), b, n)
  {
    var k, l := KernelsSame(n);
    SameROMix(k, l, b, n);
  }

  /** For every input block and every power of two N, the core leaves scryptROMix of the
      buffer in the buffer. */
  method ScryptCore32(x: array<Word>, v: array<Word>, n: nat)
    requires x.Length == 32 && 32 * n <= v.Length && x != v
    requires Bits.PowerOfTwo(n) && n <= Bits.TWO32
    modifies x, v
    ensures x[..] == ROMix(RfcKernel(n), old(x[..]), n)
  {
    LowBelow(n);
    SourceIsRfc(n, x[..]);
    ScryptCore(Ops32(), x, v, n);
  }
}

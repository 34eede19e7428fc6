/** The five-bit checksum of components/asic/crc.c, in its byte-serial and bit-serial
    forms, and the frame check of components/asic/common.c that rests on it.

    The generator is x^5 + x^2 + 1 with the register preset to ones, as in section
    8.3.5.1 of the USB 2.0 specification but without the final inversion. */
module Crc5 {
  import opened IntMath

  // ---------------------------------------------------------------- bits and the register

  /** Bit `k` of a byte, the most significant first. */
  function Mask(k: nat): bv8
    requires k < 8
  {
    if k == 0 then 0x80 else if k == 1 then 0x40 else if k == 2 then 0x20 else if k == 3 then 0x10
    else if k == 4 then 0x08 else if k == 5 then 0x04 else if k == 6 then 0x02 else 0x01
  }

  predicate BitAt(data: seq<bv8>, i: nat)
    requires i < 8 * |data|
  {
    data[i / 8] & Mask(i % 8) != 0
  }

  function Bits(data: seq<bv8>): (r: seq<bool>)
    ensures |r| == 8 * |data|
  {
    seq(8 * |data|, i requires 0 <= i < 8 * |data| => BitAt(data, i))
  }

  /** The five cells of the shift register, the one that leaves next first. */
  datatype Reg = Reg(b4: bool, b3: bool, b2: bool, b1: bool, b0: bool)

  const ZERO := Reg(false, false, false, false, false)
  const PRESET := Reg(true, true, true, true, true)

  /** The register as the low bits of a byte. */
  function AsByte(s: Reg): bv8 {
    (if s.b4 then 0x10 else 0) | (if s.b3 then 0x08 else 0) | (if s.b2 then 0x04 else 0)
    | (if s.b1 then 0x02 else 0) | (if s.b0 then 0x01 else 0)
  }

  /** The register after one more bit. */
  function Step(s: Reg, din: bool): Reg {
    Shift(s, s.b4 != din)
  }

  /** Shifts, with the feedback where the generator has its terms. */
  function Shift(s: Reg, lead: bool): Reg {
    Reg(s.b3, s.b2, s.b1 != lead, s.b0, lead)
  }

  /** The register after the first `n` bits. */
  function Feed(s: Reg, bits: seq<bool>, n: nat): Reg
    requires n <= |bits|
    decreases n, |bits|
  {
    if n == 0 then s else Step(Feed(s, bits, n - 1), bits[n - 1])
  }

  function Checksum(bits: seq<bool>): Reg {
    Feed(PRESET, bits, |bits|)
  }

  /** The register as five bits, the most significant first. */
  function Five(s: Reg): (r: seq<bool>)
    ensures |r| == 5
  {
    [s.b4, s.b3, s.b2, s.b1, s.b0]
  }

  // ---------------------------------------------------------------- the two implementations

  /** The bits of one byte, the most significant first. */
  function ByteBits(b: bv8): (r: seq<bool>)
    ensures |r| == 8
  {
    [b & 0x80 != 0, b & 0x40 != 0, b & 0x20 != 0, b & 0x10 != 0,
     b & 0x08 != 0, b & 0x04 != 0, b & 0x02 != 0, b & 0x01 != 0]
  }

  function Shifted(b: bv8, k: nat): bv8 {
    if k == 0 then b else Shifted(b, k - 1) << 1
  }

  /** What the byte-serial loop sees at the top of the byte it shifts. */
  lemma TopBit(b: bv8, k: nat)
    requires k < 8
    ensures ((Shifted(b, k) >> 7) & 1) == if ByteBits(b)[k] then 1 else 0
  {
    ShiftedIs(b, k);
  }

  lemma ShiftedIs(b: bv8, k: nat)
    requires k < 8
    ensures Shifted(b, k) == if k == 0 then b else if k == 1 then b << 1 else if k == 2 then b << 2
      else if k == 3 then b << 3 else if k == 4 then b << 4 else if k == 5 then b << 5
      else if k == 6 then b << 6 else b << 7
  {
    if k > 0 { ShiftedIs(b, k - 1); }
  }

  lemma {:induction false} BitsOfByte(data: seq<bv8>, i: nat, n: nat)
    requires i < |data| && n <= 8
    ensures Feed(PRESET, Bits(data), 8 * i + n) == Feed(Feed(PRESET, Bits(data), 8 * i), ByteBits(data[i]), n)
  {
    forall k | 0 <= k < n ensures Bits(data)[8 * i + k] == ByteBits(data[i])[k] {
      BitInByte(data, i, k);
    }
    FeedOn(PRESET, Bits(data), 8 * i, ByteBits(data[i]), n);
  }

  lemma BitInByte(data: seq<bv8>, i: nat, k: nat)
    requires i < |data| && k < 8
    ensures Bits(data)[8 * i + k] == (data[i] & Mask(k) != 0) == ByteBits(data[i])[k]
  {
    assert (8 * i + k) / 8 == i && (8 * i + k) % 8 == k;
    assert Bits(data)[8 * i + k] == BitAt(data, 8 * i + k);
  }

  lemma MaskNext(m: nat)
    requires m < 8
    ensures Mask(m) >> 1 == if m == 7 then 0 else Mask(m + 1)
  {}

  /** One round of the byte-serial loop on the low five bits of `crc`. */
  lemma ByteSerialStep(crc: bv8, s: Reg, bit: bv8, din: bool)
    requires crc == AsByte(s) && bit == (if din then 1 else 0)
    ensures var newBit := ((crc >> 4) ^ bit) & 1;
      (((crc << 1) | newBit) ^ (newBit << 2)) & 0x1F == AsByte(Step(s, din))
  {}

  /** The inner loop: one byte, its top bit first. */
  method FeedByte(crcIn: bv8, byteIn: bv8, ghost before: Reg) returns (crc: bv8)
    requires crcIn == AsByte(before)
    ensures crc == AsByte(Feed(before, ByteBits(byteIn), 8))
  {
    ghost var s := before;
    var byte := byteIn;
    crc := crcIn;
    for bitCounter := 0 to 8
      invariant s == Feed(before, ByteBits(byteIn), bitCounter)
      invariant crc == AsByte(s)
      invariant byte == Shifted(byteIn, bitCounter)
    {
      var bit := (byte >> 7) & 1;
      byte := byte << 1;
      var newBit := ((crc >> 4) ^ bit) & 1;
      TopBit(byteIn, bitCounter);
      ByteSerialStep(crc, s, bit, ByteBits(byteIn)[bitCounter]);
      crc := ((crc << 1) | newBit) ^ (newBit << 2);
      crc := crc & 0x1F;
      s := Step(s, ByteBits(byteIn)[bitCounter]);
    }
  }

  /** The byte-serial checksum of `len` bytes from `start` on. */
  method Crc5(data: array<bv8>, start: nat, len: nat) returns (crc: bv8)
    requires start + len <= data.Length && len < 256
    ensures crc == AsByte(Checksum(Bits(data[start..start + len])))
  {
    ghost var message := data[start..start + len];
    ghost var bits, s := Bits(message), PRESET;
    crc := 0x1F;
    for byteCounter := 0 to len
      invariant s == Feed(PRESET, bits, 8 * byteCounter)
      invariant crc == AsByte(s)
    {
      BitsOfByte(message, byteCounter, 8);
      assert message[byteCounter] == data[start + byteCounter];
      crc := FeedByte(crc, data[start + byteCounter], s);
      s := Feed(s, ByteBits(message[byteCounter]), 8);
    }
  }

  function Cell(b: bool): bv8 { if b then 1 else 0 }

  lemma CellXor(a: bool, b: bool)
    ensures Cell(a) ^ Cell(b) == Cell(a != b)
  {}

  /** The five cells in the array hold the register `s`. */
  ghost predicate Holds(reg: array<bv8>, s: Reg)
    reads reg
  {
    && reg.Length == 5
    && reg[0] == Cell(s.b0) && reg[1] == Cell(s.b1) && reg[2] == Cell(s.b2)
    && reg[3] == Cell(s.b3) && reg[4] == Cell(s.b4)
  }

  /** One clock of the shift register. */
  method Clock(reg: array<bv8>, din: bv8, ghost s: Reg, ghost bit: bool)
    requires Holds(reg, s) && din == Cell(bit)
    modifies reg
    ensures Holds(reg, Step(s, bit))
  {
    CellXor(s.b4, bit);
    CellXor(s.b1, s.b4);
    CellXor(s.b1 != s.b4, bit);
    var next0 := reg[4] ^ din;
    var next1 := reg[0];
    var next2 := reg[1] ^ reg[4] ^ din;
    var next3 := reg[2];
    var next4 := reg[3];
    reg[0] := next0;
    reg[1] := next1;
    reg[2] := next2;
    reg[3] := next3;
    reg[4] := next4;
  }

  lemma CellsPacked(s: Reg)
    ensures (Cell(s.b4) << 4) | (Cell(s.b3) << 3) | (Cell(s.b2) << 2) | (Cell(s.b1) << 1) | Cell(s.b0) == AsByte(s)
  {}

  /** Moves the mask to the next bit, and to the next byte after the last. */
  method NextCursor(maskIn: bv8, byteIn: nat, ghost posIn: nat)
    returns (mask: bv8, byte: nat, ghost pos: nat)
    requires posIn < 8 && maskIn == Mask(posIn)
    ensures pos < 8 && mask == Mask(pos) && 8 * byte + pos == 8 * byteIn + posIn + 1
  {
    MaskNext(posIn);
    mask, byte, pos := maskIn >> 1, byteIn, posIn + 1;
    if mask == 0 {
      mask := 0x80;
      byte := byte + 1;
      pos := 0;
    }
  }

  /** The bit-serial checksum of the first `bitLen` bits. */
  method Crc5Bits(data: array<bv8>, bitLen: nat) returns (crc: bv8)
    requires bitLen <= 8 * data.Length && bitLen < 256
    ensures crc == AsByte(Feed(PRESET, Bits(data[..]), bitLen))
  {
    ghost var bits, s := Bits(data[..]), PRESET;
    ghost var pos: nat := 0;
    var reg := new bv8[5](_ => 1);
    var mask: bv8 := 0x80;
    var byte: nat := 0;
    for i := 0 to bitLen
      invariant s == Feed(PRESET, bits, i)
      invariant Holds(reg, s)
      invariant i == 8 * byte + pos && pos < 8 && mask == Mask(pos)
    {
      BitInByte(data[..], byte, pos);
      var din: bv8 := if data[byte] & mask != 0 then 1 else 0;
      Clock(reg, din, s, bits[i]);
      s := Step(s, bits[i]);
      mask, byte, pos := NextCursor(mask, byte, pos);
    }
    CellsPacked(s);
    return (reg[4] << 4) | (reg[3] << 3) | (reg[2] << 2) | (reg[1] << 1) | reg[0];
  }

  /** The two forms agree on whole bytes: a length in bits that is eight times a length in
      bytes selects the same message. */
  lemma SameOnWholeBytes(data: seq<bv8>, len: nat)
    requires len <= |data|
    ensures Feed(PRESET, Bits(data), 8 * len) == Checksum(Bits(data[..len]))
  {
    var a, b := Bits(data), Bits(data[..len]);
    forall i | 0 <= i < 8 * len ensures a[i] == b[i] {
      assert a[i] == BitAt(data, i) && b[i] == BitAt(data[..len], i);
    }
    FeedSame(PRESET, a, b, 8 * len);
  }

  // ---------------------------------------------------------------- algebra of the register

  lemma {:induction false} FeedSame(s: Reg, a: seq<bool>, b: seq<bool>, n: nat)
    requires n <= |a| && n <= |b|
    requires forall i :: 0 <= i < n ==> a[i] == b[i]
    ensures Feed(s, a, n) == Feed(s, b, n)
  {
    if n > 0 { FeedSame(s, a, b, n - 1); }
  }

  /** Feeding what comes after the first `m` bits. */
  lemma {:induction false} FeedOn(s: Reg, bits: seq<bool>, m: nat, tail: seq<bool>, n: nat)
    requires m + n <= |bits| && n <= |tail|
    requires forall k :: 0 <= k < n ==> bits[m + k] == tail[k]
    ensures Feed(s, bits, m + n) == Feed(Feed(s, bits, m), tail, n)
  {
    if n > 0 { FeedOn(s, bits, m, tail, n - 1); }
  }

  function Plus(s: Reg, t: Reg): Reg {
    Reg(s.b4 != t.b4, s.b3 != t.b3, s.b2 != t.b2, s.b1 != t.b1, s.b0 != t.b0)
  }

  function Xor(a: seq<bool>, b: seq<bool>): (r: seq<bool>)
    requires |a| == |b|
    ensures |r| == |a|
  {
    seq(|a|, i requires 0 <= i < |a| => a[i] != b[i])
  }

  /** The register is linear: the difference between two messages feeds on its own. */
  lemma {:induction false} FeedLinear(s: Reg, t: Reg, a: seq<bool>, b: seq<bool>, n: nat)
    requires |a| == |b| && n <= |a|
    ensures Feed(Plus(s, t), Xor(a, b), n) == Plus(Feed(s, a, n), Feed(t, b, n))
  {
    if n > 0 {
      FeedLinear(s, t, a, b, n - 1);
      StepLinear(Feed(s, a, n - 1), Feed(t, b, n - 1), a[n - 1], b[n - 1]);
    }
  }

  lemma StepLinear(s: Reg, t: Reg, a: bool, b: bool)
    ensures Step(Plus(s, t), a != b) == Plus(Step(s, a), Step(t, b))
  {}

  function FiveSteps(s: Reg, b0: bool, b1: bool, b2: bool, b3: bool, b4: bool): Reg {
    Step(Step(Step(Step(Step(s, b0), b1), b2), b3), b4)
  }

  lemma FeedFive(s: Reg, bits: seq<bool>, n: nat)
    requires n + 5 <= |bits|
    ensures Feed(s, bits, n + 5)
         == FiveSteps(Feed(s, bits, n), bits[n], bits[n + 1], bits[n + 2], bits[n + 3], bits[n + 4])
  {
    assert Feed(s, bits, n + 1) == Step(Feed(s, bits, n), bits[n]);
    assert Feed(s, bits, n + 2) == Step(Feed(s, bits, n + 1), bits[n + 1]);
    assert Feed(s, bits, n + 3) == Step(Feed(s, bits, n + 2), bits[n + 2]);
    assert Feed(s, bits, n + 4) == Step(Feed(s, bits, n + 3), bits[n + 3]);
  }

  lemma FiveStepsZero(s: Reg, b0: bool, b1: bool, b2: bool, b3: bool, b4: bool)
    ensures FiveSteps(s, b0, b1, b2, b3, b4) == ZERO
      <==> (b0 == s.b4 && b1 == s.b3 && b2 == s.b2 && b3 == s.b1 && b4 == s.b0)
  {}

  lemma SameFive(t: seq<bool>, s: Reg)
    requires |t| == 5
    ensures t == Five(s) <==> (t[0] == s.b4 && t[1] == s.b3 && t[2] == s.b2 && t[3] == s.b1 && t[4] == s.b0)
  {
    var f := Five(s);
    if t[0] == f[0] && t[1] == f[1] && t[2] == f[2] && t[3] == f[3] && t[4] == f[4] {
      assert t == f;
    }
  }

  /** The receive-side test: the checksum of a whole message is zero if and only if its
      last five bits are the checksum of the bits before them. */
  lemma ResidueZeroIff(bits: seq<bool>)
    requires |bits| >= 5
    ensures var n := |bits| - 5;
      Checksum(bits) == ZERO <==> bits[n..] == Five(Checksum(bits[..n]))
  {
    var n := |bits| - 5;
    FeedSame(PRESET, bits, bits[..n], n);
    FeedFive(PRESET, bits, n);
    FiveStepsZero(Feed(PRESET, bits, n), bits[n], bits[n + 1], bits[n + 2], bits[n + 3], bits[n + 4]);
    SameFive(bits[n..], Feed(PRESET, bits, n));
  }

  // ---------------------------------------------------------------- a frame in use

  function ByByte(s: Reg, b: bv8): Reg { EightSteps(s, ByteBits(b)) }

  function EightSteps(s: Reg, q: seq<bool>): Reg
    requires |q| == 8
  {
    Step(Step(Step(FiveSteps(s, q[0], q[1], q[2], q[3], q[4]), q[5]), q[6]), q[7])
  }

  lemma FeedEight(s: Reg, q: seq<bool>)
    requires |q| == 8
    ensures Feed(s, q, |q|) == EightSteps(s, q)
  {
    FeedFive(s, q, 0);
    assert Feed(s, q, 6) == Step(Feed(s, q, 5), q[5]);
    assert Feed(s, q, 7) == Step(Feed(s, q, 6), q[6]);
  }

  lemma ByteFed(data: seq<bv8>, i: nat, at: nat, next: nat)
    requires i < |data| && at == 8 * i && next == at + 8
    ensures Feed(PRESET, Bits(data), next) == ByByte(Feed(PRESET, Bits(data), at), data[i])
  {
    var q := ByteBits(data[i]);
    BitsOfByte(data, i, |q|);
    FeedEight(Feed(PRESET, Bits(data), at), q);
  }

  lemma CommandBits()
    ensures ByteBits(0x52) == [false, true, false, true, false, false, true, false]
    ensures ByteBits(0x05) == [false, false, false, false, false, true, false, true]
    ensures ByteBits(0) == [false, false, false, false, false, false, false, false]
  {}

  lemma FirstSteps(q: seq<bool>)
    requires q == [false, true, false, true, false, false, true, false]
    ensures EightSteps(PRESET, q) == Reg(true, true, false, false, false)
  {}

  lemma SecondSteps(q: seq<bool>)
    requires q == [false, false, false, false, false, true, false, true]
    ensures EightSteps(Reg(true, true, false, false, false), q) == Reg(true, true, false, false, false)
  {}

  lemma ThirdSteps(q: seq<bool>)
    requires q == [false, false, false, false, false, false, false, false]
    ensures EightSteps(Reg(true, true, false, false, false), q) == Reg(false, true, false, false, true)
  {}

  lemma LastSteps(q: seq<bool>)
    requires q == [false, false, false, false, false, false, false, false]
    ensures EightSteps(Reg(false, true, false, false, true), q) == Reg(false, true, false, true, false)
  {}

  lemma FourBytes(data: seq<bv8>)
    requires |data| == 4
    ensures Checksum(Bits(data)) == ByByte(ByByte(ByByte(ByByte(PRESET, data[0]), data[1]), data[2]), data[3])
  {
    ByteFed(data, 0, 0, 8);
    ByteFed(data, 1, 8, 16);
    ByteFed(data, 2, 16, 24);
    ByteFed(data, 3, 24, 32);
  }

  /** The command that asks every chip for its first register is sent with 0x0A for checksum. */
  lemma CommandChecksum(data: seq<bv8>)
    requires data == [0x52, 0x05, 0, 0]
    ensures AsByte(Checksum(Bits(data))) == 0x0A
  {
    CommandBits();
    FirstSteps(ByteBits(0x52));
    SecondSteps(ByteBits(0x05));
    ThirdSteps(ByteBits(0));
    LastSteps(ByteBits(0));
    FourBytes(data);
    assert AsByte(Reg(false, true, false, true, false)) == 0x0A;
  }

  // ---------------------------------------------------------------- errors

  lemma {:induction false} ZerosKeepZero(s: Reg, bits: seq<bool>, m: nat, n: nat)
    requires m <= n <= |bits|
    requires forall i :: m <= i < n ==> !bits[i]
    ensures Feed(s, bits, n) == ZERO <==> Feed(s, bits, m) == ZERO
  {
    if n > m {
      ZerosKeepZero(s, bits, m, n - 1);
    }
  }

  /** A pattern whose set bits lie within five consecutive positions. */
  predicate Burst(err: seq<bool>, p: nat) {
    && p + 5 <= |err|
    && (forall i :: 0 <= i < |err| && err[i] ==> p <= i < p + 5)
    && true in err
  }

  lemma BurstResidue(err: seq<bool>, p: nat)
    requires Burst(err, p)
    ensures Feed(ZERO, err, |err|) != ZERO
  {
    ZerosKeepZero(ZERO, err, 0, p);
    FeedFive(ZERO, err, p);
    FiveStepsZero(ZERO, err[p], err[p + 1], err[p + 2], err[p + 3], err[p + 4]);
    ZerosKeepZero(ZERO, err, p + 5, |err|);
    var i :| 0 <= i < |err| && err[i];
    assert i == p || i == p + 1 || i == p + 2 || i == p + 3 || i == p + 4;
  }

  /** A message that checks out no longer does after an error confined to five consecutive
      bits, wherever it strikes. */
  lemma BurstDetected(bits: seq<bool>, err: seq<bool>, p: nat)
    requires |bits| == |err| && Burst(err, p) && Checksum(bits) == ZERO
    ensures Checksum(Xor(bits, err)) != ZERO
  {
    FeedLinear(PRESET, ZERO, bits, err, |bits|);
    BurstResidue(err, p);
  }

  lemma SameRegister(s: Reg, t: Reg)
    requires AsByte(s) == AsByte(t)
    ensures Plus(s, t) == ZERO
  {}

  /** Two messages that differ within five consecutive bits have different checksums over their
      first `n` bits if one of those is among the ones that differ. */
  lemma {:induction false} BurstReaches(x: seq<bool>, y: seq<bool>, n: nat, p: nat, i: nat)
    requires |x| == |y| && 5 <= n <= |x| && Burst(Xor(x, y), p) && i < n && Xor(x, y)[i]
    ensures AsByte(Feed(PRESET, x, n)) != AsByte(Feed(PRESET, y, n))
  {
    var err := Xor(x, y);
    var seen := err[..n];
    assert seen[i];
    BurstResidue(seen, if p + 5 <= n then p else n - 5);
    FeedSame(ZERO, err, seen, n);
    FeedLinear(PRESET, PRESET, x, y, n);
    if AsByte(Feed(PRESET, x, n)) == AsByte(Feed(PRESET, y, n)) {
      SameRegister(Feed(PRESET, x, n), Feed(PRESET, y, n));
    }
  }

  /** The register after `d` zero bits. */
  function Idle(s: Reg, d: nat): Reg {
    if d == 0 then s else Step(Idle(s, d - 1), false)
  }

  /** The register just after a single set bit: the generator without its leading term. */
  const PULSE := Reg(false, false, true, false, true)

  /** One of eight, by the last three cells. */
  function ByLow(s: Reg, a: nat, b: nat, c: nat, d: nat, e: nat, f: nat, g: nat, h: nat): nat {
    if s.b2 then
      if s.b1 then if s.b0 then h else g else if s.b0 then f else e
    else
      if s.b1 then if s.b0 then d else c else if s.b0 then b else a
  }

  /** The generator is primitive: idle steps lead from a pulse through all 31 registers but the
      empty one.  This is a register's place in the cycle. */
  function Age(s: Reg): nat {
    if s.b4 then
      if s.b3 then ByLow(s, 16, 20, 4, 11, 8, 9, 19, 10) else ByLow(s, 30, 5, 25, 12, 2, 17, 23, 21)
    else
      if s.b3 then ByLow(s, 29, 24, 1, 22, 15, 3, 7, 18) else ByLow(s, 31, 26, 27, 13, 28, 0, 14, 6)
  }

  lemma AgeNext(s: Reg)
    requires s != ZERO
    ensures Step(s, false) != ZERO && Age(s) < 31
    ensures Age(Step(s, false)) == if Age(s) == 30 then 0 else Age(s) + 1
    ensures Age(s) == 0 <==> s == PULSE
  {}

  lemma NextRemainder(d: nat)
    ensures (d + 1) % 31 == if d % 31 == 30 then 0 else d % 31 + 1
  {}

  lemma {:induction false} AgeIs(d: nat)
    ensures Idle(PULSE, d) != ZERO && Age(Idle(PULSE, d)) == d % 31
  {
    if d > 0 {
      AgeIs(d - 1);
      AgeNext(Idle(PULSE, d - 1));
      NextRemainder(d - 1);
    }
  }

  /** A pulse recurs every 31 idle steps, and not before. */
  lemma {:induction false} PulsePeriod(d: nat)
    ensures Idle(PULSE, d) == PULSE <==> d % 31 == 0
  {
    AgeIs(d);
    AgeNext(Idle(PULSE, d));
  }

  lemma {:induction false} FeedIdle(s: Reg, bits: seq<bool>, m: nat, n: nat)
    requires m <= n <= |bits|
    requires forall i :: m <= i < n ==> !bits[i]
    ensures Feed(s, bits, n) == Idle(Feed(s, bits, m), n - m)
  {
    if n > m { FeedIdle(s, bits, m, n - 1); }
  }

  /** A pattern with exactly two set bits. */
  predicate TwoBits(err: seq<bool>, i: nat, j: nat) {
    i < j < |err| && forall k :: 0 <= k < |err| ==> (err[k] <==> k == i || k == j)
  }

  /** Two flipped bits go unnoticed exactly when they are a multiple of 31 places apart. */
  lemma TwoBitErrors(bits: seq<bool>, err: seq<bool>, i: nat, j: nat)
    requires |bits| == |err| && TwoBits(err, i, j) && Checksum(bits) == ZERO
    ensures Checksum(Xor(bits, err)) == ZERO <==> (j - i) % 31 == 0
  {
    FeedLinear(PRESET, ZERO, bits, err, |bits|);
    ZerosKeepZero(ZERO, err, 0, i);
    assert Feed(ZERO, err, i + 1) == PULSE;
    FeedIdle(ZERO, err, i + 1, j);
    ZerosKeepZero(ZERO, err, j + 1, |err|);
    var d := j - i - 1;
    assert Feed(ZERO, err, j + 1) == Step(Idle(PULSE, d), true) == Plus(Idle(PULSE, d + 1), PULSE);
    PulsePeriod(d + 1);
  }

  // ---------------------------------------------------------------- received frames

  const PREAMBLE: seq<bv8> := [0xAA, 0x55]

  /** What the receive path accepts: the preamble, then a body whose checksum is zero. */
  predicate Acceptable(frame: seq<bv8>)
  {
    |frame| >= 2 && frame[..2] == PREAMBLE && Checksum(Bits(frame[2..])) == ZERO
  }

  lemma ZeroByte(s: Reg)
    ensures AsByte(s) == 0 <==> s == ZERO
  {}

  /** How many bytes after the preamble are checked: their number is cut to eight bits. */
  function Checked(size: int): nat { (size - 2) % 256 }

  /** That is the whole of it just for frames of less than 258 bytes. */
  lemma CheckedWholeIff(size: int)
    requires size >= 2
    ensures Checked(size) == size - 2 <==> size < 258
    ensures Checked(size) < 256
  {}

  /** Judges what the serial line delivered into `buffer`.  `received` is what the read
      reported: negative for an error, zero for a timeout. */
  method ReceiveWorkBm(buffer: array<bv8>, bufferSize: int, received: int) returns (ok: bool)
    requires bufferSize <= buffer.Length && 2 + Checked(bufferSize) <= buffer.Length
    ensures ok <==> received == bufferSize > 0 && Acceptable(buffer[..2 + Checked(bufferSize)])
    ensures 2 <= bufferSize < 258 ==> (ok <==> received == bufferSize && Acceptable(buffer[..bufferSize]))
  {
    assert 2 <= bufferSize < 258 ==> 2 + Checked(bufferSize) == bufferSize;
    if received < 0 {
      return false;
    }
    if received == 0 {
      return false;
    }
    if received != bufferSize {
      return false;
    }
    ghost var frame := buffer[..2 + Checked(bufferSize)];
    assert frame[..2] == [buffer[0], buffer[1]];
    if buffer[0] != 0xAA || buffer[1] != 0x55 {
      return false;
    }
    var crc := Crc5(buffer, 2, (bufferSize - 2) % 256);
    assert frame[2..] == buffer[2..2 + Checked(bufferSize)];
    ZeroByte(Checksum(Bits(buffer[2..2 + Checked(bufferSize)])));
    return crc == 0;
  }

  lemma BitsFrom(data: seq<bv8>, m: nat)
    requires m <= |data|
    ensures Bits(data)[8 * m..] == Bits(data[m..])
  {
    forall i | 0 <= i < 8 * (|data| - m) ensures Bits(data)[8 * m..][i] == Bits(data[m..])[i] {
      BitFrom(data, m, i / 8, i % 8, i);
    }
  }

  lemma BitFrom(data: seq<bv8>, m: nat, j: nat, k: nat, i: nat)
    requires m + j < |data| && k < 8 && i == 8 * j + k
    ensures Bits(data)[8 * m..][i] == Bits(data[m..])[i]
  {
    BitInByte(data, m + j, k);
    BitInByte(data[m..], j, k);
  }

  lemma PreambleBits(a: seq<bv8>, b: seq<bv8>, i: nat)
    requires |a| == |b| >= 2 && a[..2] == b[..2] && i < 16
    ensures Bits(a)[i] == Bits(b)[i]
  {
    var k, r := i / 8, i % 8;
    assert a[k] == a[..2][k] && b[k] == b[..2][k];
    BitInByte(a, k, r);
    BitInByte(b, k, r);
  }

  lemma XorTail(a: seq<bool>, b: seq<bool>, m: nat)
    requires |a| == |b| >= m
    ensures Xor(a, b)[m..] == Xor(a[m..], b[m..])
  {}

  /** Without its first `m` bits, none of them set, a burst is one still. */
  lemma TailBurst(err: seq<bool>, p: nat, m: nat) returns (q: nat)
    requires Burst(err, p) && m + 5 <= |err| && forall k :: 0 <= k < m ==> !err[k]
    ensures Burst(err[m..], q)
  {
    var tail := err[m..];
    q := if p < m then 0 else p - m;
    var i :| 0 <= i < |err| && err[i];
    assert tail[i - m];
    forall k | 0 <= k < |tail| && tail[k] ensures q <= k < q + 5 {
      assert err[k + m];
    }
  }

  /** No accepted frame is still accepted after an error confined to five consecutive bits,
      whether it strikes the preamble, the body, or both. */
  lemma BurstRejected(frame: seq<bv8>, damaged: seq<bv8>, err: seq<bool>, p: nat)
    requires Acceptable(frame) && |damaged| == |frame| > 2
    requires |err| == 8 * |frame| && Burst(err, p)
    requires Bits(damaged) == Xor(Bits(frame), err)
    ensures !Acceptable(damaged)
  {
    if damaged[..2] == PREAMBLE {
      forall k | 0 <= k < 16 ensures !err[k] {
        PreambleBits(frame, damaged, k);
        assert Bits(damaged)[k] == (Bits(frame)[k] != err[k]);
      }
      var body, tail := Bits(frame[2..]), err[16..];
      var q := TailBurst(err, p, 16);
      BitsFrom(frame, 2);
      BitsFrom(damaged, 2);
      XorTail(Bits(frame), err, 16);
      BurstDetected(body, tail, q);
    }
  }

  // ---------------------------------------------------------------- polynomial division

  /** The coefficient of the generator x^5 + x^2 + 1, counted from its leading term. */
  predicate Generator(k: nat) { k == 0 || k == 3 || k == 5 }

  /** Strikes out the leading term with the generator. */
  function Struck(d: seq<bool>): (r: seq<bool>)
    requires |d| > 5
    ensures |r| == |d| - 1
  {
    seq(|d| - 1, i requires 0 <= i < |d| - 1 => d[i + 1] != (d[0] && Generator(i + 1)))
  }

  /** Long division over GF(2), the leading coefficient first: leading terms are struck out until
      only five coefficients remain. */
  function Remainder(d: seq<bool>): (r: seq<bool>)
    requires |d| >= 5
    ensures |r| == 5
    decreases |d|
  {
    if |d| == 5 then d else Remainder(Struck(d))
  }

  /** The dividend: the message times x^5, with the preset added to its leading terms. */
  function Dividend(s: Reg, bits: seq<bool>): (r: seq<bool>)
    ensures |r| == |bits| + 5
  {
    seq(|bits| + 5, i requires 0 <= i < |bits| + 5 =>
      (i < |bits| && bits[i]) != (i < 5 && Five(s)[i]))
  }

  /** The shift register divides: its state is the remainder of the message, shifted up by
      five places and with the preset added in front, by the generator. */
  lemma {:induction false} RegisterIsRemainder(s: Reg, bits: seq<bool>)
    ensures Five(Feed(s, bits, |bits|)) == Remainder(Dividend(s, bits))
    decreases |bits|
  {
    var d := Dividend(s, bits);
    if |bits| == 0 {
      assert d == Five(s);
    } else {
      FeedFirst(s, bits);
      RegisterIsRemainder(Step(s, bits[0]), bits[1..]);
      DividendNext(s, bits);
    }
  }

  lemma FeedFirst(s: Reg, bits: seq<bool>)
    requires |bits| > 0
    ensures Feed(s, bits, |bits|) == Feed(Step(s, bits[0]), bits[1..], |bits| - 1)
  {
    FeedOn(s, bits, 1, bits[1..], |bits| - 1);
    assert Feed(s, bits, 1) == Step(s, bits[0]);
  }

  lemma DividendNext(s: Reg, bits: seq<bool>)
    requires |bits| > 0
    ensures Struck(Dividend(s, bits)) == Dividend(Step(s, bits[0]), bits[1..])
  {
    forall i | 0 <= i < |bits| + 4 ensures Struck(Dividend(s, bits))[i] == Dividend(Step(s, bits[0]), bits[1..])[i] {
      DividendStep(s, bits, i);
    }
  }

  lemma DividendStep(s: Reg, bits: seq<bool>, i: nat)
    requires i + 1 < |bits| + 5 && |bits| > 0
    ensures var d := Dividend(s, bits);
      (d[i + 1] != (d[0] && Generator(i + 1))) == Dividend(Step(s, bits[0]), bits[1..])[i]
  {
    FiveOfStep(s, bits[0]);
    if i + 1 < |bits| { assert bits[1..][i] == bits[i + 1]; }
  }

  lemma FiveOfStep(s: Reg, din: bool)
    ensures var f, g := Five(s), Five(Step(s, din));
      var lead := f[0] != din;
      g[0] == f[1] && g[1] == f[2] && g[2] == (f[3] != lead) && g[3] == f[4] && g[4] == lead
  {}
}

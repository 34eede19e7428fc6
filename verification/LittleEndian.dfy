/** 32-bit words as four bytes, the least significant first. */
module LittleEndian {
  import opened Bits
  import opened IntMath

  function Join(b0: Byte, b1: Byte, b2: Byte, b3: Byte): Word {
    var x0: int, x1: int, x2: int, x3: int := b0, b1, b2, b3;
    x0 + 0x100 * x1 + 0x1_0000 * x2 + 0x100_0000 * x3
  }

  /** Byte `k` of a word. */
  function ByteOf(w: Word, k: nat): Byte
    requires k < 4
  {
    if k == 0 then w % 0x100 else if k == 1 then w / 0x100 % 0x100
    else if k == 2 then w / 0x1_0000 % 0x100 else w / 0x100_0000
  }

  lemma ByteOfWord(b0: Byte, b1: Byte, b2: Byte, b3: Byte)
    ensures var w := Join(b0, b1, b2, b3);
      ByteOf(w, 0) == b0 && ByteOf(w, 1) == b1 && ByteOf(w, 2) == b2 && ByteOf(w, 3) == b3
  {
    var w: int := Join(b0, b1, b2, b3);
    var h1: int := b1 + 0x100 * (b2 + 0x100 * b3);
    var h2: int := b2 + 0x100 * b3;
    QuotientIs(w, h1, 0x100);
    QuotientIs(w, h2, 0x1_0000);
    QuotientIs(w, b3, 0x100_0000);
    QuotientIs(h1, h2, 0x100);
    QuotientIs(h2, b3, 0x100);
  }

  lemma WordOfBytes(w: Word)
    ensures Join(ByteOf(w, 0), ByteOf(w, 1), ByteOf(w, 2), ByteOf(w, 3)) == w
  {
    var x: int := w;
    var q1 := x / 0x100;
    var q2 := q1 / 0x100;
    var q3 := q2 / 0x100;
    QuotientIs(x, q2, 0x1_0000);
    QuotientIs(x, q3, 0x100_0000);
  }
}

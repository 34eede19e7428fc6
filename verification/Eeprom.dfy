/** The board record of components/bc_hal/eeprom.c: 64 bytes, checksummed, enciphered and
    kept in a page of an I2C memory, with a cached plain copy.

    Bus transfers appear as parameters that say whether they succeeded.  A failed page
    write leaves the page as it was. */
module Eeprom {
  import opened Bits
  import opened IntMath
  import opened LittleEndian
  import opened Xxtea
  import C = Crc5

  const PAGE: nat := 64
  /** Where the serial number sits in the record, and how long it is. */
  const SN_AT: nat := 32
  const SN_SIZE: nat := 24
  const CRC_AT: nat := 63
  /** The checksum covers this many bits of the record, not bytes. */
  const CRC_BITS: nat := 63

  const X_KEY: Key := [0x656c6970, 0x6d696e72, 0x616e6764, 0x75616e68]

  // ---------------------------------------------------------------- bytes and words

  function WordAt(b: seq<Byte>, i: nat): Word
    requires 4 * i + 4 <= |b|
  {
    Join(b[4 * i], b[4 * i + 1], b[4 * i + 2], b[4 * i + 3])
  }

  /** The bytes read as little-endian words. */
  function WordsOf(b: seq<Byte>): (w: seq<Word>)
    ensures |w| == |b| / 4
  {
    seq(|b| / 4, i requires 0 <= i < |b| / 4 => WordAt(b, i))
  }

  function BytesOf(w: seq<Word>): (b: seq<Byte>)
    ensures |b| == 4 * |w|
  {
    seq(4 * |w|, i requires 0 <= i < 4 * |w| => ByteOf(w[i / 4], i % 4))
  }

  lemma BytesOfWords(b: seq<Byte>)
    requires |b| % 4 == 0
    ensures BytesOf(WordsOf(b)) == b
  {
    forall i | 0 <= i < |b| ensures BytesOf(WordsOf(b))[i] == b[i] {
      var q := i / 4;
      ByteOfWord(b[4 * q], b[4 * q + 1], b[4 * q + 2], b[4 * q + 3]);
      assert WordsOf(b)[q] == WordAt(b, q);
      assert i == 4 * q + i % 4;
    }
  }

  lemma ByteAt(w: seq<Word>, i: nat, k: nat)
    requires i < |w| && k < 4
    ensures BytesOf(w)[4 * i + k] == ByteOf(w[i], k)
  {
    assert (4 * i + k) / 4 == i && (4 * i + k) % 4 == k;
  }

  lemma WordBack(w: seq<Word>, i: nat)
    requires i < |w|
    ensures WordsOf(BytesOf(w))[i] == w[i]
  {
    WordOfBytes(w[i]);
    ByteAt(w, i, 0);
    ByteAt(w, i, 1);
    ByteAt(w, i, 2);
    ByteAt(w, i, 3);
  }

  lemma WordsOfBytes(w: seq<Word>)
    ensures WordsOf(BytesOf(w)) == w
  {
    forall i | 0 <= i < |w| ensures WordsOf(BytesOf(w))[i] == w[i] {
      WordBack(w, i);
    }
  }

  type Page = b: seq<Byte> | |b| == PAGE witness seq(PAGE, _ => 0)

  /** A record as it is stored, and as it is read back. */
  function Sealed(rec: Page): Page {
    BytesOf(Encode(Keyed(X_KEY), WordsOf(rec)))
  }

  function Opened(page: Page): Page {
    BytesOf(Decode(Keyed(X_KEY), WordsOf(page)))
  }

  lemma SealOpens(rec: Page)
    ensures Opened(Sealed(rec)) == rec
    ensures Sealed(Opened(rec)) == rec
  {
    var f, w := Keyed(X_KEY), WordsOf(rec);
    WordsOfBytes(Encode(f, w));
    WordsOfBytes(Decode(f, w));
    RoundTrip(f, w);
    BytesOfWords(rec);
  }

  // ---------------------------------------------------------------- the checksum

  /** A byte as eight bits. */
  function Octet(x: Byte): bv8 {
    Packed(Digit(x, 7), Digit(x, 6), Digit(x, 5), Digit(x, 4), Digit(x, 3), Digit(x, 2), Digit(x, 1), Digit(x, 0))
  }

  function Packed(b7: bool, b6: bool, b5: bool, b4: bool, b3: bool, b2: bool, b1: bool, b0: bool): bv8 {
    (if b7 then 0x80 else 0) | (if b6 then 0x40 else 0) | (if b5 then 0x20 else 0) | (if b4 then 0x10 else 0)
    | (if b3 then 0x08 else 0) | (if b2 then 0x04 else 0) | (if b1 then 0x02 else 0) | (if b0 then 0x01 else 0)
  }

  function Raw(b: seq<Byte>): (r: seq<bv8>)
    ensures |r| == |b|
  {
    seq(|b|, i requires 0 <= i < |b| => Octet(b[i]))
  }

  function RecordCrc(rec: Page): Byte {
    C.AsByte(C.Feed(C.PRESET, C.Bits(Raw(rec)), CRC_BITS)) as int
  }

  predicate CrcOk(rec: Page) {
    rec[CRC_AT] == RecordCrc(rec)
  }

  /** The bits in which two records differ, the most significant of each byte first. */
  function Flipped(a: Page, b: Page): (r: seq<bool>)
    ensures |r| == 8 * PAGE
  {
    C.Xor(C.Bits(Raw(a)), C.Bits(Raw(b)))
  }

  /** The bits that have a say: the first 63, and those of the checksum itself. */
  predicate Covered(i: nat) {
    i < CRC_BITS || i >= 8 * CRC_AT
  }

  predicate Touched(rec: Page, damaged: Page) {
    exists i :: 0 <= i < 8 * PAGE && Covered(i) && Flipped(rec, damaged)[i]
  }

  /** The checksum sees the first 63 bits of a record and nothing else. */
  lemma CrcSeesFirstBits(a: Page, b: Page)
    requires forall i :: 0 <= i < 63 ==> !Flipped(a, b)[i]
    ensures RecordCrc(a) == RecordCrc(b)
  {
    var x, y := C.Bits(Raw(a)), C.Bits(Raw(b));
    forall i | 0 <= i < CRC_BITS ensures x[i] == y[i] {
      assert !Flipped(a, b)[i];
    }
    C.FeedSame(C.PRESET, x, y, CRC_BITS);
  }

  predicate BitOf(x: bv8, k: nat)
    requires k < 8
  {
    x & C.Mask(k) != 0
  }

  /** A byte is its eight bits. */
  lemma SameByte(x: bv8, y: bv8)
    requires forall k :: 0 <= k < 8 ==> BitOf(x, k) == BitOf(y, k)
    ensures x == y
  {
    assert BitOf(x, 0) == BitOf(y, 0) && BitOf(x, 1) == BitOf(y, 1);
    assert BitOf(x, 2) == BitOf(y, 2) && BitOf(x, 3) == BitOf(y, 3);
    assert BitOf(x, 4) == BitOf(y, 4) && BitOf(x, 5) == BitOf(y, 5);
    assert BitOf(x, 6) == BitOf(y, 6) && BitOf(x, 7) == BitOf(y, 7);
  }

  lemma PackedBits(b7: bool, b6: bool, b5: bool, b4: bool, b3: bool, b2: bool, b1: bool, b0: bool)
    ensures var x := Packed(b7, b6, b5, b4, b3, b2, b1, b0);
      && b7 == BitOf(x, 0) && b6 == BitOf(x, 1) && b5 == BitOf(x, 2) && b4 == BitOf(x, 3)
      && b3 == BitOf(x, 4) && b2 == BitOf(x, 5) && b1 == BitOf(x, 6) && b0 == BitOf(x, 7)
  {}

  lemma {:induction false} SameDigits(x: nat, y: nat, n: nat, bound: nat)
    requires x < bound && y < bound && bound == TwoTo(n)
    requires forall k :: 0 <= k < n ==> Digit(x, k) == Digit(y, k)
    ensures x == y
  {
    if n > 0 {
      forall k | 0 <= k < n - 1 ensures Digit(x / 2, k) == Digit(y / 2, k) {
        assert Digit(x, k + 1) == Digit(y, k + 1);
      }
      SameDigits(x / 2, y / 2, n - 1, bound / 2);
      assert Digit(x, 0) == Digit(y, 0);
    }
  }

  lemma OctetBit(x: Byte, k: nat)
    requires k < 8
    ensures BitOf(Octet(x), 7 - k) == Digit(x, k)
  {
    PackedBits(Digit(x, 7), Digit(x, 6), Digit(x, 5), Digit(x, 4), Digit(x, 3), Digit(x, 2), Digit(x, 1), Digit(x, 0));
  }

  lemma SameOctet(x: Byte, y: Byte)
    requires Octet(x) == Octet(y)
    ensures x == y
  {
    forall k | 0 <= k < 8 ensures Digit(x, k) == Digit(y, k) {
      OctetBit(x, k);
      OctetBit(y, k);
    }
    SameDigits(x, y, 8, 256);
  }

  lemma FlippedAt(a: Page, b: Page, j: nat, k: nat)
    requires j < PAGE && k < 8
    ensures Flipped(a, b)[8 * j + k] == (BitOf(Raw(a)[j], k) != BitOf(Raw(b)[j], k))
  {
    C.BitInByte(Raw(a), j, k);
    C.BitInByte(Raw(b), j, k);
  }

  lemma KeptByte(a: Page, b: Page, j: nat, i: nat)
    requires j < PAGE && 8 * j <= i < 8 * j + 8 && a[j] == b[j]
    ensures !Flipped(a, b)[i]
  {
    FlippedAt(a, b, j, i - 8 * j);
  }

  lemma NoneFlipped(a: Page, b: Page, j: nat)
    requires j < PAGE && forall i :: 8 * j <= i < 8 * j + 8 ==> !Flipped(a, b)[i]
    ensures a[j] == b[j]
  {
    forall k | 0 <= k < 8 ensures BitOf(Raw(a)[j], k) == BitOf(Raw(b)[j], k) {
      FlippedAt(a, b, j, k);
      assert !Flipped(a, b)[8 * j + k];
    }
    SameByte(Raw(a)[j], Raw(b)[j]);
    SameOctet(a[j], b[j]);
  }

  /** Damage elsewhere, to the serial number for instance, is never noticed by the check. */
  lemma CheckBlindElsewhere(rec: Page, damaged: Page)
    requires !Touched(rec, damaged)
    ensures CrcOk(damaged) == CrcOk(rec)
  {
    CrcSeesFirstBits(rec, damaged);
    NoneFlipped(rec, damaged, CRC_AT);
  }

  /** Of damage to five consecutive bits of a sound record in the clear, wherever it strikes, the check
      notices exactly that which touches one of the first 63 bits or the checksum. */
  lemma NoticedIff(rec: Page, damaged: Page, p: nat)
    requires CrcOk(rec) && C.Burst(Flipped(rec, damaged), p)
    ensures !CrcOk(damaged) <==> Touched(rec, damaged)
  {
    if !Touched(rec, damaged) {
      CheckBlindElsewhere(rec, damaged);
    } else {
      var i :| 0 <= i < 8 * PAGE && Covered(i) && Flipped(rec, damaged)[i];
      if i < CRC_BITS {
        C.BurstReaches(C.Bits(Raw(rec)), C.Bits(Raw(damaged)), CRC_BITS, p, i);
        NoneFlipped(rec, damaged, CRC_AT);
      } else {
        CrcSeesFirstBits(rec, damaged);
        if damaged[CRC_AT] == rec[CRC_AT] {
          KeptByte(rec, damaged, CRC_AT, i);
        }
      }
    }
  }

  lemma SameHead(a: Page, b: Page)
    requires forall j :: 0 <= j < 8 ==> a[j] == b[j]
    ensures RecordCrc(a) == RecordCrc(b)
  {
    forall i | 0 <= i < CRC_BITS ensures !Flipped(a, b)[i] {
      KeptByte(a, b, i / 8, i);
    }
    CrcSeesFirstBits(a, b);
  }

  function SnOf(rec: Page): seq<Byte> { rec[SN_AT..SN_AT + SN_SIZE] }

  type Sn = b: seq<Byte> | |b| == SN_SIZE witness seq(SN_SIZE, _ => 0)

  function WithSn(rec: Page, sn: Sn): Page {
    rec[..SN_AT] + sn + rec[SN_AT + SN_SIZE..]
  }

  function WithCrc(rec: Page): Page {
    rec[CRC_AT := RecordCrc(rec)]
  }

  lemma WithCrcOk(rec: Page)
    ensures CrcOk(WithCrc(rec))
    ensures CrcOk(rec) ==> WithCrc(rec) == rec
  {
    SameHead(rec, WithCrc(rec));
  }

  lemma WithSnFacts(rec: Page, sn: Sn)
    ensures SnOf(WithSn(rec, sn)) == sn
    ensures CrcOk(WithSn(rec, sn)) == CrcOk(rec)
  {
    var r := WithSn(rec, sn);
    SameHead(rec, r);
  }

  /** Whatever serial number stands in bytes 32 to 55, the check comes out the same. */
  lemma SerialUnprotected(rec: Page, sn: Sn)
    ensures |sn| == 24 && |rec[..32] + sn + rec[56..]| == 64
    ensures CrcOk(rec[..32] + sn + rec[56..]) == CrcOk(rec)
  {
    WithSnFacts(rec, sn);
  }

  // ---------------------------------------------------------------- the record path

  /** One board: the device's page, the cached record, and whether the cache was filled. */
  datatype Board = Board(page: Page, cache: Page, loaded: bool)

  /** Fills the cache from the device if the read succeeds and the record checks out. */
  function Load(b: Board, readOk: bool): (Board, bool) {
    if b.loaded then (b, true)
    else if readOk && CrcOk(Opened(b.page)) then (b.(cache := Opened(b.page), loaded := true), true)
    else (b, false)
  }

  function Get(b: Board, readOk: bool): (Board, int, seq<Byte>) {
    var (b', ok) := Load(b, readOk);
    if ok then (b', 0, SnOf(b'.cache)) else (b', -1, [])
  }

  function Update(b: Board, sn: Sn, readOk: bool, writeOk: bool): (Board, int) {
    var (b', ok) := Load(b, readOk);
    if !ok then (b', -1)
    else
      var rec := WithSn(b'.cache, sn);
      (Board(if writeOk then Sealed(WithCrc(rec)) else b'.page, rec, true), 0)
  }

  /** A restart forgets the cache but not the device. */
  function Restart(b: Board): Board { b.(loaded := false) }

  /** What every operation keeps: a filled cache holds a record that checks out. */
  predicate Sound(b: Board) { b.loaded ==> CrcOk(b.cache) }

  lemma SoundKept(b: Board, sn: Sn, readOk: bool, writeOk: bool)
    requires Sound(b)
    ensures Sound(Load(b, readOk).0) && Sound(Get(b, readOk).0)
    ensures Sound(Update(b, sn, readOk, writeOk).0)
    ensures Sound(Restart(b))
  {
    WithSnFacts(Load(b, readOk).0.cache, sn);
  }

  /** A serial number written to the device is the one read back after a restart, and the
      device then holds exactly the cached record. */
  lemma UpdateSurvivesRestart(b: Board, sn: Sn, readOk: bool)
    requires Sound(b)
    ensures var (b', ret) := Update(b, sn, readOk, true);
      ret == 0 ==>
        && Opened(b'.page) == b'.cache
        && Get(Restart(b'), true).1 == 0 && Get(Restart(b'), true).2 == sn
  {
    var cached := Load(b, readOk).0.cache;
    if CrcOk(cached) {
      SealedUpdate(cached, sn);
    }
  }

  lemma SealedUpdate(cached: Page, sn: Sn)
    requires CrcOk(cached)
    ensures var rec := WithSn(cached, sn);
      Opened(Sealed(WithCrc(rec))) == rec && CrcOk(rec) && SnOf(rec) == sn
  {
    var rec := WithSn(cached, sn);
    WithSnFacts(cached, sn);
    WithCrcOk(rec);
    SealOpens(rec);
  }

  /** The update reports success without looking at the outcome of the page write: success
      means the serial number will survive a restart if and only if the write went through
      or the device already held it. */
  lemma SuccessMeans(b: Board, sn: Sn, readOk: bool, writeOk: bool)
    requires Sound(b) && Update(b, sn, readOk, writeOk).1 == 0
    ensures var after := Get(Restart(Update(b, sn, readOk, writeOk).0), true);
      (after.1 == 0 && after.2 == sn)
        <==> (writeOk || (CrcOk(Opened(b.page)) && SnOf(Opened(b.page)) == sn))
  {
    if writeOk {
      UpdateSurvivesRestart(b, sn, readOk);
    }
  }

  /** An update is reported as done exactly when the cache was filled or could be, as is a reading;
      and what the write did makes no difference. */
  lemma ReportedIff(b: Board, sn: Sn, readOk: bool, writeOk: bool)
    ensures var filled := b.loaded || (readOk && CrcOk(Opened(b.page)));
      && Update(b, sn, readOk, writeOk).1 == (if filled then 0 else -1)
      && Get(b, readOk).1 == (if filled then 0 else -1)
      && Get(b, readOk).0.page == b.page && (!writeOk ==> Update(b, sn, readOk, writeOk).0.page == b.page)
  {}

  /** The driver's state for one board. */
  class Driver {
    const page: array<Byte>
    const cache: array<Byte>
    var loaded: bool

    ghost predicate Shaped() {
      page.Length == PAGE && cache.Length == PAGE && page != cache
    }

    ghost function Now(): Board
      requires Shaped()
      reads this, page, cache
    {
      Board(page[..], cache[..], loaded)
    }

    constructor (content: Page)
      ensures Shaped() && fresh(page) && fresh(cache)
      ensures page[..] == content && !loaded
    {
      page := new Byte[PAGE](i requires 0 <= i < PAGE => content[i]);
      cache := new Byte[PAGE](_ => 0);
      loaded := false;
    }

    method ReadData(readOk: bool) returns (ok: bool)
      requires Shaped()
      modifies cache
      ensures ok <==> readOk && CrcOk(Opened(page[..]))
      ensures cache[..] == if ok then Opened(page[..]) else old(cache[..])
    {
      if !readOk {
        return false;
      }
      ghost var stored: Page := page[..];
      var plain := Unseal(page[..]);
      var crc := Checksum(plain);
      ok := plain[CRC_AT] == crc;
      assert ok == CrcOk(plain);
      if ok {
        forall i | 0 <= i < PAGE { cache[i] := plain[i]; }
        assert cache[..] == plain;
        assert page[..] == stored;
      }
    }

    method EnsureLoaded(readOk: bool) returns (ok: bool)
      requires Shaped()
      modifies this`loaded, cache
      ensures Now() == Load(old(Now()), readOk).0
      ensures ok == Load(old(Now()), readOk).1
    {
      if !loaded {
        ok := ReadData(readOk);
        if !ok {
          return false;
        }
        loaded := true;
      }
      return true;
    }

    method GetSn(readOk: bool) returns (ret: int, sn: seq<Byte>)
      requires Shaped()
      modifies this`loaded, cache
      ensures (Now(), ret, sn) == Get(old(Now()), readOk)
    {
      var ok := EnsureLoaded(readOk);
      if !ok {
        return -1, [];
      }
      return 0, cache[SN_AT..SN_AT + SN_SIZE];
    }

    method UpdateSn(sn: Sn, readOk: bool, writeOk: bool) returns (ret: int)
      requires Shaped()
      modifies this`loaded, cache, page
      ensures (Now(), ret) == Update(old(Now()), sn, readOk, writeOk)
    {
      var ok := EnsureLoaded(readOk);
      if !ok {
        return -1;
      }
      ghost var before: Board := Now();
      forall i | 0 <= i < SN_SIZE { cache[SN_AT + i] := sn[i]; }
      var buf: Page := cache[..];
      assert buf == WithSn(before.cache, sn);
      var crc := Checksum(buf);
      var sealed := Seal(buf[CRC_AT := crc]);
      if writeOk {
        forall i | 0 <= i < PAGE { page[i] := sealed[i]; }
      }
      assert page[..] == if writeOk then sealed else before.page;
      assert cache[..] == buf;
      return 0;
    }
  }

  /** The bit-serial checksum over the first `CRC_BITS` bits of a record. */
  method Checksum(rec: Page) returns (crc: Byte)
    ensures crc == RecordCrc(rec)
  {
    var raw := Raw(rec);
    var data := new bv8[PAGE](i requires 0 <= i < PAGE => raw[i]);
    assert data[..] == raw;
    var c := C.Crc5Bits(data, CRC_BITS);
    return c as int;
  }

  method Unseal(page: Page) returns (rec: Page)
    ensures rec == Opened(page)
  {
    var w := WordsOf(page);
    var a := new Word[16](i requires 0 <= i < 16 => w[i]);
    assert a[..] == w;
    XDecode(a, X_KEY);
    return BytesOf(a[..]);
  }

  method Seal(rec: Page) returns (page: Page)
    ensures page == Sealed(rec)
  {
    var w := WordsOf(rec);
    var a := new Word[16](i requires 0 <= i < 16 => w[i]);
    assert a[..] == w;
    XEncode(a, X_KEY);
    return BytesOf(a[..]);
  }
}

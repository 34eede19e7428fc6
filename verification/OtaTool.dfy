/** The update container of tools/ota_tool.py: packing, unpacking, recovery of the pad from
    known plaintext, and the verdict on a container.

    The digest is a parameter: any function from byte strings to 32 bytes. */
module OtaTool {
  import opened Bits
  import opened Common
  import opened LittleEndian
  import opened Strings

  type Hash = b: Bytes | |b| == 32 witness seq(32, _ => 0)
  type Digest = Bytes -> Hash
  type Pad = b: Bytes | |b| == 16 witness seq(16, _ => 0)

  const TYPE_APP: Byte := 0xAA
  const TYPE_WWW: Byte := 0x55
  const HEADER_SIZE: nat := 48
  const PAD_SIZE: nat := 16
  /** "GULLPOWER" */
  const PROJECT_ID: Bytes := [0x47, 0x55, 0x4C, 0x4C, 0x50, 0x4F, 0x57, 0x45, 0x52]
  /** Where an application payload keeps eight bytes that are normally zero. */
  const RESERV1_START: nat := 40
  const RESERV1_END: nat := 48

  datatype Kind = App | Www

  datatype Result<+T, +E> = Ok(value: T) | Err(error: E)

  // ---------------------------------------------------------------- the container

  /** Applies the repeating pad, continuing the keystream from `offset`. */
  function XorPad(data: Bytes, pad: Pad, offset: nat): (r: Bytes)
    ensures |r| == |data|
  {
    seq(|data|, i requires 0 <= i < |data| => XorByte(data[i], pad[(offset + i) % PAD_SIZE]))
  }

  lemma XorPadTwice(data: Bytes, pad: Pad, offset: nat)
    ensures XorPad(XorPad(data, pad, offset), pad, offset) == data
  {
    forall i | 0 <= i < |data|
      ensures XorPad(XorPad(data, pad, offset), pad, offset)[i] == data[i]
    {
      XorByteLaws(data[i], pad[(offset + i) % PAD_SIZE], 0);
    }
  }

  /** A length as four bytes, the least significant first. */
  function Le32(n: nat): (b: Bytes)
    requires n < TWO32
    ensures |b| == 4
  {
    [ByteOf(n, 0), ByteOf(n, 1), ByteOf(n, 2), ByteOf(n, 3)]
  }

  function FromLe32(b: Bytes): nat
    requires |b| == 4
  {
    Join(b[0], b[1], b[2], b[3])
  }

  lemma Le32RoundTrip(n: nat)
    requires n < TWO32
    ensures FromLe32(Le32(n)) == n
  {
    WordOfBytes(n);
  }

  /** The project id field: the id, padded with a zero to ten bytes. */
  const PROJECT_FIELD: Bytes := PROJECT_ID + [0]

  /** The header of a payload, or an error if its length does not fit the field. */
  function Header(sha: Digest, payload: Bytes, reserved: Bytes): (r: Result<Bytes, ()>)
    requires |reserved| == 2
    ensures r.Ok? ==> |r.value| == HEADER_SIZE
  {
    if |payload| >= TWO32 then Err(())
    else Ok(sha(payload) + PROJECT_FIELD + Le32(|payload|) + reserved)
  }

  /** The pieces of a header, by position. */
  function DigestField(h: Bytes): Hash requires |h| == HEADER_SIZE { h[..32] }

  function ProjectField(h: Bytes): Bytes requires |h| == HEADER_SIZE { h[32..42] }

  function LengthField(h: Bytes): (b: Bytes)
    requires |h| == HEADER_SIZE
    ensures |b| == 4
  {
    h[42..46]
  }

  lemma HeaderFields(sha: Digest, payload: Bytes, reserved: Bytes)
    requires |reserved| == 2 && |payload| < TWO32
    ensures var h := Header(sha, payload, reserved).value;
      DigestField(h) == sha(payload) && ProjectField(h) == PROJECT_FIELD && LengthField(h) == Le32(|payload|)
  {}

  /** Writes a field; `end` is where the next one starts, `made` what stands before this one. */
  method PutBytes(a: array<Byte>, at: nat, b: Bytes, end: nat, ghost made: Bytes) returns (ghost more: Bytes)
    requires end == at + |b| <= a.Length && a[..at] == made
    modifies a
    ensures a[..end] == more == made + b
    ensures forall i :: end <= i < a.Length ==> a[i] == old(a[i])
  {
    more := made + b;
    for i := 0 to |b|
      invariant forall j :: 0 <= j < at + i ==> a[j] == more[j]
      invariant forall j :: at + i <= j < a.Length ==> a[j] == old(a[j])
    {
      a[at + i] := b[i];
    }
  }

  method BuildHeader(sha: Digest, payload: Bytes, reserved: Bytes) returns (r: Result<Bytes, ()>)
    requires |reserved| == 2
    ensures r == Header(sha, payload, reserved)
  {
    var header := new Byte[HEADER_SIZE](_ => 0);
    ghost var made := PutBytes(header, 0, sha(payload), 32, []);
    made := PutBytes(header, 32, PROJECT_ID, 41, made);
    if |payload| >= TWO32 {
      return Err(());
    }
    made := FieldEnds(header[..], 41, made);
    made := PutBytes(header, 42, Le32(|payload|), 46, made);
    made := PutBytes(header, 46, reserved, HEADER_SIZE, made);
    HeaderMade(sha(payload), Le32(|payload|), reserved);
    return Ok(header[..HEADER_SIZE]);
  }

  /** The byte after the project id stays zero. */
  lemma FieldEnds(h: Bytes, at: nat, made: Bytes) returns (more: Bytes)
    requires at < |h| && h[..at] == made && h[at] == 0
    ensures h[..at + 1] == more == made + [0]
  {
    more := made + [0];
  }

  lemma HeaderMade(hash: Hash, length: Bytes, reserved: Bytes)
    ensures [] + hash + PROJECT_ID + [0] + length + reserved == hash + PROJECT_FIELD + length + reserved
  {
    Associates(hash, PROJECT_ID, [0]);
  }

  function TypeByte(kind: Kind): Byte {
    if kind.App? then TYPE_APP else TYPE_WWW
  }

  /** The container of a payload.  A web payload travels in the clear. */
  function Pack(sha: Digest, kind: Kind, payload: Bytes, pad: Pad, reserved: Bytes): Result<Bytes, ()>
    requires |reserved| == 2
  {
    match Header(sha, payload, reserved)
    case Err(e) => Err(e)
    case Ok(h) =>
      Ok([TypeByte(kind)] + XorPad(h, pad, 0) + if kind.Www? then payload else XorPad(payload, pad, HEADER_SIZE))
  }

  datatype SplitError = TooShort | BadType

  /** The type, the header ciphertext and the payload as carried. */
  datatype Parts = Parts(kind: Kind, header: Bytes, carried: Bytes)

  function Split(blob: Bytes): (r: Result<Parts, SplitError>)
    ensures r.Ok? ==> |r.value.header| == HEADER_SIZE
  {
    if |blob| < 1 + HEADER_SIZE then Err(TooShort)
    else if blob[0] != TYPE_APP && blob[0] != TYPE_WWW then Err(BadType)
    else Ok(Parts(if blob[0] == TYPE_APP then App else Www, blob[1..1 + HEADER_SIZE], blob[1 + HEADER_SIZE..]))
  }

  /** The payload as decoded through a pad. */
  function Decoded(p: Parts, pad: Pad): Bytes {
    if p.kind.Www? then p.carried else XorPad(p.carried, pad, HEADER_SIZE)
  }

  /** The parts of the container of a payload, before any damage. */
  function PackedParts(sha: Digest, kind: Kind, payload: Bytes, pad: Pad, reserved: Bytes): (p: Parts)
    requires |reserved| == 2 && |payload| < TWO32
    ensures |p.header| == HEADER_SIZE && |p.carried| == |payload|
  {
    Parts(kind, XorPad(Header(sha, payload, reserved).value, pad, 0),
          if kind.Www? then payload else XorPad(payload, pad, HEADER_SIZE))
  }

  lemma SplitOfPack(sha: Digest, kind: Kind, payload: Bytes, pad: Pad, reserved: Bytes)
    requires |reserved| == 2 && |payload| < TWO32
    ensures Split(Pack(sha, kind, payload, pad, reserved).value)
         == Ok(PackedParts(sha, kind, payload, pad, reserved))
  {
    var h := Header(sha, payload, reserved).value;
    var body := if kind.Www? then payload else XorPad(payload, pad, HEADER_SIZE);
    var blob := Pack(sha, kind, payload, pad, reserved).value;
    assert blob == [TypeByte(kind)] + XorPad(h, pad, 0) + body;
    assert blob[1..1 + HEADER_SIZE] == XorPad(h, pad, 0);
    assert blob[1 + HEADER_SIZE..] == body;
  }

  /** What is wrong with a pad, judging by the header alone. */
  datatype Complaints = Complaints(project: bool, length: bool)
  {
    predicate Any() { project || length }
  }

  function ValidatePad(p: Parts, pad: Pad): Complaints
    requires |p.header| == HEADER_SIZE
  {
    var h := XorPad(p.header, pad, 0);
    Complaints(UpTo(ProjectField(h), 0) != PROJECT_ID, FromLe32(LengthField(h)) != |p.carried|)
  }

  datatype UnpackError = WrongPad(why: Complaints) | DigestMismatch

  function Unpack(sha: Digest, p: Parts, pad: Pad, force: bool): Result<Bytes, UnpackError>
    requires |p.header| == HEADER_SIZE
  {
    var h := XorPad(p.header, pad, 0);
    var payload := Decoded(p, pad);
    if sha(payload) != DigestField(h) && !force then
      Err(if ValidatePad(p, pad).Any() then WrongPad(ValidatePad(p, pad)) else DigestMismatch)
    else
      var n := FromLe32(LengthField(h));
      Ok(if n <= |payload| then payload[..n] else payload)
  }

  /** Packing and unpacking with the same pad gives the payload back, for both kinds and
      every length the field can hold. */
  lemma UnpackOfPack(sha: Digest, kind: Kind, payload: Bytes, pad: Pad, reserved: Bytes, force: bool)
    requires |reserved| == 2 && |payload| < TWO32
    ensures Pack(sha, kind, payload, pad, reserved).Ok?
    ensures var s := Split(Pack(sha, kind, payload, pad, reserved).value);
      s.Ok? && Unpack(sha, s.value, pad, force) == Ok(payload)
  {
    SplitOfPack(sha, kind, payload, pad, reserved);
    var h := Header(sha, payload, reserved).value;
    XorPadTwice(h, pad, 0);
    XorPadTwice(payload, pad, HEADER_SIZE);
    HeaderFields(sha, payload, reserved);
    Le32RoundTrip(|payload|);
    assert payload[..|payload|] == payload;
  }

  // ---------------------------------------------------------------- validating a pad

  lemma UpToZeroIs(b: Bytes, id: Bytes)
    requires forall i :: 0 <= i < |id| ==> id[i] != 0
    requires |b| == |id| + 1
    ensures UpTo(b, 0) == id <==> b == id + [0]
  {
    var n := Find(b, 0);
    if b[..n] == id {
      assert b == b[..n] + [b[n]];
    }
    if b == id + [0] {
      FindIs(b, 0, |id|);
    }
  }

  lemma Le32Injective(b: Bytes, n: nat)
    requires |b| == 4 && n < TWO32
    ensures FromLe32(b) == n <==> b == Le32(n)
  {
    Le32RoundTrip(n);
    ByteOfWord(b[0], b[1], b[2], b[3]);
    assert Le32(FromLe32(b)) == b;
  }

  /** A byte decodes to its plaintext exactly when the pad byte it uses is right. */
  lemma DecodesRight(plain: Bytes, pad: Pad, other: Pad, offset: nat, i: nat)
    requires i < |plain|
    ensures XorPad(XorPad(plain, pad, offset), other, offset)[i] == plain[i]
      <==> other[(offset + i) % PAD_SIZE] == pad[(offset + i) % PAD_SIZE]
  {
    var x, y, z := plain[i], pad[(offset + i) % PAD_SIZE], other[(offset + i) % PAD_SIZE];
    XorByteLaws(x, y, z);
    XorByteLaws(XorByte(x, y), y, z);
  }

  lemma SameSlice(a: Bytes, b: Bytes, lo: nat, hi: nat)
    requires lo <= hi <= |a| && hi <= |b|
    ensures a[lo..hi] == b[lo..hi] <==> forall i :: lo <= i < hi ==> a[i] == b[i]
  {
    if a[lo..hi] == b[lo..hi] {
      forall i | lo <= i < hi ensures a[i] == b[i] {
        assert a[i] == a[lo..hi][i - lo] && b[i] == b[lo..hi][i - lo];
      }
    }
  }

  /** The header's bytes from 32 on decode right, as far as they are looked at, exactly when the pad
      is right at as many positions. */
  lemma FieldsDecodeRight(h: Bytes, pad: Pad, other: Pad, lo: nat, hi: nat)
    requires |h| == HEADER_SIZE && lo <= hi <= 14
    ensures XorPad(XorPad(h, pad, 0), other, 0)[32 + lo..32 + hi] == h[32 + lo..32 + hi]
      <==> other[lo..hi] == pad[lo..hi]
  {
    var d := XorPad(XorPad(h, pad, 0), other, 0);
    SameSlice(d, h, 32 + lo, 32 + hi);
    SameSlice(other, pad, lo, hi);
    forall i | lo <= i < hi ensures d[32 + i] == h[32 + i] <==> other[i] == pad[i] {
      DecodesRight(h, pad, other, 0, 32 + i);
    }
    if other[lo..hi] == pad[lo..hi] {
      forall i | 32 + lo <= i < 32 + hi ensures d[i] == h[i] {
        assert other[i - 32] == pad[i - 32];
      }
    }
  }

  lemma ProjectDecodesIff(h: Bytes, pad: Pad, other: Pad)
    requires |h| == HEADER_SIZE && ProjectField(h) == PROJECT_FIELD
    ensures UpTo(ProjectField(XorPad(XorPad(h, pad, 0), other, 0)), 0) == PROJECT_ID <==> other[0..10] == pad[0..10]
  {
    FieldsDecodeRight(h, pad, other, 0, 10);
    UpToZeroIs(ProjectField(XorPad(XorPad(h, pad, 0), other, 0)), PROJECT_ID);
  }

  lemma LengthDecodesIff(h: Bytes, pad: Pad, other: Pad, n: nat)
    requires |h| == HEADER_SIZE && n < TWO32 && LengthField(h) == Le32(n)
    ensures FromLe32(LengthField(XorPad(XorPad(h, pad, 0), other, 0))) == n <==> other[10..14] == pad[10..14]
  {
    FieldsDecodeRight(h, pad, other, 10, 14);
    Le32Injective(LengthField(XorPad(XorPad(h, pad, 0), other, 0)), n);
  }

  /** On a container made with `pad`, whatever has become of its payload at the same length, a pad
      garbles the project id if and only if it is wrong at one of positions 0 to 9, and the length if
      and only if it is wrong at one of 10 to 13. */
  lemma ComplaintsIff(sha: Digest, kind: Kind, payload: Bytes, pad: Pad, reserved: Bytes, carried: Bytes, other: Pad)
    requires |reserved| == 2 && |payload| < TWO32 && |carried| == |payload|
    ensures var p := PackedParts(sha, kind, payload, pad, reserved).(carried := carried);
      && (ValidatePad(p, other).project <==> other[0..10] != pad[0..10])
      && (ValidatePad(p, other).length <==> other[10..14] != pad[10..14])
  {
    var h := Header(sha, payload, reserved).value;
    HeaderFields(sha, payload, reserved);
    ProjectDecodesIff(h, pad, other);
    LengthDecodesIff(h, pad, other, |payload|);
  }

  /** So it draws no complaint if and only if it is right at positions 0 to 13. */
  lemma NoComplaintIff(sha: Digest, kind: Kind, payload: Bytes, pad: Pad, reserved: Bytes, carried: Bytes, other: Pad)
    requires |reserved| == 2 && |payload| < TWO32 && |carried| == |payload|
    ensures var p := PackedParts(sha, kind, payload, pad, reserved).(carried := carried);
      !ValidatePad(p, other).Any() <==> other[..14] == pad[..14]
  {
    ComplaintsIff(sha, kind, payload, pad, reserved, carried, other);
    assert other[..14] == other[0..10] + other[10..14] && pad[..14] == pad[0..10] + pad[10..14];
  }

  // ---------------------------------------------------------------- recovering a pad

  /** One pad byte the container gives away, and whether that rests on the payload. */
  datatype KnownByte = KnownByte(index: nat, value: Byte, fromPayload: bool)

  function ProjectBytes(p: Parts): seq<KnownByte>
    requires |p.header| == HEADER_SIZE
  {
    seq(10, n requires 0 <= n < 10 =>
      KnownByte((32 + n) % PAD_SIZE, XorByte(p.header[32 + n], PROJECT_FIELD[n]), false))
  }

  function LengthBytes(p: Parts): seq<KnownByte>
    requires |p.header| == HEADER_SIZE && |p.carried| < TWO32
  {
    seq(4, n requires 0 <= n < 4 =>
      KnownByte((42 + n) % PAD_SIZE, XorByte(p.header[42 + n], Le32(|p.carried|)[n]), false))
  }

  function ReservedBytes(p: Parts): seq<KnownByte> {
    if p.kind.App? && |p.carried| >= RESERV1_END then
      seq(8, n requires 0 <= n < 8 =>
        KnownByte((HEADER_SIZE + RESERV1_START + n) % PAD_SIZE, XorByte(p.carried[RESERV1_START + n], 0), true))
    else []
  }

  function DigestBytes(sha: Digest, p: Parts): seq<KnownByte>
    requires |p.header| == HEADER_SIZE
  {
    if p.kind.Www? then
      seq(32, n requires 0 <= n < 32 =>
        KnownByte(n % PAD_SIZE, XorByte(p.header[n], sha(p.carried)[n]), true))
    else []
  }

  /** Every pad byte the container gives away about itself. */
  function Known(sha: Digest, p: Parts): seq<KnownByte>
    requires |p.header| == HEADER_SIZE && |p.carried| < TWO32
  {
    ProjectBytes(p) + LengthBytes(p) + ReservedBytes(p) + DigestBytes(sha, p)
  }

  method KnownPlaintext(sha: Digest, p: Parts) returns (found: seq<KnownByte>)
    requires |p.header| == HEADER_SIZE && |p.carried| < TWO32
    ensures found == Known(sha, p)
  {
    found := [];
    for n := 0 to 10
      invariant found == ProjectBytes(p)[..n]
    {
      found := found + [KnownByte((32 + n) % PAD_SIZE, XorByte(p.header[32 + n], PROJECT_FIELD[n]), false)];
    }
    for n := 0 to 4
      invariant found == ProjectBytes(p) + LengthBytes(p)[..n]
    {
      found := found + [KnownByte((42 + n) % PAD_SIZE, XorByte(p.header[42 + n], Le32(|p.carried|)[n]), false)];
    }
    if p.kind.App? && |p.carried| >= RESERV1_END {
      for offset := RESERV1_START to RESERV1_END
        invariant found == ProjectBytes(p) + LengthBytes(p) + ReservedBytes(p)[..offset - RESERV1_START]
      {
        found := found + [KnownByte((HEADER_SIZE + offset) % PAD_SIZE, XorByte(p.carried[offset], 0), true)];
      }
    }
    assert found == ProjectBytes(p) + LengthBytes(p) + ReservedBytes(p);
    if p.kind.Www? {
      var digest := sha(p.carried);
      for n := 0 to 32
        invariant found == ProjectBytes(p) + LengthBytes(p) + ReservedBytes(p) + DigestBytes(sha, p)[..n]
      {
        found := found + [KnownByte(n % PAD_SIZE, XorByte(p.header[n], digest[n]), true)];
      }
    }
  }

  /** For each pad byte that sources of one standing speak of, the values they give. */
  type Bucket = map<nat, set<Byte>>

  function Vote(b: Bucket, k: KnownByte): Bucket {
    b[k.index := (if k.index in b then b[k.index] else {}) + {k.value}]
  }

  /** The votes of the first `n` known bytes. */
  function Votes(known: seq<KnownByte>, n: nat, fromPayload: bool): Bucket
    requires n <= |known|
  {
    if n == 0 then map[]
    else if known[n - 1].fromPayload == fromPayload then Vote(Votes(known, n - 1, fromPayload), known[n - 1])
    else Votes(known, n - 1, fromPayload)
  }

  lemma {:induction false} VotesNonempty(known: seq<KnownByte>, n: nat, fromPayload: bool)
    requires n <= |known|
    ensures Nonempty(Votes(known, n, fromPayload))
  {
    if n > 0 { VotesNonempty(known, n - 1, fromPayload); }
  }

  predicate Nonempty(b: Bucket) {
    forall i :: i in b ==> b[i] != {}
  }

  /** What recovery reports: the pad; the positions nothing established; the positions where
      sources of equal standing disagree, with the values they give; and, if the payload
      disagrees with the header, at how many of how many checkable positions.

      The tool reports these as lists in rising order of position. */
  datatype Recovery = Recovery(pad: Bytes, missing: set<nat>, disputes: Bucket, rejected: Option<(nat, nat)>)

  function Least(s: set<Byte>): (m: Byte)
    requires s != {}
    ensures m in s && forall x :: x in s ==> m <= x
  {
    LeastFrom(s, 0)
  }

  function LeastFrom(s: set<Byte>, k: nat): (m: Byte)
    requires s != {} && forall x :: x in s ==> k <= x
    ensures m in s && forall x :: x in s ==> m <= x
    decreases 256 - k
  {
    var x :| x in s;
    if k in s then k else LeastFrom(s, k + 1)
  }

  // What recovery amounts to, position by position.

  /** Positions where the header and the payload can be compared. */
  function Overlap(firm: Bucket, loose: Bucket): set<nat> {
    set i | i in loose && i in firm
  }

  function Disagreed(firm: Bucket, loose: Bucket): set<nat> {
    set i | i in loose && i in firm && loose[i] != firm[i]
  }

  /** The disputed positions among the first `n`. */
  function Disputed(b: Bucket, n: nat): Bucket {
    map i | i in b && i < n && |b[i]| > 1 :: b[i]
  }

  /** The positions among the first `n` that nothing speaks of. */
  function Missing(b: Bucket, n: nat): set<nat> {
    set i | 0 <= i < n && i !in b
  }

  /** The payload is trusted unless it disagrees with the header somewhere, which is not
      looked into when the header disagrees with itself. */
  predicate Trusted(firm: Bucket, loose: Bucket) {
    Disputed(firm, PAD_SIZE) != map[] || Disagreed(firm, loose) == {}
  }

  lemma {:induction false} SubsetSize(a: set<nat>, b: set<nat>)
    requires a <= b
    ensures |a| <= |b|
    decreases |a|
  {
    if x :| x in a { SubsetSize(a - {x}, b - {x}); }
  }

  /** What is reported when the payload is not trusted: at how many positions it disagrees with the
      header, of how many both speak of. */
  lemma RejectedIs(firm: Bucket, loose: Bucket)
    requires Nonempty(firm) && Nonempty(loose) && Recovered(firm, loose).rejected.Some?
    ensures var (bad, both) := Recovered(firm, loose).rejected.value;
      0 < bad <= both && both <= |firm.Keys| && both <= |loose.Keys|
  {
    assert Disagreed(firm, loose) != {};
    SubsetSize(Disagreed(firm, loose), Overlap(firm, loose));
    SubsetSize(Overlap(firm, loose), firm.Keys);
    SubsetSize(Overlap(firm, loose), loose.Keys);
  }

  /** The bucket that decides a pad byte, if any does. */
  function Deciding(firm: Bucket, loose: Bucket, trusted: bool): Bucket {
    if trusted then loose + firm else firm
  }

  function ByteFrom(b: Bucket, i: nat): Byte
    requires Nonempty(b)
  {
    if i in b then Least(b[i]) else 0
  }

  function PadFrom(b: Bucket): (pad: Bytes)
    requires Nonempty(b)
    ensures |pad| == PAD_SIZE
  {
    seq(PAD_SIZE, i requires 0 <= i < PAD_SIZE => ByteFrom(b, i))
  }

  function Recovered(firm: Bucket, loose: Bucket): (r: Recovery)
    requires Nonempty(firm) && Nonempty(loose)
    ensures |r.pad| == PAD_SIZE
  {
    var trusted := Trusted(firm, loose);
    Recovery(PadFrom(Deciding(firm, loose, trusted)),
             Missing(Deciding(firm, loose, trusted), PAD_SIZE),
             Disputed(Deciding(firm, loose, trusted), PAD_SIZE),
             if trusted then None else Some((|Disagreed(firm, loose)|, |Overlap(firm, loose)|)))
  }

  method Sort(known: seq<KnownByte>) returns (firm: Bucket, loose: Bucket)
    ensures firm == Votes(known, |known|, false) && loose == Votes(known, |known|, true)
  {
    firm, loose := map[], map[];
    for n := 0 to |known|
      invariant firm == Votes(known, n, false) && loose == Votes(known, n, true)
    {
      if known[n].fromPayload {
        loose := Vote(loose, known[n]);
      } else {
        firm := Vote(firm, known[n]);
      }
    }
  }

  /** The first pass: the payload-independent sources decide. */
  method SettleFirm(firm: Bucket) returns (pad: Bytes, disputes: Bucket)
    requires Nonempty(firm)
    ensures pad == PadFrom(firm) && disputes == Disputed(firm, PAD_SIZE)
  {
    pad := seq(PAD_SIZE, _ => 0);
    disputes := map[];
    for i := 0 to PAD_SIZE
      invariant |pad| == PAD_SIZE
      invariant forall j :: 0 <= j < PAD_SIZE ==> pad[j] == if j < i then ByteFrom(firm, j) else 0
      invariant disputes == Disputed(firm, i)
    {
      if i in firm {
        if |firm[i]| > 1 {
          disputes := disputes[i := firm[i]];
        }
        pad := pad[i := Least(firm[i])];
      }
    }
  }

  lemma DisputeStep(firm: Bucket, loose: Bucket, trusted: bool, i: nat)
    requires i < PAD_SIZE
    ensures var d := Deciding(firm, loose, trusted);
      var base := Disputed(firm, PAD_SIZE);
      base + Disputed(d, i + 1)
        == if i !in firm && i in d && |d[i]| > 1 then (base + Disputed(d, i))[i := d[i]] else base + Disputed(d, i)
  {
    var d := Deciding(firm, loose, trusted);
    var now := Disputed(d, i);
    assert Disputed(d, i + 1) == if i in d && |d[i]| > 1 then now[i := d[i]] else now;
    if i in firm {
      assert d[i] == firm[i];
    }
  }

  lemma DisputesKept(firm: Bucket, loose: Bucket, trusted: bool)
    ensures var d := Deciding(firm, loose, trusted);
      Disputed(firm, PAD_SIZE) + Disputed(d, PAD_SIZE) == Disputed(d, PAD_SIZE)
  {
    var d := Deciding(firm, loose, trusted);
    assert forall i :: i in firm ==> i in d && d[i] == firm[i];
  }

  /** The pad when the last pass has reached position `n`. */
  function PadSoFar(firm: Bucket, d: Bucket, n: nat): (pad: Bytes)
    requires Nonempty(firm) && Nonempty(d)
    ensures |pad| == PAD_SIZE
  {
    seq(PAD_SIZE, i requires 0 <= i < PAD_SIZE => if i < n then ByteFrom(d, i) else ByteFrom(firm, i))
  }

  lemma PadStep(firm: Bucket, loose: Bucket, trusted: bool, i: nat)
    requires i < PAD_SIZE && Nonempty(firm) && Nonempty(loose)
    ensures Nonempty(Deciding(firm, loose, trusted))
    ensures var d := Deciding(firm, loose, trusted);
      PadSoFar(firm, d, i + 1)
        == if i !in firm && i in d then PadSoFar(firm, d, i)[i := Least(d[i])] else PadSoFar(firm, d, i)
  {
    var d := Deciding(firm, loose, trusted);
    assert i in firm ==> d[i] == firm[i];
    assert PadSoFar(firm, d, i + 1) == PadSoFar(firm, d, i)[i := ByteFrom(d, i)];
    assert PadSoFar(firm, d, i)[i] == ByteFrom(firm, i);
    assert PadSoFar(firm, d, i) == PadSoFar(firm, d, i)[i := ByteFrom(firm, i)];
  }

  lemma MissingStep(firm: Bucket, loose: Bucket, trusted: bool, i: nat)
    requires i < PAD_SIZE
    ensures var d := Deciding(firm, loose, trusted);
      Missing(d, i + 1) == if i in firm || (i in loose && trusted) then Missing(d, i) else Missing(d, i) + {i}
  {}

  /** The last pass: what is left over, from the payload if it may speak. */
  method SettleRest(firm: Bucket, loose: Bucket, trusted: bool, start: Bytes, disputesIn: Bucket)
    returns (pad: Bytes, missing: set<nat>, disputes: Bucket)
    requires Nonempty(firm) && Nonempty(loose)
    requires start == PadFrom(firm) && disputesIn == Disputed(firm, PAD_SIZE)
    ensures Nonempty(Deciding(firm, loose, trusted))
    ensures var d := Deciding(firm, loose, trusted);
      pad == PadFrom(d) && missing == Missing(d, PAD_SIZE) && disputes == Disputed(d, PAD_SIZE)
  {
    pad, missing, disputes := start, {}, disputesIn;
    for i := 0 to PAD_SIZE
      invariant Settling(firm, Deciding(firm, loose, trusted), i, pad, missing, disputes)
    {
      pad, missing, disputes := SettleAt(firm, loose, trusted, i, pad, missing, disputes);
    }
    DisputesKept(firm, loose, trusted);
  }

  /** What the last pass has settled when it has reached position `n`. */
  ghost predicate Settling(firm: Bucket, d: Bucket, n: nat, pad: Bytes, missing: set<nat>, disputes: Bucket)
  {
    && Nonempty(firm) && Nonempty(d) && pad == PadSoFar(firm, d, n)
    && missing == Missing(d, n) && disputes == Disputed(firm, PAD_SIZE) + Disputed(d, n)
  }

  method SettleAt(firm: Bucket, loose: Bucket, trusted: bool, i: nat, padIn: Bytes, missingIn: set<nat>,
                  disputesIn: Bucket)
    returns (pad: Bytes, missing: set<nat>, disputes: Bucket)
    requires Nonempty(loose) && i < PAD_SIZE
    requires Settling(firm, Deciding(firm, loose, trusted), i, padIn, missingIn, disputesIn)
    ensures Settling(firm, Deciding(firm, loose, trusted), i + 1, pad, missing, disputes)
  {
    DisputeStep(firm, loose, trusted, i);
    PadStep(firm, loose, trusted, i);
    MissingStep(firm, loose, trusted, i);
    pad, missing, disputes := padIn, missingIn, disputesIn;
    if i in firm {
    } else if i in loose && trusted {
      if |loose[i]| > 1 {
        disputes := disputes[i := loose[i]];
      }
      pad := pad[i := Least(loose[i])];
    } else {
      missing := missing + {i};
    }
  }

  function FirmVotes(sha: Digest, p: Parts): Bucket
    requires |p.header| == HEADER_SIZE && |p.carried| < TWO32
  {
    Votes(Known(sha, p), |Known(sha, p)|, false)
  }

  function LooseVotes(sha: Digest, p: Parts): Bucket
    requires |p.header| == HEADER_SIZE && |p.carried| < TWO32
  {
    Votes(Known(sha, p), |Known(sha, p)|, true)
  }

  function RecoveryOf(sha: Digest, p: Parts): (r: Recovery)
    requires |p.header| == HEADER_SIZE && |p.carried| < TWO32
    ensures |r.pad| == PAD_SIZE
  {
    VotesNonempty(Known(sha, p), |Known(sha, p)|, false);
    VotesNonempty(Known(sha, p), |Known(sha, p)|, true);
    Recovered(FirmVotes(sha, p), LooseVotes(sha, p))
  }

  /** Recovers the pad from known plaintext and reports what went unproven.  Sources that
      do not depend on the payload decide; the others fill in only what is left over, and
      only if they agree with the first wherever the two overlap. */
  method RecoverPad(sha: Digest, p: Parts) returns (r: Recovery)
    requires |p.header| == HEADER_SIZE && |p.carried| < TWO32
    ensures r == RecoveryOf(sha, p)
  {
    var known := KnownPlaintext(sha, p);
    var firm, loose := Sort(known);
    VotesNonempty(known, |known|, false);
    VotesNonempty(known, |known|, true);
    var start, disputes := SettleFirm(firm);
    var overlap := if disputes == map[] then set i | i in loose && i in firm else {};
    var disagreed := set i | i in overlap && loose[i] != firm[i];
    var pad, missing, all := SettleRest(firm, loose, disagreed == {}, start, disputes);
    assert disputes == map[] ==> overlap == Overlap(firm, loose) && disagreed == Disagreed(firm, loose);
    assert (disagreed == {}) == Trusted(firm, loose);
    return Recovery(pad, missing, all, if disagreed != {} then Some((|disagreed|, |overlap|)) else None);
  }

  // What the votes are.

  /** A bucket holds exactly the values the known bytes give. */
  lemma {:induction false} VotesSay(known: seq<KnownByte>, n: nat, fromPayload: bool, i: nat, v: Byte)
    requires n <= |known|
    ensures var b := Votes(known, n, fromPayload);
      i in b && v in b[i] <==> KnownByte(i, v, fromPayload) in known[..n]
  {
    if n > 0 {
      VotesSay(known, n - 1, fromPayload, i, v);
      assert known[..n] == known[..n - 1] + [known[n - 1]];
    }
  }

  /** The value the header gives for a pad byte. */
  function HeaderSays(p: Parts, i: nat): Byte
    requires |p.header| == HEADER_SIZE && |p.carried| < TWO32 && i < 14
  {
    XorByte(p.header[32 + i], if i < 10 then PROJECT_FIELD[i] else Le32(|p.carried|)[i - 10])
  }

  /** The values the payload gives for a pad byte. */
  function PayloadSays(sha: Digest, p: Parts, i: nat): set<Byte>
    requires |p.header| == HEADER_SIZE && i < PAD_SIZE
  {
    if p.kind.Www? then {XorByte(p.header[i], sha(p.carried)[i]), XorByte(p.header[16 + i], sha(p.carried)[16 + i])}
    else if |p.carried| >= RESERV1_END && i >= 8 then {p.carried[32 + i]}
    else {}
  }

  lemma HeaderByteAt(p: Parts, n: nat)
    requires |p.header| == HEADER_SIZE && |p.carried| < TWO32 && n < 14
    ensures (if n < 10 then ProjectBytes(p)[n] else LengthBytes(p)[n - 10]) == KnownByte(n, HeaderSays(p, n), false)
  {
    if n < 10 {
      assert (32 + n) % PAD_SIZE == n;
    } else {
      assert (42 + (n - 10)) % PAD_SIZE == n;
    }
  }

  lemma ProjectBytesAre(p: Parts, i: nat, v: Byte)
    requires |p.header| == HEADER_SIZE && |p.carried| < TWO32
    ensures KnownByte(i, v, false) in ProjectBytes(p) <==> i < 10 && v == HeaderSays(p, i)
  {
    if KnownByte(i, v, false) in ProjectBytes(p) {
      var n :| 0 <= n < 10 && ProjectBytes(p)[n] == KnownByte(i, v, false);
      HeaderByteAt(p, n);
    }
    if i < 10 {
      HeaderByteAt(p, i);
    }
  }

  lemma LengthBytesAre(p: Parts, i: nat, v: Byte)
    requires |p.header| == HEADER_SIZE && |p.carried| < TWO32
    ensures KnownByte(i, v, false) in LengthBytes(p) <==> 10 <= i < 14 && v == HeaderSays(p, i)
  {
    if KnownByte(i, v, false) in LengthBytes(p) {
      var n :| 0 <= n < 4 && LengthBytes(p)[n] == KnownByte(i, v, false);
      HeaderByteAt(p, n + 10);
    }
    if 10 <= i < 14 {
      HeaderByteAt(p, i);
    }
  }

  lemma ReservedByteAt(p: Parts, n: nat)
    requires |p.header| == HEADER_SIZE && p.kind.App? && |p.carried| >= RESERV1_END && n < 8
    ensures ReservedBytes(p)[n] == KnownByte(8 + n, p.carried[40 + n], true)
  {
    XorByteLaws(p.carried[40 + n], 0, 0);
  }

  lemma ReservedBytesAre(sha: Digest, p: Parts, i: nat, v: Byte)
    requires |p.header| == HEADER_SIZE && p.kind.App?
    ensures KnownByte(i, v, true) in ReservedBytes(p) <==> i < PAD_SIZE && v in PayloadSays(sha, p, i)
  {
    if |p.carried| >= RESERV1_END {
      if KnownByte(i, v, true) in ReservedBytes(p) {
        var n :| 0 <= n < 8 && ReservedBytes(p)[n] == KnownByte(i, v, true);
        ReservedByteAt(p, n);
      }
      if 8 <= i < PAD_SIZE {
        ReservedByteAt(p, i - 8);
      }
    }
  }

  lemma DigestBytesAre(sha: Digest, p: Parts, i: nat, v: Byte)
    requires |p.header| == HEADER_SIZE && p.kind.Www?
    ensures KnownByte(i, v, true) in DigestBytes(sha, p) <==> i < PAD_SIZE && v in PayloadSays(sha, p, i)
  {
    if KnownByte(i, v, true) in DigestBytes(sha, p) {
      var n :| 0 <= n < 32 && DigestBytes(sha, p)[n] == KnownByte(i, v, true);
      assert n == i || n == 16 + i;
    }
    if i < PAD_SIZE {
      assert DigestBytes(sha, p)[i] == KnownByte(i, XorByte(p.header[i], sha(p.carried)[i]), true);
      assert DigestBytes(sha, p)[16 + i] == KnownByte(i, XorByte(p.header[16 + i], sha(p.carried)[16 + i]), true);
    }
  }

  lemma KnownByParts(sha: Digest, p: Parts, k: KnownByte)
    requires |p.header| == HEADER_SIZE && |p.carried| < TWO32
    ensures k in Known(sha, p) && !k.fromPayload <==> k in ProjectBytes(p) || k in LengthBytes(p)
    ensures k in Known(sha, p) && k.fromPayload <==> k in ReservedBytes(p) || k in DigestBytes(sha, p)
  {}

  lemma HeaderBytes(sha: Digest, p: Parts, i: nat, v: Byte)
    requires |p.header| == HEADER_SIZE && |p.carried| < TWO32
    ensures KnownByte(i, v, false) in Known(sha, p) <==> i < 14 && v == HeaderSays(p, i)
  {
    KnownByParts(sha, p, KnownByte(i, v, false));
    ProjectBytesAre(p, i, v);
    LengthBytesAre(p, i, v);
  }

  lemma PayloadBytes(sha: Digest, p: Parts, i: nat, v: Byte)
    requires |p.header| == HEADER_SIZE && |p.carried| < TWO32
    ensures KnownByte(i, v, true) in Known(sha, p) <==> i < PAD_SIZE && v in PayloadSays(sha, p, i)
  {
    KnownByParts(sha, p, KnownByte(i, v, true));
    if p.kind.App? {
      ReservedBytesAre(sha, p, i, v);
    } else {
      DigestBytesAre(sha, p, i, v);
    }
  }

  lemma FirmVotesAre(sha: Digest, p: Parts)
    requires |p.header| == HEADER_SIZE && |p.carried| < TWO32
    ensures FirmVotes(sha, p) == map i | 0 <= i < 14 :: {HeaderSays(p, i)}
  {
    var known := Known(sha, p);
    var b := FirmVotes(sha, p);
    assert known[..|known|] == known;
    VotesNonempty(known, |known|, false);
    var c := map i | 0 <= i < 14 :: {HeaderSays(p, i)};
    forall i: nat, v: Byte ensures i in b && v in b[i] <==> i in c && v in c[i] {
      VotesSay(known, |known|, false, i, v);
      HeaderBytes(sha, p, i, v);
    }
    SameBucket(b, c);
  }

  lemma LooseVotesAre(sha: Digest, p: Parts)
    requires |p.header| == HEADER_SIZE && |p.carried| < TWO32
    ensures LooseVotes(sha, p) == map i | 0 <= i < PAD_SIZE && PayloadSays(sha, p, i) != {} :: PayloadSays(sha, p, i)
  {
    var known := Known(sha, p);
    var b := LooseVotes(sha, p);
    assert known[..|known|] == known;
    VotesNonempty(known, |known|, true);
    var c := map i | 0 <= i < PAD_SIZE && PayloadSays(sha, p, i) != {} :: PayloadSays(sha, p, i);
    forall i: nat, v: Byte ensures i in b && v in b[i] <==> i in c && v in c[i] {
      VotesSay(known, |known|, true, i, v);
      PayloadBytes(sha, p, i, v);
    }
    SameBucket(b, c);
  }

  lemma SameBucket(b: Bucket, c: Bucket)
    requires Nonempty(b) && Nonempty(c)
    requires forall i: nat, v: Byte :: i in b && v in b[i] <==> i in c && v in c[i]
    ensures b == c
  {
    forall i | i in b ensures i in c && b[i] == c[i] {
      var v :| v in b[i];
      assert i in c && v in c[i];
      assert forall w: Byte :: w in b[i] <==> w in c[i];
    }
    forall i | i in c ensures i in b {
      var v :| v in c[i];
      assert i in b && v in b[i];
    }
  }

  // What recovery establishes.

  /** The container of a payload after the payload part has become `carried`. */
  function Damaged(sha: Digest, kind: Kind, payload: Bytes, pad: Pad, reserved: Bytes, carried: Bytes): (p: Parts)
    requires |reserved| == 2 && |payload| < TWO32 && |carried| == |payload|
    ensures |p.header| == HEADER_SIZE && p.carried == carried && p.kind == kind
    ensures p.header == XorPad(Header(sha, payload, reserved).value, pad, 0)
  {
    PackedParts(sha, kind, payload, pad, reserved).(carried := carried)
  }

  /** Recovery gave the pad and had nothing to say against it. */
  predicate Settled(r: Recovery, pad: Pad) {
    r == Recovery(pad, {}, map[], None)
  }

  /** Positions the recovery vouches for. */
  function Established(r: Recovery): set<nat> {
    set i | 0 <= i < PAD_SIZE && i !in r.missing && i !in r.disputes
  }

  lemma HeaderSaysPad(sha: Digest, kind: Kind, payload: Bytes, pad: Pad, reserved: Bytes, carried: Bytes, i: nat)
    requires |reserved| == 2 && |payload| < TWO32 && |carried| == |payload| && i < 14
    ensures HeaderSays(Damaged(sha, kind, payload, pad, reserved, carried), i) == pad[i]
  {
    var h := Header(sha, payload, reserved).value;
    var plain := if i < 10 then PROJECT_FIELD[i] else Le32(|payload|)[i - 10];
    assert h[32 + i] == plain;
    assert (32 + i) % PAD_SIZE == i;
    XorByteLaws(plain, pad[i], 0);
  }

  /** The header speaks of positions 0 to 13, with one voice, and tells the pad. */
  predicate Tells(firm: Bucket, pad: Pad) {
    firm == map i | 0 <= i < 14 :: {pad[i]}
  }

  lemma HeaderTells(sha: Digest, kind: Kind, payload: Bytes, pad: Pad, reserved: Bytes, carried: Bytes)
    requires |reserved| == 2 && |payload| < TWO32 && |carried| == |payload|
    ensures Tells(FirmVotes(sha, Damaged(sha, kind, payload, pad, reserved, carried)), pad)
  {
    var p := Damaged(sha, kind, payload, pad, reserved, carried);
    FirmVotesAre(sha, p);
    forall i | 0 <= i < 14 ensures HeaderSays(p, i) == pad[i] {
      HeaderSaysPad(sha, kind, payload, pad, reserved, carried, i);
    }
  }

  lemma TrustedIff(firm: Bucket, loose: Bucket, pad: Pad)
    requires Tells(firm, pad)
    ensures Disputed(firm, PAD_SIZE) == map[]
    ensures Trusted(firm, loose) <==> forall i :: i in loose && i < 14 ==> loose[i] == {pad[i]}
  {
    var disagreed := Disagreed(firm, loose);
    if disagreed != {} {
      var i :| i in disagreed;
      assert i in loose && i < 14 && loose[i] != {pad[i]};
    }
    forall i | i in loose && i < 14 && loose[i] != {pad[i]} ensures disagreed != {} {
      assert i in disagreed;
    }
  }

  /** Where the header speaks, its word stands. */
  lemma FirmStands(firm: Bucket, loose: Bucket, pad: Pad)
    requires Tells(firm, pad) && Nonempty(firm) && Nonempty(loose)
    ensures var r := Recovered(firm, loose);
      r.pad[..14] == pad[..14] && forall i: nat :: i < 14 ==> i in Established(r)
  {
    var r := Recovered(firm, loose);
    var d := Deciding(firm, loose, Trusted(firm, loose));
    forall i | 0 <= i < 14 ensures r.pad[..14][i] == pad[..14][i] {
      assert d[i] == {pad[i]};
      assert Least(d[i]) in {pad[i]};
    }
  }

  lemma SettledWhy(firm: Bucket, loose: Bucket, pad: Pad, i: nat)
    requires Tells(firm, pad) && Nonempty(firm) && Nonempty(loose) && 14 <= i < PAD_SIZE
    requires Settled(Recovered(firm, loose), pad)
    ensures Trusted(firm, loose) && i in loose && loose[i] == {pad[i]}
  {
    var r := Recovered(firm, loose);
    var d := Deciding(firm, loose, Trusted(firm, loose));
    assert i in d by { assert i !in r.missing; }
    assert i !in r.disputes;
    assert r.pad[i] == Least(d[i]);
    OneElement(d[i], pad[i]);
  }

  /** Every position is decided, and for the pad. */
  predicate DecidesFor(d: Bucket, pad: Pad) {
    forall i | 0 <= i < PAD_SIZE :: i in d && d[i] == {pad[i]}
  }

  lemma DecidedAll(d: Bucket, pad: Pad)
    requires DecidesFor(d, pad) && Nonempty(d)
    ensures PadFrom(d) == pad && Missing(d, PAD_SIZE) == {} && Disputed(d, PAD_SIZE) == map[]
  {
    forall i | 0 <= i < PAD_SIZE ensures PadFrom(d)[i] == pad[i] {
      assert Least(d[i]) in {pad[i]};
    }
  }

  lemma SettledThen(firm: Bucket, loose: Bucket, pad: Pad)
    requires Tells(firm, pad) && Nonempty(firm) && Nonempty(loose) && Trusted(firm, loose)
    requires 14 in loose && loose[14] == {pad[14]} && 15 in loose && loose[15] == {pad[15]}
    ensures Settled(Recovered(firm, loose), pad)
  {
    var d := Deciding(firm, loose, true);
    forall i | 0 <= i < PAD_SIZE ensures i in d && d[i] == {pad[i]} {
      if i < 14 { assert i in firm; }
    }
    DecidedAll(d, pad);
  }

  /** The payload's votes are all the pad's, and reach the last two positions. */
  predicate Supports(loose: Bucket, pad: Pad) {
    && (forall i | 0 <= i < PAD_SIZE :: i in loose ==> loose[i] == {pad[i]})
    && 14 in loose && 15 in loose
  }

  /** Recovery settles on the pad exactly when the payload's votes support it throughout. */
  lemma SettledIff(firm: Bucket, loose: Bucket, pad: Pad)
    requires Tells(firm, pad) && Nonempty(firm) && Nonempty(loose)
    ensures Settled(Recovered(firm, loose), pad) <==> Supports(loose, pad)
  {
    if Settled(Recovered(firm, loose), pad) {
      SettledSupports(firm, loose, pad);
    }
    if Supports(loose, pad) {
      TrustedIff(firm, loose, pad);
      SettledThen(firm, loose, pad);
    }
  }

  lemma SettledSupports(firm: Bucket, loose: Bucket, pad: Pad)
    requires Tells(firm, pad) && Nonempty(firm) && Nonempty(loose)
    requires Settled(Recovered(firm, loose), pad)
    ensures Supports(loose, pad)
  {
    SettledWhy(firm, loose, pad, 14);
    SettledWhy(firm, loose, pad, 15);
    TrustedIff(firm, loose, pad);
    forall i | 0 <= i < PAD_SIZE && i in loose ensures loose[i] == {pad[i]} {
      if i >= 14 { SettledWhy(firm, loose, pad, i); }
    }
  }

  lemma OneElement(s: set<Byte>, v: Byte)
    requires v in s && |s| <= 1
    ensures s == {v}
  {
    assert |s - {v}| == 0;
  }

  lemma XorIsZero(x: Byte, y: Byte)
    ensures XorByte(x, y) == 0 <==> x == y
  {
    XorByteLaws(x, 0, 0);
    XorByteLaws(x, y, x);
  }

  /** What the payload must show for recovery to settle: an application payload, decoded with
      the true pad, has zeros where the descriptor is zero-filled; a web payload still has
      the digest that was packed. */
  predicate PayloadVouches(sha: Digest, kind: Kind, payload: Bytes, pad: Pad, carried: Bytes) {
    if kind.Www? then sha(carried) == sha(payload)
    else
      && |carried| >= RESERV1_END
      && forall i :: RESERV1_START <= i < RESERV1_END ==> XorPad(carried, pad, HEADER_SIZE)[i] == 0
  }

  lemma WwwVote(x: Byte, y: Byte, c: Byte, d: Byte, k: Byte)
    ensures {XorByte(XorByte(x, k), c), XorByte(XorByte(y, k), d)} == {k} <==> c == x && d == y
  {
    XorByteLaws(x, k, 0);
    XorByteLaws(y, k, 0);
    XorByteLaws(XorByte(x, k), x, c);
    XorByteLaws(XorByte(y, k), y, d);
    assert XorByte(XorByte(x, k), c) in {XorByte(XorByte(x, k), c), XorByte(XorByte(y, k), d)};
    assert XorByte(XorByte(y, k), d) in {XorByte(XorByte(x, k), c), XorByte(XorByte(y, k), d)};
  }

  /** Two digests agree at the two positions that use pad byte `i`. */
  predicate SameAt(a: Hash, b: Hash, i: nat)
    requires i < PAD_SIZE
  {
    a[i] == b[i] && a[16 + i] == b[16 + i]
  }

  lemma SameDigest(a: Hash, b: Hash)
    requires forall i | 0 <= i < PAD_SIZE :: SameAt(a, b, i)
    ensures a == b
  {
    forall n | 0 <= n < 32 ensures a[n] == b[n] {
      assert SameAt(a, b, if n < 16 then n else n - 16);
    }
  }

  lemma WwwSays(sha: Digest, payload: Bytes, pad: Pad, reserved: Bytes, carried: Bytes, i: nat)
    requires |reserved| == 2 && |payload| < TWO32 && |carried| == |payload| && i < PAD_SIZE
    ensures var says := PayloadSays(sha, Damaged(sha, Www, payload, pad, reserved, carried), i);
      says != {} && (says == {pad[i]} <==> SameAt(sha(carried), sha(payload), i))
  {
    var p := Damaged(sha, Www, payload, pad, reserved, carried);
    assert p.header[i] == XorByte(sha(payload)[i], pad[i]);
    assert p.header[16 + i] == XorByte(sha(payload)[16 + i], pad[i]);
    WwwVote(sha(payload)[i], sha(payload)[16 + i], sha(carried)[i], sha(carried)[16 + i], pad[i]);
    assert XorByte(p.header[i], sha(p.carried)[i]) in PayloadSays(sha, p, i);
  }

  lemma WwwSupports(sha: Digest, payload: Bytes, pad: Pad, reserved: Bytes, carried: Bytes)
    requires |reserved| == 2 && |payload| < TWO32 && |carried| == |payload|
    ensures Supports(LooseVotes(sha, Damaged(sha, Www, payload, pad, reserved, carried)), pad)
      <==> sha(carried) == sha(payload)
  {
    var p := Damaged(sha, Www, payload, pad, reserved, carried);
    var loose := LooseVotes(sha, p);
    forall i | 0 <= i < PAD_SIZE
      ensures i in loose && (loose[i] == {pad[i]} <==> SameAt(sha(carried), sha(payload), i))
    {
      WwwSays(sha, payload, pad, reserved, carried, i);
      LooseVotesAre(sha, p);
    }
    if Supports(loose, pad) {
      SameDigest(sha(carried), sha(payload));
    }
  }

  lemma AppSays(sha: Digest, p: Parts, pad: Pad, i: nat)
    requires |p.header| == HEADER_SIZE && p.kind.App? && |p.carried| >= RESERV1_END && 8 <= i < PAD_SIZE
    ensures PayloadSays(sha, p, i) == {p.carried[32 + i]}
    ensures PayloadSays(sha, p, i) == {pad[i]} <==> XorPad(p.carried, pad, HEADER_SIZE)[32 + i] == 0
  {
    assert (HEADER_SIZE + (32 + i)) % PAD_SIZE == i;
    XorIsZero(p.carried[32 + i], pad[i]);
    assert p.carried[32 + i] in {p.carried[32 + i]};
  }

  lemma AppSupports(sha: Digest, p: Parts, pad: Pad)
    requires |p.header| == HEADER_SIZE && p.kind.App? && |p.carried| < TWO32
    ensures Supports(LooseVotes(sha, p), pad)
      <==> |p.carried| >= RESERV1_END
           && forall n :: RESERV1_START <= n < RESERV1_END ==> XorPad(p.carried, pad, HEADER_SIZE)[n] == 0
  {
    LooseVotesAre(sha, p);
    var loose := LooseVotes(sha, p);
    if |p.carried| >= RESERV1_END {
      forall i | 8 <= i < PAD_SIZE
        ensures i in loose && (loose[i] == {pad[i]} <==> XorPad(p.carried, pad, HEADER_SIZE)[32 + i] == 0)
      {
        AppSays(sha, p, pad, i);
      }
      if Supports(loose, pad) {
        forall n | RESERV1_START <= n < RESERV1_END ensures XorPad(p.carried, pad, HEADER_SIZE)[n] == 0 {
          assert loose[n - 32] == {pad[n - 32]};
        }
      }
    }
  }

  /** Whatever has become of the payload at the same length, recovery gives exactly the true
      pad, with nothing missing and nothing in dispute, if and only if the payload vouches
      for it. */
  lemma PadRecoveredIff(sha: Digest, kind: Kind, payload: Bytes, pad: Pad, reserved: Bytes, carried: Bytes)
    requires |reserved| == 2 && |payload| < TWO32 && |carried| == |payload|
    ensures Settled(RecoveryOf(sha, Damaged(sha, kind, payload, pad, reserved, carried)), pad)
      <==> PayloadVouches(sha, kind, payload, pad, carried)
  {
    var p := Damaged(sha, kind, payload, pad, reserved, carried);
    HeaderTells(sha, kind, payload, pad, reserved, carried);
    VotesNonempty(Known(sha, p), |Known(sha, p)|, false);
    VotesNonempty(Known(sha, p), |Known(sha, p)|, true);
    SettledIff(FirmVotes(sha, p), LooseVotes(sha, p), pad);
    if kind.Www? {
      WwwSupports(sha, payload, pad, reserved, carried);
    } else {
      AppSupports(sha, p, pad);
    }
  }

  /** The descriptor's zero-filled stretch is there, and zero up to `end`. */
  predicate ZeroFilled(payload: Bytes, end: nat)
    requires end <= RESERV1_END
  {
    |payload| >= RESERV1_END && forall i | RESERV1_START <= i < end :: payload[i] == 0
  }

  /** On an intact container: always for a web payload; for an application payload exactly
      when it has at least 48 bytes and zeros at 40 to 47. */
  lemma IntactPadRecovered(sha: Digest, kind: Kind, payload: Bytes, pad: Pad, reserved: Bytes)
    requires |reserved| == 2 && |payload| < TWO32
    ensures Settled(RecoveryOf(sha, PackedParts(sha, kind, payload, pad, reserved)), pad)
      <==> kind.Www? || ZeroFilled(payload, RESERV1_END)
  {
    var p := PackedParts(sha, kind, payload, pad, reserved);
    assert p == Damaged(sha, kind, payload, pad, reserved, p.carried);
    PadRecoveredIff(sha, kind, payload, pad, reserved, p.carried);
    XorPadTwice(payload, pad, HEADER_SIZE);
  }

  /** However the payload is damaged at the same length, the first fourteen pad bytes come
      back right and vouched for. */
  lemma DamageCannotUnseat(sha: Digest, kind: Kind, payload: Bytes, pad: Pad, reserved: Bytes, carried: Bytes)
    requires |reserved| == 2 && |payload| < TWO32 && |carried| == |payload|
    ensures var r := RecoveryOf(sha, Damaged(sha, kind, payload, pad, reserved, carried));
      r.pad[..14] == pad[..14] && forall i: nat :: i < 14 ==> i in Established(r)
  {
    var p := Damaged(sha, kind, payload, pad, reserved, carried);
    HeaderTells(sha, kind, payload, pad, reserved, carried);
    VotesNonempty(Known(sha, p), |Known(sha, p)|, false);
    VotesNonempty(Known(sha, p), |Known(sha, p)|, true);
    FirmStands(FirmVotes(sha, p), LooseVotes(sha, p), pad);
  }

  // ---------------------------------------------------------------- the verdict

  /** What inspection says: fully checked; the pad does not decode the header; nothing of the
      pad is established; checked as far as the pad goes; or corrupt. */
  datatype Verdict = OkFull | BadPad(why: Complaints) | Unestablished | OkPartial(of: nat) | Mismatch(of: nat)

  /** The digest positions whose pad byte is established. */
  function Checkable(established: set<nat>): set<nat> {
    set n | 0 <= n < 32 && n % PAD_SIZE in established
  }

  /** With the pad established at the fourteen positions that every header gives away, twenty-eight of
      the digest's bytes can be checked. */
  lemma CheckableCount(established: set<nat>)
    requires forall i: nat :: i in established <==> i < 14
    ensures |Checkable(established)| == 28
  {
    var all := Below(32);
    var some := all - {14} - {15};
    var rest := some - {30} - {31};
    forall n ensures n in Checkable(established) <==> n in rest {
      if 0 <= n < 32 { BeyondFourteen(n); }
    }
    assert Checkable(established) == rest;
    assert 14 in all && 15 in all - {14} && 30 in some && 31 in some - {30};
  }

  lemma Below(n: nat) returns (s: set<nat>)
    ensures |s| == n && forall i: nat :: i in s <==> i < n
  {
    s := Positions(n);
  }

  lemma BeyondFourteen(n: nat)
    requires n < 32
    ensures n % PAD_SIZE < 14 <==> n != 14 && n != 15 && n != 30 && n != 31
  {
    assert n % PAD_SIZE == if n < 16 then n else n - 16;
  }

  predicate Agree(a: Hash, b: Hash, established: set<nat>) {
    forall n | 0 <= n < 32 :: n % PAD_SIZE in established ==> a[n] == b[n]
  }

  function Inspect(sha: Digest, p: Parts, pad: Pad, established: set<nat>): Verdict
    requires |p.header| == HEADER_SIZE
  {
    var agrees := Agree(sha(Decoded(p, pad)), DigestField(XorPad(p.header, pad, 0)), established);
    var checkable := |Checkable(established)|;
    if agrees && checkable == 32 then OkFull
    else if ValidatePad(p, pad).Any() then BadPad(ValidatePad(p, pad))
    else if checkable == 0 then Unestablished
    else if agrees then OkPartial(checkable)
    else Mismatch(checkable)
  }

  /** The positions below `n`. */
  function Positions(n: nat): (s: set<nat>)
    ensures |s| == n && forall i: nat :: i in s <==> i < n
  {
    if n == 0 then {} else Positions(n - 1) + {n - 1}
  }

  lemma PositionsCount(s: set<nat>, n: nat)
    requires forall i: nat :: i in s <==> i < n
    ensures |s| == n
  {
    assert s == Positions(n);
  }

  /** With the true pad supplied, and so established throughout, the verdict is never open:
      OK if the payload has the digest that was packed, MISMATCH over all 32 bytes if not. */
  lemma VerdictWithTruePad(sha: Digest, kind: Kind, payload: Bytes, pad: Pad, reserved: Bytes, carried: Bytes,
                           established: set<nat>)
    requires |reserved| == 2 && |payload| < TWO32 && |carried| == |payload|
    requires forall i: nat :: i < PAD_SIZE ==> i in established
    ensures var p := Damaged(sha, kind, payload, pad, reserved, carried);
      Inspect(sha, p, pad, established) == if sha(Decoded(p, pad)) == sha(payload) then OkFull else Mismatch(32)
  {
    var p := Damaged(sha, kind, payload, pad, reserved, carried);
    XorPadTwice(Header(sha, payload, reserved).value, pad, 0);
    HeaderFields(sha, payload, reserved);
    NoComplaintIff(sha, kind, payload, pad, reserved, carried, pad);
    PositionsCount(Checkable(established), 32);
    AgreeEverywhere(sha(Decoded(p, pad)), sha(payload), established);
  }

  lemma AgreeEverywhere(a: Hash, b: Hash, established: set<nat>)
    requires forall i: nat :: i < PAD_SIZE ==> i in established
    ensures Agree(a, b, established) <==> a == b
  {
    if Agree(a, b, established) {
      forall n | 0 <= n < 32 ensures a[n] == b[n] {
        assert n % PAD_SIZE in established;
      }
    }
  }

  /** A container is called corrupt only through a pad that is right at positions 0 to 13. */
  lemma MismatchMeansHeaderDecodes(sha: Digest, kind: Kind, payload: Bytes, pad: Pad, reserved: Bytes, carried: Bytes,
                                   other: Pad, established: set<nat>)
    requires |reserved| == 2 && |payload| < TWO32 && |carried| == |payload|
    ensures Inspect(sha, Damaged(sha, kind, payload, pad, reserved, carried), other, established).Mismatch?
      ==> other[..14] == pad[..14]
  {
    NoComplaintIff(sha, kind, payload, pad, reserved, carried, other);
  }

  /** Unpacking a container whose payload may be damaged, through any pad: unless forced, it is
      refused exactly when what decodes has not the digest that decodes, and the pad is blamed
      exactly when it is wrong at positions 0 to 13. */
  lemma UnpackRefusesIff(sha: Digest, kind: Kind, payload: Bytes, pad: Pad, reserved: Bytes, carried: Bytes,
                         other: Pad)
    requires |reserved| == 2 && |payload| < TWO32 && |carried| == |payload|
    ensures var p := Damaged(sha, kind, payload, pad, reserved, carried);
      var r := Unpack(sha, p, other, false);
      && (r.Err? <==> sha(Decoded(p, other)) != DigestField(XorPad(p.header, other, 0)))
      && (r.Err? ==> (r.error.WrongPad? <==> other[..14] != pad[..14]))
      && Unpack(sha, p, other, true).Ok?
  {
    NoComplaintIff(sha, kind, payload, pad, reserved, carried, other);
  }

  /** With the true pad it comes out whole, as damaged, just if it still has the digest that was
      packed; and a damaged payload is written only by force. */
  lemma TruePadUnpacks(sha: Digest, kind: Kind, payload: Bytes, pad: Pad, reserved: Bytes, carried: Bytes, force: bool)
    requires |reserved| == 2 && |payload| < TWO32 && |carried| == |payload|
    ensures var p := Damaged(sha, kind, payload, pad, reserved, carried);
      Unpack(sha, p, pad, force)
        == if force || sha(Decoded(p, pad)) == sha(payload) then Ok(Decoded(p, pad)) else Err(DigestMismatch)
  {
    var p := Damaged(sha, kind, payload, pad, reserved, carried);
    XorPadTwice(Header(sha, payload, reserved).value, pad, 0);
    HeaderFields(sha, payload, reserved);
    NoComplaintIff(sha, kind, payload, pad, reserved, carried, pad);
    Le32RoundTrip(|payload|);
    assert Decoded(p, pad)[..|payload|] == Decoded(p, pad);
  }

  // When an intact container is called corrupt.

  /** What inspection says when it has to recover the pad itself. */
  function Judged(sha: Digest, p: Parts): Verdict
    requires |p.header| == HEADER_SIZE && |p.carried| < TWO32
  {
    Inspect(sha, p, RecoveryOf(sha, p).pad, Established(RecoveryOf(sha, p)))
  }

  lemma AppTrustedIff(sha: Digest, payload: Bytes, pad: Pad, reserved: Bytes)
    requires |reserved| == 2 && RESERV1_END <= |payload| < TWO32
    ensures var p := PackedParts(sha, App, payload, pad, reserved);
      Trusted(FirmVotes(sha, p), LooseVotes(sha, p)) <==> ZeroFilled(payload, 46)
  {
    var p := PackedParts(sha, App, payload, pad, reserved);
    var loose := LooseVotes(sha, p);
    assert p == Damaged(sha, App, payload, pad, reserved, p.carried);
    HeaderTells(sha, App, payload, pad, reserved, p.carried);
    TrustedIff(FirmVotes(sha, p), loose, pad);
    LooseVotesAre(sha, p);
    XorPadTwice(payload, pad, HEADER_SIZE);
    forall i | 8 <= i < 14 ensures i in loose && (loose[i] == {pad[i]} <==> payload[32 + i] == 0) {
      AppSays(sha, p, pad, i);
    }
    if Trusted(FirmVotes(sha, p), loose) {
      forall n | RESERV1_START <= n < 46 ensures payload[n] == 0 {
        assert loose[n - 32] == {pad[n - 32]};
      }
    }
  }

  /** What an application payload says of a position. */
  lemma AppVote(sha: Digest, p: Parts, i: nat)
    requires |p.header| == HEADER_SIZE && p.kind.App? && |p.carried| < TWO32 && 8 <= i < PAD_SIZE
    ensures var loose := LooseVotes(sha, p);
      if |p.carried| < RESERV1_END then i !in loose
      else i in loose && |loose[i]| == 1 && loose[i] != {} && Least(loose[i]) == p.carried[32 + i]
  {
    LooseVotesAre(sha, p);
    if |p.carried| >= RESERV1_END {
      assert p.carried[32 + i] in PayloadSays(sha, p, i);
      assert Least({p.carried[32 + i]}) in {p.carried[32 + i]};
    }
  }

  /** The last two pad bytes of an application container: taken from the payload once it has
      agreed with the header, and otherwise left at zero. */
  lemma GuessAt(sha: Digest, payload: Bytes, pad: Pad, reserved: Bytes, i: nat)
    requires |reserved| == 2 && |payload| < TWO32 && 14 <= i < PAD_SIZE
    ensures var r := RecoveryOf(sha, PackedParts(sha, App, payload, pad, reserved));
      && (i in Established(r) <==> ZeroFilled(payload, 46))
      && r.pad[i] == if ZeroFilled(payload, 46) then XorByte(payload[32 + i], pad[i]) else 0
  {
    var p := PackedParts(sha, App, payload, pad, reserved);
    AppGuess(sha, p, i);
    if |payload| >= RESERV1_END {
      AppTrustedIff(sha, payload, pad, reserved);
      CarriedAt(sha, payload, pad, reserved, i);
    }
  }

  lemma CarriedAt(sha: Digest, payload: Bytes, pad: Pad, reserved: Bytes, i: nat)
    requires |reserved| == 2 && 32 + i < |payload| < TWO32 && i < PAD_SIZE
    ensures PackedParts(sha, App, payload, pad, reserved).carried[32 + i] == XorByte(payload[32 + i], pad[i])
  {
    assert (HEADER_SIZE + (32 + i)) % PAD_SIZE == i;
  }

  lemma AppGuess(sha: Digest, p: Parts, i: nat)
    requires |p.header| == HEADER_SIZE && p.kind.App? && |p.carried| < TWO32 && 14 <= i < PAD_SIZE
    ensures var r := RecoveryOf(sha, p);
      var heard := Trusted(FirmVotes(sha, p), LooseVotes(sha, p)) && |p.carried| >= RESERV1_END;
      && (i in Established(r) <==> heard)
      && r.pad[i] == if heard then p.carried[32 + i] else 0
  {
    HeaderSilent(sha, p, i);
    VotesNonempty(Known(sha, p), |Known(sha, p)|, false);
    VotesNonempty(Known(sha, p), |Known(sha, p)|, true);
    LeftOver(FirmVotes(sha, p), LooseVotes(sha, p), i);
    AppVote(sha, p, i);
  }

  lemma HeaderSilent(sha: Digest, p: Parts, i: nat)
    requires |p.header| == HEADER_SIZE && |p.carried| < TWO32 && i >= 14
    ensures i !in FirmVotes(sha, p)
  {
    FirmVotesAre(sha, p);
  }

  /** A position the header does not speak of. */
  lemma LeftOver(firm: Bucket, loose: Bucket, i: nat)
    requires Nonempty(firm) && Nonempty(loose) && i < PAD_SIZE && i !in firm
    ensures var r := Recovered(firm, loose);
      var heard := Trusted(firm, loose) && i in loose;
      && r.pad[i] == (if heard then Least(loose[i]) else 0)
      && (i in Established(r) <==> heard && |loose[i]| <= 1)
  {
    var d := Deciding(firm, loose, Trusted(firm, loose));
    assert i in d <==> Trusted(firm, loose) && i in loose;
    assert i in d ==> d[i] == loose[i];
  }

  /** Recovery guesses a pad byte wrong that the payload uses. */
  predicate Misguessed(payload: Bytes, pad: Pad) {
    if ZeroFilled(payload, 46) then payload[46] != 0 || payload[47] != 0
    else (|payload| > 14 && pad[14] != 0) || (|payload| > 15 && pad[15] != 0)
  }

  lemma DecodesIff(payload: Bytes, pad: Pad, other: Pad)
    requires other[..14] == pad[..14]
    ensures XorPad(XorPad(payload, pad, HEADER_SIZE), other, HEADER_SIZE) == payload
      <==> (|payload| > 14 ==> other[14] == pad[14]) && (|payload| > 15 ==> other[15] == pad[15])
  {
    var d := XorPad(XorPad(payload, pad, HEADER_SIZE), other, HEADER_SIZE);
    forall i | 0 <= i < |payload| ensures d[i] == payload[i] <==> other[i % PAD_SIZE] == pad[i % PAD_SIZE] {
      DecodesRight(payload, pad, other, HEADER_SIZE, i);
    }
    SameSlice(other, pad, 0, 14);
    assert other[0..14] == other[..14] && pad[0..14] == pad[..14];
    if d == payload {
      assert |payload| > 14 ==> d[14] == payload[14];
      assert |payload| > 15 ==> d[15] == payload[15];
    }
    if (|payload| > 14 ==> other[14] == pad[14]) && (|payload| > 15 ==> other[15] == pad[15]) {
      forall i | 0 <= i < |payload| ensures d[i] == payload[i] {
        assert i % PAD_SIZE < 14 || i % PAD_SIZE == 14 || i % PAD_SIZE == 15;
      }
    }
  }

  lemma MisguessedGarbles(sha: Digest, payload: Bytes, pad: Pad, reserved: Bytes)
    requires |reserved| == 2 && |payload| < TWO32
    ensures var p := PackedParts(sha, App, payload, pad, reserved);
      Decoded(p, RecoveryOf(sha, p).pad) != payload <==> Misguessed(payload, pad)
  {
    var p := PackedParts(sha, App, payload, pad, reserved);
    var guess := RecoveryOf(sha, p).pad;
    assert p == Damaged(sha, App, payload, pad, reserved, p.carried);
    DamageCannotUnseat(sha, App, payload, pad, reserved, p.carried);
    GuessAt(sha, payload, pad, reserved, 14);
    GuessAt(sha, payload, pad, reserved, 15);
    DecodesIff(payload, pad, guess);
    if ZeroFilled(payload, 46) {
      GuessRight(payload[46], pad[14]);
      GuessRight(payload[47], pad[15]);
    }
  }

  lemma GuessRight(x: Byte, k: Byte)
    ensures XorByte(x, k) == k <==> x == 0
  {
    XorByteLaws(x, k, 0);
    XorByteLaws(k, 0, x);
    XorIsZero(k, k);
    XorByteLaws(0, k, 0);
    XorByteLaws(k, x, 0);
  }

  /** The digest tells a garbled payload apart where the header established the pad. */
  predicate ToldApart(a: Hash, b: Hash) {
    exists n | 0 <= n < 32 :: n % PAD_SIZE < 14 && a[n] != b[n]
  }

  /** An intact application container is called corrupt, by a tool that promises not to judge
      what it could not decode, exactly when the payload uses one of the last two pad bytes
      and recovery guessed it wrong: when the zero-filled stretch misleads it, or is absent
      and the true byte is not zero.  (Short of the digest taking the garbled payload for the
      real one.) */
  lemma IntactMisjudgedIff(sha: Digest, payload: Bytes, pad: Pad, reserved: Bytes)
    requires |reserved| == 2 && |payload| < TWO32
    requires var p := PackedParts(sha, App, payload, pad, reserved);
      var decoded := Decoded(p, RecoveryOf(sha, p).pad);
      decoded != payload ==> ToldApart(sha(decoded), sha(payload))
    ensures Judged(sha, PackedParts(sha, App, payload, pad, reserved)).Mismatch? <==> Misguessed(payload, pad)
  {
    var p := PackedParts(sha, App, payload, pad, reserved);
    var r := RecoveryOf(sha, p);
    assert p == Damaged(sha, App, payload, pad, reserved, p.carried);
    MisguessedGarbles(sha, payload, pad, reserved);
    DamageCannotUnseat(sha, App, payload, pad, reserved, p.carried);
    if Misguessed(payload, pad) {
      GarbledIsMismatch(sha, App, payload, pad, reserved, p.carried, r.pad, Established(r));
    } else {
      DecodedAgrees(sha, payload, pad, reserved);
    }
  }

  lemma GarbledIsMismatch(sha: Digest, kind: Kind, payload: Bytes, pad: Pad, reserved: Bytes, carried: Bytes,
                          other: Pad, established: set<nat>)
    requires |reserved| == 2 && |payload| < TWO32 && |carried| == |payload|
    requires other[..14] == pad[..14] && forall i: nat :: i < 14 ==> i in established
    requires ToldApart(sha(Decoded(Damaged(sha, kind, payload, pad, reserved, carried), other)), sha(payload))
    ensures Inspect(sha, Damaged(sha, kind, payload, pad, reserved, carried), other, established).Mismatch?
  {
    var p := Damaged(sha, kind, payload, pad, reserved, carried);
    var h := Header(sha, payload, reserved).value;
    var digest := sha(Decoded(p, other));
    NoComplaintIff(sha, kind, payload, pad, reserved, carried, other);
    var n :| 0 <= n < 32 && n % PAD_SIZE < 14 && digest[n] != sha(payload)[n];
    HeaderFields(sha, payload, reserved);
    DecodesRight(h, pad, other, 0, n);
    assert other[n % PAD_SIZE] == other[..14][n % PAD_SIZE] && pad[n % PAD_SIZE] == pad[..14][n % PAD_SIZE];
    assert DigestField(XorPad(p.header, other, 0))[n] == sha(payload)[n];
    assert n % PAD_SIZE in established;
    assert n in Checkable(established);
  }

  lemma DecodedAgrees(sha: Digest, payload: Bytes, pad: Pad, reserved: Bytes)
    requires |reserved| == 2 && |payload| < TWO32 && !Misguessed(payload, pad)
    ensures !Judged(sha, PackedParts(sha, App, payload, pad, reserved)).Mismatch?
  {
    var p := PackedParts(sha, App, payload, pad, reserved);
    var r := RecoveryOf(sha, p);
    MisguessedGarbles(sha, payload, pad, reserved);
    forall n | 0 <= n < 32 && n % PAD_SIZE in Established(r)
      ensures DigestField(XorPad(p.header, r.pad, 0))[n] == sha(payload)[n]
    {
      EstablishedRight(sha, payload, pad, reserved, n % PAD_SIZE);
      DigestByteRight(sha, payload, pad, reserved, r.pad, n);
    }
    assert Agree(sha(Decoded(p, r.pad)), DigestField(XorPad(p.header, r.pad, 0)), Established(r));
  }

  lemma DigestByteRight(sha: Digest, payload: Bytes, pad: Pad, reserved: Bytes, other: Pad, n: nat)
    requires |reserved| == 2 && |payload| < TWO32 && n < 32 && other[n % PAD_SIZE] == pad[n % PAD_SIZE]
    ensures DigestField(XorPad(PackedParts(sha, App, payload, pad, reserved).header, other, 0))[n] == sha(payload)[n]
  {
    HeaderFields(sha, payload, reserved);
    DecodesRight(Header(sha, payload, reserved).value, pad, other, 0, n);
  }

  /** Unless misguessed, what recovery vouches for is right. */
  lemma EstablishedRight(sha: Digest, payload: Bytes, pad: Pad, reserved: Bytes, i: nat)
    requires |reserved| == 2 && |payload| < TWO32 && !Misguessed(payload, pad) && i < PAD_SIZE
    requires i in Established(RecoveryOf(sha, PackedParts(sha, App, payload, pad, reserved)))
    ensures RecoveryOf(sha, PackedParts(sha, App, payload, pad, reserved)).pad[i] == pad[i]
  {
    var p := PackedParts(sha, App, payload, pad, reserved);
    if i < 14 {
      assert p == Damaged(sha, App, payload, pad, reserved, p.carried);
      DamageCannotUnseat(sha, App, payload, pad, reserved, p.carried);
      assert RecoveryOf(sha, p).pad[i] == RecoveryOf(sha, p).pad[..14][i] && pad[i] == pad[..14][i];
    } else {
      GuessAt(sha, payload, pad, reserved, i);
      GuessRight(payload[32 + i], pad[i]);
    }
  }

  /** For instance: fifteen zero bytes, packed with a pad of ones.  Recovery leaves the last two pad
      bytes at zero, so that the last byte decodes to a one. */
  lemma IntactCalledCorrupt(sha: Digest, payload: Bytes, pad: Pad, reserved: Bytes)
    requires payload == seq(15, _ => 0) && pad == seq(PAD_SIZE, _ => 1) && |reserved| == 2
    requires ToldApart(sha(payload[14 := 1]), sha(payload))
    ensures Judged(sha, PackedParts(sha, App, payload, pad, reserved)).Mismatch?
  {
    var p := PackedParts(sha, App, payload, pad, reserved);
    LastByteGarbled(sha, payload, pad, reserved);
    assert Misguessed(payload, pad);
    IntactMisjudgedIff(sha, payload, pad, reserved);
  }

  lemma LastByteGarbled(sha: Digest, payload: Bytes, pad: Pad, reserved: Bytes)
    requires payload == seq(15, _ => 0) && pad == seq(PAD_SIZE, _ => 1) && |reserved| == 2
    ensures var p := PackedParts(sha, App, payload, pad, reserved);
      Decoded(p, RecoveryOf(sha, p).pad) == payload[14 := 1]
  {
    var p := PackedParts(sha, App, payload, pad, reserved);
    assert p == Damaged(sha, App, payload, pad, reserved, p.carried);
    DamageCannotUnseat(sha, App, payload, pad, reserved, p.carried);
    GuessAt(sha, payload, pad, reserved, 14);
    ZerosGarbled(payload, pad, RecoveryOf(sha, p).pad);
  }

  lemma ZerosGarbled(payload: Bytes, pad: Pad, guess: Pad)
    requires payload == seq(15, _ => 0) && pad == seq(PAD_SIZE, _ => 1)
    requires guess[..14] == pad[..14] && guess[14] == 0
    ensures XorPad(XorPad(payload, pad, HEADER_SIZE), guess, HEADER_SIZE) == payload[14 := 1]
  {
    var garbled := XorPad(XorPad(payload, pad, HEADER_SIZE), guess, HEADER_SIZE);
    forall i | 0 <= i < 15 ensures garbled[i] == payload[14 := 1][i] {
      ZeroGarbled(payload, pad, guess, i);
    }
  }

  lemma ZeroGarbled(payload: Bytes, pad: Pad, guess: Pad, i: nat)
    requires payload == seq(15, _ => 0) && pad == seq(PAD_SIZE, _ => 1)
    requires guess[..14] == pad[..14] && guess[14] == 0 && i < 15
    ensures XorPad(XorPad(payload, pad, HEADER_SIZE), guess, HEADER_SIZE)[i] == if i < 14 then 0 else 1
  {
    assert (HEADER_SIZE + i) % PAD_SIZE == i;
    if i < 14 {
      assert guess[i] == guess[..14][i] == pad[..14][i];
      DecodesRight(payload, pad, guess, HEADER_SIZE, i);
    } else {
      OneOverZero(XorPad(payload, pad, HEADER_SIZE)[i], guess[i]);
    }
  }

  lemma OneOverZero(c: Byte, k: Byte)
    requires c == XorByte(0, 1) && k == 0
    ensures XorByte(c, k) == 1
  {
    XorByteLaws(0, 1, 0);
    XorByteLaws(1, 0, 0);
  }

  // What a verdict of OK is worth.

  predicate Approved(v: Verdict) { v.OkFull? || v.OkPartial? }

  lemma Decided(sha: Digest, p: Parts, pad: Pad, established: set<nat>)
    requires |p.header| == HEADER_SIZE && !ValidatePad(p, pad).Any() && 0 in established
    ensures var v := Inspect(sha, p, pad, established); Approved(v) || v.Mismatch?
  {
    assert 0 in Checkable(established);
  }

  /** However the payload is damaged at the same length, inspection that recovers the pad itself
      says OK or MISMATCH, and OK only if what it decodes has the digest that was packed, at
      every position whose pad byte the header gives away. */
  lemma ApprovedAgrees(sha: Digest, kind: Kind, payload: Bytes, pad: Pad, reserved: Bytes, carried: Bytes)
    requires |reserved| == 2 && |payload| < TWO32 && |carried| == |payload|
    ensures var p := Damaged(sha, kind, payload, pad, reserved, carried);
      var digest := sha(Decoded(p, RecoveryOf(sha, p).pad));
      && (Approved(Judged(sha, p)) || Judged(sha, p).Mismatch?)
      && (Approved(Judged(sha, p)) ==> !ToldApart(digest, sha(payload)))
  {
    var p := Damaged(sha, kind, payload, pad, reserved, carried);
    var r := RecoveryOf(sha, p);
    DamageCannotUnseat(sha, kind, payload, pad, reserved, carried);
    NoComplaintIff(sha, kind, payload, pad, reserved, carried, r.pad);
    Decided(sha, p, r.pad, Established(r));
    if ToldApart(sha(Decoded(p, r.pad)), sha(payload)) {
      GarbledIsMismatch(sha, kind, payload, pad, reserved, carried, r.pad, Established(r));
    }
  }

  /** An intact web container is always judged OK, in full. */
  lemma IntactWebApproved(sha: Digest, payload: Bytes, pad: Pad, reserved: Bytes)
    requires |reserved| == 2 && |payload| < TWO32
    ensures Judged(sha, PackedParts(sha, Www, payload, pad, reserved)) == OkFull
  {
    var p := PackedParts(sha, Www, payload, pad, reserved);
    IntactPadRecovered(sha, Www, payload, pad, reserved);
    assert p == Damaged(sha, Www, payload, pad, reserved, payload);
    VerdictWithTruePad(sha, Www, payload, pad, reserved, payload, Established(RecoveryOf(sha, p)));
  }
}

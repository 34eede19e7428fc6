/** Line reassembly for a Stratum connection (components/dual_pool/stratum_recv_ctx.c): an
    accumulator that cuts newline-terminated lines out of reads of any size. */
module StratumRx {
  import opened Bits
  import opened Common
  import opened Strings

  const NEWLINE: Byte := 10
  /** The step in which the accumulator grows; a read takes one byte less. */
  const RX_BUFFER_SIZE: nat := 1024
  const RX_MAX_LINE: nat := 16 * 1024

  /** The accumulator: absent, or holding a string in an allocation of some size. */
  datatype State = Closed | Open(text: Bytes, size: nat)

  type Chunk = c: Bytes | 1 <= |c| < RX_BUFFER_SIZE witness [0]

  /** What the transport answers to a read. */
  datatype Read = Failed | Quiet | Got(chunk: Chunk)

  datatype Outcome = Line(line: Bytes) | Idle | Error

  predicate HasLine(text: Bytes) { Find(text, NEWLINE) < |text| }

  /** Cuts the first line off, if there is one. */
  function Cut(text: Bytes, size: nat): (State, Outcome) {
    var n := Find(text, NEWLINE);
    if n < |text| then (Open(text[n + 1..], size), Line(text[..n])) else (Open(text, size), Idle)
  }

  /** The allocation that will hold `need` bytes. */
  function Grown(size: nat, need: nat): nat {
    if need < size then size else need + (RX_BUFFER_SIZE - need % RX_BUFFER_SIZE)
  }

  /** Takes in what a read gave, unless that would pass the cap.  The string functions see a
      chunk only up to its first zero. */
  function Absorbed(text: Bytes, size: nat, chunk: Chunk): (State, Outcome) {
    if |text| + |chunk| + 1 > RX_MAX_LINE then (Closed, Error)
    else Cut(text + UpTo(chunk, 0), Grown(size, |text| + |chunk| + 1))
  }

  /** What a poll reports of a line, if there is one. */
  function Reported(line: Option<Bytes>): Outcome {
    if line.Some? then Line(line.value) else Idle
  }

  /** One poll.  `memory` says whether an absent accumulator can be allocated; `read` is what
      the transport would answer, and is asked for only when no line is left over. */
  function Poll(s: State, memory: bool, read: Read): (State, Outcome) {
    if s.Closed? && !memory then (Closed, Error)
    else
      var text := if s.Closed? then [] else s.text;
      var size := if s.Closed? then RX_BUFFER_SIZE else s.size;
      if HasLine(text) then Cut(text, size)
      else match read
        case Failed => (Closed, Error)
        case Quiet => (Open(text, size), Idle)
        case Got(chunk) => Absorbed(text, size, chunk)
  }

  /** What a poll meets: whether memory is to be had, and the transport's answer. */
  datatype Visit = Visit(memory: bool, read: Read)

  /** The first poll, from the `k`th visit on, that is not idle. */
  function Await(s: State, visits: seq<Visit>, k: nat): (State, Outcome)
    requires k <= |visits|
    decreases |visits| - k
  {
    if k == |visits| then (s, Idle)
    else
      var p := Poll(s, visits[k].memory, visits[k].read);
      if p.1.Idle? then Await(p.0, visits, k + 1) else p
  }

  /** The `j`th poll from the start. */
  function PollAt(s: State, visits: seq<Visit>, j: nat): (State, Outcome)
    requires j < |visits|
    decreases j, 1
  {
    Poll(Before(s, visits, j), visits[j].memory, visits[j].read)
  }

  /** The state before it. */
  function Before(s: State, visits: seq<Visit>, j: nat): State
    requires j <= |visits|
    decreases j, 0
  {
    if j == 0 then s else PollAt(s, visits, j - 1).0
  }

  /** Waiting ends with the first poll that is not idle, and goes on as long as there is none. */
  lemma {:induction false} AwaitEnds(s: State, visits: seq<Visit>, k: nat) returns (j: nat)
    requires k <= |visits|
    ensures k <= j <= |visits| && forall i :: k <= i < j ==> PollAt(s, visits, i).1.Idle?
    ensures var r := Await(Before(s, visits, k), visits, k);
      if j == |visits| then r == (Before(s, visits, j), Idle)
      else r == PollAt(s, visits, j) && !r.1.Idle?
    decreases |visits| - k
  {
    j := k;
    if k < |visits| && PollAt(s, visits, k).1.Idle? {
      j := AwaitEnds(s, visits, k + 1);
    }
  }

  // ---------------------------------------------------------------- the buffer

  class RxContext {
    var buf: array?<Byte>
    var size: nat

    /** The buffer is as large as recorded and holds a terminated string. */
    ghost predicate Valid()
      reads this, buf
    {
      buf != null ==> buf.Length == size && Terminated(buf)
    }

    ghost function State(): State
      reads this, buf
      requires Valid()
    {
      if buf == null then Closed else Open(Text(buf), size)
    }

    constructor ()
      ensures Valid() && State() == Closed
    {
      buf, size := null, 0;
    }

    method EnsureBuffer(memory: bool) returns (ok: bool)
      requires Valid()
      modifies this
      ensures Valid() && (buf == old(buf) || fresh(buf))
      ensures ok == (memory || old(State()).Open?)
      ensures State() == if old(State()).Closed? && memory then Open([], RX_BUFFER_SIZE) else old(State())
    {
      if buf != null {
        return true;
      }
      if !memory {
        return false;
      }
      buf := new Byte[RX_BUFFER_SIZE](_ => 0);
      size := RX_BUFFER_SIZE;
      return true;
    }

    method DropBuffer()
      modifies this
      ensures Valid() && State() == Closed
    {
      buf := null;
      size := 0;
    }

    /** Makes room for `len` more bytes. */
    method Realloc(len: nat)
      requires Valid() && State().Open?
      modifies this
      ensures Valid() && (buf == old(buf) || fresh(buf))
      ensures var text := old(State()).text;
        State() == Open(text, Grown(old(size), |text| + len + 1)) && |text| + len < size
    {
      var used := StrLen(buf);
      var need := used + len + 1;
      if need < size {
        return;
      }
      need := need + (RX_BUFFER_SIZE - need % RX_BUFFER_SIZE);
      buf := Enlarged(buf, used, need);
      size := need;
    }

    method TakeLine() returns (line: Option<Bytes>)
      requires Valid() && State().Open?
      modifies buf
      ensures Valid()
      ensures (State(), Reported(line)) == Cut(old(State()).text, size)
    {
      var length := StrLen(buf);
      assert buf[..length] == Text(buf);
      var at := StrChr(buf, length, NEWLINE);
      assert Text(buf)[..at] == buf[..at];
      if at == length {
        return None;
      }
      line := Some(buf[..at]);
      ShiftOut(buf, length, at + 1);
    }

    method PollLine(memory: bool, read: Read) returns (r: Outcome)
      requires Valid()
      modifies this, buf
      ensures Valid() && (buf == old(buf) || buf == null || fresh(buf))
      ensures (State(), r) == Poll(old(State()), memory, read)
    {
      var ok := EnsureBuffer(memory);
      if !ok {
        return Error;
      }
      var line := TakeLine();
      if line.Some? {
        return Line(line.value);
      }
      match read {
        case Failed =>
          DropBuffer();
          return Error;
        case Quiet =>
          return Idle;
        case Got(chunk) =>
          r := Absorb(chunk);
      }
    }

    /** Appends a chunk, making room for it first. */
    method Append(chunk: Chunk)
      requires Valid() && State().Open?
      modifies this, buf
      ensures Valid() && (buf == old(buf) || fresh(buf))
      ensures var s := old(State());
        State() == Open(s.text + UpTo(chunk, 0), Grown(s.size, |s.text| + |chunk| + 1))
    {
      ghost var text := State().text;
      ghost var room := Grown(size, |text| + |chunk| + 1);
      Realloc(|chunk|);
      assert State() == Open(text, room);
      StrNCat(buf, chunk);
    }

    method Absorb(chunk: Chunk) returns (r: Outcome)
      requires Valid() && State().Open?
      modifies this, buf
      ensures Valid() && (buf == old(buf) || buf == null || fresh(buf))
      ensures (State(), r) == Absorbed(old(State()).text, old(State()).size, chunk)
    {
      var used := StrLen(buf);
      if used + |chunk| + 1 > RX_MAX_LINE {
        DropBuffer();
        return Error;
      }
      Append(chunk);
      var line := TakeLine();
      return Reported(line);
    }

    /** The blocking form: polls until something other than quiet comes of it.  The answers of
        the transport are given; when they run out, the caller is still waiting. */
    method ReceiveLine(visits: seq<Visit>) returns (r: Outcome)
      requires Valid()
      modifies this, buf
      ensures Valid()
      ensures (State(), r) == Await(old(State()), visits, 0)
    {
      ghost var s := State();
      var k := 0;
      while k < |visits|
        invariant Valid() && k <= |visits| && (buf == old(buf) || buf == null || fresh(buf))
        invariant Await(s, visits, 0) == Await(State(), visits, k)
      {
        r := PollLine(visits[k].memory, visits[k].read);
        if !r.Idle? {
          return;
        }
        k := k + 1;
      }
      return Idle;
    }
  }

  ghost predicate Terminated(a: array<Byte>)
    reads a
  {
    Find(a[..], 0) < a.Length
  }

  /** The string an array holds. */
  ghost function Text(a: array<Byte>): Bytes
    reads a
  {
    UpTo(a[..], 0)
  }

  lemma TextIs(a: array<Byte>, text: Bytes)
    requires 0 !in text && |text| < a.Length && a[..|text|] == text && a[|text|] == 0
    ensures Terminated(a) && Text(a) == text
  {
    assert forall i :: 0 <= i < |text| ==> a[..][i] == a[..|text|][i] && a[..|text|][i] in text;
    FindIs(a[..], 0, |text|);
  }

  method StrLen(a: array<Byte>) returns (n: nat)
    requires Terminated(a)
    ensures n == |Text(a)|
  {
    n := 0;
    while a[n] != 0
      invariant n <= Find(a[..], 0)
      decreases a.Length - n
    {
      assert a[..][n] != 0;
      n := n + 1;
    }
  }

  /** The first `x` among the first `length` bytes, or `length`. */
  method StrChr(a: array<Byte>, length: nat, x: Byte) returns (n: nat)
    requires length <= a.Length
    ensures n == Find(a[..length], x)
  {
    n := 0;
    while n < length && a[n] != x
      invariant n <= length && forall i :: 0 <= i < n ==> a[i] != x
    {
      n := n + 1;
    }
    FindIs(a[..length], x, n);
  }

  /** Moves `count` bytes from `from` to the front. */
  method MoveDown(a: array<Byte>, from: nat, count: nat)
    requires from + count <= a.Length
    modifies a
    ensures a[..count] == old(a[from..from + count])
  {
    for i := 0 to count
      invariant a[..i] == old(a[from..from + i])
      invariant forall k :: from + i <= k < a.Length ==> a[k] == old(a[k])
    {
      a[i] := a[from + i];
    }
  }

  /** A larger allocation with the same string, zero-filled behind it. */
  method Enlarged(a: array<Byte>, used: nat, need: nat) returns (b: array<Byte>)
    requires Terminated(a) && used == |Text(a)| < need
    ensures fresh(b) && b.Length == need && Terminated(b) && Text(b) == Text(a)
  {
    b := new Byte[need](_ => 0);
    for i := 0 to used
      invariant b[..i] == a[..i]
      invariant forall k :: i <= k < need ==> b[k] == 0
    {
      b[i] := a[i];
    }
    TextIs(b, Text(a));
  }

  /** Appends what of the chunk precedes its first zero. */
  method StrNCat(a: array<Byte>, chunk: Bytes)
    requires Terminated(a) && |Text(a)| + |chunk| < a.Length
    modifies a
    ensures Terminated(a) && Text(a) == old(Text(a)) + UpTo(chunk, 0)
  {
    ghost var text := Text(a);
    var used := StrLen(a);
    var k := 0;
    while k < |chunk| && chunk[k] != 0
      invariant k <= |chunk| && forall i :: 0 <= i < k ==> chunk[i] != 0
      invariant a[..used + k] == text + chunk[..k]
    {
      a[used + k] := chunk[k];
      k := k + 1;
    }
    a[used + k] := 0;
    FindIs(chunk, 0, k);
    TextIs(a, text + chunk[..k]);
  }

  /** Drops the first `from` bytes of the string. */
  method ShiftOut(a: array<Byte>, length: nat, from: nat)
    requires Terminated(a) && length == |Text(a)| && 0 < from <= length
    modifies a
    ensures Terminated(a) && Text(a) == old(Text(a))[from..]
  {
    ghost var text := Text(a);
    var remaining := length - from;
    if remaining > 0 {
      MoveDown(a, from, remaining);
      a[remaining] := 0;
    } else {
      a[0] := 0;
    }
    TextIs(a, text[from..]);
  }

  // ---------------------------------------------------------------- runs

  predicate Ok(s: State) {
    s.Open? ==> 0 !in s.text && |s.text| < s.size <= RX_MAX_LINE + RX_BUFFER_SIZE && s.size % RX_BUFFER_SIZE == 0
  }

  /** Every poll leaves a terminated string in a whole number of steps, never more than one
      step past the cap. */
  lemma PollKeepsOk(s: State, v: Visit)
    requires Ok(s)
    ensures Ok(Poll(s, v.memory, v.read).0)
  {
    var text, size := if s.Closed? then [] else s.text, if s.Closed? then RX_BUFFER_SIZE else s.size;
    CutKeepsOk(text, size);
    if v.read.Got? {
      AbsorbKeepsOk(text, size, v.read.chunk);
    }
  }

  lemma CutKeepsOk(text: Bytes, size: nat)
    requires Ok(Open(text, size))
    ensures Ok(Cut(text, size).0)
  {}

  lemma AbsorbKeepsOk(text: Bytes, size: nat, chunk: Chunk)
    requires Ok(Open(text, size))
    ensures var (s, need) := (Absorbed(text, size, chunk).0, |text| + |chunk| + 1);
      Ok(s) && (s.Open? ==> s.size == size > need || size <= need < s.size <= need + 1024)
  {
    var need := |text| + |chunk| + 1;
    GrownFits(size, need);
    if need <= RX_MAX_LINE {
      CutKeepsOk(text + UpTo(chunk, 0), Grown(size, need));
    }
  }

  lemma GrownFits(size: nat, need: nat)
    requires size % RX_BUFFER_SIZE == 0
    ensures var g := Grown(size, need);
      g % RX_BUFFER_SIZE == 0 && need < g && (g == size || g <= need + RX_BUFFER_SIZE)
  {}

  /** The bytes a poll takes from the connection. */
  function Taken(s: State, v: Visit): Bytes {
    if (s.Closed? && !v.memory) || (s.Open? && HasLine(s.text)) || !v.read.Got? then [] else v.read.chunk
  }

  /** A connection since it was last opened: the accumulator, the lines delivered, the bytes
      read, and those of them that precede a zero in their read. */
  datatype Session = Session(state: State, lines: seq<Bytes>, read: Bytes, seen: Bytes)

  function Step(c: Session, v: Visit): Session {
    var p := Poll(c.state, v.memory, v.read);
    if p.1.Error? then Session(p.0, [], [], [])
    else Session(p.0, if p.1.Line? then c.lines + [p.1.line] else c.lines,
                 c.read + Taken(c.state, v), c.seen + UpTo(Taken(c.state, v), 0))
  }

  function After(visits: seq<Visit>): Session {
    if |visits| == 0 then Session(Closed, [], [], [])
    else Step(After(visits[..|visits| - 1]), visits[|visits| - 1])
  }

  /** Lines, each followed by a newline. */
  function Joined(lines: seq<Bytes>): Bytes {
    if |lines| == 0 then [] else Joined(lines[..|lines| - 1]) + lines[|lines| - 1] + [10]
  }

  function TextOf(s: State): Bytes {
    if s.Closed? then [] else s.text
  }

  predicate Whole(lines: seq<Bytes>) {
    forall l | l in lines :: NEWLINE !in l
  }

  /** What holds of every session: what was delivered, each line with its newline, and then
      what is in the accumulator, is what was seen. */
  predicate Conserves(c: Session) {
    Ok(c.state) && Whole(c.lines) && Joined(c.lines) + TextOf(c.state) == c.seen
  }

  lemma CutConserves(lines: seq<Bytes>, text: Bytes, size: nat)
    ensures var p := Cut(text, size);
      var out := if p.1.Line? then lines + [p.1.line] else lines;
      Joined(out) + TextOf(p.0) == Joined(lines) + text && (Whole(lines) ==> Whole(out))
  {
    var n := Find(text, NEWLINE);
    if n < |text| {
      var out := lines + [text[..n]];
      assert out[..|out| - 1] == lines;
      assert text == text[..n] + [NEWLINE] + text[n + 1..];
      assert Joined(out) + text[n + 1..] == Joined(lines) + text;
      assert NEWLINE !in text[..n];
    }
  }

  /** A poll that does not fail cuts a line off what was held and what was seen. */
  lemma PollCuts(s: State, v: Visit)
    requires !Poll(s, v.memory, v.read).1.Error?
    ensures exists size: nat :: Poll(s, v.memory, v.read) == Cut(TextOf(s) + UpTo(Taken(s, v), 0), size)
  {
    var text := TextOf(s);
    var size := if s.Open? then s.size else RX_BUFFER_SIZE;
    if Taken(s, v) == [] {
      assert text + UpTo(Taken(s, v), 0) == text;
      assert Poll(s, v.memory, v.read) == Cut(text, size);
    } else {
      assert Poll(s, v.memory, v.read) == Absorbed(text, size, v.read.chunk);
    }
  }

  lemma StepConserves(c: Session, v: Visit)
    requires Conserves(c)
    ensures Conserves(Step(c, v))
  {
    PollKeepsOk(c.state, v);
    var p := Poll(c.state, v.memory, v.read);
    if !p.1.Error? {
      var text, more := TextOf(c.state), UpTo(Taken(c.state, v), 0);
      PollCuts(c.state, v);
      var size: nat :| p == Cut(text + more, size);
      CutConserves(c.lines, text + more, size);
      Associates(Joined(c.lines), text, more);
    }
  }

  /** In every run: what a connection has delivered and still holds is what it has seen. */
  lemma {:induction false} EveryRunConserves(visits: seq<Visit>)
    ensures Conserves(After(visits))
  {
    if |visits| > 0 {
      EveryRunConserves(visits[..|visits| - 1]);
      StepConserves(After(visits[..|visits| - 1]), visits[|visits| - 1]);
    }
  }

  /** Nothing read is lost exactly when no zero byte was read. */
  lemma {:induction false} NothingLostIff(visits: seq<Visit>)
    ensures var c := After(visits);
      (c.seen == c.read <==> 0 !in c.read) && |c.seen| <= |c.read| && (0 in c.read ==> |c.seen| < |c.read|)
  {
    if |visits| > 0 {
      var c, v := After(visits[..|visits| - 1]), visits[|visits| - 1];
      NothingLostIff(visits[..|visits| - 1]);
      var more := Taken(c.state, v);
      assert 0 in more ==> Find(more, 0) < |more|;
      assert 0 !in more ==> UpTo(more, 0) == more;
    }
  }

  // ---------------------------------------------------------------- lines

  /** The complete lines of a stream, and what follows the last of them. */
  function Lines(b: Bytes): seq<Bytes> {
    var n := Find(b, NEWLINE);
    if n == |b| then [] else [b[..n]] + Lines(b[n + 1..])
  }

  function Rest(b: Bytes): Bytes {
    var n := Find(b, NEWLINE);
    if n == |b| then b else Rest(b[n + 1..])
  }

  lemma {:induction false} FirstLine(line: Bytes, tail: Bytes)
    requires NEWLINE !in line
    ensures Lines(line + ([NEWLINE] + tail)) == [line] + Lines(tail) && Rest(line + ([NEWLINE] + tail)) == Rest(tail)
  {
    LineAt(line + ([NEWLINE] + tail), line, tail);
  }

  lemma LineAt(b: Bytes, line: Bytes, tail: Bytes)
    requires NEWLINE !in line && b == line + ([NEWLINE] + tail)
    ensures Lines(b) == [line] + Lines(tail) && Rest(b) == Rest(tail)
  {
    var n := NewlineAt(b, line, tail);
  }

  lemma {:induction false} NewlineAt(b: Bytes, line: Bytes, tail: Bytes) returns (n: nat)
    requires NEWLINE !in line && b == line + ([NEWLINE] + tail)
    ensures n == Find(b, NEWLINE) < |b| && b[..n] == line && b[n + 1..] == tail
  {
    n := |line|;
    assert forall i :: 0 <= i < n ==> b[i] == line[i] && line[i] in line;
    FindIs(b, NEWLINE, n);
  }

  lemma {:induction false} SplitJoined(lines: seq<Bytes>, tail: Bytes)
    requires Whole(lines)
    ensures Lines(Joined(lines) + tail) == lines + Lines(tail) && Rest(Joined(lines) + tail) == Rest(tail)
  {
    if |lines| == 0 {
      assert Joined(lines) + tail == tail;
    } else {
      var before, last := lines[..|lines| - 1], lines[|lines| - 1];
      Regroup(Joined(before), last, tail);
      SplitJoined(before, last + ([NEWLINE] + tail));
      FirstLine(last, tail);
      Shunt(lines, Lines(tail));
    }
  }

  lemma Shunt(lines: seq<Bytes>, more: seq<Bytes>)
    requires |lines| > 0
    ensures lines[..|lines| - 1] + ([lines[|lines| - 1]] + more) == lines + more
  {}

  lemma Regroup(a: Bytes, b: Bytes, c: Bytes)
    ensures a + b + [NEWLINE] + c == a + (b + ([NEWLINE] + c))
  {}

  /** The lines delivered are the first lines of what was seen, and the accumulator holds the
      others. */
  lemma DeliversLines(c: Session)
    requires Conserves(c)
    ensures Lines(c.seen) == c.lines + Lines(TextOf(c.state)) && Rest(c.seen) == Rest(TextOf(c.state))
  {
    SplitJoined(c.lines, TextOf(c.state));
  }

  /** However a stream is cut into reads, and whenever nothing was there to read: once no
      complete line is left over, exactly the stream's lines have come out and exactly the
      rest is held. */
  lemma ChunkingIndependence(visits: seq<Visit>)
    requires 0 !in After(visits).read && !HasLine(TextOf(After(visits).state))
    ensures After(visits).lines == Lines(After(visits).read)
    ensures TextOf(After(visits).state) == Rest(After(visits).read)
  {
    EveryRunConserves(visits);
    NothingLostIff(visits);
    DeliversLines(After(visits));
  }

  // ---------------------------------------------------------------- the cap

  /** The longest line that is always safe. */
  const SAFE_LINE: nat := 15360

  /** The connection has read this much of the stream and has no complete line left over. */
  predicate Caught(c: Session, stream: Bytes) {
    |c.read| <= |stream| && c.read == stream[..|c.read|] && !HasLine(TextOf(c.state))
  }

  /** After these visits, the next read of this much of the stream is refused as too long. */
  predicate Trips(visits: seq<Visit>, chunk: Chunk, stream: Bytes) {
    var c := After(visits);
    && Caught(c, stream)
    && |c.read| + |chunk| <= |stream|
    && chunk == stream[|c.read|..|c.read| + |chunk|]
    && Poll(c.state, true, Got(chunk)).1.Error?
  }

  predicate LineStart(stream: Bytes, p: nat) {
    p == 0 || (p <= |stream| && stream[p - 1] == NEWLINE)
  }

  /** A line longer than is safe, in a stream that goes on for 16384 bytes from its start. */
  predicate LongLine(stream: Bytes, p: nat) {
    && LineStart(stream, p)
    && p + 16384 <= |stream|
    && forall i :: p <= i <= p + SAFE_LINE ==> stream[i] != NEWLINE
  }

  lemma JoinedEnds(lines: seq<Bytes>)
    ensures |Joined(lines)| > 0 ==> Joined(lines)[|Joined(lines)| - 1] == NEWLINE
  {}

  /** A session that lost nothing holds the stream's bytes from its last line start on. */
  lemma HeldFrom(c: Session, stream: Bytes)
    requires Conserves(c) && c.seen == c.read && Caught(c, stream)
    ensures var p := |Joined(c.lines)|;
      && p + |TextOf(c.state)| == |c.read| && LineStart(stream, p)
      && forall i :: p <= i < |c.read| ==> stream[i] != NEWLINE
  {
    var p, text := |Joined(c.lines)|, TextOf(c.state);
    JoinedEnds(c.lines);
    assert p > 0 ==> stream[p - 1] == (Joined(c.lines) + text)[p - 1];
    forall i | p <= i < |c.read| ensures stream[i] != NEWLINE {
      assert stream[i] == (Joined(c.lines) + text)[i] == text[i - p];
    }
  }

  lemma TripIsLongLine(visits: seq<Visit>, chunk: Chunk, stream: Bytes)
    requires 0 !in stream && Trips(visits, chunk, stream)
    ensures LongLine(stream, |Joined(After(visits).lines)|)
  {
    EveryRunConserves(visits);
    NothingLostIff(visits);
    HeldFrom(After(visits), stream);
  }

  /** The visits that read the first `k` bytes one at a time. */
  function OneByOne(stream: Bytes, k: nat): seq<Visit>
    requires k <= |stream|
  {
    seq(k, i requires 0 <= i < k => Visit(true, Got([stream[i]])))
  }

  lemma ByteStep(c: Session, b: Byte)
    requires b != 0 && !HasLine(TextOf(c.state)) && !Poll(c.state, true, Got([b])).1.Error?
    ensures var next := Step(c, Visit(true, Got([b])));
      next.state.Open? && !HasLine(TextOf(next.state)) && next.read == c.read + [b]
  {
    var text := TextOf(c.state);
    assert UpTo([b], 0) == [b];
    assert (text + [b])[..|text|] == text;
    FindIs(text + [b], NEWLINE, if b == NEWLINE then |text| else |text| + 1);
    assert forall i :: 0 <= i < |text| ==> text[i] != NEWLINE;
  }

  lemma OneMore(stream: Bytes, k: nat)
    requires k < |stream|
    ensures After(OneByOne(stream, k + 1)) == Step(After(OneByOne(stream, k)), Visit(true, Got([stream[k]])))
  {
    assert OneByOne(stream, k + 1)[..k] == OneByOne(stream, k);
  }

  predicate ReadBytes(stream: Bytes, k: nat)
    requires k <= |stream|
  {
    |After(OneByOne(stream, k)).read| == k && Caught(After(OneByOne(stream, k)), stream)
  }

  lemma CaughtStep(c: Session, stream: Bytes)
    requires 0 !in stream && |c.read| < |stream| && Caught(c, stream)
    requires !Poll(c.state, true, Got([stream[|c.read|]])).1.Error?
    ensures var next := Step(c, Visit(true, Got([stream[|c.read|]])));
      |next.read| == |c.read| + 1 && Caught(next, stream)
  {
    ByteStep(c, stream[|c.read|]);
    assert stream[..|c.read| + 1] == stream[..|c.read|] + [stream[|c.read|]];
  }

  /** Byte by byte on the way to `k`, the connection trips at byte `j`, or arrives. */
  predicate TripsOrArrives(stream: Bytes, j: nat, k: nat)
    requires j <= k <= |stream|
  {
    if j < k then Trips(OneByOne(stream, j), [stream[j]], stream) else ReadBytes(stream, k)
  }

  lemma NextByte(stream: Bytes, k: nat, next: nat) returns (j: nat)
    requires 0 !in stream && k < |stream| && ReadBytes(stream, k) && next == k + 1
    ensures j <= next && TripsOrArrives(stream, j, next)
  {
    var c := After(OneByOne(stream, k));
    if Poll(c.state, true, Got([stream[k]])).1.Error? {
      j := k;
      assert [stream[k]] == stream[k..k + 1];
    } else {
      j := next;
      CaughtStep(c, stream);
      OneMore(stream, k);
    }
  }

  lemma NoneRead(stream: Bytes)
    ensures ReadBytes(stream, 0)
  {
    assert OneByOne(stream, 0) == [];
  }

  lemma {:induction false} ReadByBytes(stream: Bytes, k: nat) returns (j: nat)
    requires 0 !in stream && k <= |stream|
    ensures j <= k && TripsOrArrives(stream, j, k)
  {
    if k == 0 {
      j := 0;
      NoneRead(stream);
    } else {
      j := ReadByBytes(stream, k - 1);
      if j == k - 1 {
        j := NextByte(stream, k - 1, k);
      }
    }
  }

  /** If no newline has come since `p`, all of that is held. */
  lemma {:induction false} HeldIsLong(visits: seq<Visit>, stream: Bytes, p: nat)
    requires 0 !in stream && Caught(After(visits), stream) && p <= |After(visits).read|
    requires forall i :: p <= i < |After(visits).read| ==> stream[i] != NEWLINE
    ensures |TextOf(After(visits).state)| >= |After(visits).read| - p
  {
    EveryRunConserves(visits);
    NothingLostIff(visits);
    HeldFrom(After(visits), stream);
  }

  lemma FullReadRefused(c: Session, chunk: Chunk)
    requires |TextOf(c.state)| > SAFE_LINE && !HasLine(TextOf(c.state)) && |chunk| == RX_BUFFER_SIZE - 1
    ensures Poll(c.state, true, Got(chunk)).1.Error?
  {}

  lemma FullRead(stream: Bytes, k: nat) returns (chunk: Chunk)
    requires 0 !in stream && k + (RX_BUFFER_SIZE - 1) <= |stream|
    ensures |chunk| == RX_BUFFER_SIZE - 1 && chunk == stream[k..k + |chunk|]
  {
    chunk := stream[k..k + (RX_BUFFER_SIZE - 1)];
  }

  /** Caught up with the first 15361 bytes of a long line, a full read is refused. */
  lemma {:induction false} FullReadTrips(visits: seq<Visit>, stream: Bytes, p: nat, k: nat) returns (chunk: Chunk)
    requires 0 !in stream && LongLine(stream, p) && k == p + SAFE_LINE + 1
    requires Caught(After(visits), stream) && |After(visits).read| == k
    ensures Trips(visits, chunk, stream)
  {
    var c := After(visits);
    HeldIsLong(visits, stream, p);
    chunk := FullRead(stream, k);
    FullReadRefused(c, chunk);
  }

  lemma Tripped(stream: Bytes, j: nat, k: nat) returns (visits: seq<Visit>, chunk: Chunk)
    requires 0 !in stream && j < k <= |stream| && TripsOrArrives(stream, j, k)
    ensures Trips(visits, chunk, stream)
  {
    visits, chunk := OneByOne(stream, j), [stream[j]];
  }

  lemma Arrived(stream: Bytes, p: nat, k: nat) returns (visits: seq<Visit>, chunk: Chunk)
    requires 0 !in stream && LongLine(stream, p) && k == p + SAFE_LINE + 1 && ReadBytes(stream, k)
    ensures Trips(visits, chunk, stream)
  {
    visits := OneByOne(stream, k);
    chunk := FullReadTrips(visits, stream, p, k);
  }

  lemma {:induction false} LongLineTrips(stream: Bytes, p: nat, k: nat) returns (visits: seq<Visit>, chunk: Chunk)
    requires 0 !in stream && LongLine(stream, p) && k == p + SAFE_LINE + 1
    ensures Trips(visits, chunk, stream)
  {
    var j := ReadByBytes(stream, k);
    if j < k {
      visits, chunk := Tripped(stream, j, k);
    } else {
      visits, chunk := Arrived(stream, p, k);
    }
  }

  /** A stream can be read in a way that trips the cap if and only if it has a line longer
      than 15360 bytes with 16384 bytes of stream from its start. */
  lemma CapTripsIff(stream: Bytes)
    requires 0 !in stream
    ensures (exists visits, chunk :: Trips(visits, chunk, stream)) <==> exists p: nat :: LongLine(stream, p)
  {
    if visits, chunk :| Trips(visits, chunk, stream) {
      TripIsLongLine(visits, chunk, stream);
    }
    if p: nat :| LongLine(stream, p) {
      var visits, chunk := LongLineTrips(stream, p, p + SAFE_LINE + 1);
    }
  }

  /** So a stream whose lines are all at most 15360 bytes never trips it. */
  lemma SafeLinesNeverTrip(visits: seq<Visit>, chunk: Chunk, stream: Bytes)
    requires 0 !in stream
    requires SafeLines(stream)
    ensures !Trips(visits, chunk, stream)
  {
    if Trips(visits, chunk, stream) {
      var c := After(visits);
      var p := |Joined(c.lines)|;
      TripIsLongLine(visits, chunk, stream);
      EveryRunConserves(visits);
      NothingLostIff(visits);
      StreamFrom(c, stream);
      SplitJoined(c.lines, stream[p..]);
      LongFirstLine(stream[p..]);
    }
  }

  lemma StreamFrom(c: Session, stream: Bytes)
    requires Conserves(c) && c.seen == c.read && Caught(c, stream)
    ensures |Joined(c.lines)| <= |stream| && Joined(c.lines) + stream[|Joined(c.lines)|..] == stream
  {
    assert c.read == (Joined(c.lines) + TextOf(c.state));
    assert stream[..|Joined(c.lines)|] == c.read[..|Joined(c.lines)|] == Joined(c.lines);
  }

  // ---------------------------------------------------------------- when a connection is given up

  /** A poll gives the connection up exactly when there is no accumulator and no memory for one,
      or when it has to read and the read fails or brings more than fits under the cap. */
  lemma ErrorIff(s: State, v: Visit)
    ensures Poll(s, v.memory, v.read).1.Error? <==>
      || (s.Closed? && !v.memory)
      || (!HasLine(TextOf(s)) && (v.read.Failed? || (v.read.Got? && TooLong(TextOf(s), v.read.chunk))))
  {}

  predicate TooLong(text: Bytes, chunk: Chunk) { |text| + |chunk| + 1 > 16384 }

  /** However long nothing comes, waiting keeps what has come of a line. */
  lemma {:induction false} QuietKeeps(s: State, visits: seq<Visit>, k: nat)
    requires k <= |visits| && !HasLine(TextOf(s))
    requires forall i :: k <= i < |visits| ==> visits[i].memory && visits[i].read.Quiet?
    ensures Await(s, visits, k).1.Idle? && TextOf(Await(s, visits, k).0) == TextOf(s)
    decreases |visits| - k
  {
    if k < |visits| {
      QuietKeeps(Poll(s, visits[k].memory, visits[k].read).0, visits, k + 1);
    }
  }

  /** Every byte the polls took from the transport, from the first on, and what precedes a zero in
      each read. */
  function Fed(visits: seq<Visit>): Bytes {
    if |visits| == 0 then []
    else
      var before, v := visits[..|visits| - 1], visits[|visits| - 1];
      Fed(before) + Taken(After(before).state, v)
  }

  function FedSeen(visits: seq<Visit>): Bytes {
    if |visits| == 0 then []
    else
      var before, v := visits[..|visits| - 1], visits[|visits| - 1];
      FedSeen(before) + UpTo(Taken(After(before).state, v), 0)
  }

  /** Memory is to be had, and no read fails. */
  predicate Smooth(visits: seq<Visit>) {
    forall v :: v in visits ==> v.memory && !v.read.Failed?
  }

  predicate SafeLines(stream: Bytes) {
    AllSafe(Lines(stream)) && |Rest(stream)| <= SAFE_LINE
  }

  predicate AllSafe(lines: seq<Bytes>) { forall l :: l in lines ==> |l| <= SAFE_LINE }

  lemma AllSafeCons(first: Bytes, others: seq<Bytes>)
    ensures AllSafe([first] + others) <==> |first| <= SAFE_LINE && AllSafe(others)
  {
    assert forall l :: l in [first] + others <==> l == first || l in others;
  }

  /** Line by line: the first is safe, and those after it. */
  lemma {:induction false} SafeIff(b: Bytes, n: nat, tail: Bytes)
    requires n == Find(b, NEWLINE) && tail == if n < |b| then b[n + 1..] else []
    ensures SafeLines(b) <==> n <= SAFE_LINE && SafeLines(tail)
  {
    if n < |b| {
      assert Lines(b) == [b[..n]] + Lines(tail) && Rest(b) == Rest(tail);
      AllSafeCons(b[..n], Lines(tail));
    } else {
      assert Lines(b) == [] == Lines(tail) && Rest(b) == b && Rest(tail) == [];
    }
  }

  lemma NothingSafe()
    ensures SafeLines([])
  {}

  lemma {:induction false} SafePrefix(a: Bytes, b: Bytes, whole: Bytes)
    requires whole == a + b && SafeLines(whole)
    ensures SafeLines(a)
    decreases |a|
  {
    var n, m := Find(a, NEWLINE), Find(whole, NEWLINE);
    FirstOf(a, b, n, m);
    if n < |a| {
      var tail, rest := a[n + 1..], whole[n + 1..];
      assert rest == tail + b;
      SafeIff(whole, n, rest);
      SafePrefix(tail, b, rest);
      SafeIff(a, n, tail);
    } else {
      SafeIff(whole, m, if m < |whole| then whole[m + 1..] else []);
      NothingSafe();
      SafeIff(a, n, []);
    }
  }

  lemma FirstOf(a: Bytes, b: Bytes, n: nat, m: nat)
    requires n == Find(a, NEWLINE) && m == Find(a + b, NEWLINE)
    ensures n <= m && (n < |a| ==> m == n)
  {
    assert forall i :: 0 <= i < |a| ==> (a + b)[i] == a[i];
    if n < |a| {
      FindIs(a + b, NEWLINE, n);
    }
  }

  lemma SmoothStep(c: Session, v: Visit)
    requires Conserves(c) && v.memory && !v.read.Failed? && SafeLines(c.seen)
    ensures !Poll(c.state, v.memory, v.read).1.Error?
  {
    ErrorIff(c.state, v);
    DeliversLines(c);
  }

  /** With memory, no failed read and no line over 15360 bytes, a connection is never given up,
      however often there is nothing to read: it is still the first one, and has read all that
      was taken from the transport. */
  lemma {:induction false} SmoothRunKeepsAll(visits: seq<Visit>)
    requires Smooth(visits) && SafeLines(FedSeen(visits))
    ensures After(visits).read == Fed(visits) && After(visits).seen == FedSeen(visits)
  {
    if |visits| > 0 {
      var before, v := visits[..|visits| - 1], visits[|visits| - 1];
      SafePrefix(FedSeen(before), UpTo(Taken(After(before).state, v), 0), FedSeen(visits));
      SmoothRunKeepsAll(before);
      assert v in visits;
      EveryRunConserves(before);
      SmoothStep(After(before), v);
    }
  }

  /** So all its lines come out: exactly those of the bytes taken, save for what a zero hides, once
      none is left over. */
  lemma SmoothRunDelivers(visits: seq<Visit>)
    requires Smooth(visits) && SafeLines(FedSeen(visits)) && !HasLine(TextOf(After(visits).state))
    ensures After(visits).lines == Lines(FedSeen(visits)) && TextOf(After(visits).state) == Rest(FedSeen(visits))
    ensures FedSeen(visits) == Fed(visits) <==> 0 !in Fed(visits)
  {
    SmoothRunKeepsAll(visits);
    EveryRunConserves(visits);
    NothingLostIff(visits);
    DeliversLines(After(visits));
  }

  lemma LongFirstLine(b: Bytes)
    requires |b| > SAFE_LINE && forall i :: 0 <= i <= SAFE_LINE ==> b[i] != NEWLINE
    ensures |Rest(b)| > SAFE_LINE || (|Lines(b)| > 0 && Lines(b)[0] in Lines(b) && |Lines(b)[0]| > SAFE_LINE)
  {
    assert Find(b, NEWLINE) > SAFE_LINE;
  }
}

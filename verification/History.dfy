/** The since-boot history of main/history.c: a ring of samples, and the averages a query draws
    from it. */
module History {
  import opened Bits
  import opened Common
  import opened IntMath

  const INTERVAL_SECONDS: nat := 30
  const CAPACITY: nat := 2880

  type U16 = x: int | 0 <= x < 0x1_0000
  type I8 = x: int | -128 <= x < 128

  datatype Sample = Sample(hashrate: U16, power: U16, board: I8, vr: I8, valid: bool)

  /** A floating-point figure to sixteen bits; `None` is not a number. */
  function ClampU16(value: Option<real>): U16 {
    if value.None? || value.value <= 0.0 then 0
    else if value.value > 65535.0 then 65535
    else (value.value + 0.5).Floor
  }

  function ClampI8(value: int): I8 {
    if value < -128 then -128 else if value > 127 then 127 else value
  }

  /** What there is to sample. */
  datatype Figures = Figures(hashrate: Option<real>, power: Option<real>, board: int, vr: int)

  function SampleOf(f: Figures): Sample {
    var power := if f.power.Some? then Some(f.power.value * 10.0) else None;
    Sample(ClampU16(f.hashrate), ClampU16(power), ClampI8(f.board), ClampI8(f.vr), true)
  }

  /** A sample holds each figure where it fits: rates and power, in tenths, to the nearest whole
      one, temperatures as they are. */
  lemma SampleHolds(f: Figures, hashrate: real, power: real)
    requires f.hashrate == Some(hashrate) && f.power == Some(power)
    ensures var s := SampleOf(f);
      && s.valid
      && (0.0 <= hashrate <= 65535.0 ==> -0.5 <= hashrate - s.hashrate as real < 0.5)
      && (0.0 <= power <= 6553.5 ==> -0.5 <= power * 10.0 - s.power as real < 0.5)
      && (-128 <= f.board <= 127 ==> s.board == f.board)
      && (-128 <= f.vr <= 127 ==> s.vr == f.vr)
  {}

  /** And where it does not, the nearest end; what is not a number counts as none. */
  lemma SampleEnds(f: Figures)
    ensures var s := SampleOf(f);
      && (f.hashrate.None? || f.hashrate.value <= 0.0 ==> s.hashrate == 0)
      && (f.hashrate.Some? && f.hashrate.value > 65535.0 ==> s.hashrate == 65535)
      && (f.power.None? || f.power.value <= 0.0 ==> s.power == 0)
      && (f.power.Some? && f.power.value > 6553.5 ==> s.power == 65535)
      && (f.board < -128 ==> s.board == -128) && (f.board > 127 ==> s.board == 127)
      && (f.vr < -128 ==> s.vr == -128) && (f.vr > 127 ==> s.vr == 127)
  {}

  // ---------------------------------------------------------------- the ring

  /** A full history loses its oldest sample. */
  function Pushed(held: seq<Sample>, s: Sample): seq<Sample> {
    if |held| < CAPACITY then held + [s] else held[1..] + [s]
  }

  /** The history after storing these samples. */
  function Stored(samples: seq<Sample>): seq<Sample> {
    if samples == [] then [] else Pushed(Stored(samples[..|samples| - 1]), samples[|samples| - 1])
  }

  /** The last `n`, or all if there are fewer. */
  function Last(samples: seq<Sample>, n: nat): (r: seq<Sample>)
    ensures |r| == if |samples| < n then |samples| else n
  {
    if |samples| < n then samples else samples[|samples| - n..]
  }

  /** After any run, the history is the last 2880 samples. */
  lemma {:induction false} HistoryIsLast(samples: seq<Sample>)
    ensures Stored(samples) == Last(samples, 2880)
  {
    if samples != [] {
      var before, last := samples[..|samples| - 1], samples[|samples| - 1];
      HistoryIsLast(before);
      assert samples == before + [last];
      if |before| < CAPACITY {
        assert samples[|samples| - |samples|..] == samples;
      } else {
        assert before[|before| - CAPACITY..][1..] + [last] == samples[|samples| - CAPACITY..];
      }
    }
  }

  // ---------------------------------------------------------------- a query

  function Wanted(held: nat, window: nat): (w: nat)
    requires held > 0
    ensures 1 <= w <= held
  {
    var w := window / INTERVAL_SECONDS;
    if w == 0 then 1 else if w > held then held else w
  }

  /** As many as the window has room for, or all that are held if those are fewer; but one at
      least. */
  lemma WantedSpans(held: nat, window: nat)
    requires held > 0
    ensures var w := Wanted(held, window);
      && (w * 30 <= window || w == 1)
      && (window < (w + 1) * 30 || w == held)
  {}

  /** How many samples a point covers, in 32-bit arithmetic. */
  function Bucket(wanted: nat, maxPoints: nat): nat
    requires maxPoints > 0
  {
    var b := (wanted + maxPoints - 1) % TWO32 / maxPoints;
    if b == 0 then 1 else b
  }

  function CeilDiv(a: nat, b: nat): nat
    requires b > 0
  {
    (a + b - 1) / b
  }

  lemma CeilDivIs(a: nat, b: nat) returns (q: nat)
    requires a > 0 && b > 0
    ensures q == CeilDiv(a, b) && q >= 1 && (q - 1) * b < a <= q * b
  {
    q := (a + b - 1) / b;
    var r := (a + b - 1) % b;
    assert a + b - 1 == q * b + r;
    assert (q - 1) * b == q * b - b;
    assert q == 0 ==> q * b == 0;
  }

  lemma WrapIs(x: nat)
    requires x < 2 * TWO32
    ensures x % TWO32 == if x < TWO32 then x else x - TWO32
  {}

  /** The wrap-around does no harm. */
  lemma BucketIsCeil(wanted: nat, maxPoints: nat)
    requires 1 <= wanted <= CAPACITY && 0 < maxPoints < TWO32
    ensures Bucket(wanted, maxPoints) == CeilDiv(wanted, maxPoints) >= 1
  {
    var q := CeilDivIs(wanted, maxPoints);
    var x := wanted + maxPoints - 1;
    WrapIs(x);
    if x >= TWO32 {
      QuotientIs(x, 1, maxPoints);
      QuotientIs(x - TWO32, 0, maxPoints);
    }
  }

  /** Samples `lo` up to `hi`, summed. */
  function Sum(s: seq<Sample>, field: Sample -> int, lo: nat, hi: nat): int
    requires lo <= hi <= |s|
    decreases hi - lo
  {
    if lo == hi then 0 else Sum(s, field, lo, hi - 1) + field(s[hi - 1])
  }

  lemma QuotientTruncates(a: int, n: nat) returns (q: int, r: int)
    requires n > 0
    ensures q == TruncDiv(a, n) && a == q * n + r
    ensures if a >= 0 then 0 <= r < n else 0 <= -r < n
  {
    q := TruncDiv(a, n);
    if a >= 0 {
      r := a % n;
    } else {
      r := -(-a % n);
      assert -a == -a / n * n + -a % n;
    }
  }

  const HASHRATE: Sample -> int := (s: Sample) => s.hashrate
  const POWER: Sample -> int := (s: Sample) => s.power
  const BOARD: Sample -> int := (s: Sample) => s.board
  const VR: Sample -> int := (s: Sample) => s.vr

  /** A figure's mean over a bucket lies between the figure's bounds. */
  lemma {:induction false} SumBounds(s: seq<Sample>, field: Sample -> int, lo: nat, hi: nat, low: int, high: int)
    requires lo <= hi <= |s|
    requires forall x: Sample :: low <= field(x) <= high
    ensures low * (hi - lo) <= Sum(s, field, lo, hi) <= high * (hi - lo)
    decreases hi - lo
  {
    if lo < hi {
      SumBounds(s, field, lo, hi - 1, low, high);
      assert low * (hi - lo) == low * (hi - 1 - lo) + low;
      assert high * (hi - lo) == high * (hi - 1 - lo) + high;
    }
  }

  lemma MeanBounds(a: int, n: nat, low: int, high: int)
    requires n > 0 && low <= 0 <= high && low * n <= a <= high * n
    ensures low <= TruncDiv(a, n) <= high
  {
    var q, r := QuotientTruncates(a, n);
    SignOfProduct(n, q - high);
    SignOfProduct(n, q - low);
    assert n * (q - high) == q * n - high * n;
    assert n * (q - low) == q * n - low * n;
  }

  /** A figure's mean over a bucket, truncated, is a value the figure can take. */
  lemma MeanFits(c: seq<Sample>, field: Sample -> int, low: int, high: int)
    requires |c| > 0 && low <= 0 <= high
    requires forall x: Sample :: low <= field(x) <= high
    ensures low <= TruncDiv(Sum(c, field, 0, |c|), |c|) <= high
  {
    SumBounds(c, field, 0, |c|, low, high);
    MeanBounds(Sum(c, field, 0, |c|), |c|, low, high);
  }

  function Mean(c: seq<Sample>, field: Sample -> int): int
    requires |c| > 0
  {
    TruncDiv(Sum(c, field, 0, |c|), |c|)
  }

  /** One point: the truncated means of a bucket. */
  function PointOf(c: seq<Sample>): Sample
    requires |c| > 0
  {
    MeanFits(c, HASHRATE, 0, 65535);
    MeanFits(c, POWER, 0, 65535);
    MeanFits(c, BOARD, -128, 127);
    MeanFits(c, VR, -128, 127);
    Sample(Mean(c, HASHRATE), Mean(c, POWER), Mean(c, BOARD), Mean(c, VR), true)
  }

  /** Each figure is averaged on its own: a bucket of equal samples averages to that sample. */
  lemma {:induction false} EqualSamples(c: seq<Sample>, s: Sample)
    requires |c| > 0 && s.valid && forall i :: 0 <= i < |c| ==> c[i] == s
    ensures PointOf(c) == s
  {
    MeanOfEqual(c, HASHRATE, s);
    MeanOfEqual(c, POWER, s);
    MeanOfEqual(c, BOARD, s);
    MeanOfEqual(c, VR, s);
  }

  lemma MeanOfEqual(c: seq<Sample>, field: Sample -> int, s: Sample)
    requires |c| > 0 && forall i :: 0 <= i < |c| ==> c[i] == s
    ensures Mean(c, field) == field(s)
  {
    SumOfEqual(c, field, s, |c|);
    var q, r := QuotientTruncates(field(s) * |c|, |c|);
    SignOfProduct(|c|, q - field(s));
    assert |c| * (q - field(s)) == q * |c| - field(s) * |c|;
  }

  lemma {:induction false} SumOfEqual(c: seq<Sample>, field: Sample -> int, s: Sample, n: nat)
    requires n <= |c| && forall i :: 0 <= i < |c| ==> c[i] == s
    ensures Sum(c, field, 0, n) == field(s) * n
  {
    if n > 0 {
      SumOfEqual(c, field, s, n - 1);
      assert field(s) * n == field(s) * (n - 1) + field(s);
    }
  }

  /** No sum over a bucket leaves its 32 bits. */
  lemma SumsFit(c: seq<Sample>, n: nat)
    requires n <= |c| <= CAPACITY
    ensures 0 <= Sum(c, HASHRATE, 0, n) < TWO32 && 0 <= Sum(c, POWER, 0, n) < TWO32
    ensures -0x8000_0000 <= Sum(c, BOARD, 0, n) < 0x8000_0000 && -0x8000_0000 <= Sum(c, VR, 0, n) < 0x8000_0000
  {
    SumBounds(c, HASHRATE, 0, n, 0, 65535);
    SumBounds(c, POWER, 0, n, 0, 65535);
    SumBounds(c, BOARD, 0, n, -128, 127);
    SumBounds(c, VR, 0, n, -128, 127);
  }

  /** The buckets of a stretch of history, oldest first. */
  function Cuts(s: seq<Sample>, bucket: nat): seq<seq<Sample>>
    requires bucket > 0
  {
    if |s| <= bucket then [s] else [s[..bucket]] + Cuts(s[bucket..], bucket)
  }

  function Averages(s: seq<Sample>, bucket: nat): seq<Sample>
    requires bucket > 0 && |s| > 0
  {
    if |s| <= bucket then [PointOf(s)] else [PointOf(s[..bucket])] + Averages(s[bucket..], bucket)
  }

  function Flat(cuts: seq<seq<Sample>>): seq<Sample> {
    if cuts == [] then [] else cuts[0] + Flat(cuts[1..])
  }

  /** The buckets partition the samples in order. */
  lemma {:induction false} CutsFlat(s: seq<Sample>, bucket: nat)
    requires bucket > 0
    ensures Flat(Cuts(s, bucket)) == s
    decreases |s|
  {
    if |s| <= bucket {
      assert Flat([s]) == s + Flat([]);
    } else {
      CutsFlat(s[bucket..], bucket);
      assert Cuts(s, bucket)[1..] == Cuts(s[bucket..], bucket);
      assert s == s[..bucket] + s[bucket..];
    }
  }

  /** No bucket is empty or too large, and each point averages its bucket. */
  lemma {:induction false} PointsAverage(s: seq<Sample>, bucket: nat, i: nat)
    requires bucket > 0 && |s| > 0 && i < |Cuts(s, bucket)|
    ensures 0 < |Cuts(s, bucket)[i]| <= bucket
    ensures i < |Averages(s, bucket)| && Averages(s, bucket)[i] == PointOf(Cuts(s, bucket)[i])
    decreases |s|
  {
    if |s| > bucket && i > 0 {
      PointsAverage(s[bucket..], bucket, i - 1);
    }
  }

  lemma {:induction false} AsManyPoints(s: seq<Sample>, bucket: nat)
    requires bucket > 0 && |s| > 0
    ensures |Averages(s, bucket)| == |Cuts(s, bucket)|
    decreases |s|
  {
    if |s| > bucket { AsManyPoints(s[bucket..], bucket); }
  }

  lemma {:induction false} CutsCount(s: seq<Sample>, bucket: nat)
    requires bucket > 0 && |s| > 0
    ensures |Cuts(s, bucket)| == CeilDiv(|s|, bucket)
    decreases |s|
  {
    if |s| <= bucket {
      QuotientIs(|s| + bucket - 1, 1, bucket);
    } else {
      CutsCount(s[bucket..], bucket);
      QuotientShift(|s| - 1, 1, bucket);
      assert |s| - bucket + bucket - 1 == |s| - 1;
    }
  }

  /** No more points than asked for. */
  lemma PointsFit(wanted: nat, maxPoints: nat)
    requires wanted > 0 && maxPoints > 0
    ensures CeilDiv(wanted, maxPoints) > 0 && CeilDiv(wanted, CeilDiv(wanted, maxPoints)) <= maxPoints
  {
    var b := CeilDivIs(wanted, maxPoints);
    var q := CeilDivIs(wanted, b);
    SignOfProduct(b, q - 1 - maxPoints);
    assert b * (q - 1 - maxPoints) == (q - 1) * b - b * maxPoints;
    assert q - 1 - maxPoints == 0 ==> b * (q - 1 - maxPoints) == 0;
  }

  /** What a query answers: the points, and the seconds each covers. */
  function Answer(held: seq<Sample>, window: nat, maxPoints: nat): (seq<Sample>, nat) {
    if maxPoints == 0 || held == [] then ([], INTERVAL_SECONDS)
    else
      var wanted := Wanted(|held|, window);
      var bucket := Bucket(wanted, maxPoints);
      (Averages(Last(held, wanted), bucket), bucket * INTERVAL_SECONDS)
  }

  /** An answer's points are the truncated means of buckets that partition the newest samples
      wanted, in order and none empty; and there are at most as many as asked for. */
  lemma AnswerAverages(held: seq<Sample>, window: nat, maxPoints: nat)
    requires 0 < |held| <= CAPACITY && 0 < maxPoints < TWO32
    ensures var wanted := Wanted(|held|, window);
      var bucket := Bucket(wanted, maxPoints);
      var (cuts, points) := (Cuts(Last(held, wanted), bucket), Answer(held, window, maxPoints).0);
      && Flat(cuts) == Last(held, wanted)
      && |points| == |cuts| <= maxPoints
      && forall i :: 0 <= i < |cuts| ==> 0 < |cuts[i]| <= bucket && points[i] == PointOf(cuts[i])
  {
    var wanted := Wanted(|held|, window);
    BucketIsCeil(wanted, maxPoints);
    var w, bucket := Last(held, wanted), Bucket(wanted, maxPoints);
    CutsFlat(w, bucket);
    CutsCount(w, bucket);
    AsManyPoints(w, bucket);
    PointsFit(wanted, maxPoints);
    forall i | 0 <= i < |Cuts(w, bucket)|
      ensures 0 < |Cuts(w, bucket)[i]| <= bucket && Averages(w, bucket)[i] == PointOf(Cuts(w, bucket)[i])
    {
      PointsAverage(w, bucket, i);
    }
  }

  /** The bucket that starts at `base`. */
  function CutFrom(w: seq<Sample>, base: nat, bucket: nat): (c: seq<Sample>)
    requires base < |w| && bucket > 0
    ensures |c| > 0
  {
    if |w| - base <= bucket then w[base..] else w[base..base + bucket]
  }

  lemma AveragesSplit(t: seq<Sample>, bucket: nat, first: seq<Sample>, rest: seq<Sample>)
    requires |t| > bucket > 0 && first == t[..bucket] && rest == t[bucket..]
    ensures Averages(t, bucket) == [PointOf(first)] + Averages(rest, bucket)
  {}

  lemma AveragesNext(w: seq<Sample>, base: nat, start: nat, bucket: nat)
    requires base < |w| && bucket > 0 && start == base + bucket
    ensures Averages(w[base..], bucket)
         == [PointOf(CutFrom(w, base, bucket))] + if start < |w| then Averages(w[start..], bucket) else []
  {
    var t, c := w[base..], CutFrom(w, base, bucket);
    if start < |w| {
      AveragesSplit(t, bucket, c, w[start..]);
    } else {
      assert [PointOf(t)] + [] == [PointOf(t)];
    }
  }

  /** The points of the buckets from `base` on. */
  function RestOf(w: seq<Sample>, base: nat, bucket: nat): seq<Sample>
    requires bucket > 0
  {
    if base < |w| then Averages(w[base..], bucket) else []
  }

  lemma RestFromStart(w: seq<Sample>, bucket: nat)
    requires bucket > 0 && |w| > 0
    ensures [] + RestOf(w, 0, bucket) == Averages(w, bucket)
  {
    assert w[0..] == w;
  }

  lemma NothingLeft(done: seq<Sample>, w: seq<Sample>, base: nat, bucket: nat)
    requires base >= |w| && bucket > 0
    ensures done + RestOf(w, base, bucket) == done
  {}

  lemma RestNext(done: seq<Sample>, avg: Sample, w: seq<Sample>, base: nat, start: nat, bucket: nat)
    requires bucket > 0 && base < |w| && start == base + bucket && avg == PointOf(CutFrom(w, base, bucket))
    ensures done + [avg] + RestOf(w, start, bucket) == done + RestOf(w, base, bucket)
  {
    AveragesNext(w, base, start, bucket);
    Associates(done, [avg], RestOf(w, start, bucket));
  }

  /** The mean of each figure, from its sum over a bucket. */
  method Averaged(ghost c: seq<Sample>, taken: nat, hash: int, power: int, board: int, vr: int) returns (avg: Sample)
    requires taken == |c| > 0
    requires hash == Sum(c, HASHRATE, 0, |c|) && power == Sum(c, POWER, 0, |c|)
    requires board == Sum(c, BOARD, 0, |c|) && vr == Sum(c, VR, 0, |c|)
    ensures avg == PointOf(c)
  {
    MeanFits(c, HASHRATE, 0, 65535);
    MeanFits(c, POWER, 0, 65535);
    MeanFits(c, BOARD, -128, 127);
    MeanFits(c, VR, -128, 127);
    return Sample(TruncDiv(hash, taken), TruncDiv(power, taken),
                  ClampI8(TruncDiv(board, taken)), ClampI8(TruncDiv(vr, taken)), true);
  }

  /** Where the `p`th bucket starts. */
  function StartOf(p: nat, bucket: nat): nat {
    if p == 0 then 0 else StartOf(p - 1, bucket) + bucket
  }

  lemma {:induction false} StartOfIs(p: nat, bucket: nat)
    ensures StartOf(p, bucket) == p * bucket
  {
    if p > 0 {
      StartOfIs(p - 1, bucket);
      assert p * bucket == (p - 1) * bucket + bucket;
    }
  }

  lemma {:induction false} StartsRise(i: nat, j: nat, bucket: nat)
    requires i <= j
    ensures StartOf(i, bucket) <= StartOf(j, bucket)
    decreases j
  {
    if i < j { StartsRise(i, j - 1, bucket); }
  }

  /** So many buckets cover the samples, and no fewer. */
  predicate Covers(points: nat, bucket: nat, wanted: nat) {
    points > 0 && StartOf(points - 1, bucket) < wanted <= StartOf(points, bucket)
  }

  lemma CeilCovers(wanted: nat, bucket: nat)
    requires wanted > 0 && bucket > 0
    ensures Covers(CeilDiv(wanted, bucket), bucket, wanted)
  {
    var q := CeilDivIs(wanted, bucket);
    StartOfIs(q - 1, bucket);
    StartOfIs(q, bucket);
  }

  lemma NextStart(wanted: nat, bucket: nat, points: nat, p: nat)
    requires Covers(points, bucket, wanted) && p < points
    ensures StartOf(p, bucket) < wanted
    ensures StartOf(p + 1, bucket) < wanted <==> p + 1 < points
  {
    StartsRise(p, points - 1, bucket);
    if p + 1 < points {
      StartsRise(p + 1, points - 1, bucket);
    }
  }

  // ---------------------------------------------------------------- the module's state

  class History {
    var ring: array?<Sample>
    var held: nat
    var next: nat
    var lastUs: int

    ghost predicate Valid()
      reads this, ring
    {
      if ring == null then held == next == 0
      else
        && ring.Length == CAPACITY && held <= CAPACITY && next < CAPACITY
        && (held < CAPACITY ==> next == held)
        && forall i :: 0 <= i < held ==> ring[i].valid
    }

    /** Where the `i`th oldest sample is. */
    function At(i: nat): (k: nat)
      reads this
      requires i < held <= CAPACITY && next < CAPACITY && (held < CAPACITY ==> next == held)
      ensures k < held
    {
      if held < CAPACITY then i else if next + i < CAPACITY then next + i else next + i - CAPACITY
    }

    /** The samples held, oldest first. */
    ghost function Contents(): (s: seq<Sample>)
      reads this, ring
      requires Valid()
      ensures |s| == held
    {
      seq(held, i requires 0 <= i < held && Valid() reads this, ring => ring[At(i)])
    }

    constructor ()
      ensures Valid() && Contents() == [] && lastUs == 0
    {
      ring, held, next, lastUs := null, 0, 0, 0;
    }

    /** Samples if it is time; `memory` says whether an absent ring can be allocated. */
    method Tick(nowUs: int, figures: Figures, memory: bool)
      requires Valid()
      modifies this, ring
      ensures Valid()
      ensures var due := old(lastUs) == 0 || nowUs - old(lastUs) >= INTERVAL_SECONDS * 1_000_000;
        if due && (old(ring) != null || memory) then
          Contents() == Pushed(old(Contents()), SampleOf(figures)) && lastUs == nowUs
        else Contents() == old(Contents()) && lastUs == old(lastUs)
    {
      if lastUs != 0 && nowUs - lastUs < INTERVAL_SECONDS * 1_000_000 {
        return;
      }
      if ring == null {
        if !memory {
          return;
        }
        ring := new Sample[CAPACITY](_ => Sample(0, 0, 0, 0, false));
      }
      lastUs := nowUs;
      Store(SampleOf(figures));
    }

    method Store(s: Sample)
      requires Valid() && ring != null && s.valid
      modifies this`held, this`next, ring
      ensures Valid() && Contents() == Pushed(old(Contents()), s)
    {
      ring[next] := s;
      next := (next + 1) % CAPACITY;
      if held < CAPACITY {
        held := held + 1;
      }
    }

    /** Walking back from the newest sample lands on the oldest one wanted. */
    lemma WalkBack(wanted: nat, index: nat)
      requires held <= CAPACITY && next < CAPACITY && (held < CAPACITY ==> next == held)
      requires index < wanted <= held
      ensures ((next + CAPACITY - wanted) % CAPACITY + index) % CAPACITY == At(held - wanted + index)
    {
      var x := next + CAPACITY - wanted;
      assert x % CAPACITY == if x < CAPACITY then x else x - CAPACITY;
      var y := x % CAPACITY + index;
      assert y % CAPACITY == if y < CAPACITY then y else y - CAPACITY;
    }

    /** The `index`th of the samples wanted. */
    method Fetch(wanted: nat, index: nat) returns (s: Sample)
      requires Valid() && ring != null && index < wanted <= held
      ensures s.valid && s == Last(Contents(), wanted)[index]
    {
      var start := (next + CAPACITY - wanted) % CAPACITY;
      WalkBack(wanted, index);
      s := ring[(start + index) % CAPACITY];
    }

    /** The `k`th sample of the bucket at `base`. */
    method FetchFrom(wanted: nat, base: nat, bucket: nat, k: nat, ghost c: seq<Sample>) returns (s: Sample)
      requires Valid() && ring != null && k < bucket && base + k < wanted <= held
      requires c == CutFrom(Last(Contents(), wanted), base, bucket)
      ensures k < |c| && s.valid && s == c[k]
    {
      s := Fetch(wanted, base + k);
    }

    /** The point that covers `bucket` of the samples wanted, from `base` on. */
    method OnePoint(wanted: nat, base: nat, bucket: nat) returns (avg: Sample)
      requires Valid() && ring != null && base < wanted <= held && bucket > 0
      ensures avg == PointOf(CutFrom(Last(Contents(), wanted), base, bucket))
    {
      ghost var c := CutFrom(Last(Contents(), wanted), base, bucket);
      var taken, hash, power, board, vr := 0, 0, 0, 0, 0;
      var k := 0;
      while k < bucket && base + k < wanted
        invariant k <= |c| && taken == k
        invariant hash == Sum(c, HASHRATE, 0, k) && power == Sum(c, POWER, 0, k)
        invariant board == Sum(c, BOARD, 0, k) && vr == Sum(c, VR, 0, k)
      {
        var s := FetchFrom(wanted, base, bucket, k, c);
        if s.valid {
          hash, power := hash + s.hashrate, power + s.power;
          board, vr := board + s.board, vr + s.vr;
          taken := taken + 1;
        }
        k := k + 1;
      }
      avg := Averaged(c, taken, hash, power, board, vr);
    }

    /** Averages the last `window` seconds into at most `maxPoints` points. */
    method Query(window: nat, maxPoints: nat, out: array?<Sample>) returns (points: nat, interval: nat)
      requires Valid() && maxPoints < TWO32 && (out != null ==> out.Length >= maxPoints && out != ring)
      modifies out
      ensures if out == null then (points, interval) == (0, INTERVAL_SECONDS)
        else points <= out.Length && (out[..points], interval) == Answer(Contents(), window, maxPoints)
    {
      if out == null || maxPoints == 0 || ring == null || held == 0 {
        return 0, INTERVAL_SECONDS;
      }
      var wanted := Wanted(held, window);
      var bucket := Bucket(wanted, maxPoints);
      BucketIsCeil(wanted, maxPoints);
      PointsFit(wanted, maxPoints);
      CeilCovers(wanted, bucket);
      points := (wanted + bucket - 1) / bucket;
      interval := bucket * INTERVAL_SECONDS;
      FillPoints(wanted, bucket, points, out);
    }

    method FillPoints(wanted: nat, bucket: nat, points: nat, out: array<Sample>)
      requires Valid() && ring != null && 0 < wanted <= held && bucket > 0
      requires Covers(points, bucket, wanted) && points <= out.Length && out != ring
      modifies out
      ensures out[..points] == Averages(Last(Contents(), wanted), bucket)
    {
      ghost var w := Last(Contents(), wanted);
      ghost var all := Averages(w, bucket);
      RestFromStart(w, bucket);
      var p, base := 0, 0;
      while p < points
        invariant p <= points && base == StartOf(p, bucket) && w == Last(Contents(), wanted)
        invariant out[..p] + RestOf(w, base, bucket) == all
      {
        p, base := WritePoint(wanted, bucket, points, p, base, out, w, all);
      }
      NothingLeft(out[..p], w, base, bucket);
    }

    method WritePoint(wanted: nat, bucket: nat, points: nat, p: nat, base: nat, out: array<Sample>,
                      ghost w: seq<Sample>, ghost all: seq<Sample>)
      returns (next: nat, start: nat)
      requires Valid() && ring != null && 0 < wanted <= held && bucket > 0 && out != ring
      requires Covers(points, bucket, wanted) && p < points <= out.Length && base == StartOf(p, bucket)
      requires w == Last(Contents(), wanted) && out[..p] + RestOf(w, base, bucket) == all
      modifies out
      ensures next == p + 1 && start == StartOf(next, bucket) && w == Last(Contents(), wanted)
      ensures out[..next] + RestOf(w, start, bucket) == all
    {
      NextStart(wanted, bucket, points, p);
      ghost var done := out[..p];
      next, start := p + 1, base + bucket;
      var avg := OnePoint(wanted, base, bucket);
      RestNext(done, avg, w, base, start, bucket);
      Put(out, p, next, avg, done);
    }

    method Put(out: array<Sample>, p: nat, next: nat, point: Sample, ghost done: seq<Sample>)
      requires Valid() && out != ring && p < out.Length && next == p + 1 && out[..p] == done
      modifies out
      ensures out[..next] == done + [point] && Contents() == old(Contents())
    {
      out[p] := point;
    }
  }
}

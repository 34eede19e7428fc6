/** The slice scheduler of components/dual_pool: error diffusion across up to four
    pools, driven by a catch-up clock.

    The first half treats one slice as a function on the accumulators and proves what
    every run keeps.  The second half is the mutable scheduler itself, proved to follow
    that function slice by slice. */
module PoolScheduler {
  import opened IntMath

  const POOL_MAX: nat := 4

  // ---------------------------------------------------------------- sums over a group

  /** The sum over those of the first `n` pools that belong to the group `g`. */
  function GroupSum(s: seq<int>, g: seq<bool>, n: nat): int
    requires n <= |s| && n <= |g|
  {
    if n == 0 then 0 else GroupSum(s, g, n - 1) + if g[n - 1] then s[n - 1] else 0
  }

  /** How many of the first `n` pools belong to the group. */
  function Size(g: seq<bool>, n: nat): nat
    requires n <= |g|
  {
    if n == 0 then 0 else Size(g, n - 1) + if g[n - 1] then 1 else 0
  }

  function Everyone(n: nat): seq<bool> {
    seq(n, _ => true)
  }

  function Sum(s: seq<int>): int {
    GroupSum(s, Everyone(|s|), |s|)
  }

  function Zeros(n: nat): seq<int> {
    seq(n, _ => 0)
  }

  lemma {:induction false} GroupSumSame(s: seq<int>, s': seq<int>, g: seq<bool>, g': seq<bool>, n: nat)
    requires n <= |s| && n <= |s'| && n <= |g| && n <= |g'|
    requires forall j :: 0 <= j < n ==> s[j] == s'[j] && g[j] == g'[j]
    ensures GroupSum(s, g, n) == GroupSum(s', g', n)
    ensures Size(g, n) == Size(g', n)
  {
    if n > 0 { GroupSumSame(s, s', g, g', n - 1); }
  }

  lemma {:induction false} GroupSumLinear(a: seq<int>, b: seq<int>, c: seq<int>, g: seq<bool>, n: nat)
    requires n <= |a| && n <= |b| && n <= |c| && n <= |g|
    requires forall j :: 0 <= j < n ==> c[j] == a[j] + b[j]
    ensures GroupSum(c, g, n) == GroupSum(a, g, n) + GroupSum(b, g, n)
  {
    if n > 0 { GroupSumLinear(a, b, c, g, n - 1); }
  }

  lemma {:induction false} GroupSumAtMost(s: seq<int>, g: seq<bool>, n: nat, bound: int)
    requires n <= |s| && n <= |g|
    requires forall j :: 0 <= j < n && g[j] ==> s[j] <= bound
    ensures GroupSum(s, g, n) <= Size(g, n) * bound
  {
    if n > 0 {
      GroupSumAtMost(s, g, n - 1, bound);
      assert Size(g, n) * bound == Size(g, n - 1) * bound + if g[n - 1] then bound else 0;
    }
  }

  lemma {:induction false} GroupSumMonotone(s: seq<int>, g: seq<bool>, g': seq<bool>, n: nat)
    requires n <= |s| && n <= |g| && n <= |g'|
    requires forall j :: 0 <= j < n ==> s[j] >= 0 && (g[j] ==> g'[j])
    ensures GroupSum(s, g, n) <= GroupSum(s, g', n)
  {
    if n > 0 { GroupSumMonotone(s, g, g', n - 1); }
  }

  lemma {:induction false} GroupSumZero(s: seq<int>, g: seq<bool>, n: nat)
    requires n <= |s| && n <= |g|
    requires forall j :: 0 <= j < n && g[j] ==> s[j] == 0
    ensures GroupSum(s, g, n) == 0
  {
    if n > 0 { GroupSumZero(s, g, n - 1); }
  }

  /** Adding pool `i` to a group adds its entry. */
  lemma {:induction false} GroupExtend(s: seq<int>, g: seq<bool>, i: nat, n: nat)
    requires i < n <= |s| && n <= |g| && !g[i]
    ensures GroupSum(s, g[i := true], n) == GroupSum(s, g, n) + s[i]
    ensures Size(g[i := true], n) == Size(g, n) + 1
  {
    if i < n - 1 {
      GroupExtend(s, g, i, n - 1);
    } else {
      GroupSumSame(s, s, g[i := true], g, n - 1);
    }
  }

  lemma {:induction false} GroupSumScale(c: int, s: seq<int>, s': seq<int>, g: seq<bool>, n: nat)
    requires n <= |s| && n <= |s'| && n <= |g|
    requires forall j :: 0 <= j < n ==> s'[j] == c * s[j]
    ensures GroupSum(s', g, n) == c * GroupSum(s, g, n)
  {
    if n > 0 {
      GroupSumScale(c, s, s', g, n - 1);
      var x := if g[n - 1] then s[n - 1] else 0;
      assert c * (GroupSum(s, g, n - 1) + x) == c * GroupSum(s, g, n - 1) + c * x;
    }
  }

  lemma {:induction false} SizeAtMost(g: seq<bool>, n: nat)
    requires n <= |g|
    ensures Size(g, n) <= n
    ensures Size(g, n) == n ==> forall j :: 0 <= j < n ==> g[j]
  {
    if n > 0 { SizeAtMost(g, n - 1); }
  }

  // ---------------------------------------------------------------- one slice

  function Plus(a: seq<int>, b: seq<int>): seq<int>
    requires |a| == |b|
  {
    seq(|a|, i requires 0 <= i < |a| => a[i] + b[i])
  }

  function Scale(c: int, s: seq<int>): seq<int> {
    seq(|s|, i requires 0 <= i < |s| => c * s[i])
  }

  /** `k` is the first of the largest of the first `n` entries: a tie goes to the
      lower-numbered pool. */
  predicate IsFirstMax(a: seq<int>, k: nat, n: nat)
    requires n <= |a|
  {
    && k < n
    && (forall j :: 0 <= j < n ==> a[j] <= a[k])
    && (forall j :: 0 <= j < k ==> a[j] < a[k])
  }

  function FirstMax(a: seq<int>, n: nat): (k: nat)
    requires 0 < n <= |a|
    ensures k < n
  {
    if n == 1 then 0
    else
      var k := FirstMax(a, n - 1);
      if a[n - 1] > a[k] then n - 1 else k
  }

  lemma {:induction false} FirstMaxIsFirstMax(a: seq<int>, n: nat)
    requires 0 < n <= |a|
    ensures IsFirstMax(a, FirstMax(a, n), n)
  {
    if n > 1 { FirstMaxIsFirstMax(a, n - 1); }
  }

  /** A usable set of weights: what `InitN` leaves behind, for any number of pools. */
  predicate Weights(w: seq<int>) {
    |w| > 0 && (forall i :: 0 <= i < |w| ==> w[i] >= 0) && Sum(w) > 0
  }

  /** The pool that takes the next slice: the first of those with the largest claim. */
  function NextHolder(w: seq<int>, acc: seq<int>): (h: nat)
    requires |w| == |acc| > 0
    ensures h < |w|
  {
    FirstMax(Plus(acc, w), |w|)
  }

  lemma HolderHasLargestClaim(w: seq<int>, acc: seq<int>, j: nat)
    requires j < |w| == |acc|
    ensures var h := NextHolder(w, acc);
      acc[j] + w[j] <= acc[h] + w[h] && (j < h ==> acc[j] + w[j] < acc[h] + w[h])
  {
    var earned, h := Plus(acc, w), NextHolder(w, acc);
    FirstMaxIsFirstMax(earned, |w|);
    assert earned[j] <= earned[h];
  }

  /** The accumulators after one slice: everyone earns, the holder pays the total. */
  function NextAcc(w: seq<int>, acc: seq<int>): (r: seq<int>)
    requires |w| == |acc| > 0
    ensures |r| == |acc|
  {
    var h, t := NextHolder(w, acc), Sum(w);
    seq(|acc|, i requires 0 <= i < |acc| => acc[i] + w[i] - if i == h then t else 0)
  }

  /** The accumulators after `k` slices of a run that starts from zero. */
  function AccAt(w: seq<int>, k: nat): (r: seq<int>)
    requires |w| > 0
    ensures |r| == |w|
  {
    if k == 0 then Zeros(|w|) else NextAcc(w, AccAt(w, k - 1))
  }

  /** The pool that holds slice number `k`, counting from 0. */
  function HolderAt(w: seq<int>, k: nat): (h: nat)
    requires |w| > 0
    ensures h < |w|
  {
    NextHolder(w, AccAt(w, k))
  }

  /** How many of the first `k` slices pool `i` has held. */
  function Wins(w: seq<int>, i: nat, k: nat): nat
    requires |w| > 0
  {
    if k == 0 then 0 else Wins(w, i, k - 1) + if HolderAt(w, k - 1) == i then 1 else 0
  }

  // ---------------------------------------------------------------- invariants of every run

  /** What one slice does to the sum over any group that the group's weight explains. */
  lemma {:induction false} GroupAfterSlice(w: seq<int>, acc: seq<int>, g: seq<bool>)
    requires |w| == |acc| == |g| > 0
    ensures GroupSum(NextAcc(w, acc), g, |g|)
         == GroupSum(acc, g, |g|) + GroupSum(w, g, |g|) - if g[NextHolder(w, acc)] then Sum(w) else 0
  {
    var n, h, t := |w|, NextHolder(w, acc), Sum(w);
    var earned := Plus(acc, w);
    GroupSumLinear(acc, w, earned, g, n);
    var paid := seq(n, i => if i == h then -t else 0);
    GroupSumLinear(earned, paid, NextAcc(w, acc), g, n);
    SingleEntry(paid, g, h, n);
  }

  lemma {:induction false} SingleEntry(s: seq<int>, g: seq<bool>, h: nat, n: nat)
    requires h < n <= |s| && n <= |g|
    requires forall j :: 0 <= j < n && j != h ==> s[j] == 0
    ensures GroupSum(s, g, n) == if g[h] then s[h] else 0
  {
    if h == n - 1 {
      GroupSumZero(s, g, n - 1);
    } else {
      SingleEntry(s, g, h, n - 1);
    }
  }

  /** After every slice the accumulators sum to zero: nothing is created or lost. */
  lemma {:induction false} SumStaysZero(w: seq<int>, k: nat)
    requires |w| > 0
    ensures Sum(AccAt(w, k)) == 0
  {
    if k == 0 {
      GroupSumZero(Zeros(|w|), Everyone(|w|), |w|);
    } else {
      SumStaysZero(w, k - 1);
      GroupAfterSlice(w, AccAt(w, k - 1), Everyone(|w|));
    }
  }

  /** The holder of a slice had a positive claim before it paid. */
  lemma HolderClaim(w: seq<int>, k: nat)
    requires Weights(w)
    ensures AccAt(w, k)[HolderAt(w, k)] + w[HolderAt(w, k)] > 0
  {
    var acc, all, n := AccAt(w, k), Everyone(|w|), |w|;
    SumStaysZero(w, k);
    GroupSumLinear(acc, w, Plus(acc, w), all, n);
    var h := HolderAt(w, k);
    if acc[h] + w[h] <= 0 {
      forall j | 0 <= j < n ensures Plus(acc, w)[j] <= 0 { HolderHasLargestClaim(w, acc, j); }
      GroupSumAtMost(Plus(acc, w), all, n, 0);
    }
  }

  /** Each accumulator stays strictly above minus the total. */
  lemma {:induction false} AboveMinusTotal(w: seq<int>, k: nat, i: nat)
    requires Weights(w) && i < |w|
    ensures AccAt(w, k)[i] > -Sum(w)
  {
    if k > 0 {
      AboveMinusTotal(w, k - 1, i);
      HolderClaim(w, k - 1);
    }
  }

  /** Conservation: what a pool is owed is what it earned less what it was served. */
  lemma {:induction false} OwedIsEarnedLessServed(w: seq<int>, k: nat, i: nat, t: int)
    requires |w| > 0 && i < |w| && t == Sum(w)
    ensures AccAt(w, k)[i] == k * w[i] - t * Wins(w, i, k)
  {
    if k > 0 {
      OwedIsEarnedLessServed(w, k - 1, i, t);
      var won := if HolderAt(w, k - 1) == i then 1 else 0;
      assert AccAt(w, k)[i] == AccAt(w, k - 1)[i] + w[i] - t * won;
      Distribute(k, w[i], t, Wins(w, i, k - 1), won);
    }
  }

  lemma Distribute(k: int, x: int, t: int, a: int, b: int)
    ensures k * x == (k - 1) * x + x
    ensures t * (a + b) == t * a + t * b
  {}

  // ---------------------------------------------------------------- exact cycle

  lemma {:induction false} NonNegativeSumZero(s: seq<int>, g: seq<bool>, n: nat)
    requires n <= |s| && n <= |g|
    requires forall j :: 0 <= j < n ==> s[j] >= 0 && g[j]
    ensures GroupSum(s, g, n) >= 0
    ensures GroupSum(s, g, n) == 0 ==> forall j :: 0 <= j < n ==> s[j] == 0
  {
    if n > 0 { NonNegativeSumZero(s, g, n - 1); }
  }

  /** A multiple of `t` above `-t` is not negative, and is zero only for a zero factor. */
  lemma MultipleAboveMinusOne(t: int, a: int, b: int)
    requires t > 0 && t * a - t * b > -t
    ensures 0 <= a - b <= t * a - t * b
  {
    var q := a - b;
    assert t * a - t * b == t * q;
    assert t * (q + 1) > 0;
    assert q + 1 > 0;
    assert (t - 1) * q >= 0;
  }

  /** After as many slices as the weights add up to, every account is settled exactly and
      each pool has held as many slices as its weight. */
  lemma {:induction false} ExactCycle(w: seq<int>)
    requires Weights(w)
    ensures AccAt(w, Sum(w)) == Zeros(|w|)
    ensures forall i :: 0 <= i < |w| ==> Wins(w, i, Sum(w)) == w[i]
  {
    var t := Sum(w);
    var acc := AccAt(w, t);
    forall i | 0 <= i < |w|
      ensures 0 <= w[i] - Wins(w, i, t) <= acc[i]
    {
      AccountAfterCycle(w, i, t);
    }
    SumStaysZero(w, t);
    NonNegativeSumZero(acc, Everyone(|w|), |w|);
  }

  lemma AccountAfterCycle(w: seq<int>, i: nat, t: nat)
    requires Weights(w) && i < |w| && t == Sum(w)
    ensures 0 <= w[i] - Wins(w, i, t) <= AccAt(w, t)[i]
  {
    OwedIsEarnedLessServed(w, t, i, t);
    AboveMinusTotal(w, t, i);
    MultipleAboveMinusOne(t, w[i], Wins(w, i, t));
  }

  /** The schedule repeats with the total as its period: slice `later` comes exactly
      `Sum(w)` slices after slice `k`. */
  lemma {:induction false} Periodic(w: seq<int>, k: nat, later: nat)
    requires Weights(w) && later == Sum(w) + k
    ensures AccAt(w, later) == AccAt(w, k)
    ensures HolderAt(w, later) == HolderAt(w, k)
  {
    if k == 0 {
      ExactCycle(w);
    } else {
      Periodic(w, k - 1, later - 1);
    }
  }

  /** Any window of `Sum(w)` consecutive slices, wherever it starts, gives pool `i`
      exactly its weight. */
  lemma EveryWindowIsFair(w: seq<int>, i: nat, k: nat, later: nat)
    requires Weights(w) && i < |w| && later == Sum(w) + k
    ensures Wins(w, i, later) - Wins(w, i, k) == w[i]
  {
    Periodic(w, k, later);
    OwedIsEarnedLessServed(w, k, i, Sum(w));
    OwedIsEarnedLessServed(w, later, i, Sum(w));
    SameAccount(Sum(w), k, w[i], Wins(w, i, later), Wins(w, i, k));
  }

  lemma SameAccount(t: int, k: int, x: int, a: int, b: int)
    requires t > 0 && (t + k) * x - t * a == k * x - t * b
    ensures a - b == x
  {
    var d := x - (a - b);
    assert t * d == 0;
    SignOfProduct(t, d);
  }

  /** A pool with no weight never holds a slice. */
  lemma {:induction false} ZeroWeightNeverServed(w: seq<int>, i: nat, k: nat)
    requires Weights(w) && i < |w| && w[i] == 0
    ensures HolderAt(w, k) != i && AccAt(w, k)[i] == 0
  {
    if k > 0 {
      ZeroWeightNeverServed(w, i, k - 1);
    }
    HolderClaim(w, k);
  }

  /** Only the proportions matter: scaling every weight leaves the schedule unchanged. */
  lemma {:induction false} ScalingChangesNothing(w: seq<int>, c: nat, k: nat)
    requires |w| > 0 && c > 0
    ensures AccAt(Scale(c, w), k) == Scale(c, AccAt(w, k))
    ensures HolderAt(Scale(c, w), k) == HolderAt(w, k)
  {
    if k == 0 {
      assert AccAt(Scale(c, w), 0) == Scale(c, AccAt(w, 0));
    } else {
      ScalingChangesNothing(w, c, k - 1);
      ScaledSlice(w, AccAt(w, k - 1), c);
    }
    ScaledSlice(w, AccAt(w, k), c);
  }

  lemma ScaledSlice(w: seq<int>, acc: seq<int>, c: nat)
    requires |w| == |acc| > 0 && c > 0
    ensures NextHolder(Scale(c, w), Scale(c, acc)) == NextHolder(w, acc)
    ensures NextAcc(Scale(c, w), Scale(c, acc)) == Scale(c, NextAcc(w, acc))
  {
    var h, g := NextHolder(w, acc), NextHolder(Scale(c, w), Scale(c, acc));
    HolderHasLargestClaim(w, acc, g);
    HolderHasLargestClaim(Scale(c, w), Scale(c, acc), h);
    ScaledOrder(c, acc[h], w[h], acc[g], w[g]);
    ScaledOrder(c, acc[g], w[g], acc[h], w[h]);
    GroupSumScale(c, w, Scale(c, w), Everyone(|w|), |w|);
    forall i | 0 <= i < |w|
      ensures NextAcc(Scale(c, w), Scale(c, acc))[i] == Scale(c, NextAcc(w, acc))[i]
    {
      ScaledEntry(c, acc[i], w[i], if i == h then Sum(w) else 0);
    }
  }

  lemma ScaledEntry(c: int, a: int, x: int, paid: int)
    ensures c * (a + x - paid) == c * a + c * x - c * paid
  {}

  lemma ScaledOrder(c: nat, a: int, b: int, x: int, y: int)
    requires c > 0
    ensures c * a + c * b <= c * x + c * y <==> a + b <= x + y
  {
    var d := (x + y) - (a + b);
    assert c * x + c * y - (c * a + c * b) == c * d;
    if d >= 0 { assert c * d >= 0; } else { assert c * d <= 0 - c; }
  }

  // ---------------------------------------------------------------- harmonic lag bound

  /** 1/(k+1) + ... + 1/n. */
  function Harmonic(k: nat, n: nat): real
    requires k <= n
    decreases n - k
  {
    if k == n then 0.0 else 1.0 / ((k + 1) as real) + Harmonic(k + 1, n)
  }

  /** `owed`, the sum over a group of `size` of `n` pools, averages at most
      total * (1/(size+1) + ... + 1/n). */
  ghost predicate WithinLag(owed: int, size: nat, t: int, n: nat)
    requires size <= n
  {
    owed as real <= size as real * t as real * Harmonic(size, n)
  }

  /** From the claim of k+1 pools before payment to the claim of the k that did not pay. */
  lemma ShareOfLarger(s: real, claim: real, k: real, t: real, tail: real)
    requires k >= 0.0
    requires (k + 1.0) * s <= k * claim
    requires claim <= (k + 1.0) * t * tail + t
    ensures s <= k * t * (1.0 / (k + 1.0) + tail)
  {
    var share := k * t * (1.0 / (k + 1.0) + tail);
    ShareTimes(k, t, tail);
    ScaledUp(k, claim, (k + 1.0) * t * tail + t);
    Unscaled(k + 1.0, s, share);
  }

  lemma ShareTimes(k: real, t: real, tail: real)
    requires k >= 0.0
    ensures k * ((k + 1.0) * t * tail + t) == (k + 1.0) * (k * t * (1.0 / (k + 1.0) + tail))
  {
    var m, q := k + 1.0, 1.0 / (k + 1.0);
    assert m * q == 1.0;
    assert m * (k * t * (q + tail)) == k * t * (m * q) + k * t * (m * tail);
    assert k * (m * t * tail + t) == k * t * (m * tail) + k * t;
  }

  lemma ScaledUp(c: real, x: real, y: real)
    requires c >= 0.0 && x <= y
    ensures c * x <= c * y
  {}

  lemma Unscaled(c: real, x: real, y: real)
    requires c > 0.0 && c * x <= c * y
    ensures x <= y
  {
    assert c * x - c * y == c * (x - y);
  }

  lemma LagShrinks(s: int, top: int, size: nat, larger: int, t: int, n: nat)
    requires size < n && s <= size * top
    requires s + top <= larger + t && WithinLag(larger, size + 1, t, n)
    ensures WithinLag(s, size, t, n)
  {
    GroupShare(s, s + top, size, top);
    var k, tail := size as real, Harmonic(size + 1, n);
    assert (size + 1) as real == k + 1.0;
    assert (s + top) as real <= (k + 1.0) * t as real * tail + t as real;
    ShareOfLarger(s as real, (s + top) as real, k, t as real, tail);
  }

  lemma LagAtStart(size: nat, t: int, n: nat)
    requires size <= n && t >= 0
    ensures WithinLag(0, size, t, n)
  {
    HarmonicNonNegative(size, n);
    assert size as real * t as real >= 0.0;
    assert size as real * t as real * Harmonic(size, n) >= 0.0;
  }

  /** The pools that have weight. */
  function Weighted(w: seq<int>): (g: seq<bool>)
    ensures |g| == |w|
  {
    seq(|w|, i requires 0 <= i < |w| => w[i] > 0)
  }

  predicate Within(g: seq<bool>, all: seq<bool>) {
    |g| == |all| && forall i :: 0 <= i < |g| && g[i] ==> all[i]
  }

  lemma {:induction false} SizeWithin(g: seq<bool>, all: seq<bool>, n: nat)
    requires Within(g, all) && n <= |g|
    ensures Size(g, n) <= Size(all, n)
    ensures Size(g, n) == Size(all, n) ==> forall j :: 0 <= j < n ==> g[j] == all[j]
  {
    if n > 0 { SizeWithin(g, all, n - 1); }
  }

  lemma {:induction false} SizeOfEveryone(n: nat, k: nat)
    requires k <= n
    ensures Size(Everyone(n), k) == k
  {
    if k > 0 { SizeOfEveryone(n, k - 1); }
  }

  lemma {:induction false} RestIsZero(s: seq<int>, g: seq<bool>, n: nat)
    requires n <= |s| && n <= |g|
    requires forall j :: 0 <= j < n && !g[j] ==> s[j] == 0
    ensures GroupSum(s, g, n) == GroupSum(s, Everyone(n), n)
  {
    if n > 0 {
      RestIsZero(s, g, n - 1);
      GroupSumSame(s, s, Everyone(n), Everyone(n - 1), n - 1);
    }
  }

  /** Together, pools that include all with weight are owed nothing. */
  lemma AllOwedNothing(w: seq<int>, k: nat, all: seq<bool>)
    requires Weights(w) && Within(Weighted(w), all)
    ensures GroupSum(AccAt(w, k), all, |w|) == 0
  {
    forall j | 0 <= j < |w| && !all[j] ensures AccAt(w, k)[j] == 0 {
      assert !Weighted(w)[j];
      ZeroWeightNeverServed(w, j, k);
    }
    RestIsZero(AccAt(w, k), all, |w|);
    SumStaysZero(w, k);
  }

  /** The fairness bound: after any number of slices, however long the run, any group of k among n
      pools that include all with weight is owed on average at most
      total * (1/(k+1) + ... + 1/n).  As this holds of every group it holds of the k largest
      accumulators. */
  lemma {:induction false} LagAmong(w: seq<int>, k: nat, g: seq<bool>, all: seq<bool>)
    requires Weights(w) && Within(Weighted(w), all) && Within(g, all)
    ensures Size(g, |w|) <= Size(all, |w|)
    ensures WithinLag(GroupSum(AccAt(w, k), g, |w|), Size(g, |w|), Sum(w), Size(all, |w|))
  {
    var n, m := |w|, Size(all, |w|);
    SizeWithin(g, all, n);
    if Size(g, n) == m {
      assert g == all;
      AllOwedNothing(w, k, all);
      LagAtStart(m, Sum(w), m);
    } else if k == 0 {
      GroupSumZero(Zeros(n), g, n);
      LagAtStart(Size(g, n), Sum(w), m);
    } else if g[HolderAt(w, k - 1)] {
      GroupAfterSlice(w, AccAt(w, k - 1), g);
      GroupSumMonotone(w, g, Everyone(n), n);
      LagAmong(w, k - 1, g, all);
      LagMonotone(GroupSum(AccAt(w, k), g, n), GroupSum(AccAt(w, k - 1), g, n), Size(g, n), Sum(w), m);
    } else {
      var h := HolderAt(w, k - 1);
      HolderHasWeight(w, k - 1);
      assert Weighted(w)[h];
      LagAmong(w, k - 1, g[h := true], all);
      var top := ClaimsOutsideHolder(w, AccAt(w, k - 1), g);
      LagShrinks(GroupSum(AccAt(w, k), g, n), top, Size(g, n),
        GroupSum(AccAt(w, k - 1), g[h := true], n), Sum(w), m);
    }
  }

  lemma HolderHasWeight(w: seq<int>, k: nat)
    requires Weights(w)
    ensures w[HolderAt(w, k)] > 0
  {
    if w[HolderAt(w, k)] == 0 { ZeroWeightNeverServed(w, HolderAt(w, k), k); }
  }

  /** Among all pools. */
  lemma HarmonicLag(w: seq<int>, k: nat, g: seq<bool>)
    requires Weights(w) && |g| == |w|
    ensures Size(g, |w|) <= |w|
    ensures WithinLag(GroupSum(AccAt(w, k), g, |w|), Size(g, |w|), Sum(w), |w|)
  {
    SizeOfEveryone(|w|, |w|);
    LagAmong(w, k, g, Everyone(|w|));
  }

  lemma LagMonotone(s: int, s': int, size: nat, t: int, n: nat)
    requires size <= n && s <= s' && WithinLag(s', size, t, n)
    ensures WithinLag(s, size, t, n)
  {}

  /** What a slice does to a group that does not hold it. */
  lemma ClaimsOutsideHolder(w: seq<int>, acc: seq<int>, g: seq<bool>) returns (top: int)
    requires Weights(w) && |g| == |w| == |acc|
    requires !g[NextHolder(w, acc)]
    ensures var h := NextHolder(w, acc);
      && Size(g[h := true], |w|) == Size(g, |w|) + 1
      && GroupSum(NextAcc(w, acc), g, |w|) <= Size(g, |w|) * top
      && GroupSum(NextAcc(w, acc), g, |w|) + top <= GroupSum(acc, g[h := true], |w|) + Sum(w)
  {
    var n, h := |w|, NextHolder(w, acc);
    var g', earned := g[h := true], Plus(acc, w);
    top := earned[h];
    forall j | 0 <= j < n ensures earned[j] <= top { HolderHasLargestClaim(w, acc, j); }
    GroupExtend(earned, g, h, n);
    GroupSumLinear(acc, w, earned, g', n);
    GroupSumMonotone(w, g', Everyone(n), n);
    GroupAfterSlice(w, acc, g);
    GroupSumLinear(acc, w, earned, g, n);
    GroupSumAtMost(earned, g, n, top);
  }

  lemma GroupShare(s: int, claim: int, size: nat, top: int)
    requires claim == s + top && s <= size * top
    ensures (size as real + 1.0) * s as real <= size as real * claim as real
  {
    assert (size + 1) * s <= size * claim by {
      Distribute(size + 1, s, size, s, top);
    }
    assert ((size + 1) * s) as real == (size as real + 1.0) * s as real;
    assert (size * claim) as real == size as real * claim as real;
  }

  lemma {:induction false} HarmonicNonNegative(k: nat, n: nat)
    requires k <= n
    ensures Harmonic(k, n) >= 0.0
    decreases n - k
  {
    if k < n { HarmonicNonNegative(k + 1, n); }
  }

  function Only(n: nat, i: nat): seq<bool> {
    seq(n, j => j == i)
  }

  /** No pool is ever owed more than total * (1/2 + ... + 1/m), m being the number of pools that
      have weight. */
  lemma OneIsOwedAtMost(w: seq<int>, k: nat, i: nat)
    requires Weights(w) && i < |w|
    ensures 1 <= Size(Weighted(w), |w|) <= |w|
    ensures WithinLag(AccAt(w, k)[i], 1, Sum(w), Size(Weighted(w), |w|))
  {
    var all := Weighted(w);
    SomeoneHasWeight(w);
    SizeAtMost(all, |w|);
    if all[i] {
      var g := Only(|w|, i);
      OnlyPicks(AccAt(w, k), g, i, |w|);
      LagAmong(w, k, g, all);
    } else {
      ZeroWeightNeverServed(w, i, k);
      LagAtStart(1, Sum(w), Size(all, |w|));
    }
  }

  lemma SomeoneHasWeight(w: seq<int>)
    requires Weights(w)
    ensures Size(Weighted(w), |w|) >= 1
  {
    HolderHasWeight(w, 0);
    var g := Only(|w|, HolderAt(w, 0));
    OnlyPicks(w, g, HolderAt(w, 0), |w|);
    SizeWithin(g, Weighted(w), |w|);
  }

  lemma {:induction false} OnlyPicks(s: seq<int>, g: seq<bool>, i: nat, n: nat)
    requires n <= |s| && n <= |g|
    requires forall j :: 0 <= j < n ==> (g[j] <==> j == i)
    ensures GroupSum(s, g, n) == if i < n then s[i] else 0
    ensures Size(g, n) == if i < n then 1 else 0
  {
    if n > 0 { OnlyPicks(s, g, i, n - 1); }
  }

  lemma HarmonicSmall()
    ensures Harmonic(1, 1) == 0.0
    ensures Harmonic(1, 2) == 1.0 / 2.0
    ensures Harmonic(1, 3) == 1.0 / 2.0 + 1.0 / 3.0
    ensures Harmonic(1, 4) == 1.0 / 2.0 + 1.0 / 3.0 + 1.0 / 4.0
  {
    assert Harmonic(2, 2) == 0.0 && Harmonic(3, 3) == 0.0 && Harmonic(4, 4) == 0.0;
    assert Harmonic(2, 3) == 1.0 / 3.0 && Harmonic(3, 4) == 1.0 / 4.0;
    assert Harmonic(2, 4) == 1.0 / 3.0 + Harmonic(3, 4);
  }

  /** The bound in terms of service, for the pool counts the scheduler accepts: after k slices no
      pool trails its exact entitlement k * w[i] / total by more than 13/12 of a slice, or 5/6 where
      three pools have weight, half where two have, and nothing where one has; and none leads it by
      a whole slice. */
  lemma PoolLag(w: seq<int>, k: nat, i: nat, t: int)
    requires Weights(w) && i < |w| <= POOL_MAX && t == Sum(w)
    ensures var (behind, m) := (k * w[i] - t * Wins(w, i, k), Size(Weighted(w), |w|));
      && m <= |w| && -t < behind
      && 12 * behind <= 13 * t && (m <= 3 ==> 6 * behind <= 5 * t)
      && (m <= 2 ==> 2 * behind <= t) && (m <= 1 ==> behind <= 0)
  {
    OneIsOwedAtMost(w, k, i);
    OwedIsEarnedLessServed(w, k, i, t);
    AboveMinusTotal(w, k, i);
    HarmonicSmall();
    SmallLag(AccAt(w, k)[i], t, Size(Weighted(w), |w|));
  }

  lemma SmallLag(owed: int, t: int, m: nat)
    requires 1 <= m <= 4 && t > 0 && WithinLag(owed, 1, t, m)
    ensures 12 * owed <= 13 * t && (m <= 3 ==> 6 * owed <= 5 * t)
    ensures (m <= 2 ==> 2 * owed <= t) && (m <= 1 ==> owed <= 0)
  {
    HarmonicSmall();
    var share := if m == 1 then 0.0 else if m == 2 then 1.0 / 2.0 else if m == 3 then 5.0 / 6.0 else 13.0 / 12.0;
    assert Harmonic(1, m) == share;
    assert owed as real <= t as real * share;
  }

  // ---------------------------------------------------------------- the clock

  /** What the scheduler remembers, as a value.  `unit` is the length of a slice in
      microseconds. */
  datatype State = State(w: seq<int>, acc: seq<int>, current: nat, unit: nat,
                         started: bool, sliceStart: int)
  {
    predicate Ready() {
      |w| == |acc| > 0 && unit > 0
    }
  }

  /** The state after initialisation at time `now`. */
  function Initial(w: seq<int>, unit: nat, now: int): State {
    State(w, Zeros(|w|), 0, unit, false, now)
  }

  function Slice(s: State): State
    requires s.Ready()
  {
    s.(acc := NextAcc(s.w, s.acc), current := NextHolder(s.w, s.acc))
  }

  /** Hands out every slice that has come due by `now`. */
  function CatchUp(s: State, now: int): State
    requires s.Ready()
    decreases now - s.sliceStart
  {
    if now - s.sliceStart < s.unit then s
    else CatchUp(Slice(s).(sliceStart := s.sliceStart + s.unit), now)
  }

  lemma CatchUpStep(s: State, next: State, now: int)
    requires s.Ready() && next.Ready() && now - s.sliceStart >= s.unit
    requires next == Slice(s.(sliceStart := s.sliceStart + s.unit))
    ensures CatchUp(s, now) == CatchUp(next, now)
  {}

  /** One call of the selector: the first hands out a slice whatever the time. */
  function Poll(s: State, now: int): (r: State)
    requires s.Ready()
    ensures r.Ready() && r.w == s.w && r.unit == s.unit
  {
    if !s.started then Slice(s.(started := true, sliceStart := now))
    else CatchUpReady(s, now); CatchUp(s, now)
  }

  lemma {:induction false} CatchUpReady(s: State, now: int)
    requires s.Ready()
    ensures var r := CatchUp(s, now); r.Ready() && r.w == s.w && r.unit == s.unit
    decreases now - s.sliceStart
  {
    if now - s.sliceStart >= s.unit {
      CatchUpReady(Slice(s).(sliceStart := s.sliceStart + s.unit), now);
    }
  }

  /** A whole sequence of calls. */
  function PollAll(s: State, times: seq<int>): (r: State)
    requires s.Ready()
    ensures r.Ready()
    decreases |times|
  {
    if |times| == 0 then s else Poll(PollAll(s, times[..|times| - 1]), times[|times| - 1])
  }

  function Latest(t0: int, times: seq<int>): int
    decreases |times|
  {
    if |times| == 0 then t0
    else
      var m := Latest(t0, times[..|times| - 1]);
      if times[|times| - 1] > m then times[|times| - 1] else m
  }

  /** Whole slices in `us` microseconds, none if time has not advanced. */
  function SlicesDue(unit: nat, us: int): nat
    requires unit > 0
  {
    if us < 0 then 0 else us / unit
  }

  /** The state of a run that began at `t0`, while slice number `n` is running. */
  function During(w: seq<int>, unit: nat, t0: int, n: nat): State
    requires |w| > 0
  {
    State(w, AccAt(w, n + 1), HolderAt(w, n), unit, true, t0 + n * unit)
  }

  lemma DueAgainst(unit: nat, us: int, n: nat)
    requires unit > 0
    ensures (n + 1) * unit == n * unit + unit
    ensures SlicesDue(unit, us) >= n + 1 <==> us >= (n + 1) * unit
  {
    var last := n * unit + unit - 1;
    assert n * unit >= 0;
    QuotientIs(last, n, unit);
    QuotientIs(last + 1, n + 1, unit);
    if us > last {
      QuotientMonotone(last + 1, us, unit);
    } else {
      QuotientMonotone(us, last, unit);
    }
  }

  lemma SliceOfRun(w: seq<int>, unit: nat, t0: int, n: nat)
    requires |w| > 0 && unit > 0
    ensures Slice(During(w, unit, t0, n)).(sliceStart := t0 + n * unit + unit) == During(w, unit, t0, n + 1)
  {}

  /** Catching up during slice `n` lands on the slice that contains `now`. */
  lemma {:induction false} CatchUpLands(w: seq<int>, unit: nat, t0: int, n: nat, now: int)
    requires |w| > 0 && unit > 0
    ensures var due := SlicesDue(unit, now - t0);
      CatchUp(During(w, unit, t0, n), now) == During(w, unit, t0, if due > n then due else n)
    decreases now - (t0 + n * unit)
  {
    var us := now - t0;
    DueAgainst(unit, us, n);
    if us >= (n + 1) * unit {
      SliceOfRun(w, unit, t0, n);
      CatchUpLands(w, unit, t0, n + 1, now);
    }
  }

  /** Polling independence: whatever the calls in between, and even if some report a time
      earlier than one before, the scheduler ends where a single catch-up call at the
      latest reported time would leave it: on slice floor((latest - t0) / unit), with the
      accumulators of that many slices of the run. */
  lemma {:induction false} PollingIndependence(w: seq<int>, unit: nat, reset: int, t0: int, times: seq<int>)
    requires |w| > 0 && unit > 0
    ensures Latest(t0, times) >= t0
    ensures PollAll(Initial(w, unit, reset), [t0] + times)
         == During(w, unit, t0, SlicesDue(unit, Latest(t0, times) - t0))
         == PollAll(Initial(w, unit, reset), [t0, Latest(t0, times)])
    decreases |times|
  {
    var init, n := Initial(w, unit, reset), |times|;
    FirstPoll(w, unit, reset, t0);
    if n == 0 {
      assert [t0] + times == [t0];
      QuotientIs(0, 0, unit);
    } else {
      PollingIndependence(w, unit, reset, t0, times[..n - 1]);
      PollSnoc(init, [t0] + times[..n - 1], times[n - 1]);
      assert [t0] + times == [t0] + times[..n - 1] + [times[n - 1]];
      NextPoll(w, unit, t0, Latest(t0, times[..n - 1]), times[n - 1]);
    }
    SecondPoll(w, unit, reset, t0, Latest(t0, times));
  }

  lemma PollSnoc(s: State, times: seq<int>, now: int)
    requires s.Ready()
    ensures PollAll(s, times + [now]) == Poll(PollAll(s, times), now)
  {
    assert (times + [now])[..|times|] == times;
  }

  lemma SecondPoll(w: seq<int>, unit: nat, reset: int, t0: int, l: int)
    requires |w| > 0 && unit > 0 && l >= t0
    ensures PollAll(Initial(w, unit, reset), [t0, l]) == During(w, unit, t0, SlicesDue(unit, l - t0))
  {
    FirstPoll(w, unit, reset, t0);
    assert [t0, l][..1] == [t0];
    CatchUpLands(w, unit, t0, 0, l);
  }

  lemma NextPoll(w: seq<int>, unit: nat, t0: int, before: int, now: int)
    requires |w| > 0 && unit > 0 && before >= t0
    ensures Poll(During(w, unit, t0, SlicesDue(unit, before - t0)), now)
         == During(w, unit, t0, SlicesDue(unit, (if now > before then now else before) - t0))
  {
    CatchUpLands(w, unit, t0, SlicesDue(unit, before - t0), now);
    DueOfLatest(unit, t0, before, now);
  }

  lemma FirstPoll(w: seq<int>, unit: nat, reset: int, t0: int)
    requires |w| > 0 && unit > 0
    ensures PollAll(Initial(w, unit, reset), [t0]) == During(w, unit, t0, 0)
  {
    assert [t0][..0] == [];
    assert PollAll(Initial(w, unit, reset), []) == Initial(w, unit, reset);
    assert AccAt(w, 0) == Zeros(|w|);
  }

  lemma DueOfLatest(unit: nat, t0: int, before: int, now: int)
    requires unit > 0 && before >= t0
    ensures var d, e := SlicesDue(unit, before - t0), SlicesDue(unit, now - t0);
      SlicesDue(unit, (if now > before then now else before) - t0) == if e > d then e else d
  {
    if now >= before {
      QuotientMonotone(before - t0, now - t0, unit);
    } else if now >= t0 {
      QuotientMonotone(now - t0, before - t0, unit);
    }
  }

  // ---------------------------------------------------------------- the scheduler itself

  function ClampRatio(v: int): int {
    if v < 0 then 0 else if v > 100 then 100 else v
  }

  function ClampInterval(v: int): (r: nat)
    ensures 100 <= r <= 60000
  {
    if v < 100 then 100 else if v > 60000 then 60000 else v
  }

  /** What is in range is kept, and anything else goes to the nearest end: percentages from 0 to
      100, and slices from a tenth of a second to a minute. */
  lemma ClampsKeep(v: int, inRange: int, length: int)
    requires 0 <= inRange <= 100 && 100 <= length <= 60000
    ensures 0 <= ClampRatio(v) <= 100 && ClampRatio(inRange) == inRange && ClampInterval(length) == length
    ensures Distance(v, ClampRatio(v)) <= Distance(v, inRange)
    ensures Distance(v, ClampInterval(v)) <= Distance(v, length)
  {}

  function Distance(x: int, y: int): int { if x < y then y - x else x - y }

  /** The number of pools put in play by a request for `count` of them. */
  function PoolsInPlay(known: bool, count: nat): (n: nat)
    ensures 1 <= n <= POOL_MAX
  {
    if count == 0 || !known then 1 else if count > POOL_MAX then POOL_MAX else count
  }

  /** The weights put in play, where `!known` stands for a null pointer.  Weights that
      are all zero hand everything to the first pool. */
  function EffectiveWeights(known: bool, given: seq<int>, count: nat): seq<int>
    requires known ==> PoolsInPlay(known, count) <= |given|
  {
    var raw := if known then given[..PoolsInPlay(known, count)] else [0];
    if Sum(raw) <= 0 then [100] else raw
  }

  /** Whatever the request, the weights in play can be scheduled. */
  lemma EffectiveWeightsUsable(known: bool, given: seq<int>, count: nat)
    requires known ==> PoolsInPlay(known, count) <= |given|
    requires forall j :: 0 <= j < |given| ==> 0 <= given[j]
    ensures Weights(EffectiveWeights(known, given, count))
    ensures |EffectiveWeights(known, given, count)| <= POOL_MAX
  {
    SumOfOne(100);
  }

  /** They are those of the pools asked for, up to four, or of the first alone if none is asked for;
      and with nothing to share out, or nothing known, the first pool has it all. */
  lemma EffectiveWeightsAre(known: bool, given: seq<int>, count: nat, n: nat)
    requires known ==> n == (if count == 0 then 1 else if count < 4 then count else 4) <= |given|
    requires forall j :: 0 <= j < |given| ==> 0 <= given[j]
    ensures EffectiveWeights(known, given, count)
      == if known && exists j :: 0 <= j < n && given[j] > 0 then given[..n] else [100]
  {
    SumOfOne(0);
    if known {
      assert PoolsInPlay(known, count) == n;
      PositiveIff(given[..n]);
      assert forall j :: 0 <= j < n ==> given[..n][j] == given[j];
    }
  }

  lemma PositiveIff(s: seq<int>)
    requires forall j :: 0 <= j < |s| ==> 0 <= s[j]
    ensures Sum(s) > 0 <==> exists j :: 0 <= j < |s| && s[j] > 0
  {
    AnyPositive(s, |s|);
  }

  lemma {:induction false} AnyPositive(s: seq<int>, n: nat)
    requires n <= |s| && forall j :: 0 <= j < |s| ==> 0 <= s[j]
    ensures GroupSum(s, Everyone(|s|), n) >= 0
    ensures GroupSum(s, Everyone(|s|), n) > 0 <==> exists j :: 0 <= j < n && s[j] > 0
  {
    if n > 0 { AnyPositive(s, n - 1); }
  }

  lemma SumOfOne(x: int)
    ensures Sum([x]) == x
  {
    assert GroupSum([x], Everyone(1), 0) == 0;
  }

  /** The accumulators fit easily in the 32-bit fields that hold them. */
  lemma AccumulatorRange(w: seq<int>, k: nat, i: nat)
    requires Weights(w) && i < |w| <= POOL_MAX
    requires forall j :: 0 <= j < |w| ==> w[j] <= 255
    ensures -1020 < AccAt(w, k)[i] <= 1105
  {
    GroupSumAtMost(w, Everyone(|w|), |w|, 255);
    SizeAtMost(Everyone(|w|), |w|);
    PoolLag(w, k, i, Sum(w));
    OwedIsEarnedLessServed(w, k, i, Sum(w));
  }

  /** The two-pool entry point: pool A holds exactly `ratio` of any hundred consecutive
      slices, and pool B the rest. */
  lemma TwoPoolShare(ratio: int, k: nat)
    requires 0 <= ratio <= 100
    ensures var w := EffectiveWeights(true, [ratio, 100 - ratio], 2);
      && w == [ratio, 100 - ratio]
      && Wins(w, 0, 100 + k) - Wins(w, 0, k) == ratio
      && Wins(w, 1, 100 + k) - Wins(w, 1, k) == 100 - ratio
  {
    var w := [ratio, 100 - ratio];
    assert w[..2] == w;
    SumOfOne(ratio);
    SumSnoc([ratio], 100 - ratio);
    assert w == [ratio] + [100 - ratio];
    EveryWindowIsFair(w, 0, k, 100 + k);
    EveryWindowIsFair(w, 1, k, 100 + k);
  }

  lemma SumSnoc(s: seq<int>, x: int)
    ensures Sum(s + [x]) == Sum(s) + x
  {
    GroupSumSame(s + [x], s, Everyone(|s| + 1), Everyone(|s|), |s|);
  }

  /** The scheduler of one miner. */
  class Scheduler {
    const weight: array<int>
    const acc: array<int>
    var count: nat
    var total: int
    var intervalMs: nat
    var current: nat
    var sliceStartUs: int
    var initialized: bool

    ghost predicate Shaped() {
      weight.Length == POOL_MAX && acc.Length == POOL_MAX && weight != acc
    }

    /** The fields as a value. */
    ghost function Now(): State
      requires Shaped() && count <= POOL_MAX
      reads this, weight, acc
    {
      State(weight[..count], acc[..count], current, intervalMs * 1000, initialized, sliceStartUs)
    }

    ghost predicate Valid()
      reads this, weight, acc
    {
      && Shaped()
      && 1 <= count <= POOL_MAX
      && Weights(weight[..count])
      && total == Sum(weight[..count])
      && 100 <= intervalMs <= 60000
    }

    constructor ()
      ensures Shaped() && fresh(weight) && fresh(acc)
    {
      weight := new int[POOL_MAX];
      acc := new int[POOL_MAX];
      count, total, intervalMs, current := 0, 0, 0, 0;
      sliceStartUs, initialized := 0, false;
    }

    /** Copies the first `n` weights, or zeros for want of any, and adds them up. */
    method TakeWeights(weights: array?<int>, n: nat)
      requires Shaped() && weights != weight && n <= POOL_MAX
      requires weights != null ==> n <= weights.Length
      modifies weight, this`total
      ensures weight[..n] == if weights == null then Zeros(n) else weights[..n]
      ensures total == Sum(weight[..n])
    {
      ghost var raw := if weights == null then Zeros(n) else weights[..n];
      total := 0;
      for i := 0 to n
        invariant forall j :: 0 <= j < i ==> weight[j] == raw[j]
        invariant total == GroupSum(raw, Everyone(n), i)
      {
        weight[i] := if weights != null then weights[i] else 0;
        total := total + weight[i];
      }
      assert weight[..n] == raw;
    }

    method InitN(weights: array?<int>, requested: nat, interval: int, nowUs: int)
      requires Shaped() && weights != weight && weights != acc
      requires weights != null ==> PoolsInPlay(true, requested) <= weights.Length
      requires weights != null ==> forall j :: 0 <= j < weights.Length ==> 0 <= weights[j] <= 255
      modifies this, weight, acc
      ensures Valid()
      ensures Now() == Initial(
        EffectiveWeights(weights != null, if weights == null then [] else weights[..], requested),
        ClampInterval(interval) * 1000, nowUs)
    {
      forall i | 0 <= i < POOL_MAX { weight[i] := 0; }
      forall i | 0 <= i < POOL_MAX { acc[i] := 0; }
      var n := PoolsInPlay(weights != null, requested);
      count := n;
      ghost var given := if weights == null then [] else weights[..];
      EffectiveWeightsUsable(weights != null, given, requested);
      TakeWeights(weights, n);
      assert weight[..n] == if weights != null then given[..n] else [0];
      if total <= 0 {
        count := 1;
        weight[0] := 100;
        total := 100;
        assert weight[..1] == [100];
        SumOfOne(100);
      }
      intervalMs := ClampInterval(interval);
      current := 0;
      sliceStartUs := nowUs;
      initialized := false;
      assert acc[..count] == Zeros(count);
    }

    method Init(ratioA: int, interval: int, nowUs: int)
      requires Shaped()
      modifies this, weight, acc
      ensures Valid()
      ensures Now() == Initial([ClampRatio(ratioA), 100 - ClampRatio(ratioA)],
                               ClampInterval(interval) * 1000, nowUs)
    {
      var ratio := ClampRatio(ratioA);
      var weights := new int[2];
      weights[0], weights[1] := ratio, 100 - ratio;
      InitN(weights, 2, interval, nowUs);
      assert weights[..] == [ratio, 100 - ratio];
      TwoPoolShare(ratio, 0);
    }

    /** Hands out the next slice. */
    method AdvanceSlice()
      requires Valid()
      modifies this`current, acc
      ensures Valid()
      ensures Now() == Slice(old(Now()))
    {
      ghost var w, before := weight[..count], acc[..count];
      ghost var earned := Plus(before, w);
      var winner := 0;
      for i := 0 to count
        invariant forall j :: 0 <= j < i ==> acc[j] == earned[j]
        invariant forall j :: i <= j < count ==> acc[j] == before[j]
        modifies acc
      {
        acc[i] := acc[i] + weight[i];
      }
      assert acc[..count] == earned;
      for i := 1 to count
        invariant winner == FirstMax(earned, i)
      {
        if acc[i] > acc[winner] {
          winner := i;
        }
      }
      acc[winner] := acc[winner] - total;
      assert acc[..count] == earned[winner := earned[winner] - total];
      SliceTaken(w, before, earned, winner);
      current := winner;
    }

    /** The pool that owns the moment `nowUs`. */
    method Select(nowUs: int) returns (id: nat)
      requires Valid()
      modifies this`current, this`sliceStartUs, this`initialized, acc
      ensures Valid()
      ensures Now() == Poll(old(Now()), nowUs)
      ensures id == Now().current
    {
      if !initialized {
        initialized := true;
        sliceStartUs := nowUs;
        AdvanceSlice();
        return current;
      }
      ghost var before := Now();
      var elapsedMs := TruncDiv(nowUs - sliceStartUs, 1000);
      while intervalMs > 0 && elapsedMs >= intervalMs
        invariant Valid() && initialized
        invariant CatchUp(Now(), nowUs) == CatchUp(before, nowUs)
        invariant elapsedMs == TruncDiv(nowUs - sliceStartUs, 1000)
        decreases elapsedMs
      {
        ghost var s := Now();
        OneSliceDue(intervalMs, nowUs - sliceStartUs);
        sliceStartUs := sliceStartUs + intervalMs * 1000;
        elapsedMs := elapsedMs - intervalMs;
        AdvanceSlice();
        CatchUpStep(s, Now(), nowUs);
      }
      NoSliceDue(intervalMs, nowUs - sliceStartUs);
      return current;
    }
  }

  /** The test on truncated milliseconds sees a slice exactly when a whole one has passed. */
  lemma OneSliceDue(interval: nat, us: int)
    requires interval > 0 && TruncDiv(us, 1000) >= interval
    ensures us >= interval * 1000
    ensures TruncDiv(us - interval * 1000, 1000) == TruncDiv(us, 1000) - interval
  {
    QuotientShift(us - interval * 1000, interval, 1000);
  }

  lemma NoSliceDue(interval: nat, us: int)
    requires interval > 0 && TruncDiv(us, 1000) < interval
    ensures us < interval * 1000
  {}

  lemma {:induction false} SliceTaken(w: seq<int>, acc: seq<int>, earned: seq<int>, winner: nat)
    requires |w| == |acc| > 0 && earned == Plus(acc, w) && winner == FirstMax(earned, |w|)
    ensures winner == NextHolder(w, acc)
    ensures earned[winner := earned[winner] - Sum(w)] == NextAcc(w, acc)
  {
    var paid, next := earned[winner := earned[winner] - Sum(w)], NextAcc(w, acc);
    assert |paid| == |next|;
    forall i | 0 <= i < |w| ensures paid[i] == next[i] {}
  }
}

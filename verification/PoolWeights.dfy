/** How the owner's settings become scheduler weights (main/tasks/create_jobs_task.c), and what
    share of the slices pool A then gets. */
module PoolWeights {
  import opened IntMath
  import opened PoolScheduler

  /** A pool besides pool A: whether it has a host, and the weight stored for it. */
  datatype Secondary = Secondary(host: bool, weight: nat)

  /** Pools B, C and D. */
  type Secondaries = s: seq<Secondary> | |s| == POOL_MAX - 1
    witness [Secondary(false, 0), Secondary(false, 0), Secondary(false, 0)]

  function Share(weight: nat): nat {
    if weight > 100 then 100 else weight
  }

  function Configured(s: Secondaries, n: nat): (k: nat)
    requires n <= |s|
    ensures k <= n
  {
    if n == 0 then 0 else Configured(s, n - 1) + if s[n - 1].host then 1 else 0
  }

  /** What the configured pools ask for. */
  function Stated(s: Secondaries, n: nat): nat
    requires n <= |s|
  {
    if n == 0 then 0 else Stated(s, n - 1) + if s[n - 1].host then Share(s[n - 1].weight) else 0
  }

  function WeightOf(ratio: nat, s: Secondaries, i: nat): int
    requires i < |s| && ratio <= 100
  {
    if !s[i].host then 0
    else if Stated(s, |s|) > 0 then Share(s[i].weight)
    else if Configured(s, |s|) > 0 then (100 - ratio) / Configured(s, |s|)
    else 0
  }

  function Built(ratioA: nat, s: Secondaries): (w: seq<int>)
    ensures |w| == POOL_MAX
  {
    if Configured(s, |s|) == 0 then [100, 0, 0, 0]
    else
      var ratio := Share(ratioA);
      [ratio] + seq(|s|, i requires 0 <= i < |s| => WeightOf(ratio, s, i))
  }

  method BuildPoolWeights(ratioA: nat, s: Secondaries) returns (weights: array<int>)
    ensures weights[..] == Built(ratioA, s)
  {
    weights := new int[POOL_MAX](_ => 0);
    var configured, stated := 0, 0;
    for id := 1 to POOL_MAX
      invariant configured == Configured(s, id - 1) && stated == Stated(s, id - 1)
      invariant forall k :: 0 <= k < POOL_MAX ==> weights[k] == 0
    {
      if s[id - 1].host {
        configured := configured + 1;
        stated := stated + Share(s[id - 1].weight);
      }
    }
    if configured == 0 {
      weights[0] := 100;
      assert weights[..] == [100, 0, 0, 0];
      return;
    }
    var ratio := Share(ratioA);
    weights[0] := ratio;
    var rest := 100 - ratio;
    for id := 1 to POOL_MAX
      invariant weights[0] == ratio
      invariant forall k :: 1 <= k < POOL_MAX ==> weights[k] == if k < id then WeightOf(ratio, s, k - 1) else 0
    {
      if !s[id - 1].host {
        continue;
      }
      weights[id] := if stated > 0 then Share(s[id - 1].weight) else rest / configured;
    }
    assert forall k :: 1 <= k < POOL_MAX ==> weights[k] == Built(ratioA, s)[k];
  }

  /** What the secondary pools are given together. */
  function Others(ratio: nat, s: Secondaries, n: nat): int
    requires n <= |s| && ratio <= 100
  {
    if n == 0 then 0 else Others(ratio, s, n - 1) + WeightOf(ratio, s, n - 1)
  }

  lemma {:induction false} OthersAre(ratio: nat, s: Secondaries, n: nat, each: nat)
    requires n <= |s| && ratio <= 100 && Configured(s, |s|) > 0
    requires each == (100 - ratio) / Configured(s, |s|)
    ensures Others(ratio, s, n) == if Stated(s, |s|) > 0 then Stated(s, n) else Configured(s, n) * each
  {
    if n > 0 {
      OthersAre(ratio, s, n - 1, each);
      assert (Configured(s, n - 1) + 1) * each == Configured(s, n - 1) * each + each;
    }
  }

  lemma SumOfFour(a: int, b: int, c: int, d: int)
    ensures Sum([a, b, c, d]) == a + b + c + d
  {
    SumOfOne(a);
    SumSnoc([a], b);
    SumSnoc([a] + [b], c);
    SumSnoc([a] + [b] + [c], d);
    assert [a, b, c, d] == [a] + [b] + [c] + [d];
  }

  lemma OthersOfThree(ratio: nat, s: Secondaries)
    requires ratio <= 100
    ensures Others(ratio, s, |s|) == WeightOf(ratio, s, 0) + WeightOf(ratio, s, 1) + WeightOf(ratio, s, 2)
  {
    var n := |s|;
    assert Others(ratio, s, n) == Others(ratio, s, n - 1) + WeightOf(ratio, s, n - 1);
    assert Others(ratio, s, n - 1) == Others(ratio, s, n - 2) + WeightOf(ratio, s, n - 2);
    assert Others(ratio, s, n - 2) == WeightOf(ratio, s, n - 3);
  }

  lemma BuiltSum(ratioA: nat, s: Secondaries)
    requires Configured(s, |s|) > 0
    ensures Sum(Built(ratioA, s)) == Share(ratioA) + Others(Share(ratioA), s, |s|)
  {
    var w := Built(ratioA, s);
    SumOfFour(w[0], w[1], w[2], w[3]);
    assert w == [w[0], w[1], w[2], w[3]];
    OthersOfThree(Share(ratioA), s);
  }

  /** Whatever is stored, the scheduler is given weights it can use as they are. */
  lemma BuiltUsable(ratioA: nat, s: Secondaries)
    ensures Weights(Built(ratioA, s))
    ensures EffectiveWeights(true, Built(ratioA, s), POOL_MAX) == Built(ratioA, s)
  {
    var ratio, w := Share(ratioA), Built(ratioA, s);
    assert w[..POOL_MAX] == w;
    if Configured(s, |s|) == 0 {
      SumOfFour(100, 0, 0, 0);
    } else {
      BuiltSum(ratioA, s);
      SomethingToDivide(ratio, s);
    }
  }

  lemma SomethingToDivide(ratio: nat, s: Secondaries)
    requires ratio <= 100 && Configured(s, |s|) > 0
    ensures Others(ratio, s, |s|) >= 0 && ratio + Others(ratio, s, |s|) > 0
  {
    var c := Configured(s, |s|);
    var each := (100 - ratio) / c;
    OthersAre(ratio, s, |s|, each);
    assert c <= 3;
    if ratio == 0 {
      assert each >= 33;
      assert c * each >= each;
    }
    assert c * each >= 0;
  }

  /** Pool A's percentage is promised to be the slider's, whatever the other pools' weights.  It
      is, over every cycle of the schedule, exactly when the slider is at zero, or the weights
      set for the others add up to what the slider leaves, or none is set and the rest divides
      evenly among them. */
  lemma SliderHoldsIff(ratioA: nat, s: Secondaries, k: nat, later: nat)
    requires Configured(s, |s|) > 0
    requires later == Sum(Built(ratioA, s)) + k
    ensures var (ratio, w) := (Share(ratioA), Built(ratioA, s));
      var promised := 100 * (Wins(w, 0, later) - Wins(w, 0, k)) == ratio * (later - k);
      promised <==> ratio == 0 || (if Stated(s, |s|) > 0 then Stated(s, |s|) == 100 - ratio
                                   else (100 - ratio) % Configured(s, |s|) == 0)
  {
    var ratio := Share(ratioA);
    var won, span := CycleShare(ratioA, s, k, later);
    OthersFillIff(ratio, s);
    Proportion(ratio, Others(ratio, s, |s|), span);
  }

  /** What pool A wins of a cycle, and how long that is. */
  lemma CycleShare(ratioA: nat, s: Secondaries, k: nat, later: nat) returns (won: int, span: int)
    requires Configured(s, |s|) > 0 && later == Sum(Built(ratioA, s)) + k
    ensures won == Wins(Built(ratioA, s), 0, later) - Wins(Built(ratioA, s), 0, k) == Share(ratioA)
    ensures span == later - k == Share(ratioA) + Others(Share(ratioA), s, |s|)
  {
    var w := Built(ratioA, s);
    BuiltUsable(ratioA, s);
    BuiltSum(ratioA, s);
    EveryWindowIsFair(w, 0, k, later);
    won, span := Wins(w, 0, later) - Wins(w, 0, k), later - k;
  }

  /** When the others are given exactly what the slider leaves. */
  lemma OthersFillIff(ratio: nat, s: Secondaries)
    requires ratio <= 100 && Configured(s, |s|) > 0
    ensures Others(ratio, s, |s|) == 100 - ratio
      <==> if Stated(s, |s|) > 0 then Stated(s, |s|) == 100 - ratio else (100 - ratio) % Configured(s, |s|) == 0
  {
    var c := Configured(s, |s|);
    var each := (100 - ratio) / c;
    OthersAre(ratio, s, |s|, each);
    assert 100 - ratio == c * each + (100 - ratio) % c;
  }

  lemma Proportion(ratio: int, others: int, span: int)
    requires ratio >= 0 && span == ratio + others
    ensures 100 * ratio == ratio * span <==> ratio == 0 || others == 100 - ratio
  {
    var d := 100 - span;
    assert 100 * ratio - ratio * span == ratio * d;
    if ratio > 0 { SignOfProduct(ratio, d); }
  }

  /** For instance, with the slider at 50 and a weight of 100 set for pool B, pool A gets 50
      slices of every 150, a third. */
  lemma WeightTakesFromPoolA(s: Secondaries, k: nat)
    requires s == [Secondary(true, 100), Secondary(false, 0), Secondary(false, 0)]
    ensures Wins(Built(50, s), 0, k + 150) - Wins(Built(50, s), 0, k) == 50
  {
    assert Configured(s, 1) == 1 && Configured(s, 2) == 1 && Configured(s, 3) == 1;
    assert Stated(s, 1) == 100 && Stated(s, 2) == 100 && Stated(s, 3) == 100;
    BuiltUsable(50, s);
    BuiltSum(50, s);
    OthersAre(50, s, |s|, 50);
    EveryWindowIsFair(Built(50, s), 0, k, k + 150);
  }
}

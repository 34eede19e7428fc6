/** The search for clock dividers (components/asic/pll.c), over exact reals. */
module Pll {
  import opened Common
  import opened RealMath

  const FREQ_MULT: real := 25.0

  /** To the nearest integer, halves away from zero. */
  function Round(x: real): int {
    if x < 0.0 then -((0.5 - x).Floor) else (x + 0.5).Floor
  }

  datatype Dividers = Dividers(refdiv: nat, postdiv1: nat, postdiv2: nat)

  predicate InRange(d: Dividers) {
    1 <= d.refdiv <= 2 && 1 <= d.postdiv1 <= 7 && 1 <= d.postdiv2 <= 7
  }

  /** One setting of the dividers. */
  type Setting = d: Dividers | InRange(d) witness Dividers(1, 1, 1)

  /** What the frequency is divided by in all. */
  function Divider(d: Setting): (r: real)
    ensures r > 0.0
  {
    ProductPositive(d);
    (d.refdiv * d.postdiv1 * d.postdiv2) as real
  }

  lemma ProductPositive(d: Setting)
    ensures d.refdiv * d.postdiv1 * d.postdiv2 >= 1
  {
    assert d.refdiv * d.postdiv1 >= 1;
  }

  function FbFor(target: real, divider: real): int {
    Round(target / FREQ_MULT * divider)
  }

  function Freq(fb: int, divider: real): real
    requires divider > 0.0
  {
    FREQ_MULT * fb as real / divider
  }

  /** What a setting gives: its feedback divider, its frequency, how far that is from the
      target, and the oscillator frequency behind it. */
  datatype Candidate = Candidate(dividers: Dividers, fb: int, freq: real, diff: real, vco: real)

  function Tried(target: real, d: Setting): Candidate {
    var fb := FbFor(target, Divider(d));
    var freq := Freq(fb, Divider(d));
    Candidate(d, fb, freq, Abs(target - freq), Freq(fb, d.refdiv as real))
  }

  /** What each setting gives. */
  type Trial = Setting -> Candidate

  ghost predicate Honest(trial: Trial) {
    forall d: Setting :: trial(d).dividers == d
  }

  function TrialFor(target: real): Trial {
    (d: Setting) => Tried(target, d)
  }

  predicate Feasible(c: Candidate, fbMin: nat, fbMax: nat) {
    c.dividers.postdiv1 > c.dividers.postdiv2 && fbMin <= c.fb <= fbMax
  }

  /** Closest to the target; on a tie, lowest oscillator frequency; on a tie again, lowest
      product of the post dividers.  A tie is a difference below EPSILON. */
  predicate Better(c: Candidate, best: Candidate) {
    var (p, q) := (c.dividers.postdiv1 * c.dividers.postdiv2, best.dividers.postdiv1 * best.dividers.postdiv2);
    || c.diff < best.diff
    || (Abs(c.diff - best.diff) < EPSILON && c.vco < best.vco)
    || (Abs(c.diff - best.diff) < EPSILON && Abs(c.vco - best.vco) < EPSILON && p < q)
  }

  function Considered(best: Option<Candidate>, c: Candidate, fbMin: nat, fbMax: nat): Option<Candidate> {
    if Feasible(c, fbMin, fbMax) && (best.None? || Better(c, best.value)) then Some(c) else best
  }

  /** Where the three loops can stand. */
  predicate Standing(r: nat, p1: nat, p2: nat) {
    r <= 2 && p1 <= 7 && p2 <= 7 && (p1 < 7 ==> 1 <= r) && (p2 < 7 ==> 1 <= p1 && 1 <= r)
  }

  /** The best of the settings tried when the loops stand at `r`, `p1` and `p2`, which is not
      tried yet. */
  function BestAt(trial: Trial, fbMin: nat, fbMax: nat, r: nat, p1: nat, p2: nat): Option<Candidate>
    requires Standing(r, p1, p2)
    decreases fbMin, 2 - r, 7 - p1, 7 - p2
  {
    if p2 < 7 then
      Considered(BestAt(trial, fbMin, fbMax, r, p1, p2 + 1), trial(Dividers(r, p1, p2 + 1)), fbMin, fbMax)
    else if p1 < 7 then BestAt(trial, fbMin, fbMax, r, p1 + 1, 0)
    else if r < 2 then BestAt(trial, fbMin, fbMax, r + 1, 0, 7)
    else None
  }

  /** The best of all. */
  function Best(target: real, fbMin: nat, fbMax: nat): Option<Candidate> {
    BestAt(TrialFor(target), fbMin, fbMax, 0, 7, 7)
  }

  /** Searches all settings; the feedback divider comes back in eight bits.  Outside this
      range of targets it need not fit the sixteen bits it is computed in. */
  method GetParameters(target: real, fbMin: nat, fbMax: nat)
    returns (fb: nat, refdiv: nat, postdiv1: nat, postdiv2: nat, actual: real)
    requires 0.0 <= target <= 16000.0
    ensures match Best(target, fbMin, fbMax)
      case None => fb == refdiv == postdiv1 == postdiv2 == 0 && actual == 0.0
      case Some(b) =>
        && fb == b.fb % 0x100 && actual == b.freq
        && Dividers(refdiv, postdiv1, postdiv2) == b.dividers
  {
    var best := Search(TrialFor(target), fbMin, fbMax);
    match best
    case None => return 0, 0, 0, 0, 0.0;
    case Some(b) => return b.fb % 0x100, b.dividers.refdiv, b.dividers.postdiv1, b.dividers.postdiv2, b.freq;
  }

  method Search(trial: Trial, fbMin: nat, fbMax: nat) returns (best: Option<Candidate>)
    ensures best == BestAt(trial, fbMin, fbMax, 0, 7, 7)
  {
    best := None;
    var r := 2;
    while r > 0
      invariant 0 <= r <= 2 && best == BestAt(trial, fbMin, fbMax, r, 7, 7)
    {
      best := SearchPostdividers(trial, fbMin, fbMax, r, best);
      r := r - 1;
    }
  }

  method SearchPostdividers(trial: Trial, fbMin: nat, fbMax: nat, r: nat, before: Option<Candidate>)
    returns (best: Option<Candidate>)
    requires 1 <= r <= 2 && before == BestAt(trial, fbMin, fbMax, r, 7, 7)
    ensures best == BestAt(trial, fbMin, fbMax, r, 0, 7)
  {
    best := before;
    var p1 := 7;
    while p1 > 0
      invariant 0 <= p1 <= 7 && best == BestAt(trial, fbMin, fbMax, r, p1, 7)
    {
      var p2 := 7;
      while p2 > 0
        invariant 0 <= p2 <= 7 && best == BestAt(trial, fbMin, fbMax, r, p1, p2)
      {
        var c := trial(Dividers(r, p1, p2));
        if Feasible(c, fbMin, fbMax) {
          if best.None? || Better(c, best.value) {
            best := Some(c);
          }
        }
        p2 := p2 - 1;
      }
      p1 := p1 - 1;
    }
  }

  // ---------------------------------------------------------------- how good the choice is

  /** The setting has been tried by then. */
  predicate Passed(d: Dividers, r: nat, p1: nat, p2: nat) {
    d.refdiv > r || (d.refdiv == r && (d.postdiv1 > p1 || (d.postdiv1 == p1 && d.postdiv2 > p2)))
  }

  /** How many settings with post dividers in order have been tried by then. */
  function PairsAt(r: nat, p1: nat, p2: nat): nat
    requires r <= 2
  {
    21 * (2 - r) + RowsAbove(p1) + if p2 + 1 < p1 then p1 - 1 - p2 else 0
  }

  function RowsAbove(p1: nat): nat {
    match p1
    case 6 => 6
    case 5 => 11
    case 4 => 15
    case 3 => 18
    case 2 => 20
    case 1 => 21
    case 0 => 21
    case _ => 0
  }

  /** How many of those tried by then are feasible. */
  function FeasibleAt(trial: Trial, fbMin: nat, fbMax: nat, r: nat, p1: nat, p2: nat): nat
    requires Standing(r, p1, p2)
    decreases fbMin, 2 - r, 7 - p1, 7 - p2
  {
    if p2 < 7 then
      FeasibleAt(trial, fbMin, fbMax, r, p1, p2 + 1)
        + if Feasible(trial(Dividers(r, p1, p2 + 1)), fbMin, fbMax) then 1 else 0
    else if p1 < 7 then FeasibleAt(trial, fbMin, fbMax, r, p1 + 1, 0)
    else if r < 2 then FeasibleAt(trial, fbMin, fbMax, r + 1, 0, 7)
    else 0
  }

  /** At most forty-two settings are feasible. */
  lemma {:induction false} FeasibleAtMost(trial: Trial, fbMin: nat, fbMax: nat, r: nat, p1: nat, p2: nat)
    requires Standing(r, p1, p2) && Honest(trial)
    ensures FeasibleAt(trial, fbMin, fbMax, r, p1, p2) <= PairsAt(r, p1, p2) <= 42
    decreases fbMin, 2 - r, 7 - p1, 7 - p2
  {
    if p2 < 7 {
      FeasibleAtMost(trial, fbMin, fbMax, r, p1, p2 + 1);
    } else if p1 < 7 {
      FeasibleAtMost(trial, fbMin, fbMax, r, p1 + 1, 0);
    } else if r < 2 {
      FeasibleAtMost(trial, fbMin, fbMax, r + 1, 0, 7);
    }
  }

  /** The choice `b` is feasible, and its error exceeds none of those tried by more than an
      EPSILON for each other feasible one: ties do not carry over, so the error may creep up
      by one at every step. */
  ghost predicate NearBest(trial: Trial, fbMin: nat, fbMax: nat, r: nat, p1: nat, p2: nat, b: Candidate, k: nat) {
    && InRange(b.dividers) && b == trial(b.dividers) && Feasible(b, fbMin, fbMax)
    && k >= 1
    && forall d: Setting | Passed(d, r, p1, p2) && Feasible(trial(d), fbMin, fbMax) ::
         b.diff <= trial(d).diff + (k - 1) as real * EPSILON
  }

  ghost predicate NoneFeasible(trial: Trial, fbMin: nat, fbMax: nat, r: nat, p1: nat, p2: nat) {
    forall d: Setting | Passed(d, r, p1, p2) :: !Feasible(trial(d), fbMin, fbMax)
  }

  lemma BetterIsClose(c: Candidate, best: Candidate)
    requires Better(c, best)
    ensures c.diff < best.diff + EPSILON
  {}

  /** Trying one more setting. */
  lemma TryKeepsNear(trial: Trial, fbMin: nat, fbMax: nat, r: nat, p1: nat, p2: nat, best: Option<Candidate>, k: nat)
    requires 1 <= r <= 2 && 1 <= p1 <= 7 && 1 <= p2 <= 7 && Honest(trial)
    requires if best.Some? then NearBest(trial, fbMin, fbMax, r, p1, p2, best.value, k)
             else NoneFeasible(trial, fbMin, fbMax, r, p1, p2) && k == 0
    ensures var c := trial(Dividers(r, p1, p2));
      var next := Considered(best, c, fbMin, fbMax);
      if next.Some? then
        NearBest(trial, fbMin, fbMax, r, p1, p2 - 1, next.value, k + if Feasible(c, fbMin, fbMax) then 1 else 0)
      else NoneFeasible(trial, fbMin, fbMax, r, p1, p2 - 1) && k == 0
  {
    var c := trial(Dividers(r, p1, p2));
    assert forall d: Setting :: Passed(d, r, p1, p2 - 1) ==> Passed(d, r, p1, p2) || d == Dividers(r, p1, p2);
    if best.Some? && Better(c, best.value) {
      BetterIsClose(c, best.value);
    }
    assert best.Some? ==> (k as real) * EPSILON == (k - 1) as real * EPSILON + EPSILON;
    assert best.Some? ==> (k - 1) as real * EPSILON >= 0.0;
  }

  lemma {:induction false} SearchNearBest(trial: Trial, fbMin: nat, fbMax: nat, r: nat, p1: nat, p2: nat)
    requires Standing(r, p1, p2) && Honest(trial)
    ensures var k := FeasibleAt(trial, fbMin, fbMax, r, p1, p2);
      match BestAt(trial, fbMin, fbMax, r, p1, p2)
      case Some(b) => NearBest(trial, fbMin, fbMax, r, p1, p2, b, k)
      case None => NoneFeasible(trial, fbMin, fbMax, r, p1, p2) && k == 0
    decreases fbMin, 2 - r, 7 - p1, 7 - p2
  {
    if p2 < 7 {
      SearchNearBest(trial, fbMin, fbMax, r, p1, p2 + 1);
      TryKeepsNear(trial, fbMin, fbMax, r, p1, p2 + 1, BestAt(trial, fbMin, fbMax, r, p1, p2 + 1),
                   FeasibleAt(trial, fbMin, fbMax, r, p1, p2 + 1));
    } else if p1 < 7 {
      SearchNearBest(trial, fbMin, fbMax, r, p1 + 1, 0);
    } else if r < 2 {
      SearchNearBest(trial, fbMin, fbMax, r + 1, 0, 7);
    }
  }

  // ---------------------------------------------------------------- ties

  function Product(c: Candidate): nat { c.dividers.postdiv1 * c.dividers.postdiv2 }

  /** Closer to the target; equally close, from a slower oscillator; that equal too, with the
      smaller product of post dividers. */
  predicate Precedes(c: Candidate, b: Candidate) {
    || c.diff < b.diff
    || (c.diff == b.diff && (c.vco < b.vco || (c.vco == b.vco && Product(c) < Product(b))))
  }

  predicate Clear(x: real, y: real) { x == y || Abs(x - y) >= EPSILON }

  predicate Distinct(c: Candidate, b: Candidate) { Clear(c.diff, b.diff) && Clear(c.vco, b.vco) }

  /** No two feasible settings differ by less than an EPSILON without being equal. */
  ghost predicate AllDistinct(trial: Trial, fbMin: nat, fbMax: nat) {
    forall c: Setting, d: Setting | Feasible(trial(c), fbMin, fbMax) && Feasible(trial(d), fbMin, fbMax) ::
      Distinct(trial(c), trial(d))
  }

  lemma BetterIff(c: Candidate, b: Candidate)
    requires Distinct(c, b)
    ensures Better(c, b) <==> Precedes(c, b)
  {}

  lemma PrecedesAll(d: Candidate, b: Candidate, c: Candidate)
    requires !Precedes(d, b) && Precedes(c, b)
    ensures !Precedes(d, c)
  {}

  /** Of the settings tried so far, none that is feasible precedes this one, which is. */
  ghost predicate First(trial: Trial, fbMin: nat, fbMax: nat, r: nat, p1: nat, p2: nat, b: Candidate) {
    && InRange(b.dividers) && b == trial(b.dividers) && Feasible(b, fbMin, fbMax)
    && forall d: Setting | Passed(d, r, p1, p2) && Feasible(trial(d), fbMin, fbMax) :: !Precedes(trial(d), b)
  }

  lemma TryKeepsFirst(trial: Trial, fbMin: nat, fbMax: nat, r: nat, p1: nat, p2: nat, best: Option<Candidate>)
    requires 1 <= r <= 2 && 1 <= p1 <= 7 && 1 <= p2 <= 7 && Honest(trial) && AllDistinct(trial, fbMin, fbMax)
    requires if best.Some? then First(trial, fbMin, fbMax, r, p1, p2, best.value)
             else NoneFeasible(trial, fbMin, fbMax, r, p1, p2)
    ensures var next := Considered(best, trial(Dividers(r, p1, p2)), fbMin, fbMax);
      if next.Some? then First(trial, fbMin, fbMax, r, p1, p2 - 1, next.value)
      else NoneFeasible(trial, fbMin, fbMax, r, p1, p2 - 1)
  {
    var now: Setting := Dividers(r, p1, p2);
    var c := trial(now);
    assert forall d: Setting :: Passed(d, r, p1, p2 - 1) ==> Passed(d, r, p1, p2) || d == now;
    if best.Some? && Feasible(c, fbMin, fbMax) {
      var before: Setting := best.value.dividers;
      assert Distinct(trial(now), trial(before));
      BetterIff(c, best.value);
      if Precedes(c, best.value) {
        forall d: Setting | Passed(d, r, p1, p2) && Feasible(trial(d), fbMin, fbMax)
          ensures !Precedes(trial(d), c)
        {
          PrecedesAll(trial(d), best.value, c);
        }
      }
    }
  }

  lemma {:induction false} SearchKeepsFirst(trial: Trial, fbMin: nat, fbMax: nat, r: nat, p1: nat, p2: nat)
    requires Standing(r, p1, p2) && Honest(trial) && AllDistinct(trial, fbMin, fbMax)
    ensures match BestAt(trial, fbMin, fbMax, r, p1, p2)
      case Some(b) => First(trial, fbMin, fbMax, r, p1, p2, b)
      case None => NoneFeasible(trial, fbMin, fbMax, r, p1, p2)
    decreases fbMin, 2 - r, 7 - p1, 7 - p2
  {
    if p2 < 7 {
      SearchKeepsFirst(trial, fbMin, fbMax, r, p1, p2 + 1);
      TryKeepsFirst(trial, fbMin, fbMax, r, p1, p2 + 1, BestAt(trial, fbMin, fbMax, r, p1, p2 + 1));
    } else if p1 < 7 {
      SearchKeepsFirst(trial, fbMin, fbMax, r, p1 + 1, 0);
    } else if r < 2 {
      SearchKeepsFirst(trial, fbMin, fbMax, r + 1, 0, 7);
    }
  }

  /** Oscillator frequencies come in steps of half the crystal's, so they are never nearly equal. */
  lemma OscillatorSteps(target: real, d: Setting) returns (k: int)
    ensures Tried(target, d).vco == 12.5 * k as real
  {
    var fb := FbFor(target, Divider(d));
    k := if d.refdiv == 1 then 2 * fb else fb;
  }

  lemma StepsClear(k: int, m: int)
    ensures Clear(12.5 * k as real, 12.5 * m as real)
  {
    Apart(k, m);
  }

  /** Where no two feasible settings have nearly the same error without having the same, the
      choice is the closest to the target; among the equally close, that of the slowest
      oscillator; and among those, that with the smallest product of post dividers. */
  lemma TiesBroken(target: real, fbMin: nat, fbMax: nat, d: Setting)
    requires forall c: Setting, e: Setting
      | Feasible(Tried(target, c), fbMin, fbMax) && Feasible(Tried(target, e), fbMin, fbMax) ::
        Clear(Tried(target, c).diff, Tried(target, e).diff)
    requires Feasible(Tried(target, d), fbMin, fbMax)
    ensures Best(target, fbMin, fbMax).Some? && !Precedes(Tried(target, d), Best(target, fbMin, fbMax).value)
  {
    var trial := TrialFor(target);
    forall c: Setting, e: Setting | Feasible(trial(c), fbMin, fbMax) && Feasible(trial(e), fbMin, fbMax)
      ensures Distinct(trial(c), trial(e))
    {
      var k := OscillatorSteps(target, c);
      var m := OscillatorSteps(target, e);
      StepsClear(k, m);
      assert trial(c) == Tried(target, c) && trial(e) == Tried(target, e);
    }
    SearchKeepsFirst(trial, fbMin, fbMax, 0, 7, 7);
    assert Passed(d, 0, 7, 7) && trial(d) == Tried(target, d);
  }

  // ---------------------------------------------------------------- against every divider

  lemma Apart(f: int, m: int)
    ensures m == f || m as real >= f as real + 1.0 || m as real <= f as real - 1.0
  {
    assert m > f ==> (m - f) as real >= 1.0;
    assert m < f ==> (f - m) as real >= 1.0;
  }

  lemma Nonnegative(a: real, u: real)
    requires a >= 0.0 && u >= 0.0
    ensures a * u >= 0.0
  {}

  lemma ScaledAbs(a: real, u: real)
    requires a > 0.0
    ensures Abs(a * u) == a * Abs(u)
  {
    if u >= 0.0 {
      Nonnegative(a, u);
    } else {
      Nonnegative(a, -u);
      assert a * (-u) == -(a * u);
    }
  }

  lemma Regroup(target: real, divider: real, m: int)
    requires divider > 0.0
    ensures target - Freq(m, divider) == (FREQ_MULT / divider) * (target / FREQ_MULT * divider - m as real)
  {
    var a := FREQ_MULT / divider;
    assert a * divider == FREQ_MULT;
    assert a * (target / FREQ_MULT * divider) == target;
    assert a * (m as real) == Freq(m, divider);
  }

  /** The error of a feedback divider is its distance from the exact one, times what a step
      of it is worth. */
  lemma ErrorIs(target: real, divider: real, m: int) returns (e: real, unit: real, off: real)
    requires divider > 0.0
    ensures e == Abs(target - Freq(m, divider)) && e == unit * off && unit > 0.0
    ensures unit == FREQ_MULT / divider && off == Abs(target / FREQ_MULT * divider - m as real)
  {
    Regroup(target, divider, m);
    unit := FREQ_MULT / divider;
    ScaledAbs(unit, target / FREQ_MULT * divider - m as real);
    e, off := Abs(target - Freq(m, divider)), Abs(target / FREQ_MULT * divider - m as real);
  }

  lemma Monotone(a: real, p: real, q: real)
    requires a > 0.0 && p <= q
    ensures a * p <= a * q
  {
    Nonnegative(a, q - p);
    assert a * (q - p) == a * q - a * p;
  }

  lemma NearestOff(x: real, f: int, m: int)
    requires Abs(x - f as real) <= 0.5
    ensures Abs(x - f as real) <= Abs(x - m as real)
  {
    Apart(f, m);
  }

  lemma Compare(ef: real, em: real, a: real, p: real, q: real)
    requires a > 0.0 && ef == a * p && em == a * q && p <= q
    ensures ef <= em
  {
    Monotone(a, p, q);
  }

  lemma BothErrors(target: real, divider: real, f: int, m: int)
    returns (ef: real, em: real, unit: real, p: real, q: real)
    requires divider > 0.0 && Abs(target / FREQ_MULT * divider - f as real) <= 0.5
    ensures ef == Abs(target - Freq(f, divider)) && em == Abs(target - Freq(m, divider))
    ensures unit > 0.0 && ef == unit * p && em == unit * q && p <= q
  {
    var other;
    ef, unit, p := ErrorIs(target, divider, f);
    em, other, q := ErrorIs(target, divider, m);
    NearestOff(target / FREQ_MULT * divider, f, m);
  }

  /** The nearest feedback divider is the best there is. */
  lemma NearestIsBest(target: real, divider: real, f: int, m: int)
    requires divider > 0.0 && Abs(target / FREQ_MULT * divider - f as real) <= 0.5
    ensures Abs(target - Freq(f, divider)) <= Abs(target - Freq(m, divider))
  {
    var ef, em, unit, p, q := BothErrors(target, divider, f, m);
    Compare(ef, em, unit, p, q);
  }

  lemma RoundIsNear(x: real)
    ensures Abs(x - Round(x) as real) <= 0.5
    ensures if x >= 0.0 then x - Round(x) as real < 0.5 else Round(x) as real - x < 0.5
  {}

  /** Rounding gives the best feedback divider there is. */
  lemma RoundedIsBest(target: real, divider: real, m: int)
    requires target >= 0.0 && divider > 0.0
    ensures Abs(target - Freq(FbFor(target, divider), divider)) <= Abs(target - Freq(m, divider))
  {
    Nonnegative(target / FREQ_MULT, divider);
    RoundIsNear(target / FREQ_MULT * divider);
    NearestIsBest(target, divider, FbFor(target, divider), m);
  }

  /** If any setting is feasible the choice is; and its error is within forty-one EPSILON of
      that of every feasible setting, with whatever feedback divider. */
  lemma NearOptimal(target: real, fbMin: nat, fbMax: nat, d: Setting, m: int)
    requires target >= 0.0 && d.postdiv1 > d.postdiv2 && fbMin <= FbFor(target, Divider(d)) <= fbMax
    ensures Best(target, fbMin, fbMax).Some?
    ensures var b := Best(target, fbMin, fbMax).value;
      && b.dividers.postdiv1 > b.dividers.postdiv2 && fbMin <= b.fb <= fbMax
      && b.diff <= Abs(target - Freq(m, Divider(d))) + 41.0 * EPSILON
  {
    var trial := TrialFor(target);
    SearchNearBest(trial, fbMin, fbMax, 0, 7, 7);
    FeasibleAtMost(trial, fbMin, fbMax, 0, 7, 7);
    RoundedIsBest(target, Divider(d), m);
    assert Passed(d, 0, 7, 7) && trial(d) == Tried(target, d);
    var k := FeasibleAt(trial, fbMin, fbMax, 0, 7, 7);
    assert (k - 1) as real * EPSILON <= 41.0 * EPSILON;
  }

  /** The frequency handed back is the one the dividers handed back give, if the feedback
      divider is held to eight bits. */
  lemma EightBitsSuffice(target: real, fbMin: nat, fbMax: nat)
    requires fbMax < 0x100 && Best(target, fbMin, fbMax).Some?
    ensures var b := Best(target, fbMin, fbMax).value;
      b.fb % 0x100 == b.fb && InRange(b.dividers) && b.freq == Freq(b.fb, Divider(b.dividers))
  {
    ChoiceIsTried(target, fbMin, fbMax);
  }

  lemma ChoiceIsTried(target: real, fbMin: nat, fbMax: nat)
    requires Best(target, fbMin, fbMax).Some?
    ensures var b := Best(target, fbMin, fbMax).value;
      InRange(b.dividers) && b == Tried(target, b.dividers) && fbMin <= b.fb <= fbMax
  {
    SearchNearBest(TrialFor(target), fbMin, fbMax, 0, 7, 7);
  }
}

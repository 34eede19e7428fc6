/** Frequency ramps: of the whole chain (components/asic/frequency_transition_bmXX.c) and of four
    chips side by side (components/asic/bm1370.c), over exact reals. */
module FrequencyRamp {
  import opened RealMath

  const STEP_SIZE: real := 6.25

  function Floor(x: real): int { x.Floor }

  function Ceil(x: real): int { -((-x).Floor) }

  // ---------------------------------------------------------------- what a ramp is

  /** Where a ramp has got to. */
  function At(start: real, ramp: seq<real>): real {
    if ramp == [] then start else ramp[|ramp| - 1]
  }

  /** A move towards the target, not past it, and by no more than a step. */
  predicate Move(a: real, b: real, target: real) {
    || (a < b <= target && b - a <= STEP_SIZE)
    || (target <= b < a && a - b <= STEP_SIZE)
  }

  /** Nothing but such moves. */
  predicate Ramp(start: real, ramp: seq<real>, target: real) {
    ramp == [] || (
      var before := ramp[..|ramp| - 1];
      Ramp(start, before, target) && Move(At(start, before), ramp[|ramp| - 1], target))
  }

  /** Every frequency of a ramp lies between the start and the target, and they go one way. */
  lemma {:induction false} RampGoesOneWay(start: real, ramp: seq<real>, target: real, i: nat, j: nat)
    requires Ramp(start, ramp, target) && i <= j < |ramp|
    ensures if start < target then start < ramp[i] <= ramp[j] <= target && (i < j ==> ramp[i] < ramp[j])
            else target <= ramp[j] <= ramp[i] < start && (i < j ==> ramp[j] < ramp[i])
    decreases |ramp|
  {
    var before := ramp[..|ramp| - 1];
    if j < |ramp| - 1 {
      RampGoesOneWay(start, before, target, i, j);
    } else {
      if before != [] { RampGoesOneWay(start, before, target, |before| - 1, |before| - 1); }
      if i < j { RampGoesOneWay(start, before, target, i, |before| - 1); }
    }
  }

  /** One more move. */
  lemma RampPush(start: real, ramp: seq<real>, target: real, b: real)
    requires Ramp(start, ramp, target) && Move(At(start, ramp), b, target)
    ensures Ramp(start, ramp + [b], target) && At(start, ramp + [b]) == b
  {
    assert (ramp + [b])[..|ramp|] == ramp;
  }

  // ---------------------------------------------------------------- the whole chain

  predicate OnGrid(v: real) {
    v == Floor(v / STEP_SIZE) as real * STEP_SIZE
  }

  predicate AllOnGrid(ramp: seq<real>) {
    forall v :: v in ramp ==> OnGrid(v)
  }

  class Chain {
    var current: real
    /** The frequencies sent to the chips. */
    var sent: seq<real>

    constructor ()
      ensures current == 50.0 && sent == []
    {
      current, sent := 50.0, [];
    }

    method SetFrequency(frequency: real)
      modifies this`sent
      ensures sent == old(sent) + [frequency]
    {
      sent := sent + [frequency];
    }

    /** Ramps to the target, by way of the whole steps in between. */
    method Transition(target: real) returns (ghost ramp: seq<real>)
      modifies this
      ensures sent == old(sent) + ramp && current == At(old(current), ramp)
      ensures Ramp(old(current), ramp, target) && Abs(current - target) <= EPSILON
      ensures forall v :: v in ramp ==> v == target || OnGrid(v)
    {
      ramp := [];
      if Abs(current - target) < EPSILON {
        return;
      }
      if Abs(target - current) < STEP_SIZE {
        RampPush(current, ramp, target, target);
        ramp := ramp + [target];
        current := target;
        SetFrequency(current);
        return;
      }
      ghost var start := current;
      ramp := Climb(target);
      if Abs(current - target) > EPSILON {
        RampPush(start, ramp, target, target);
        ramp := ramp + [target];
        current := target;
        SetFrequency(current);
      }
    }

    /** The whole steps. */
    method Climb(target: real) returns (ghost ramp: seq<real>)
      requires Abs(target - current) >= STEP_SIZE
      modifies this
      ensures sent == old(sent) + ramp && current == At(old(current), ramp)
      ensures Ramp(old(current), ramp, target) && (current == target || Move(current, target, target))
      ensures AllOnGrid(ramp)
    {
      ramp := [];
      ghost var start := current;
      var up := target > current;
      var currentStep := if up then Floor(current / STEP_SIZE) else Ceil(current / STEP_SIZE);
      var targetStep := if up then Floor(target / STEP_SIZE) else Ceil(target / STEP_SIZE);
      var signum := if up then 1 else -1;
      while (signum > 0 && currentStep < targetStep) || (signum < 0 && currentStep > targetStep)
        invariant sent == old(sent) + ramp && current == At(start, ramp) && Ramp(start, ramp, target)
        invariant Near(current, currentStep, target, targetStep, up) && AllOnGrid(ramp)
        decreases if up then targetStep - currentStep else currentStep - targetStep
      {
        StepMoves(current, currentStep, target, targetStep, up);
        currentStep := currentStep + signum;
        var next := currentStep as real * STEP_SIZE;
        GridPoint(currentStep);
        RampPush(start, ramp, target, next);
        ramp := ramp + [next];
        current := next;
        SetFrequency(current);
      }
    }
  }

  /** The current frequency is within a step above (or below) the current step, the target within
      one of the target step, and the target step is not overshot. */
  predicate Near(current: real, currentStep: int, target: real, targetStep: int, up: bool) {
    var (c, t) := (currentStep as real * STEP_SIZE, targetStep as real * STEP_SIZE);
    if up then
        && currentStep <= targetStep && c <= current < c + STEP_SIZE
        && t <= target < t + STEP_SIZE && current <= target
    else currentStep >= targetStep && c - STEP_SIZE < current <= c && t - STEP_SIZE < target <= t && target <= current
  }

  lemma StepMoves(current: real, currentStep: int, target: real, targetStep: int, up: bool)
    requires Near(current, currentStep, target, targetStep, up) && currentStep != targetStep
    ensures var next := if up then currentStep + 1 else currentStep - 1;
      Move(current, next as real * STEP_SIZE, target) && Near(next as real * STEP_SIZE, next, target, targetStep, up)
  {}

  lemma GridPoint(k: int)
    ensures OnGrid(k as real * STEP_SIZE)
  {}

  // ---------------------------------------------------------------- four chips

  const CHIPS: nat := 4

  /** What one chip was sent. */
  function Of(sent: seq<(nat, real)>, chip: nat): seq<real> {
    if sent == [] then []
    else Of(sent[..|sent| - 1], chip) + if sent[|sent| - 1].0 == chip then [sent[|sent| - 1].1] else []
  }

  lemma OfPush(sent: seq<(nat, real)>, to: nat, v: real, chip: nat)
    ensures Of(sent + [(to, v)], chip) == if to == chip then Of(sent, chip) + [v] else Of(sent, chip)
  {
    assert (sent + [(to, v)])[..|sent|] == sent;
  }

  /** The moves a chip still needs. */
  function Left(current: real, target: real): nat {
    if Abs(current - target) <= EPSILON then 0 else Floor(Abs(current - target) / STEP_SIZE) + 1
  }

  function NextFrequency(current: real, target: real): real {
    if Abs(target - current) < STEP_SIZE then target
    else if target > current then current + STEP_SIZE
    else current - STEP_SIZE
  }

  /** A chip that has not arrived moves towards its target, by a whole step or all the way. */
  lemma NextIsMove(current: real, target: real)
    requires Abs(current - target) > EPSILON
    ensures Move(current, NextFrequency(current, target), target)
    ensures NextFrequency(current, target) == target || Abs(NextFrequency(current, target) - current) == 6.25
    ensures Left(NextFrequency(current, target), target) < Left(current, target)
  {
    var d, next := Abs(current - target), NextFrequency(current, target);
    if d >= STEP_SIZE {
      assert Abs(next - target) == d - STEP_SIZE;
      assert (d - STEP_SIZE) / STEP_SIZE == d / STEP_SIZE - 1.0;
    }
  }

  /** The moves all chips still need, from chip `i` on. */
  function LeftFrom(current: seq<real>, targets: seq<real>, i: nat): nat
    requires |current| == |targets| && i <= |current|
    decreases |current| - i
  {
    if i == |current| then 0 else Left(current[i], targets[i]) + LeftFrom(current, targets, i + 1)
  }

  /** Moving one chip leaves fewer moves. */
  lemma {:induction false} LeftShrinks(current: seq<real>, targets: seq<real>, i: nat, k: nat, next: real)
    requires |current| == |targets| && i <= |current| && k < |current|
    requires Left(next, targets[k]) < Left(current[k], targets[k])
    ensures var after := LeftFrom(current[k := next], targets, i);
      if i <= k then after < LeftFrom(current, targets, i) else after == LeftFrom(current, targets, i)
    decreases |current| - i
  {
    if i < |current| { LeftShrinks(current, targets, i + 1, k, next); }
  }

  /** Each chip is where the ramp it was sent has got to. */
  predicate Ramped(start: seq<real>, current: seq<real>, targets: seq<real>, sent: seq<(nat, real)>)
    requires |start| == |current| == |targets|
  {
    forall i | 0 <= i < |start| ::
      Ramp(start[i], Of(sent, i), targets[i]) && current[i] == At(start[i], Of(sent, i))
  }

  lemma RampedPush(start: seq<real>, current: seq<real>, targets: seq<real>, sent: seq<(nat, real)>, k: nat, next: real)
    requires |start| == |current| == |targets| && k < |start|
    requires Ramped(start, current, targets, sent) && Move(current[k], next, targets[k])
    ensures Ramped(start, current[k := next], targets, sent + [(k, next)])
  {
    forall i | 0 <= i < |start|
      ensures Ramp(start[i], Of(sent + [(k, next)], i), targets[i])
      ensures current[k := next][i] == At(start[i], Of(sent + [(k, next)], i))
    {
      OfPush(sent, k, next, i);
      if i == k { RampPush(start[i], Of(sent, i), targets[i], next); }
    }
  }

  class Chips {
    const current: array<real>

    ghost predicate Valid()
      reads this
    {
      current.Length == CHIPS
    }

    constructor ()
      ensures Valid() && fresh(current) && forall i :: 0 <= i < CHIPS ==> current[i] == 50.0
    {
      current := new real[CHIPS](_ => 50.0);
    }

    /** One move of one chip, if it needs one. */
    method MoveChip(i: nat, target: real) returns (moved: bool, next: real)
      requires Valid() && i < CHIPS
      modifies current
      ensures moved == (Abs(old(current[i]) - target) > EPSILON)
      ensures moved ==> next == NextFrequency(old(current[i]), target)
      ensures current[..] == if moved then old(current[..])[i := next] else old(current[..])
    {
      var now := current[i];
      next := now;
      moved := Abs(now - target) > EPSILON;
      if moved {
        if Abs(target - now) < STEP_SIZE {
          next := target;
        } else {
          var signum := if target > now then 1 else -1;
          next := now + signum as real * STEP_SIZE;
        }
        current[i] := next;
      }
    }

    /** The same, keeping to each chip's ramp. */
    method TryChip(i: nat, targets: seq<real>, sentBefore: seq<(nat, real)>, ghost start: seq<real>)
      returns (moved: bool, sent: seq<(nat, real)>)
      requires Valid() && i < CHIPS && |targets| == |start| == CHIPS
      requires Ramped(start, current[..], targets, sentBefore)
      modifies current
      ensures Ramped(start, current[..], targets, sent)
      ensures if moved then LeftFrom(current[..], targets, 0) < LeftFrom(old(current[..]), targets, 0)
              else current[..] == old(current[..]) && Abs(current[i] - targets[i]) <= EPSILON
    {
      ghost var was := current[..];
      var next;
      moved, next := MoveChip(i, targets[i]);
      sent := sentBefore;
      if moved {
        NextIsMove(was[i], targets[i]);
        RampedPush(start, was, targets, sent, i, next);
        LeftShrinks(was, targets, 0, i, next);
        sent := sent + [(i, next)];
      }
    }

    /** One round over the chips. */
    method Round(targets: seq<real>, sentBefore: seq<(nat, real)>, ghost start: seq<real>)
      returns (allDone: bool, sent: seq<(nat, real)>)
      requires Valid() && |targets| == |start| == CHIPS && Ramped(start, current[..], targets, sentBefore)
      modifies current
      ensures Ramped(start, current[..], targets, sent)
      ensures if allDone then forall i :: 0 <= i < CHIPS ==> Abs(current[i] - targets[i]) <= EPSILON
              else LeftFrom(current[..], targets, 0) < LeftFrom(old(current[..]), targets, 0)
    {
      allDone, sent := true, sentBefore;
      for i := 0 to CHIPS
        invariant Ramped(start, current[..], targets, sent)
        invariant allDone ==> current[..] == old(current[..])
        invariant allDone ==> forall k :: 0 <= k < i ==> Abs(current[..][k] - targets[k]) <= EPSILON
        invariant !allDone ==> LeftFrom(current[..], targets, 0) < LeftFrom(old(current[..]), targets, 0)
      {
        var moved;
        moved, sent := TryChip(i, targets, sent, start);
        if moved {
          allDone := false;
        }
      }
    }

    /** Ramps the chips side by side, round after round, until all have arrived; returns each
        frequency sent, and to which chip. */
    method Transition(targets: seq<real>) returns (sent: seq<(nat, real)>)
      requires Valid() && |targets| == CHIPS
      modifies current
      ensures Ramped(old(current[..]), current[..], targets, sent)
      ensures forall i :: 0 <= i < CHIPS ==> Abs(current[i] - targets[i]) <= EPSILON
    {
      sent := [];
      var allDone := false;
      while !allDone
        invariant Ramped(old(current[..]), current[..], targets, sent)
        invariant allDone ==> forall i :: 0 <= i < CHIPS ==> Abs(current[i] - targets[i]) <= EPSILON
        decreases !allDone, LeftFrom(current[..], targets, 0)
      {
        allDone, sent := Round(targets, sent, old(current[..]));
      }
    }
  }
}

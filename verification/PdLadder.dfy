/** USB-PD bring-up of main/device.c: the adapter is walked up its ladder of voltages, its
    registers being polled all the while, and the miner is derated to what it delivers.

    What the registers say at each poll is arbitrary, and a read may fail. */
module PdLadder {
  import opened Common
  import opened Derating

  datatype Caps = Caps(v5: bool, v9: bool, v12: bool, v15: bool)

  /** What one poll of the registers would give; `None` where the read fails and the old value
      stays. */
  datatype Reading = Reading(connect: Option<(bool, bool)>, protocol: bool, volt: Option<nat>, caps: Caps)

  const RUNG_TICKS: nat := 200
  const TOTAL_TICKS: nat := 500

  /** The state of the negotiation; `requested` and `matched` record the voltages asked for
      and those that came. */
  datatype Ladder = Ladder(
    attached: bool, ready: bool, protocol: bool, volt: nat,
    capLoaded: bool, rungs: seq<nat>, index: nat, target: nat,
    setting: bool, timeOut: nat, success: bool, gate: bool,
    requested: seq<nat>, matched: seq<nat>)

  function Start(): Ladder {
    Ladder(false, false, false, 0, false, [], 0, 0, false, 0, false, false, [], [])
  }

  function Supported(c: Caps): (r: seq<nat>)
    ensures |r| <= 4 && Ascending(r) && 0 !in r
    ensures forall v :: v in r <==> Supports(c, v)
  {
    (if c.v5 then [5] else []) + (if c.v9 then [9] else [])
      + (if c.v12 then [12] else []) + (if c.v15 then [15] else [])
  }

  predicate Supports(c: Caps, v: nat) {
    (v == 5 && c.v5) || (v == 9 && c.v9) || (v == 12 && c.v12) || (v == 15 && c.v15)
  }

  predicate Ascending(s: seq<nat>) {
    forall i, j :: 0 <= i < j < |s| ==> s[i] < s[j]
  }

  predicate Connected(l: Ladder) { l.attached && l.ready && l.protocol }

  function Polled(l: Ladder, r: Reading): Ladder {
    if !l.attached || !l.ready then
      if r.connect.Some? then l.(attached := r.connect.value.0, ready := r.connect.value.1) else l
    else
      l.(protocol := l.protocol || r.protocol, volt := if r.volt.Some? then r.volt.value else l.volt)
  }

  /** Where one pass of the loop leads. */
  datatype Pass = Again(l: Ladder) | Done(l: Ladder)

  /** The end of a pass: one tick goes by. */
  function Ticked(l: Ladder): Pass {
    var next := l.(timeOut := l.timeOut + 1);
    if next.timeOut > TOTAL_TICKS then Done(next) else Again(next)
  }

  /** The rung was reached: up to the next, with the output on, unless it was the last. */
  function Reached(l: Ladder): Pass
    requires l.index < |l.rungs|
  {
    var m := l.(success := true, matched := l.matched + [l.target]);
    if l.index >= |l.rungs| - 1 then Done(m)
    else Again(m.(index := l.index + 1, target := l.rungs[l.index + 1], timeOut := 0, setting := false, gate := true))
  }

  function Asked(l: Ladder): Ladder {
    if l.volt != 0 && !l.setting && l.target != 0 then
      l.(requested := l.requested + [l.target], setting := true, timeOut := 0)
    else l
  }

  /** A rung is given up when its time is over, for the next if there is one. */
  function Timed(l: Ladder): Pass
    requires l.index < |l.rungs|
  {
    if l.timeOut <= RUNG_TICKS then Ticked(l)
    else if l.index + 1 >= |l.rungs| then Done(l.(index := l.index + 1))
    else Ticked(l.(index := l.index + 1, target := l.rungs[l.index + 1], setting := false, timeOut := 0))
  }

  /** The rung was not reached yet: it is asked for, or given up. */
  function Waited(l: Ladder): Pass
    requires l.index < |l.rungs|
  {
    Timed(Asked(l))
  }

  function Climbed(l: Ladder): Pass
    requires l.index < |l.rungs|
  {
    if l.volt == l.target then Reached(l) else Waited(l)
  }

  /** The ladder is read from the adapter once, lowest rung first. */
  function Loaded(l: Ladder, c: Caps): Ladder {
    if l.capLoaded || Supported(c) == [] then l
    else l.(rungs := Supported(c), target := Supported(c)[0], capLoaded := true)
  }

  /** One pass of the loop. */
  function Step(l: Ladder, r: Reading): Pass
    requires Ok(l)
  {
    var p := Polled(l, r);
    if !Connected(p) then Ticked(p)
    else
      var c := Loaded(p, r.caps);
      if c.capLoaded then Climbed(c) else Done(c)
  }

  /** On a rung of the adapter's ladder. */
  predicate OnRung(l: Ladder) {
    && l.capLoaded && Connected(l)
    && l.index < |l.rungs| <= 4 && l.target == l.rungs[l.index]
  }

  /** What holds whenever the loop comes round. */
  predicate Ok(l: Ladder) {
    if l.capLoaded then OnRung(l) && l.timeOut <= RUNG_TICKS + 1
    else
      && l.index == 0 && !l.setting && l.timeOut <= TOTAL_TICKS
      && l.rungs == l.requested == l.matched == [] && !l.gate && !l.success
  }

  /** The passes still possible, at most. */
  function Rank(l: Ladder): nat
    requires Ok(l)
  {
    if l.capLoaded then RungRank(l) else 2025 + (501 - l.timeOut)
  }

  function RungRank(l: Ladder): nat
    requires OnRung(l) && l.timeOut <= RUNG_TICKS + 1
  {
    (|l.rungs| - l.index) * 405 + (if l.setting then 0 else 203) + (202 - l.timeOut)
  }

  lemma ReachedDescends(l: Ladder)
    requires OnRung(l) && Reached(l).Again?
    ensures Ok(Reached(l).l) && RungRank(Reached(l).l) <= (|l.rungs| - l.index) * 405
  {}

  lemma WaitedDescends(l: Ladder)
    requires OnRung(l) && Waited(l).Again?
    ensures Ok(Waited(l).l) && RungRank(Waited(l).l) <= (|l.rungs| - l.index) * 405 + 404
    ensures Ok(l) ==> RungRank(Waited(l).l) < RungRank(l)
  {}

  lemma ClimbedDescends(l: Ladder)
    requires OnRung(l) && Climbed(l).Again?
    ensures Ok(Climbed(l).l) && Climbed(l).l.capLoaded
    ensures RungRank(Climbed(l).l) <= (|l.rungs| - l.index) * 405 + 404
    ensures Ok(l) ==> RungRank(Climbed(l).l) < RungRank(l)
  {
    if l.volt == l.target {
      ReachedDescends(l);
    } else {
      WaitedDescends(l);
    }
  }

  lemma TickedDescends(l: Ladder, r: Reading)
    requires Ok(l) && !Connected(Polled(l, r)) && Step(l, r).Again?
    ensures Ok(Step(l, r).l) && Rank(Step(l, r).l) < Rank(l)
  {}

  /** Every pass that does not end the loop brings its end nearer. */
  lemma StepDescends(l: Ladder, r: Reading)
    requires Ok(l) && Step(l, r).Again?
    ensures Ok(Step(l, r).l) && Rank(Step(l, r).l) < Rank(l)
  {
    if Connected(Polled(l, r)) {
      var c := Loaded(Polled(l, r), r.caps);
      ClimbedDescends(c);
      if l.capLoaded {
        assert Ok(c) && RungRank(c) == RungRank(l);
      }
    } else {
      TickedDescends(l, r);
    }
  }

  /** The negotiation, whatever the registers say at each poll from the `k`th on. */
  function Climb(l: Ladder, env: nat -> Reading, k: nat): Ladder
    requires Ok(l)
    decreases Rank(l), env
  {
    match Step(l, env(k))
    case Done(next) => next
    case Again(next) => StepDescends(l, env(k)); Climb(next, env, k + 1)
  }

  /** How many polls it takes. */
  function Polls(l: Ladder, env: nat -> Reading, k: nat): nat
    requires Ok(l)
    decreases Rank(l), env
  {
    match Step(l, env(k))
    case Done(_) => 1
    case Again(next) => StepDescends(l, env(k)); 1 + Polls(next, env, k + 1)
  }

  /** It ends, and from the start within 2526 polls. */
  lemma {:induction false} EndsInTime(l: Ladder, env: nat -> Reading, k: nat)
    requires Ok(l)
    ensures Polls(l, env, k) <= Rank(l)
    ensures l == Start() ==> Rank(l) == 2526
    decreases Rank(l)
  {
    if Step(l, env(k)).Again? {
      StepDescends(l, env(k));
      EndsInTime(Step(l, env(k)).l, env, k + 1);
    }
  }

  /** An adapter that never connects is waited for 501 polls. */
  lemma {:induction false} UnconnectedEnds(l: Ladder, env: nat -> Reading, k: nat)
    requires Ok(l) && !(l.attached && l.ready) && forall j: nat :: env(j).connect != Some((true, true))
    ensures Polls(l, env, k) == 501 - l.timeOut && !Climb(l, env, k).gate
    decreases Rank(l)
  {
    assert Step(l, env(k)) == Ticked(Polled(l, env(k)));
    if Step(l, env(k)).Again? {
      StepDescends(l, env(k));
      UnconnectedEnds(Step(l, env(k)).l, env, k + 1);
    }
  }

  /** A rung that does not come is asked for once, and given up after 201 more passes. */
  lemma RungWaits(l: Ladder, r: Reading)
    requires Ok(l) && l.capLoaded && 0 !in l.rungs && Polled(l, r).volt !in {0, l.target}
    ensures var (p, next) := (Step(l, r), Polled(l, r));
      if !l.setting then p == Again(next.(requested := l.requested + [l.target], setting := true, timeOut := 1))
      else if l.timeOut <= 200 then p == Again(next.(timeOut := l.timeOut + 1))
      else p.l.index == l.index + 1 && !p.l.setting == p.Again? == (l.index + 1 < |l.rungs|)
  {
    assert l.target in l.rungs;
  }

  // ---------------------------------------------------------------- what was asked for and got

  predicate Before(s: seq<nat>, v: nat) {
    s == [] || s[|s| - 1] < v
  }

  lemma AscendingPush(s: seq<nat>, v: nat)
    requires Ascending(s) && Before(s, v)
    ensures Ascending(s + [v])
  {}

  /** The voltages asked for, and those that came, so far: in rising order, from the ladder. */
  predicate Records(l: Ladder) {
    && Ascending(l.rungs) && 0 !in l.rungs
    && Ascending(l.requested) && (forall v :: v in l.requested ==> v in l.rungs)
    && Ascending(l.matched) && (forall v :: v in l.matched ==> v in l.rungs)
    && (l.success <==> l.matched != [])
  }

  /** On a rung: nothing at or above it has come, the output is on if anything has, and it
      has been asked for just if a request is standing. */
  predicate Climbing(l: Ladder) {
    && OnRung(l) && Records(l)
    && Before(l.matched, l.target)
    && (l.gate <==> l.matched != [])
    && (if l.setting then l.requested != [] && l.requested[|l.requested| - 1] == l.target
        else Before(l.requested, l.target))
  }

  /** When it is over: the output is on just if a rung below the top came. */
  predicate Over(l: Ladder) {
    && Records(l)
    && (l.gate <==> MatchedBelowTop(l))
  }

  predicate MatchedBelowTop(l: Ladder) {
    l.matched != [] && l.rungs != [] && l.matched[0] != l.rungs[|l.rungs| - 1]
  }

  predicate Running(l: Ladder) {
    Ok(l) && (l.capLoaded ==> Climbing(l))
  }

  lemma ReachedRecords(l: Ladder)
    requires Climbing(l)
    ensures Reached(l).Again? ==> Climbing(Reached(l).l)
    ensures Reached(l).Done? ==> Over(Reached(l).l)
  {
    AscendingPush(l.matched, l.target);
    var m := l.matched + [l.target];
    assert m[|m| - 1] == l.target;
    assert l.target in l.rungs;
    if l.index == |l.rungs| - 1 && l.matched != [] {
      assert m[0] in l.matched && m[0] < m[|m| - 1];
    }
  }

  lemma AskedRecords(l: Ladder)
    requires Climbing(l)
    ensures Climbing(Asked(l))
  {
    if l.volt != 0 && !l.setting && l.target != 0 {
      AscendingPush(l.requested, l.target);
      assert l.target in l.rungs;
      var q := l.requested + [l.target];
      assert q[|q| - 1] == l.target;
    }
  }

  lemma TimedRecords(l: Ladder)
    requires Climbing(l)
    ensures Timed(l).Again? ==> Climbing(Timed(l).l)
    ensures Timed(l).Done? ==> Over(Timed(l).l)
  {
    if l.matched != [] { MatchedBelow(l); }
    if l.timeOut > RUNG_TICKS && l.index + 1 < |l.rungs| {
      assert l.target < l.rungs[l.index + 1];
    }
  }

  lemma WaitedRecords(l: Ladder)
    requires Climbing(l)
    ensures Waited(l).Again? ==> Climbing(Waited(l).l)
    ensures Waited(l).Done? ==> Over(Waited(l).l)
  {
    AskedRecords(l);
    TimedRecords(Asked(l));
  }

  /** What came so far is not the top rung. */
  lemma MatchedBelow(l: Ladder)
    requires Climbing(l) && l.matched != []
    ensures l.matched[0] != l.rungs[|l.rungs| - 1]
  {
    assert l.matched[0] <= l.matched[|l.matched| - 1] < l.target;
  }

  lemma LoadedClimbs(l: Ladder, r: Reading)
    requires Running(l) && Connected(Polled(l, r)) && Loaded(Polled(l, r), r.caps).capLoaded
    ensures Climbing(Loaded(Polled(l, r), r.caps))
  {}

  lemma ClimbedRecords(l: Ladder)
    requires Climbing(l)
    ensures Climbed(l).Again? ==> Climbing(Climbed(l).l)
    ensures Climbed(l).Done? ==> Over(Climbed(l).l)
  {
    if l.volt == l.target {
      ReachedRecords(l);
    } else {
      WaitedRecords(l);
    }
  }

  /** Before the ladder is known there is nothing to record. */
  lemma BlankRecords(l: Ladder, r: Reading)
    requires Ok(l) && !(Connected(Polled(l, r)) && Loaded(Polled(l, r), r.caps).capLoaded)
    ensures !Step(l, r).l.capLoaded && Over(Step(l, r).l)
  {
    BlankIsOver(Step(l, r).l);
  }

  lemma BlankIsOver(l: Ladder)
    requires l.rungs == l.requested == l.matched == [] && !l.gate && !l.success
    ensures Over(l)
  {}

  lemma StepRecords(l: Ladder, r: Reading)
    requires Running(l)
    ensures Step(l, r).Again? ==> Running(Step(l, r).l)
    ensures Step(l, r).Done? ==> Over(Step(l, r).l)
  {
    if Step(l, r).Again? { StepDescends(l, r); }
    var c := Loaded(Polled(l, r), r.caps);
    if Connected(Polled(l, r)) && c.capLoaded {
      LoadedClimbs(l, r);
      ClimbedRecords(c);
    } else {
      BlankRecords(l, r);
    }
  }

  /** One of the first `n` polls found the adapter at this voltage. */
  ghost predicate Seen(env: nat -> Reading, v: nat, n: nat) {
    exists j: nat :: j < n && env(j).volt == Some(v)
  }

  /** The ladder is what one of the first `n` polls found supported; the present voltage and those
      recorded as come are ones they found. */
  ghost predicate Found(l: Ladder, env: nat -> Reading, n: nat) {
    FoundRungs(l.rungs, env, n) && (l.volt == 0 || Seen(env, l.volt, n)) && AllSeen(l.matched, env, n)
  }

  ghost predicate FoundRungs(rungs: seq<nat>, env: nat -> Reading, n: nat) {
    rungs == [] || exists j: nat :: j < n && rungs == Supported(env(j).caps)
  }

  ghost predicate AllSeen(s: seq<nat>, env: nat -> Reading, n: nat) {
    forall v :: v in s ==> Seen(env, v, n)
  }

  /** What a pass on a rung leaves of the readings. */
  lemma ClimbedKeeps(l: Ladder)
    requires OnRung(l)
    ensures var n := Climbed(l).l;
      && n.rungs == l.rungs && n.volt == l.volt
      && n.matched == if l.volt == l.target then l.matched + [l.volt] else l.matched
  {
    if l.volt == l.target {
      ReachedKeeps(l);
    } else {
      TimedKeeps(Asked(l));
    }
  }

  lemma ReachedKeeps(l: Ladder)
    requires OnRung(l)
    ensures var n := Reached(l).l;
      n.rungs == l.rungs && n.volt == l.volt && n.matched == l.matched + [l.target]
  {}

  lemma TimedKeeps(l: Ladder)
    requires OnRung(l)
    ensures var n := Timed(l).l;
      n.rungs == l.rungs && n.volt == l.volt && n.matched == l.matched
  {}

  lemma LoadedKeeps(l: Ladder, r: Reading)
    requires Running(l)
    ensures var c := Loaded(Polled(l, r), r.caps);
      && (c.volt == l.volt || r.volt == Some(c.volt))
      && (c.rungs == l.rungs || c.rungs == Supported(r.caps))
      && c.matched == l.matched
      && (Connected(Polled(l, r)) && c.capLoaded ==> OnRung(c) && c.target != 0)
  {
    assert Supported(r.caps) != [] ==> Supported(r.caps)[0] in Supported(r.caps);
  }

  /** What a pass leaves of the readings. */
  predicate Follows(l: Ladder, n: Ladder, r: Reading) {
    && (n.volt == l.volt || r.volt == Some(n.volt))
    && (n.rungs == l.rungs || n.rungs == Supported(r.caps))
    && (n.matched == l.matched || (n.matched == l.matched + [n.volt] && n.volt != 0))
  }

  lemma StepFollows(l: Ladder, r: Reading)
    requires Running(l)
    ensures Follows(l, Step(l, r).l, r)
  {
    var c := Loaded(Polled(l, r), r.caps);
    LoadedKeeps(l, r);
    if Connected(Polled(l, r)) && c.capLoaded {
      ClimbedKeeps(c);
    } else {
      BlankFound(l, r);
    }
  }

  lemma FoundFollows(l: Ladder, n: Ladder, env: nat -> Reading, k: nat)
    requires Found(l, env, k) && Follows(l, n, env(k))
    ensures Found(n, env, k + 1)
  {
    assert FoundRungs(Supported(env(k).caps), env, k + 1);
    assert forall v :: Seen(env, v, k) ==> Seen(env, v, k + 1);
  }

  lemma BlankFound(l: Ladder, r: Reading)
    requires Ok(l) && !(Connected(Polled(l, r)) && Loaded(Polled(l, r), r.caps).capLoaded)
    ensures var n, p := Step(l, r).l, Polled(l, r);
      n.rungs == [] && n.matched == [] && n.volt == p.volt
  {}

  lemma StepFinds(l: Ladder, env: nat -> Reading, k: nat, next: nat)
    requires Running(l) && Found(l, env, k) && next == k + 1
    ensures var p := Step(l, env(k));
      Found(p.l, env, next) && if p.Again? then Running(p.l) else Over(p.l)
  {
    StepRecords(l, env(k));
    StepFollows(l, env(k));
    FoundFollows(l, Step(l, env(k)).l, env, k);
  }

  /** However the registers read: at the end, the voltages asked for are rungs of the ladder
      the adapter reported, each higher than the last; those recorded as reached were each
      found by a poll made until then; and the output has been switched on just if a rung below
      the top was reached. */
  lemma {:induction false} ClimbRecords(l: Ladder, env: nat -> Reading, k: nat, end: nat)
    requires Running(l) && Found(l, env, k) && end == k + Polls(l, env, k)
    ensures Over(Climb(l, env, k)) && Found(Climb(l, env, k), env, end)
    decreases Rank(l)
  {
    StepFinds(l, env, k, k + 1);
    if Step(l, env(k)).Again? {
      StepDescends(l, env(k));
      ClimbRecords(Step(l, env(k)).l, env, k + 1, end);
    }
  }

  // ---------------------------------------------------------------- no rung is passed over

  /** Whenever a poll finds the adapter connected, some voltage is known. */
  predicate Informed(l: Ladder, env: nat -> Reading, k: nat)
    requires Ok(l)
    decreases Rank(l), env
  {
    && Informs(l, env(k))
    && match Step(l, env(k))
       case Done(_) => true
       case Again(next) => StepDescends(l, env(k)); Informed(next, env, k + 1)
  }

  predicate Informs(l: Ladder, r: Reading) {
    Connected(Polled(l, r)) ==> Polled(l, r).volt != 0
  }

  /** Each of these rungs was asked for, or came unasked. */
  predicate Tried(l: Ladder, rungs: seq<nat>) {
    forall v :: v in rungs ==> v in l.requested || v in l.matched
  }

  /** So far no rung was passed over. */
  predicate Trying(l: Ladder) {
    && OnRung(l) && 0 !in l.rungs && (l.setting ==> l.timeOut <= RUNG_TICKS + 1)
    && Tried(l, l.rungs[..l.index]) && (l.setting ==> l.target in l.requested)
  }

  /** Every rung was tried; it ended at the top, or with no rung left. */
  predicate AllTried(l: Ladder) {
    && l.rungs != [] && Tried(l, l.rungs)
    && ((l.volt == l.rungs[|l.rungs| - 1] && l.volt in l.matched) || l.index == |l.rungs|)
  }

  lemma NextTried(l: Ladder)
    requires OnRung(l) && Tried(l, l.rungs[..l.index])
    requires l.target in l.requested || l.target in l.matched
    ensures Tried(l, l.rungs[..l.index + 1])
    ensures l.index == |l.rungs| - 1 ==> Tried(l, l.rungs)
  {
    assert l.rungs[..l.index + 1] == l.rungs[..l.index] + [l.target];
    assert l.rungs[..|l.rungs|] == l.rungs;
  }

  lemma TryingClimb(l: Ladder)
    requires Trying(l) && l.volt != 0
    ensures var p := Climbed(l);
      p.l.rungs == l.rungs && if p.Again? then Trying(p.l) else AllTried(p.l)
  {
    if l.volt == l.target {
      NextTried(l.(matched := l.matched + [l.target]));
    } else {
      NextTried(Asked(l));
    }
  }

  lemma TryingStep(l: Ladder, r: Reading)
    requires Running(l) && (l.capLoaded ==> Trying(l)) && Informs(l, r)
    ensures var p := Step(l, r);
      p.l.capLoaded ==> if p.Again? then Trying(p.l) else AllTried(p.l)
  {
    var c := Loaded(Polled(l, r), r.caps);
    if Connected(Polled(l, r)) && c.capLoaded {
      assert 0 !in Supported(r.caps);
      TryingClimb(c);
    } else {
      BlankRecords(l, r);
    }
  }

  /** If some voltage is known at every poll once connected, every rung of the ladder that was
      read is asked for or comes unasked: none is passed over, and one that is not granted does
      not keep the adapter from being asked for those above it. */
  lemma {:induction false} EveryRungTried(l: Ladder, env: nat -> Reading, k: nat)
    requires Running(l) && (l.capLoaded ==> Trying(l)) && Informed(l, env, k)
    ensures Climb(l, env, k).capLoaded ==> AllTried(Climb(l, env, k))
    decreases Rank(l)
  {
    TryingStep(l, env(k));
    StepRecords(l, env(k));
    if Step(l, env(k)).Again? {
      StepDescends(l, env(k));
      EveryRungTried(Step(l, env(k)).l, env, k + 1);
    }
  }

  // ---------------------------------------------------------------- an adapter that grants some rungs

  /** Once connected, the adapter is known to supply a voltage at every poll, though reading it
      again may fail: the one asked for by the time the rung would be given up, if it is among
      those granted, and never while it is waited for, if not. */
  predicate Grants(l: Ladder, granted: set<nat>, env: nat -> Reading, k: nat)
    requires Ok(l)
    decreases Rank(l), env
  {
    && (l.attached && l.ready ==> Answers(Polled(l, env(k)), granted, env(k).caps))
    && match Step(l, env(k))
       case Done(_) => true
       case Again(next) => StepDescends(l, env(k)); Grants(next, granted, env, k + 1)
  }

  predicate Answers(p: Ladder, granted: set<nat>, c: Caps) {
    Connected(p) && p.volt != 0 && Obliges(Loaded(p, c), granted)
  }

  predicate Obliges(l: Ladder, granted: set<nat>) {
    if l.target in granted then Late(l) ==> l.volt == l.target else l.volt != l.target
  }

  /** A request has been standing for as long as a rung is waited for. */
  predicate Late(l: Ladder) { l.setting && l.timeOut > RUNG_TICKS }

  /** The rungs granted, in order. */
  function Picked(rungs: seq<nat>, granted: set<nat>): seq<nat> {
    if rungs == [] then []
    else
      var top := rungs[|rungs| - 1];
      Picked(rungs[..|rungs| - 1], granted) + if top in granted then [top] else []
  }

  lemma {:induction false} PickedIs(rungs: seq<nat>, granted: set<nat>, v: nat)
    ensures v in Picked(rungs, granted) <==> v in rungs && v in granted
  {
    if rungs != [] {
      var low, top := rungs[..|rungs| - 1], rungs[|rungs| - 1];
      assert rungs == low + [top];
      PickedIs(low, granted, v);
    }
  }

  lemma {:induction false} PickedAll(rungs: seq<nat>, granted: set<nat>)
    requires forall v :: v in rungs ==> v in granted
    ensures Picked(rungs, granted) == rungs
  {
    if rungs != [] {
      var low, top := rungs[..|rungs| - 1], rungs[|rungs| - 1];
      assert rungs == low + [top];
      PickedAll(low, granted);
    }
  }

  /** The rungs so far came just if they are granted. */
  predicate CameAsGranted(l: Ladder, granted: set<nat>) {
    OnRung(l) && 0 !in l.rungs && l.matched == Picked(l.rungs[..l.index], granted)
  }

  /** The rungs that came are those granted, and the top one, if granted, is where it ended. */
  predicate GrantedCame(l: Ladder, rungs: seq<nat>, granted: set<nat>) {
    && l.rungs == rungs != [] && l.matched == Picked(rungs, granted)
    && (rungs[|rungs| - 1] in granted ==> l.success && l.volt == rungs[|rungs| - 1])
  }

  lemma PickedNext(l: Ladder, granted: set<nat>)
    requires OnRung(l)
    ensures Picked(l.rungs[..l.index + 1], granted)
         == Picked(l.rungs[..l.index], granted) + if l.target in granted then [l.target] else []
    ensures l.index == |l.rungs| - 1 ==> l.rungs[..l.index + 1] == l.rungs
  {
    assert l.rungs[..l.index + 1][..l.index] == l.rungs[..l.index];
  }

  /** What one pass on a rung does with such an adapter. */
  lemma GrantedClimb(l: Ladder, granted: set<nat>)
    requires CameAsGranted(l, granted) && l.volt != 0 && Obliges(l, granted)
    requires l.setting ==> l.timeOut <= RUNG_TICKS + 1
    ensures var p := Climbed(l);
      p.l.rungs == l.rungs && if p.Again? then CameAsGranted(p.l, granted) else GrantedCame(p.l, l.rungs, granted)
  {
    PickedNext(l, granted);
    if l.volt != l.target && l.target in granted {
      assert Asked(l).timeOut <= RUNG_TICKS && Asked(l).setting;
    }
  }

  /** How far the negotiation is: connected by the `n`th poll if not yet, or on a rung. */
  predicate OnCourse(l: Ladder, granted: set<nat>, k: nat, n: nat, c: Caps) {
    && Ok(l)
    && (l.capLoaded ==> CameAsGranted(l, granted) && l.rungs == Supported(c))
    && (!l.attached || !l.ready ==> !l.protocol && k <= n && l.timeOut + (n - k) < TOTAL_TICKS)
    && (!l.capLoaded ==> l.timeOut <= TOTAL_TICKS)
  }

  lemma GrantedLoad(l: Ladder, granted: set<nat>, p: Ladder, r: Reading, k: nat, n: nat, c: Caps)
    requires OnCourse(l, granted, k, n, c) && l.attached && l.ready && Supported(c) != []
    requires p == Polled(l, r) && Answers(p, granted, c)
    ensures var q := Loaded(p, c);
      && CameAsGranted(q, granted) && q.rungs == Supported(c) && q.volt != 0 && Obliges(q, granted)
      && (q.setting ==> q.timeOut <= RUNG_TICKS + 1)
  {
    assert Supported(c)[..0] == [];
  }

  lemma GrantedStep(l: Ladder, granted: set<nat>, env: nat -> Reading, k: nat, n: nat, c: Caps)
    requires OnCourse(l, granted, k, n, c) && Answers(Polled(l, env(k)), granted, env(k).caps)
    requires l.attached && l.ready && env(k).caps == c && Supported(c) != []
    ensures var p := Step(l, env(k));
      if p.Again? then OnCourse(p.l, granted, k + 1, n, c) else GrantedCame(p.l, Supported(c), granted)
  {
    if Step(l, env(k)).Again? { StepDescends(l, env(k)); }
    GrantedLoad(l, granted, Polled(l, env(k)), env(k), k, n, c);
    GrantedClimb(Loaded(Polled(l, env(k)), c), granted);
  }

  lemma ConnectingStep(l: Ladder, granted: set<nat>, env: nat -> Reading, k: nat, n: nat, c: Caps)
    requires OnCourse(l, granted, k, n, c) && (!l.attached || !l.ready)
    requires k == n ==> env(k).connect == Some((true, true))
    ensures var p := Step(l, env(k)); p.Again? && OnCourse(p.l, granted, k + 1, n, c)
  {
    assert !Connected(Polled(l, env(k)));
  }

  /** With an adapter that connects in time and grants exactly some of its rungs, those that come
      are the ones granted, in rising order, whatever lies between them. */
  lemma {:induction false} GrantedRungsCome(l: Ladder, granted: set<nat>, env: nat -> Reading, k: nat, n: nat, c: Caps)
    requires OnCourse(l, granted, k, n, c) && Grants(l, granted, env, k)
    requires (forall j: nat :: env(j).caps == c) && Supported(c) != [] && env(n).connect == Some((true, true))
    ensures GrantedCame(Climb(l, env, k), Supported(c), granted)
    decreases Rank(l)
  {
    if l.attached && l.ready {
      GrantedStep(l, granted, env, k, n, c);
    } else {
      ConnectingStep(l, granted, env, k, n, c);
    }
    if Step(l, env(k)).Again? {
      StepDescends(l, env(k));
      GrantedRungsCome(Step(l, env(k)).l, granted, env, k + 1, n, c);
    }
  }

  /** Every rung came. */
  predicate AtTop(l: Ladder, rungs: seq<nat>) {
    rungs != [] && l.success && l.rungs == l.matched == rungs && l.volt == rungs[|rungs| - 1]
  }

  /** The adapter connects within the first 500 polls, always reports this ladder, and grants
      exactly these voltages. */
  ghost predicate Granting(env: nat -> Reading, granted: set<nat>, c: Caps) {
    && (exists n :: 0 <= n < 500 && env(n).connect == Some((true, true)))
    && (forall j: nat :: env(j).caps == c) && Supported(c) != []
    && Grants(Start(), granted, env, 0)
  }

  lemma GrantedAtEnd(env: nat -> Reading, granted: set<nat>, c: Caps)
    requires Granting(env, granted, c)
    ensures GrantedCame(Climb(Start(), env, 0), Supported(c), granted)
  {
    var n :| 0 <= n < 500 && env(n).connect == Some((true, true));
    GrantedRungsCome(Start(), granted, env, 0, n, c);
  }

  /** With all of them granted it gives no rung up and ends at the top of the ladder. */
  lemma ComplianceReachesTop(env: nat -> Reading, granted: set<nat>, c: Caps)
    requires Granting(env, granted, c) && forall v :: v in Supported(c) ==> v in granted
    ensures AtTop(Climb(Start(), env, 0), Supported(c))
  {
    GrantedAtEnd(env, granted, c);
    PickedAll(Supported(c), granted);
    assert Supported(c)[|Supported(c)| - 1] in Supported(c);
  }

  // ---------------------------------------------------------------- the bring-up

  /** The state of the loop, updated as it goes round. */
  class Negotiation {
    var attached: bool
    var ready: bool
    var protocol: bool
    var volt: nat
    var capLoaded: bool
    var voltList: seq<nat>
    var index: nat
    var target: nat
    var setting: bool
    var timeOut: nat
    var success: bool
    var gate: bool
    ghost var requested: seq<nat>
    ghost var matched: seq<nat>

    ghost function State(): Ladder
      reads this
    {
      Ladder(attached, ready, protocol, volt, capLoaded, voltList, index, target, setting, timeOut,
             success, gate, requested, matched)
    }

    /** The way one pass leads. */
    ghost function Led(again: bool): Pass
      reads this
    {
      if again then Again(State()) else Done(State())
    }

    constructor ()
      ensures State() == Start()
    {
      attached, ready, protocol, volt := false, false, false, 0;
      capLoaded, voltList, index, target := false, [], 0, 0;
      setting, timeOut, success, gate := false, 0, false, false;
      requested, matched := [], [];
    }

    method Poll(r: Reading)
      modifies this
      ensures State() == Polled(old(State()), r)
    {
      if !attached || !ready {
        if r.connect.Some? {
          attached, ready := r.connect.value.0, r.connect.value.1;
        }
      } else {
        if !protocol {
          protocol := r.protocol;
        }
        if r.volt.Some? {
          volt := r.volt.value;
        }
      }
    }

    /** Reads the adapter's ladder once, lowest rung first. */
    method Load(c: Caps)
      requires capLoaded || index == 0
      modifies this
      ensures State() == Loaded(old(State()), c)
    {
      if capLoaded {
        return;
      }
      var list := VoltList(c);
      if |list| > 0 {
        voltList, target, capLoaded := list, list[index], true;
      }
    }

    method Reach() returns (again: bool)
      requires index < |voltList|
      modifies this
      ensures Led(again) == Reached(old(State()))
    {
      success, matched := true, matched + [target];
      if index >= |voltList| - 1 {
        return false;
      }
      index := index + 1;
      target := voltList[index];
      timeOut := 0;
      setting := false;
      gate := true;
      return true;
    }

    /** Asks for the rung, once. */
    method Ask()
      modifies this
      ensures State() == Asked(old(State()))
    {
      if volt != 0 && !setting && target != 0 {
        requested := requested + [target];
        setting := true;
        timeOut := 0;
      }
    }

    method Wait() returns (again: bool)
      requires index < |voltList|
      modifies this
      ensures Led(again) == Waited(old(State()))
    {
      Ask();
      if timeOut > RUNG_TICKS {
        index := index + 1;
        if index >= |voltList| {
          return false;
        }
        target := voltList[index];
        setting := false;
        timeOut := 0;
      }
      again := Tick();
    }

    method Tick() returns (again: bool)
      modifies this
      ensures Led(again) == Ticked(old(State()))
    {
      timeOut := timeOut + 1;
      return timeOut <= TOTAL_TICKS;
    }

    method Go(r: Reading) returns (again: bool)
      requires Ok(State())
      modifies this
      ensures Led(again) == Step(old(State()), r)
    {
      Poll(r);
      if attached && ready && protocol {
        Load(r.caps);
        if !capLoaded {
          return false;
        }
        if volt == target {
          again := Reach();
        } else {
          again := Wait();
        }
      } else {
        again := Tick();
      }
    }

    /** Walks the adapter up its ladder. */
    method Run(env: nat -> Reading)
      requires State() == Start()
      modifies this
      ensures State() == Climb(Start(), env, 0)
    {
      var again, k := true, 0;
      while again
        invariant again ==> Ok(State())
        invariant Climb(Start(), env, 0) == if again then Climb(State(), env, k) else State()
        decreases again, if again then Rank(State()) else 0
      {
        ghost var l := State();
        again := Go(env(k));
        if again { StepDescends(l, env(k)); }
        k := k + 1;
      }
    }
  }

  /** What bring-up acts on. */
  class Board {
    const model: Model
    var setting: Setting
    var contractHeld: bool
    var pdState: bool
    /** The two switches of the output: each attempt closes the gate first, and leaves the pin. */
    var gate: bool
    var pin: bool

    constructor (model: Model, setting: Setting)
      ensures this.model == model && this.setting == setting && !contractHeld && !pdState && !gate && !pin
    {
      this.model, this.setting := model, setting;
      contractHeld, pdState, gate, pin := false, false, false, false;
    }

    /** Brings the supply up unless a contract is held already.  `current` is the contract's
        current as read at the end. */
    method BringUp(env: nat -> Reading, current: nat) returns (ok: bool)
      modifies this
      ensures old(contractHeld) ==> ok && contractHeld && unchanged(this)
      ensures !old(contractHeld) ==>
        var l := Climb(Start(), env, 0);
        && (ok, gate) == Verdict(env, current) && pin == (old(pin) || gate) && contractHeld == pdState == ok
        && setting == if l.success then Derated(model, l.volt, current, old(setting)) else old(setting)
    {
      if contractHeld {
        return true;
      }
      var n := new Negotiation();
      n.Run(env);
      gate := n.gate;
      pin := pin || n.gate;
      var success := n.success;
      if success {
        success := Derate(n.volt, current);
      }
      if success {
        gate, pin := true, true;
      }
      pdState := success;
      contractHeld := success;
      return success;
    }

    /** Lowers frequency and voltage to what the contract can carry; says whether it can carry
        the miner at all. */
    method Derate(volt: nat, current: nat) returns (enough: bool)
      modifies `setting
      ensures enough == Enough(volt, current) && setting == Derated(model, volt, current, old(setting))
    {
      enough := true;
      if volt == 15 {
        enough := current >= 2000;
      } else if volt == 12 {
        enough := current >= 3000;
      } else if volt == 9 {
        if current >= 3000 {
          setting := setting.(frequency := Limit(model, setting.frequency, 350, 650));
        } else if current >= 2770 {
          setting := setting.(frequency := Limit(model, setting.frequency, 330, 600));
        } else if current >= 2220 {
          setting := setting.(frequency := Limit(model, setting.frequency, 300, 480));
        } else {
          enough := false;
        }
        setting := setting.(voltage := Limit(model, setting.voltage, 95, 115));
      } else {
        if current < 3000 {
          enough := false;
        } else {
          setting := setting.(frequency := Limit(model, setting.frequency, 300, 400));
        }
        setting := setting.(voltage := Limit(model, setting.voltage, 93, 115));
      }
    }
  }

  /** The supported voltages, lowest first. */
  method VoltList(c: Caps) returns (list: seq<nat>)
    ensures list == Supported(c)
  {
    list := [];
    if c.v5 { list := list + [5]; }
    if c.v9 { list := list + [9]; }
    if c.v12 { list := list + [12]; }
    if c.v15 { list := list + [15]; }
  }

  // ---------------------------------------------------------------- the output

  /** How bring-up ends: whether it holds a contract, and whether the output is on. */
  function Verdict(env: nat -> Reading, current: nat): (bool, bool) {
    var l := Climb(Start(), env, 0);
    var ok := l.success && Enough(l.volt, current);
    (ok, l.gate || ok)
  }

  /** One of the first `n` polls found a voltage, and one found that the adapter supports it. */
  ghost predicate SawSupported(env: nat -> Reading, n: nat) {
    exists v, j: nat :: j < n && Supports(env(j).caps, v) && Seen(env, v, n)
  }

  lemma MatchWasSeen(l: Ladder, env: nat -> Reading, n: nat)
    requires Over(l) && Found(l, env, n) && (l.gate || l.success)
    ensures SawSupported(env, n)
  {
    var v := l.matched[0];
    assert v in l.matched && v in l.rungs;
    var j: nat :| j < n && l.rungs == Supported(env(j).caps);
    assert Supports(env(j).caps, v) && Seen(env, v, n);
  }

  /** A held contract means the output is on; and the output is on only if polls made until then
      found the adapter at a voltage it supports. */
  lemma OutputNeedsMatch(env: nat -> Reading, current: nat)
    requires Verdict(env, current).1
    ensures SawSupported(env, Polls(Start(), env, 0))
  {
    ClimbRecords(Start(), env, 0, Polls(Start(), env, 0));
    MatchWasSeen(Climb(Start(), env, 0), env, Polls(Start(), env, 0));
  }

  /** Bring-up can fail, saying the output is disabled, and leave it on: exactly when a rung
      below the top was reached on the way and the contract it ended with is too weak. */
  lemma FailsWithOutputOnIff(env: nat -> Reading, current: nat)
    ensures var l := Climb(Start(), env, 0);
      Verdict(env, current) == (false, true) <==> MatchedBelowTop(l) && !Enough(l.volt, current)
  {
    ClimbRecords(Start(), env, 0, Polls(Start(), env, 0));
  }

  /** With an adapter that grants some of its rungs, the output is left on exactly when one below
      the top is granted, or the top one with enough current. */
  lemma {:induction false} GrantedOutputIff(env: nat -> Reading, granted: set<nat>, c: Caps, current: nat)
    requires Granting(env, granted, c)
    ensures var top := Supported(c)[|Supported(c)| - 1];
      Verdict(env, current).1 <==> SomeBelow(Supported(c), granted, top) || (top in granted && Enough(top, current))
  {
    var l, rungs := Climb(Start(), env, 0), Supported(c);
    GrantedAtEnd(env, granted, c);
    ClimbRecords(Start(), env, 0, Polls(Start(), env, 0));
    PickedBelow(rungs, granted, l.matched, rungs[|rungs| - 1]);
  }

  /** A rung other than this is granted. */
  ghost predicate SomeBelow(rungs: seq<nat>, granted: set<nat>, top: nat) {
    exists v :: v in rungs && v != top && v in granted
  }

  lemma {:induction false} PickedBelow(rungs: seq<nat>, granted: set<nat>, picked: seq<nat>, top: nat)
    requires rungs != [] && Ascending(rungs) && top == rungs[|rungs| - 1]
    requires picked == Picked(rungs, granted) && Ascending(picked)
    ensures picked != [] && picked[0] != top <==> SomeBelow(rungs, granted, top)
    ensures picked == [] <==> !SomeBelow(rungs, granted, top) && top !in granted
  {
    PickedIs(rungs, granted, top);
    if picked != [] {
      PickedIs(rungs, granted, picked[0]);
    }
    if v :| v in rungs && v != top && v in granted {
      PickedIs(rungs, granted, v);
      FirstBelow(rungs, picked, v, top);
    }
  }

  lemma {:induction false} FirstBelow(rungs: seq<nat>, picked: seq<nat>, v: nat, top: nat)
    requires rungs != [] && Ascending(rungs) && top == rungs[|rungs| - 1]
    requires Ascending(picked) && v in picked && v in rungs && v != top
    ensures picked[0] != top
  {
    var i :| 0 <= i < |rungs| && rungs[i] == v;
    assert v < top;
    var j :| 0 <= j < |picked| && picked[j] == v;
    if j > 0 { assert picked[0] < picked[j]; }
  }

  /** With one that grants them all, bring-up fails and leaves the output on when it supports at
      least two voltages and the current is too weak for the highest. */
  lemma CompliantFailsIff(env: nat -> Reading, granted: set<nat>, c: Caps, current: nat)
    requires Granting(env, granted, c) && forall v :: v in Supported(c) ==> v in granted
    ensures var rungs := Supported(c);
      Verdict(env, current) == (false, true) <==> |rungs| >= 2 && !Enough(rungs[|rungs| - 1], current)
  {
    ComplianceReachesTop(env, granted, c);
    FailsWithOutputOnIff(env, current);
    assert forall i :: 0 < i < |Supported(c)| ==> Supported(c)[0] < Supported(c)[i];
  }

  /** For instance: a 5 V and 9 V adapter that grants both, the second at under 2.22 A. */
  lemma WeakAdapterLeavesOutputOn(env: nat -> Reading, current: nat)
    requires env(0).connect == Some((true, true))
    requires env(1) == Reading(None, true, Some(5), Caps(true, true, false, false))
    requires env(2).volt == Some(9)
    requires current < 2220
    ensures Verdict(env, current) == (false, true)
  {
    var l1 := Step(Start(), env(0)).l;
    assert Step(Start(), env(0)) == Again(l1);
    StepDescends(Start(), env(0));
    var l2 := Step(l1, env(1)).l;
    assert Supported(env(1).caps) == [5, 9];
    assert Step(l1, env(1)) == Again(l2) && l2.gate && l2.target == 9;
    StepDescends(l1, env(1));
    assert Step(l2, env(2)).Done?;
    assert Climb(l2, env, 2) == Step(l2, env(2)).l;
    assert Climb(l1, env, 1) == Climb(l2, env, 2);
    assert Climb(Start(), env, 0) == Climb(l1, env, 1);
  }
}

/** The core voltage from stored settings through boot, the trimming after start, and requests
    while running (main/nvs_device.c, main/system.c, main/device.c,
    main/http_server/http_server.c), and the regulator's driver, which refuses what is out of its
    range (components/bc_hal/vcore.c, components/bc_hal/TPS546.c).  Voltages are in hundredths of
    a volt. */
module CoreVoltage {
  import opened Common
  import D = Derating

  type U16 = x: int | 0 <= x < 0x1_0000

  datatype Model = BC01 | BC01Pro | BC02 | BC04 | BC06 | BC08

  datatype Mode = Normal | OverFrequency | Custom

  /** What the image can be built with. */
  type VoutMax = x: nat | 100 <= x <= 650 witness 100
  type VoutMin = x: nat | 100 <= x <= 150 witness 100
  datatype Config = Config(voutMax: VoutMax, voutMin: VoutMin, asicVoltage: nat)

  /** What flash holds: any of it may be absent, and nothing vouches for it. */
  datatype Stored = Stored(startup: Option<U16>, normal: Option<U16>, over: Option<U16>, custom: Option<U16>)

  function Get(stored: Option<U16>, otherwise: nat): nat {
    if stored.Some? then stored.value else otherwise
  }

  function Min(x: nat, y: nat): nat { if x > y then y else x }

  function Max(x: nat, y: nat): nat { if x > y then x else y }

  /** `startup` is what the board comes up on, `voltage` what it is to run on. */
  datatype State = State(model: Model, max: nat, min: nat, startup: nat, voltage: nat, started: nat)

  function Parsed(model: Model, cfg: Config, st: Stored): State {
    match model
    case BC04 => State(model, cfg.voutMax, cfg.voutMin, Min(Get(st.startup, cfg.asicVoltage * 4), 480), 0, 0)
    case BC08 => State(model, cfg.voutMax, cfg.voutMin, Min(Get(st.startup, cfg.asicVoltage * 4), 480), 0, 0)
    case BC06 => State(model, cfg.voutMax * 3 / 4, cfg.voutMin, Get(st.startup, cfg.asicVoltage * 3), 0, 0)
    case BC01 => State(model, cfg.voutMax, cfg.voutMin, Get(st.startup, cfg.asicVoltage), 0, 0)
    case BC01Pro => State(model, 115, 90, Get(st.startup, 95), 0, 0)
    case BC02 => State(model, cfg.voutMax * 2, cfg.voutMin, Get(st.startup, cfg.asicVoltage), 0, 0)
  }

  /** The range and, with nothing stored, the startup voltage go by the number of chips in series:
      four share the voltage of a BC04 or BC08, three that of a BC06. */
  lemma ParsedIs(model: Model, cfg: Config, st: Stored, chips: nat)
    requires st.startup == None && model != BC01Pro
    requires chips == if model in {BC04, BC08} then 4 else if model == BC06 then 3 else 1
    ensures var s := Parsed(model, cfg, st);
      && s.min == cfg.voutMin && s.startup <= chips * cfg.asicVoltage
      && (s.startup == chips * cfg.asicVoltage || (chips == 4 && s.startup == 480))
      && (chips == 4 ==> s.startup <= 480)
      && (if model == BC06 then 4 * s.max <= 3 * cfg.voutMax < 4 * s.max + 4
          else s.max == if model == BC02 then 2 * cfg.voutMax else cfg.voutMax)
      && s.voltage == s.started == 0
  {}

  /** A BC01-Pro has a range and a startup voltage of its own. */
  lemma ParsedPro(cfg: Config, st: Stored)
    ensures Parsed(BC01Pro, cfg, st) == State(BC01Pro, 115, 90, Get(st.startup, 95), 0, 0)
  {}

  function Ceiling(s: State): nat {
    if s.model in {BC04, BC08} then Min(s.max, 480) else s.max
  }

  predicate Allowed(s: State, voltage: int) { s.min <= voltage <= s.max }

  /** What is stored for a boot mode. */
  function StoredFor(s: State, mode: Mode, st: Stored): nat {
    match mode
    case Normal => Get(st.normal, s.startup)
    case OverFrequency => Get(st.over, s.startup)
    case Custom => Get(st.custom, s.startup)
  }

  /** The voltage to run on, by boot mode. */
  function Chosen(s: State, mode: Mode, st: Stored): nat {
    var first, second := StoredFor(s, mode, st), Get(st.normal, s.startup);
    var v := if Allowed(s, first) then first else if Allowed(s, second) then second else s.startup;
    Min(v, Ceiling(s))
  }

  function Configured(s: State, mode: Mode, st: Stored): State {
    var v := Chosen(s, mode, st);
    s.(voltage := v, startup := Max(s.startup, v))
  }

  /** What is stored for the mode is used if it is in the model's range, up to the ceiling; if
      not, the normal voltage; whatever is used is allowed if one of the choices is; and the startup
      voltage is lifted to it if lower. */
  lemma ChosenIs(s: State, mode: Mode, st: Stored, own: U16, normal: U16)
    requires st.normal == Some(normal)
    requires match mode case Normal => own == normal case OverFrequency => st.over == Some(own)
                        case Custom => st.custom == Some(own)
    ensures var (c, ceiling) := (Configured(s, mode, st), Ceiling(s));
      && (Allowed(s, own) && own <= ceiling ==> c.voltage == own)
      && (!Allowed(s, own) && Allowed(s, normal) && normal <= ceiling ==> c.voltage == normal)
      && (Allowed(s, own) && own > ceiling ==> c.voltage == ceiling)
      && (s.min <= ceiling && (Allowed(s, own) || Allowed(s, normal) || Allowed(s, s.startup))
          ==> Allowed(s, c.voltage))
      && c.startup >= c.voltage && (c.startup == c.voltage || c.startup == s.startup >= c.voltage)
      && c == s.(voltage := c.voltage, startup := c.startup)
  {}

  /** With nothing stored the board runs on what it comes up on, as far as the ceiling. */
  lemma NothingStored(s: State, mode: Mode, st: Stored)
    requires st.normal == st.over == st.custom == None
    ensures var c := Configured(s, mode, st);
      && c.voltage <= s.startup && c.voltage <= Ceiling(s) && c.voltage in {s.startup, Ceiling(s)}
      && c.startup == s.startup
  {}

  // ---------------------------------------------------------------- trimming

  const WARM_UP: nat := 120
  const LAST_COUNT: nat := 10000

  /** One pass of the system task; every fifth trims, between warm-up and the last count. */
  function Ticked(s: State, mining: bool): State {
    if !mining then s.(started := 0)
    else if s.started + 1 > LAST_COUNT then s.(started := LAST_COUNT)
    else
      var t := s.(started := s.started + 1);
      if t.started > WARM_UP && t.startup > t.voltage && t.started % 5 == 0 then
        t.(startup := if t.startup - t.voltage > 3 then t.startup - 3 else t.voltage)
      else t
  }

  /** A pass while not mining only starts the count afresh. */
  lemma PauseStartsAfresh(s: State)
    ensures Ticked(s, false) == s.(started := 0)
  {}

  /** After so many passes while mining. */
  function Trimmed(s: State, n: nat): State {
    if n == 0 then s else Ticked(Trimmed(s, n - 1), true)
  }

  // ---------------------------------------------------------------- the regulator

  /** A voltage asked of the driver, and whether it let it through. */
  datatype Command = Command(volts: nat, through: bool)

  /** The driver's range.  It is empty before the driver is initialised. */
  datatype Range = Range(lo: nat, hi: nat)

  function Asked(g: Range, volts: nat): Command {
    Command(volts, volts == 0 || g.lo <= volts <= g.hi)
  }

  // ---------------------------------------------------------------- requests

  /** Where a request goes next. */
  function Toward(from: nat, to: nat): nat {
    if to - from > 3 then from + 3 else if from - to > 3 then from - 3 else to
  }

  /** The commands of a request. */
  function Walk(g: Range, from: nat, to: nat): seq<Command>
    decreases if from < to then to - from else from - to
  {
    if from == to then [] else [Asked(g, Toward(from, to))] + Walk(g, Toward(from, to), to)
  }

  /** A request moves by no more than 0.03 V at a time, never away from where it is to end, and
      ends there. */
  lemma {:induction false} WalkGentle(g: Range, from: nat, to: nat, i: nat)
    requires i < |Walk(g, from, to)|
    ensures var (w, before) := (Walk(g, from, to), if i == 0 then from else Walk(g, from, to)[i - 1].volts);
      && (if from < to then before < w[i].volts <= before + 3 && w[i].volts <= to
          else before - 3 <= w[i].volts < before && to <= w[i].volts)
      && (i == |w| - 1 <==> w[i].volts == to)
    decreases if from < to then to - from else from - to
  {
    var next := Toward(from, to);
    WalkStarts(g, from, to);
    if i > 0 {
      WalkGentle(g, next, to, i - 1);
    }
  }

  lemma WalkStarts(g: Range, from: nat, to: nat)
    requires from != to
    ensures var next := Toward(from, to);
      Walk(g, from, to) == [Asked(g, next)] + Walk(g, next, to) && (Walk(g, next, to) == [] <==> next == to)
  {}

  predicate Heeded(s: State, value: int) {
    value > 0 && s.min <= value <= Ceiling(s) && s.voltage != value
  }

  function Requested(s: State, value: int): State {
    if Heeded(s, value) then s.(voltage := value, startup := value) else s
  }

  /** A request for another voltage within the limits sets both voltages to it; any other is
      passed over. */
  lemma RequestedIs(s: State, value: int)
    ensures var r := Requested(s, value);
      if 0 < value != s.voltage && s.min <= value <= s.max && (s.model in {BC04, BC08} ==> value <= 480)
      then r == s.(voltage := value, startup := value) else r == s
  {}

  // ---------------------------------------------------------------- USB-PD

  function AsPd(model: Model): D.Model {
    match model
    case BC01 => D.Model.BC01
    case BC01Pro => D.Model.BC01Pro
    case _ => D.Other
  }

  /** A contract leaves the startup voltage derated. */
  function Contracted(s: State, volt: nat, current: nat): State {
    s.(startup := D.Derated(AsPd(s.model), volt, current, D.Setting(0, s.startup)).voltage)
  }

  // ---------------------------------------------------------------- the board

  class Board {
    var s: State
    /** The driver's range. */
    var range: Range
    /** Every voltage asked of the driver, in order. */
    var commanded: seq<Command>

    /** Parses the stored settings. */
    constructor (model: Model, cfg: Config, st: Stored)
      ensures s == Parsed(model, cfg, st) && range == Range(0, 0) && commanded == []
    {
      s, range, commanded := Parsed(model, cfg, st), Range(0, 0), [];
    }

    method ConfigByBootMode(mode: Mode, st: Stored)
      modifies this`s
      ensures s == Configured(old(s), mode, st)
    {
      var voltage;
      match mode {
        case Normal => voltage := Get(st.normal, s.startup);
        case OverFrequency => voltage := Get(st.over, s.startup);
        case Custom => voltage := Get(st.custom, s.startup);
      }
      if voltage < s.min || voltage > s.max {
        voltage := Get(st.normal, s.startup);
        if voltage < s.min || voltage > s.max {
          voltage := s.startup;
        }
      }
      var ceiling := Ceiling(s);
      if voltage > ceiling {
        voltage := ceiling;
      }
      s := s.(voltage := voltage);
      if voltage > s.startup {
        s := s.(startup := voltage);
      }
    }

    /** Sets the driver's range to the model's, and the regulator, if it `answers`, to the least
        voltage. */
    method Init(answers: bool) returns (ok: bool)
      modifies this`range, this`commanded
      ensures ok == answers && range == Range(s.min, s.max)
      ensures commanded == old(commanded) + if answers then [Command(s.min, true)] else []
    {
      range := Range(s.min, s.max);
      if answers {
        commanded := commanded + [Command(s.min, true)];
      }
      return answers;
    }

    /** The driver's entry: refuses what is neither zero nor in its range. */
    method SetVout(volts: nat) returns (ok: bool)
      modifies this`commanded
      ensures commanded == old(commanded) + [Asked(range, volts)] && ok == Asked(range, volts).through
    {
      ok := true;
      if volts != 0 {
        if volts < range.lo || volts > range.hi {
          ok := false;
        }
      }
      commanded := commanded + [Command(volts, ok)];
    }

    /** Asks for the startup voltage, and reports success whatever comes of it. */
    method PowerOn() returns (ok: bool)
      modifies this`commanded
      ensures ok && commanded == old(commanded) + [Asked(range, s.startup)]
    {
      var _ := SetVout(s.startup);
      return true;
    }

    method PowerOff() returns (ok: bool)
      modifies this`s, this`commanded
      ensures ok && s == old(s).(startup := 0) && commanded == old(commanded) + [Command(0, true)]
    {
      s := s.(startup := 0);
      ok := SetVout(0);
    }

    /** A USB-PD contract is made. */
    method PowerDelivery(volt: nat, current: nat)
      modifies this`s
      ensures s == Contracted(old(s), volt, current)
    {
      s := Contracted(s, volt, current);
    }

    /** One pass of the system task. */
    method Tick(mining: bool)
      modifies this`s, this`commanded
      ensures s == Ticked(old(s), mining)
      ensures commanded == old(commanded) + if s.startup == old(s).startup then [] else [Asked(range, s.startup)]
    {
      if !mining {
        s := s.(started := 0);
        return;
      }
      s := s.(started := s.started + 1);
      if s.started > LAST_COUNT {
        s := s.(started := LAST_COUNT);
      } else if s.started > WARM_UP && s.startup > s.voltage && s.started % 5 == 0 {
        if s.startup - s.voltage > 3 {
          s := s.(startup := s.startup - 3);
        } else {
          s := s.(startup := s.voltage);
        }
        var _ := SetVout(s.startup);
      }
    }

    ghost function Now(): Run
      reads this
    {
      Run(s, range, commanded)
    }

    /** Whatever happens to a board is a step of its run. */
    method Meet(e: Event)
      modifies this
      ensures Now() == Next(old(Now()), e)
    {
      match e {
        case ConfigByBootMode(mode, st) => ConfigByBootMode(mode, st);
        case PowerDelivery(volt, current) => PowerDelivery(volt, current);
        case Init(answers) => var _ := Init(answers);
        case PowerOn => var _ := PowerOn();
        case PowerOff => var _ := PowerOff();
        case Tick(mining) => Tick(mining);
        case Request(value) => Request(value);
      }
    }

    /** Sets the voltage while running, in small steps. */
    method Request(value: int)
      modifies this`s, this`commanded
      ensures s == Requested(old(s), value)
      ensures commanded == old(commanded) + if s == old(s) then [] else Walk(range, old(s).voltage, s.voltage)
    {
      if value <= 0 || value < s.min || value > Ceiling(s) || s.voltage == value {
        return;
      }
      WalkTo(value);
    }

    method WalkTo(value: nat)
      requires s.voltage != value
      modifies this`s, this`commanded
      ensures s == old(s).(voltage := value, startup := value)
      ensures commanded == old(commanded) + Walk(range, old(s).voltage, value)
    {
      var v: nat := s.voltage;
      while v != value
        invariant s == if v == value then old(s).(voltage := value, startup := value) else old(s).(voltage := v)
        invariant commanded + Walk(range, v, value) == old(commanded) + Walk(range, old(s).voltage, value)
        decreases if v < value then value - v else v - value
      {
        WalkNext(commanded, range, v, value);
        var step := value - v;
        if step > 3 {
          v := v + 3;
          s := s.(voltage := v);
        } else if step < -3 {
          v := v - 3;
          s := s.(voltage := v);
        } else {
          v := value;
          s := s.(voltage := value, startup := value);
        }
        var _ := SetVout(v);
      }
    }
  }

  lemma WalkNext(before: seq<Command>, g: Range, from: nat, to: nat)
    requires from != to
    ensures var next := Toward(from, to);
      before + [Asked(g, next)] + Walk(g, next, to) == before + Walk(g, from, to)
  {
    var next := Toward(from, to);
    Associates(before, [Asked(g, next)], Walk(g, next, to));
  }

  // ---------------------------------------------------------------- runs

  datatype Event =
    | ConfigByBootMode(mode: Mode, st: Stored)
    | PowerDelivery(volt: nat, current: nat)
    | Init(answers: bool)
    | PowerOn
    | PowerOff
    | Tick(mining: bool)
    | Request(value: int)

  /** The board's state, the driver's range and what was asked of it so far. */
  datatype Run = Run(s: State, range: Range, commanded: seq<Command>)

  function Next(r: Run, e: Event): Run {
    match e
    case ConfigByBootMode(mode, st) => r.(s := Configured(r.s, mode, st))
    case PowerDelivery(volt, current) => r.(s := Contracted(r.s, volt, current))
    case Init(answers) =>
      r.(range := Range(r.s.min, r.s.max),
         commanded := r.commanded + if answers then [Command(r.s.min, true)] else [])
    case PowerOn => r.(commanded := r.commanded + [Asked(r.range, r.s.startup)])
    case PowerOff => r.(s := r.s.(startup := 0), commanded := r.commanded + [Command(0, true)])
    case Tick(mining) =>
      var t := Ticked(r.s, mining);
      r.(s := t, commanded := r.commanded + if t.startup == r.s.startup then [] else [Asked(r.range, t.startup)])
    case Request(value) =>
      var t := Requested(r.s, value);
      r.(s := t, commanded := r.commanded + if t == r.s then [] else Walk(r.range, r.s.voltage, t.voltage))
  }

  function From(r: Run, events: seq<Event>): Run {
    if events == [] then r else Next(From(r, events[..|events| - 1]), events[|events| - 1])
  }

  function After(s: State, events: seq<Event>): Run {
    From(Run(s, Range(0, 0), []), events)
  }

  lemma FromPush(r: Run, all: seq<Event>, events: seq<Event>, e: Event)
    requires all == events + [e]
    ensures From(r, all) == Next(From(r, events), e)
  {
    assert all[..|all| - 1] == events;
  }

  /** Nothing asked for, let through or not, is over the cap. */
  predicate AtMost(c: seq<Command>, cap: nat) {
    forall i :: 0 <= i < |c| ==> c[i].volts <= cap
  }

  predicate LetThroughAtMost(c: seq<Command>, cap: nat) {
    forall i :: 0 <= i < |c| && c[i].through ==> c[i].volts <= cap
  }

  predicate Under(r: Run, cap: nat) {
    && r.s.startup <= cap && r.s.voltage <= cap && r.s.min <= cap && Ceiling(r.s) <= cap
    && AtMost(r.commanded, cap)
  }

  lemma {:induction false} WalkUnder(g: Range, from: nat, to: nat, cap: nat)
    requires from <= cap && to <= cap
    ensures AtMost(Walk(g, from, to), cap)
    decreases if from < to then to - from else from - to
  {
    if from != to {
      WalkUnder(g, Toward(from, to), to, cap);
    }
  }

  lemma NextUnder(r: Run, e: Event, cap: nat)
    requires Under(r, cap)
    ensures Under(Next(r, e), cap)
  {
    if e.Request? {
      WalkUnder(r.range, r.s.voltage, Requested(r.s, e.value).voltage, cap);
    }
  }

  /** In every run, nothing is even asked for over the largest of the ceiling, what the board was
      set to come up on, and the least voltage of its model. */
  lemma {:induction false} EveryRunUnder(s: State, events: seq<Event>)
    requires s.voltage == 0
    ensures Under(After(s, events), Max(Max(s.startup, s.min), Ceiling(s)))
  {
    if events != [] {
      EveryRunUnder(s, events[..|events| - 1]);
      NextUnder(After(s, events[..|events| - 1]), events[|events| - 1], Max(Max(s.startup, s.min), Ceiling(s)));
    }
  }

  /** On BC04 and BC08, whatever is stored and whatever happens: never over 4.80 V. */
  lemma NeverOver480(model: Model, cfg: Config, st: Stored, events: seq<Event>)
    requires model in {BC04, BC08}
    ensures Under(After(Parsed(model, cfg, st), events), 480)
  {
    EveryRunUnder(Parsed(model, cfg, st), events);
    UnderWider(After(Parsed(model, cfg, st), events), 480);
  }

  lemma UnderWider(r: Run, cap: nat)
    requires exists low: nat :: low <= cap && Under(r, low)
    ensures Under(r, cap)
  {}

  // ---------------------------------------------------------------- the ceiling

  predicate SameModel(s: State, t: State) {
    s.model == t.model && s.min == t.min && s.max == t.max
  }

  /** Zero, or within the model's range; or the least voltage, which initialising writes
      unchecked. */
  predicate Ranged(s: State, c: Command) {
    c.through ==> c.volts == 0 || c.volts == s.min || s.min <= c.volts <= s.max
  }

  predicate InRange(r: Run, s: State) {
    && SameModel(r.s, s) && r.range in {Range(0, 0), Range(s.min, s.max)}
    && (forall i :: 0 <= i < |r.commanded| ==> Ranged(s, r.commanded[i]))
  }

  lemma {:induction false} WalkRanged(g: Range, s: State, from: nat, to: nat)
    requires g in {Range(0, 0), Range(s.min, s.max)}
    ensures forall c :: c in Walk(g, from, to) ==> Ranged(s, c)
    decreases if from < to then to - from else from - to
  {
    if from != to {
      WalkRanged(g, s, Toward(from, to), to);
    }
  }

  lemma NextInRange(r: Run, e: Event, s: State)
    requires InRange(r, s)
    ensures InRange(Next(r, e), s)
  {
    if e.Request? {
      WalkRanged(r.range, s, r.s.voltage, Requested(r.s, e.value).voltage);
    }
  }

  /** In every run the driver lets through only what its range allows. */
  lemma {:induction false} EveryRunInRange(s: State, events: seq<Event>)
    ensures InRange(After(s, events), s)
  {
    if events != [] {
      EveryRunInRange(s, events[..|events| - 1]);
      NextInRange(After(s, events[..|events| - 1]), events[|events| - 1], s);
    }
  }

  /** The ceiling is promised to hold wherever a voltage is set.  It does, on every model,
      whatever is stored and whatever happens, if and only if the image is built with a least
      voltage within it. */
  lemma CeilingHoldsIff(model: Model, cfg: Config, st: Stored)
    ensures var s := Parsed(model, cfg, st);
      (forall events :: LetThroughAtMost(After(s, events).commanded, Ceiling(s))) <==> s.min <= Ceiling(s)
  {
    var s := Parsed(model, cfg, st);
    if s.min <= Ceiling(s) {
      forall events ensures LetThroughAtMost(After(s, events).commanded, Ceiling(s)) {
        CeilingHolds(model, cfg, st, events);
      }
    } else {
      FromPush(Run(s, Range(0, 0), []), [Init(true)], [], Init(true));
      assert After(s, [Init(true)]).commanded == [Command(s.min, true)];
      assert After(s, [Init(true)]).commanded[0].through;
    }
  }

  lemma CeilingHolds(model: Model, cfg: Config, st: Stored, events: seq<Event>)
    requires Parsed(model, cfg, st).min <= Ceiling(Parsed(model, cfg, st))
    ensures var s := Parsed(model, cfg, st); LetThroughAtMost(After(s, events).commanded, Ceiling(s))
  {
    var s := Parsed(model, cfg, st);
    EveryRunInRange(s, events);
    var c := After(s, events).commanded;
    if model in {BC04, BC08} {
      NeverOver480(model, cfg, st, events);
    }
    forall i | 0 <= i < |c| && c[i].through ensures c[i].volts <= Ceiling(s) {
      assert Ranged(s, c[i]);
    }
  }

  // ---------------------------------------------------------------- coming up

  /** What a contract at this USB-PD voltage holds the core voltage to, if anything. */
  function Limit(model: Model, volt: nat): Option<nat> {
    if volt in {12, 15} || model !in {BC01, BC01Pro} then None
    else Some(if model == BC01 then 115 else if volt == 9 then 95 else 93)
  }

  function Lower(a: Option<nat>, b: Option<nat>): Option<nat> {
    if a.None? then b else if b.None? then a else Some(Min(a.value, b.value))
  }

  function Held(cap: Option<nat>, startup: nat): nat {
    if cap.None? then startup else Min(startup, cap.value)
  }

  /** What may happen between configuration and the regulator: USB-PD contracts, too weak ones
      included, requests of the web interface, and the power being cut. */
  predicate Early(e: Event) { e.PowerDelivery? || e.Request? || e.PowerOff? }

  /** What became of the startup voltage meanwhile: what it was last set to, if it was, and the least
      limit of the contracts since then, if any. */
  function Settled(r: Run, early: seq<Event>): (o: (Option<nat>, Option<nat>))
    ensures o.1.Some? ==> o.1.value > 0
  {
    if early == [] then (None, None)
    else
      var (front, e) := (early[..|early| - 1], early[|early| - 1]);
      var (base, cap) := Settled(r, front);
      match e
      case PowerDelivery(volt, _) => (base, Lower(cap, Limit(r.s.model, volt)))
      case PowerOff => (Some(0), None)
      case Request(value) => if Heeded(From(r, front).s, value) then (Some(value), None) else (base, cap)
      case _ => (base, cap)
  }

  lemma {:induction false} SettledIs(r: Run, early: seq<Event>)
    requires forall e :: e in early ==> Early(e)
    ensures var (t, o) := (From(r, early), Settled(r, early));
      && SameModel(t.s, r.s) && t.range == r.range
      && t.s.startup == Held(o.1, if o.0.Some? then o.0.value else r.s.startup)
      && (o.0.Some? ==> o.0.value == 0 || r.s.min <= o.0.value <= Ceiling(r.s))
  {
    if early != [] {
      var front, e := early[..|early| - 1], early[|early| - 1];
      assert e in early;
      SettledIs(r, front);
      SettledNext(From(r, front), e);
    }
  }

  lemma SettledNext(q: Run, e: Event)
    requires Early(e)
    ensures var t := Next(q, e);
      && SameModel(t.s, q.s) && t.range == q.range
      && match e
         case PowerDelivery(volt, _) => t.s.startup == Held(Limit(q.s.model, volt), q.s.startup)
         case PowerOff => t.s.startup == 0
         case Request(value) => t.s.startup == if Heeded(q.s, value) then value else q.s.startup
         case _ => true
  {}

  /** A board boots: configuration, what happens meanwhile, then the regulator and the power. */
  function Boot(mode: Mode, st: Stored, early: seq<Event>): seq<Event> {
    [ConfigByBootMode(mode, st)] + early + [Init(true), PowerOn]
  }

  lemma {:induction false} FromJoin(r: Run, a: seq<Event>, b: seq<Event>)
    ensures From(r, a + b) == From(From(r, a), b)
    decreases |b|
  {
    if b == [] {
      assert a + b == a;
    } else {
      assert (a + b)[..|a + b| - 1] == a + b[..|b| - 1];
      FromJoin(r, a, b[..|b| - 1]);
    }
  }

  lemma FromTwo(r: Run, e: Event, f: Event)
    ensures From(r, [e, f]) == Next(Next(r, e), f)
  {
    FromPush(r, [e], [], e);
    FromPush(r, [e, f], [e], f);
  }

  /** The run as far as configuration. */
  function ConfiguredRun(s: State, mode: Mode, st: Stored): Run {
    Run(Configured(s, mode, st), Range(0, 0), [])
  }

  /** The last two commands of a boot: the least voltage, and the startup voltage. */
  lemma BootCommands(s: State, mode: Mode, st: Stored, early: seq<Event>) returns (before: seq<Command>, up: nat)
    requires forall e :: e in early ==> Early(e)
    ensures After(s, Boot(mode, st, early)).commanded
         == before + [Command(s.min, true)] + [Asked(Range(s.min, s.max), up)]
    ensures var o := Settled(ConfiguredRun(s, mode, st), early);
      up == Held(o.1, if o.0.Some? then o.0.value else Configured(s, mode, st).startup)
  {
    var r, config := Run(s, Range(0, 0), []), ConfigByBootMode(mode, st);
    FromPush(r, [config], [], config);
    FromJoin(r, [config], early);
    SettledIs(Next(r, config), early);
    FromJoin(r, [config] + early, [Init(true), PowerOn]);
    var q := From(r, [config] + early);
    FromTwo(q, Init(true), PowerOn);
    before, up := q.commanded, q.s.startup;
  }

  /** No voltage that booting in this mode looks at is allowed. */
  predicate NothingUsable(s: State, mode: Mode, st: Stored) {
    !Allowed(s, StoredFor(s, mode, st)) && !Allowed(s, Get(st.normal, s.startup))
  }

  /** Configuration leaves no voltage to come up on that the driver lets through. */
  predicate Unstartable(s: State, mode: Mode, st: Stored, cap: Option<nat>) {
    || (s.startup > s.max && (cap.None? || cap.value > s.max))
    || (0 < s.startup < s.min && NothingUsable(s, mode, st))
    || (cap.Some? && cap.value < s.min && (s.startup > 0 || !NothingUsable(s, mode, st)))
  }

  lemma UnstartableIff(s: State, mode: Mode, st: Stored, cap: Option<nat>)
    requires s.min > 0 && (cap.Some? ==> cap.value > 0) && (s.min > Ceiling(s) ==> Ceiling(s) == s.max)
    ensures var up := Held(cap, Configured(s, mode, st).startup);
      !Asked(Range(s.min, s.max), up).through <==> Unstartable(s, mode, st, cap)
  {}

  /** The driver refuses to power the board up, which stays at the least voltage while success is
      reported.  Unless the startup voltage was set meanwhile, that is if and only if the stored one
      is over the maximum and no contract holds it down to that; or it is under the minimum, but not
      zero, and nothing else stored is usable; or a contract holds the board to less than the
      minimum.  If it was set meanwhile, only a later contract can do that. */
  lemma PowerUpRefusedIff(model: Model, cfg: Config, st: Stored, mode: Mode, early: seq<Event>)
    requires forall e :: e in early ==> Early(e)
    ensures var s := Parsed(model, cfg, st);
      var (base, cap) := Settled(ConfiguredRun(s, mode, st), early);
      var c := After(s, Boot(mode, st, early)).commanded;
      && |c| >= 2 && c[|c| - 2] == Command(s.min, true)
      && (!c[|c| - 1].through <==>
            if base.None? then Unstartable(s, mode, st, cap)
            else base.value > 0 && cap.Some? && cap.value < s.min)
  {
    var s := Parsed(model, cfg, st);
    var before, up := BootCommands(s, mode, st, early);
    UnstartableIff(s, mode, st, Settled(ConfiguredRun(s, mode, st), early).1);
    SettledIs(ConfiguredRun(s, mode, st), early);
  }

  /** For instance, a BC01 built for 1.30 V at most whose flash says to come up on 5.00 V, on
      contracts that do not derate. */
  lemma StoredStartupRefused(cfg: Config, st: Stored, mode: Mode, early: seq<Event>)
    requires cfg.voutMax == 130 && st.startup == Some(500)
    requires forall e :: e in early ==> e.PowerDelivery? && e.volt in {12, 15}
    ensures var c := After(Parsed(BC01, cfg, st), Boot(mode, st, early)).commanded;
      |c| > 0 && c[|c| - 1] == Command(500, false)
  {
    var s := Parsed(BC01, cfg, st);
    var before, up := BootCommands(s, mode, st, early);
    NoLimit(ConfiguredRun(s, mode, st), early);
  }

  lemma {:induction false} NoLimit(r: Run, early: seq<Event>)
    requires forall e :: e in early ==> e.PowerDelivery? && e.volt in {12, 15}
    ensures Settled(r, early) == (None, None)
  {
    if early != [] {
      assert early[|early| - 1] in early;
      NoLimit(r, early[..|early| - 1]);
    }
  }

  /** Or a BC01 built for 1.20 V at least and set to 1.25 V, on a contract of 9 V. */
  lemma DeratedStartupRefused(cfg: Config, st: Stored, mode: Mode, current: nat)
    requires cfg.voutMax == 130 && cfg.voutMin == 120 && st == Stored(Some(125), None, None, None)
    ensures var c := After(Parsed(BC01, cfg, st), Boot(mode, st, [PowerDelivery(9, current)])).commanded;
      |c| > 0 && c[|c| - 1] == Command(115, false)
  {
    var early := [PowerDelivery(9, current)];
    var r := ConfiguredRun(Parsed(BC01, cfg, st), mode, st);
    assert early[..0] == [];
    assert Settled(r, early) == (None, Some(115));
    var before, up := BootCommands(Parsed(BC01, cfg, st), mode, st, early);
  }

  // ---------------------------------------------------------------- derating

  /** What is left of a run with a contract made, its commands counted from then on. */
  function Derated(s: State, before: seq<Event>, volt: nat, current: nat): Run {
    Next(After(s, before), PowerDelivery(volt, current)).(commanded := [])
  }

  predicate Unasked(e: Event) { !e.Request? && !e.ConfigByBootMode? }

  /** As far as the startup voltage and the commands go. */
  predicate StartsUnder(r: Run, cap: nat) {
    r.s.startup <= cap && r.s.min <= cap && AtMost(r.commanded, cap)
  }

  lemma {:induction false} UnaskedUnder(r: Run, more: seq<Event>, cap: nat)
    requires StartsUnder(r, cap) && forall e :: e in more ==> Unasked(e)
    ensures StartsUnder(From(r, more), cap)
    decreases |more|
  {
    if more != [] {
      var e := more[|more| - 1];
      assert Unasked(e);
      UnaskedUnder(r, more[..|more| - 1], cap);
    }
  }

  /** After derating, nothing over the limit is asked for until someone asks for a voltage, save
      for a least voltage that is over it. */
  lemma DeratedHolds(s: State, before: seq<Event>, volt: nat, current: nat, more: seq<Event>)
    requires Limit(s.model, volt).Some? && forall e :: e in more ==> Unasked(e)
    ensures AtMost(From(Derated(s, before, volt, current), more).commanded, Max(Limit(s.model, volt).value, s.min))
  {
    EveryRunInRange(s, before);
    UnaskedUnder(Derated(s, before, volt, current), more, Max(Limit(s.model, volt).value, s.min));
  }

  /** The voltage to run on is within the ceiling. */
  predicate Within(r: Run) { r.s.voltage <= Ceiling(r.s) }

  lemma {:induction false} EveryRunWithin(r: Run, events: seq<Event>)
    requires Within(r)
    ensures Within(From(r, events))
  {
    if events != [] {
      EveryRunWithin(r, events[..|events| - 1]);
      NextWithin(From(r, events[..|events| - 1]), events[|events| - 1]);
    }
  }

  lemma NextWithin(r: Run, e: Event)
    requires Within(r)
    ensures Within(Next(r, e))
  {}

  lemma {:induction false} RequestsUnder(r: Run, more: seq<Event>, cap: nat)
    requires Under(r, cap) && Within(r)
    ensures Under(From(r, more), cap)
  {
    if more != [] {
      RequestsUnder(r, more[..|more| - 1], cap);
      NextUnder(From(r, more[..|more| - 1]), more[|more| - 1], cap);
    }
  }

  lemma {:induction false} WalkArrives(g: Range, from: nat, to: nat)
    requires from != to
    ensures Walk(g, from, to) != [] && Walk(g, from, to)[|Walk(g, from, to)| - 1] == Asked(g, to)
    decreases if from < to then to - from else from - to
  {
    if Toward(from, to) != to {
      WalkArrives(g, Toward(from, to), to);
    }
  }

  /** Two requests that end at the ceiling. */
  function Lift(r: Run): seq<Event> {
    [Init(true), Request(r.s.min), Request(Ceiling(r.s))]
  }

  lemma {:induction false} Lifted(r: Run)
    requires 0 < r.s.min < Ceiling(r.s)
    ensures var c := From(r, Lift(r)).commanded;
      |c| > 0 && c[|c| - 1] == Command(Ceiling(r.s), true)
  {
    var l := Lift(r);
    FromPush(r, l[..1], [], l[0]);
    FromPush(r, l[..2], l[..1], l[1]);
    FromPush(r, l, l[..2], l[2]);
    var q := From(r, l[..2]);
    assert q.s.voltage == r.s.min && q.range == Range(r.s.min, r.s.max) && Ceiling(q.s) == Ceiling(r.s);
    WalkArrives(q.range, q.s.voltage, Ceiling(r.s));
  }

  /** With requests or a new boot mode the derated limit survives if and only if the model's ceiling, and its
      least voltage, are within it anyway. */
  lemma DeratedSurvivesIff(model: Model, cfg: Config, st: Stored, before: seq<Event>, volt: nat, current: nat)
    requires Limit(model, volt).Some?
    ensures var s, cap := Parsed(model, cfg, st), Limit(model, volt).value;
      (forall more :: LetThroughAtMost(From(Derated(s, before, volt, current), more).commanded, cap))
      <==> s.min <= cap && Ceiling(s) <= cap
  {
    var s, cap := Parsed(model, cfg, st), Limit(model, volt).value;
    var r := Derated(s, before, volt, current);
    EveryRunInRange(s, before);
    EveryRunWithin(Run(s, Range(0, 0), []), before);
    if s.min > cap {
      FromPush(r, [Init(true)], [], Init(true));
      assert From(r, [Init(true)]).commanded[0] == Command(s.min, true);
    } else if Ceiling(s) > cap {
      Lifted(r);
    } else {
      forall more ensures LetThroughAtMost(From(r, more).commanded, cap) {
        RequestsUnder(r, more, cap);
      }
    }
  }

  // ---------------------------------------------------------------- how far trimming gets

  /** The trims among the first `count` passes. */
  function Trims(count: nat): nat {
    if count <= WARM_UP then 0 else count / 5 - WARM_UP / 5
  }

  lemma OneMorePass(count: nat)
    ensures Trims(count + 1) == Trims(count) + if count + 1 > WARM_UP && (count + 1) % 5 == 0 then 1 else 0
  {}

  /** Down by so much, but not below the configured voltage. */
  function Lowered(s: State, amount: nat): nat {
    if s.startup - s.voltage > amount then s.startup - amount else s.voltage
  }

  /** After any number of passes: three down for each trim, to the configured voltage and no
      further. */
  lemma {:induction false} TrimmedIs(s: State, n: nat)
    requires s.started == 0 && s.startup >= s.voltage
    ensures var count := if n < LAST_COUNT then n else LAST_COUNT;
      Trimmed(s, n) == s.(started := count, startup := Lowered(s, 3 * Trims(count)))
  {
    if n > 0 {
      TrimmedIs(s, n - 1);
      OneMorePass(n - 1);
    }
  }

  /** Trimming reaches the configured voltage, and then exactly, if and only if it starts no more
      than 59.28 V above it; it stops for good at the last count. */
  lemma TrimmingEndsIff(s: State)
    requires s.started == 0 && s.startup >= s.voltage
    ensures (exists n: nat :: Trimmed(s, n).startup == s.voltage) <==> s.startup - s.voltage <= 5928
  {
    TrimmedIs(s, LAST_COUNT);
    if n: nat :| Trimmed(s, n).startup == s.voltage {
      TrimmedIs(s, n);
    }
  }

  /** A board under the cap is trimmed all the way within 920 passes. */
  lemma TrimmedInTime(s: State)
    requires s.started == 0 && s.voltage <= s.startup <= 480
    ensures Trimmed(s, 920).startup == s.voltage
  {
    TrimmedIs(s, 920);
  }
}

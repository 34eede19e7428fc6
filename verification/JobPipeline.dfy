/** Jobs from the builder to the ASIC and back: the queue, the ASIC task's hand, the slot table
    of components/asic/bm1370.c, and who frees what, as steps that tasks interleave.

    Each step is what one task does under one lock. */
module JobPipeline {
  import opened WorkQueue

  const SLOTS: nat := 128
  const ID_STEP: nat := 24

  // ---------------------------------------------------------------- the slot table

  /** The jobs handed to the ASIC by id, whether a nonce for them still counts, and whose
      work they are; and the id last used. */
  datatype Table = Table(active: seq<Pointer>, valid: seq<bool>, owner: seq<nat>, id: nat)

  predicate TableOk(t: Table) {
    |t.active| == |t.valid| == |t.owner| == SLOTS && t.id < SLOTS
  }

  /** The id after `id`, wrapping around. */
  function NextId(id: nat): nat {
    if id + ID_STEP < SLOTS then id + ID_STEP else id + ID_STEP - SLOTS
  }

  /** Sends a job: takes the next id, and puts the job in its slot. */
  function Placed(t: Table, job: Job): (r: Table)
    requires TableOk(t)
    ensures TableOk(r)
  {
    var id := NextId(t.id);
    Table(t.active[id := To(job)], t.valid[id := true], t.owner[id := job.pool], id)
  }

  /** Discounts the nonces of one pool. */
  function Invalidated(t: Table, pool: nat): (r: Table)
    requires TableOk(t)
    ensures TableOk(r)
  {
    t.(valid := seq(SLOTS, i requires 0 <= i < SLOTS => t.valid[i] && t.owner[i] != pool))
  }

  function AllInvalidated(t: Table): (r: Table)
    requires TableOk(t)
    ensures TableOk(r)
  {
    t.(valid := seq(SLOTS, i => false))
  }

  /** The slot a returned job id byte names: its upper four bits, at bit 3. */
  function SlotOf(x: nat): nat {
    x / 16 % 16 * 8
  }

  /** The job a returned nonce is scored against, if it counts. */
  function Resolved(t: Table, x: nat): Pointer
    requires TableOk(t)
  {
    if t.valid[SlotOf(x)] then t.active[SlotOf(x)] else Null
  }

  class SlotTable {
    const active: array<Pointer>
    const valid: array<bool>
    const owner: array<nat>
    var id: nat

    ghost predicate Valid()
      reads this
    {
      active.Length == valid.Length == owner.Length == SLOTS && id < SLOTS
    }

    ghost function State(): (t: Table)
      reads this, active, valid, owner
      requires Valid()
      ensures TableOk(t)
    {
      Table(active[..], valid[..], owner[..], id)
    }

    constructor ()
      ensures Valid() && fresh(active) && fresh(valid) && fresh(owner)
      ensures State() == Empty()
    {
      active := new Pointer[SLOTS](_ => Null);
      valid := new bool[SLOTS](_ => false);
      owner := new nat[SLOTS](_ => 0);
      id := 0;
    }

    /** Sends a job and hands back the job it displaces, for freeing once the lock is released. */
    method SendWork(job: Job) returns (displaced: Pointer)
      requires Valid()
      modifies this, active, valid, owner
      ensures Valid() && State() == Placed(old(State()), job)
      ensures displaced == old(State()).active[State().id]
    {
      id := (id + 24) % 128;
      displaced := active[id];
      active[id] := To(job);
      valid[id] := true;
      owner[id] := job.pool;
    }

    method InvalidatePool(pool: nat)
      requires Valid()
      modifies valid
      ensures Valid() && State() == Invalidated(old(State()), pool)
    {
      for i := 0 to SLOTS
        invariant forall k :: 0 <= k < SLOTS ==> valid[k] == (old(valid[k]) && (k < i ==> owner[k] != pool))
        invariant owner[..] == old(owner[..]) && active[..] == old(active[..])
      {
        if owner[i] == pool {
          valid[i] := false;
        }
      }
    }

    method InvalidateAll()
      requires Valid()
      modifies valid
      ensures Valid() && State() == AllInvalidated(old(State()))
    {
      for i := 0 to SLOTS
        invariant forall k :: 0 <= k < i ==> !valid[k]
        invariant owner[..] == old(owner[..]) && active[..] == old(active[..])
      {
        valid[i] := false;
      }
    }

    /** What a returned nonce is scored against, by the id byte the ASIC returns. */
    method Resolve(x: nat) returns (job: Pointer)
      requires Valid()
      ensures job == Resolved(State(), x)
    {
      var slot := SlotOf(x);
      return if valid[slot] then active[slot] else Null;
    }
  }

  function Empty(): (t: Table)
    ensures TableOk(t)
  {
    Table(seq(SLOTS, i => Null), seq(SLOTS, i => false), seq(SLOTS, i => 0), 0)
  }

  // ---------------------------------------------------------------- steps

  /** Everything a job can be in, and the history of making and sending. */
  datatype System = System(
    built: Pointer,        // made by the builder, not in the queue yet
    queue: seq<Pointer>,   // waiting for the ASIC task
    hand: Pointer,         // taken from the queue, not in a slot yet
    table: Table,
    displaced: Pointer,    // out of its slot, not freed yet
    freed: seq<Job>,
    made: seq<Job>,
    sent: seq<Job>)

  datatype Event =
    | Build(pool: nat)           // the builder takes a pool's notification and makes a job of it
    | Enqueue                    // and enqueues it
    | Take                       // the ASIC task dequeues one
    | Send                       // and sends it
    | Release                    // and frees what it displaced
    | ClearPool(pool: nat)       // a pool's queued jobs are dropped
    | ClearAll
    | InvalidatePool(pool: nat)  // a pool's slots are discounted
    | InvalidateAll

  function Start(): System {
    System(Null, [], Null, Empty(), Null, [], [], [])
  }

  /** An event that is not enabled leaves its task waiting. */
  predicate Enabled(s: System, e: Event) {
    match e
    case Build(_) => s.built == Null
    case Enqueue => s.built.To? && |s.queue| < QUEUE_SIZE
    case Take => s.hand == Null && s.displaced == Null && s.queue != []
    case Send => s.hand.To? && s.displaced == Null
    case Release => s.displaced.To?
    case _ => true
  }

  function Next(s: System, e: Event): (r: System)
    requires TableOk(s.table)
    ensures TableOk(r.table)
  {
    if !Enabled(s, e) then s
    else match e
      case Build(pool) =>
        var job := Job(|s.made|, pool);
        s.(built := To(job), made := s.made + [job])
      case Enqueue => s.(built := Null, queue := s.queue + [s.built])
      case Take => s.(hand := s.queue[0], queue := s.queue[1..])
      case Send =>
        var table := Placed(s.table, s.hand.job);
        s.(hand := Null, table := table, displaced := s.table.active[table.id], sent := s.sent + [s.hand.job])
      case Release => s.(displaced := Null, freed := s.freed + [s.displaced.job])
      case ClearPool(pool) => s.(queue := Kept(s.queue, pool), freed := s.freed + Of(s.queue, pool))
      case ClearAll => s.(queue := [], freed := s.freed + Jobs(s.queue))
      case InvalidatePool(pool) => s.(table := Invalidated(s.table, pool))
      case InvalidateAll => s.(table := AllInvalidated(s.table))
  }

  function After(events: seq<Event>): (s: System)
    ensures TableOk(s.table)
  {
    if events == [] then Start() else Next(After(events[..|events| - 1]), events[|events| - 1])
  }

  // ---------------------------------------------------------------- who owns a job

  function One(p: Pointer): multiset<Job> {
    if p.To? then multiset{p.job} else multiset{}
  }

  /** Every place a job can be. */
  function Places(s: System): multiset<Job> {
    multiset(Jobs(s.queue)) + One(s.hand) + multiset(Jobs(s.table.active)) + One(s.displaced) + multiset(s.freed)
      + One(s.built)
  }

  /** Serials tell jobs apart. */
  predicate Serial(s: System) {
    forall i | 0 <= i < |s.made| :: s.made[i].serial == i
  }

  predicate Conserved(s: System) {
    Serial(s) && Places(s) == multiset(s.made)
  }

  lemma {:induction false} JobsConcat(a: seq<Pointer>, b: seq<Pointer>)
    ensures Jobs(a + b) == Jobs(a) + Jobs(b)
    decreases |b|
  {
    if b == [] {
      assert a + b == a;
    } else {
      assert (a + b)[..|a + b| - 1] == a + b[..|b| - 1];
      JobsConcat(a, b[..|b| - 1]);
    }
  }

  lemma {:induction false} JobsSplit(a: seq<Pointer>, b: seq<Pointer>)
    ensures multiset(Jobs(a + b)) == multiset(Jobs(a)) + multiset(Jobs(b))
  {
    JobsConcat(a, b);
  }

  lemma JobsOne(p: Pointer)
    ensures multiset(Jobs([p])) == One(p)
  {
    assert Jobs([p]) == Jobs([]) + if p.To? then [p.job] else [];
  }

  /** Putting a job in a slot takes the slot's old job out. */
  lemma JobsUpdate(a: seq<Pointer>, i: nat, p: Pointer)
    requires i < |a|
    ensures multiset(Jobs(a[i := p])) + One(a[i]) == multiset(Jobs(a)) + One(p)
  {
    var front, back := a[..i], a[i + 1..];
    assert a == front + [a[i]] + back;
    assert a[i := p] == front + [p] + back;
    JobsSplit(front + [a[i]], back);
    JobsSplit(front, [a[i]]);
    JobsSplit(front + [p], back);
    JobsSplit(front, [p]);
    JobsOne(a[i]);
    JobsOne(p);
  }

  lemma {:induction false} KeptAndFreed(q: seq<Pointer>, pool: nat)
    ensures multiset(Jobs(Kept(q, pool))) + multiset(Of(q, pool)) == multiset(Jobs(q))
  {
    if q != [] {
      var before, last := q[..|q| - 1], q[|q| - 1];
      KeptAndFreed(before, pool);
      JobsSplit(Kept(before, pool), [last]);
      JobsOne(last);
      assert Kept(before, pool) + [] == Kept(before, pool);
    }
  }

  lemma NoJobs(n: nat)
    ensures Jobs(seq(n, i => Null)) == []
  {
    if n > 0 {
      assert seq(n, i => Null)[..n - 1] == seq(n - 1, i => Null);
      NoJobs(n - 1);
    }
  }

  lemma {:induction false} BuildConserves(s: System, r: System, pool: nat)
    requires TableOk(s.table) && Conserved(s) && Enabled(s, Build(pool)) && r == Next(s, Build(pool))
    ensures Conserved(r)
  {
    var job := Job(|s.made|, pool);
    assert multiset(s.made + [job]) == multiset(s.made) + multiset{job};
    Adds(multiset(Jobs(s.queue)) + One(s.hand) + multiset(Jobs(s.table.active)) + One(s.displaced) + multiset(s.freed),
         multiset{job});
  }

  lemma Adds(rest: multiset<Job>, more: multiset<Job>)
    ensures rest + more == (rest + multiset{}) + more
  {}

  lemma {:induction false} EnqueueConserves(s: System, r: System)
    requires TableOk(s.table) && Conserved(s) && Enabled(s, Enqueue) && r == Next(s, Enqueue)
    ensures Conserved(r)
  {
    JobsSplit(s.queue, [s.built]);
    JobsOne(s.built);
    Joins(multiset(Jobs(s.queue)), One(s.built), One(s.hand), multiset(Jobs(s.table.active)),
          One(s.displaced), multiset(s.freed));
  }

  lemma Joins(queue: multiset<Job>, more: multiset<Job>, hand: multiset<Job>, slots: multiset<Job>,
              out: multiset<Job>, freed: multiset<Job>)
    ensures (queue + more) + hand + slots + out + freed == (queue + hand + slots + out + freed) + more
  {}

  lemma {:induction false} TakeConserves(s: System, r: System)
    requires TableOk(s.table) && Conserved(s) && Enabled(s, Take) && r == Next(s, Take)
    ensures Conserved(r)
  {
    assert s.queue == [s.queue[0]] + s.queue[1..];
    JobsSplit([s.queue[0]], s.queue[1..]);
    JobsOne(s.queue[0]);
  }

  lemma {:induction false} SendConserves(s: System, r: System)
    requires TableOk(s.table) && Conserved(s) && Enabled(s, Send) && r == Next(s, Send)
    ensures Conserved(r)
  {
    var id := NextId(s.table.id);
    var active := s.table.active[id := s.hand];
    assert s.hand == To(s.hand.job);
    JobsUpdate(s.table.active, id, s.hand);
    Exchange(multiset(Jobs(s.queue)), One(s.hand), multiset(Jobs(s.table.active)), multiset(Jobs(active)),
             One(s.table.active[id]), multiset(s.freed));
  }

  lemma Exchange(rest: multiset<Job>, hand: multiset<Job>, slots: multiset<Job>, after: multiset<Job>,
                 out: multiset<Job>, freed: multiset<Job>)
    requires after + out == slots + hand
    ensures rest + multiset{} + after + out + freed == rest + hand + slots + multiset{} + freed
  {
    assert rest + multiset{} + after + out == rest + (after + out);
    assert rest + hand + slots + multiset{} == rest + (slots + hand);
  }

  lemma {:induction false} ReleaseConserves(s: System, r: System)
    requires TableOk(s.table) && Conserved(s) && Enabled(s, Release) && r == Next(s, Release)
    ensures Conserved(r)
  {
    assert multiset(s.freed + [s.displaced.job]) == multiset(s.freed) + One(s.displaced);
    Moves(multiset(Jobs(s.queue)) + One(s.hand) + multiset(Jobs(s.table.active)), One(s.displaced), multiset(s.freed));
  }

  lemma Moves(rest: multiset<Job>, out: multiset<Job>, freed: multiset<Job>)
    ensures rest + multiset{} + (freed + out) == rest + out + freed
  {}

  lemma {:induction false} ClearPoolConserves(s: System, r: System, pool: nat)
    requires TableOk(s.table) && Conserved(s) && r == Next(s, ClearPool(pool))
    ensures Conserved(r)
  {
    KeptAndFreed(s.queue, pool);
    Freed(multiset(Jobs(s.queue)), multiset(Jobs(Kept(s.queue, pool))), Of(s.queue, pool), One(s.hand),
          multiset(Jobs(s.table.active)), One(s.displaced), s.freed);
  }

  lemma Freed(queue: multiset<Job>, kept: multiset<Job>, dropped: seq<Job>, hand: multiset<Job>,
              slots: multiset<Job>, out: multiset<Job>, freed: seq<Job>)
    requires kept + multiset(dropped) == queue
    ensures kept + hand + slots + out + multiset(freed + dropped) == queue + hand + slots + out + multiset(freed)
  {
    assert multiset(freed + dropped) == multiset(freed) + multiset(dropped);
  }

  lemma {:induction false} ClearAllConserves(s: System, r: System)
    requires TableOk(s.table) && Conserved(s) && r == Next(s, ClearAll)
    ensures Conserved(r)
  {
    AllFreed(Jobs(r.queue), Jobs(s.queue), One(s.hand), multiset(Jobs(s.table.active)),
             One(s.displaced), s.freed);
  }

  lemma AllFreed(none: seq<Job>, queue: seq<Job>, hand: multiset<Job>, slots: multiset<Job>, out: multiset<Job>,
                 freed: seq<Job>)
    requires none == []
    ensures multiset(none) + hand + slots + out + multiset(freed + queue)
         == multiset(queue) + hand + slots + out + multiset(freed)
  {
    assert multiset(none) + multiset(queue) == multiset(queue);
    Freed(multiset(queue), multiset(none), queue, hand, slots, out, freed);
  }

  lemma {:induction false} NextConserves(s: System, r: System, e: Event)
    requires TableOk(s.table) && Conserved(s) && r == Next(s, e)
    ensures Conserved(r)
  {
    if Enabled(s, e) {
      match e {
        case Build(pool) => BuildConserves(s, r, pool);
        case Enqueue => EnqueueConserves(s, r);
        case Take => TakeConserves(s, r);
        case Send => SendConserves(s, r);
        case Release => ReleaseConserves(s, r);
        case ClearPool(pool) => ClearPoolConserves(s, r, pool);
        case ClearAll => ClearAllConserves(s, r);
        case InvalidatePool(_) =>
        case InvalidateAll =>
      }
    }
  }

  lemma {:induction false} EveryRunConserves(events: seq<Event>)
    ensures Conserved(After(events))
  {
    if events == [] {
      NoJobs(SLOTS);
    } else {
      EveryRunConserves(events[..|events| - 1]);
      NextConserves(After(events[..|events| - 1]), After(events), events[|events| - 1]);
    }
  }

  lemma SerialOnce(made: seq<Job>, job: Job)
    requires forall i | 0 <= i < |made| :: made[i].serial == i
    ensures multiset(made)[job] == if job in made then 1 else 0
  {
    if made != [] {
      var before, last := made[..|made| - 1], made[|made| - 1];
      assert made == before + [last];
      SerialOnce(before, job);
    }
  }

  /** In every run, every job made is in exactly one place, once: in the builder's hand, queued,
      in the sender's hand, in one slot, displaced from it, or freed. */
  lemma {:induction false} ExactlyOnePlace(events: seq<Event>, job: Job)
    requires job in After(events).made
    ensures var s := After(events);
      multiset(Jobs(s.queue))[job] + One(s.hand)[job] + multiset(Jobs(s.table.active))[job]
        + One(s.displaced)[job] + multiset(s.freed)[job] + One(s.built)[job] == 1
  {
    EveryRunConserves(events);
    SerialOnce(After(events).made, job);
    assert Places(After(events))[job] == 1;
  }

  // ---------------------------------------------------------------- what an id means

  /** The id in use after `n` sends: the `n`th job, counting from one, has it. */
  function IdAt(n: nat): (id: nat)
    ensures id < SLOTS
  {
    if n == 0 then 0 else NextId(IdAt(n - 1))
  }

  /** How often the ids have wrapped around by then. */
  function Laps(n: nat): nat {
    if n == 0 then 0 else Laps(n - 1) + if IdAt(n - 1) + ID_STEP < SLOTS then 0 else 1
  }

  lemma {:induction false} IdIs(n: nat)
    ensures IdAt(n) == 8 * (3 * n - 16 * Laps(n))
  {
    if n > 0 { IdIs(n - 1); }
  }

  /** The job last sent under an id. */
  function LastUnder(sent: seq<Job>, id: nat): Pointer {
    if sent == [] then Null
    else if IdAt(|sent|) == id then To(sent[|sent| - 1])
    else LastUnder(sent[..|sent| - 1], id)
  }

  /** A slot holds the job last sent under its id, and its owner; only such a slot can be
      valid. */
  predicate SlotTracks(t: Table, sent: seq<Job>, i: nat)
    requires TableOk(t) && i < SLOTS
  {
    && t.active[i] == LastUnder(sent, i)
    && (t.active[i].To? ==> t.owner[i] == t.active[i].job.pool)
    && (t.valid[i] ==> t.active[i].To?)
  }

  predicate Tracks(t: Table, sent: seq<Job>) {
    TableOk(t) && t.id == IdAt(|sent|) && forall i | 0 <= i < SLOTS :: SlotTracks(t, sent, i)
  }

  lemma LastUnderPush(sent: seq<Job>, job: Job, id: nat)
    ensures LastUnder(sent + [job], id) == if IdAt(|sent| + 1) == id then To(job) else LastUnder(sent, id)
  {
    assert (sent + [job])[..|sent|] == sent;
  }

  lemma PlacedSlot(t: Table, sent: seq<Job>, job: Job, i: nat)
    requires TableOk(t) && NextId(t.id) == IdAt(|sent| + 1) && i < SLOTS && SlotTracks(t, sent, i)
    ensures SlotTracks(Placed(t, job), sent + [job], i)
  {
    LastUnderPush(sent, job, i);
  }

  lemma PlacedTracks(t: Table, sent: seq<Job>, job: Job)
    requires Tracks(t, sent)
    ensures Tracks(Placed(t, job), sent + [job])
  {
    forall i | 0 <= i < SLOTS ensures SlotTracks(Placed(t, job), sent + [job], i) {
      PlacedSlot(t, sent, job, i);
    }
  }

  lemma InvalidatedTracks(t: Table, sent: seq<Job>, pool: nat)
    requires Tracks(t, sent)
    ensures Tracks(Invalidated(t, pool), sent) && Tracks(AllInvalidated(t), sent)
  {
    forall i | 0 <= i < SLOTS
      ensures SlotTracks(Invalidated(t, pool), sent, i) && SlotTracks(AllInvalidated(t), sent, i)
    {
      assert SlotTracks(t, sent, i);
    }
  }

  lemma {:induction false} EveryRunTracks(events: seq<Event>)
    ensures Tracks(After(events).table, After(events).sent)
  {
    if events != [] {
      EveryRunTracks(events[..|events| - 1]);
      NextTracks(After(events[..|events| - 1]), events[|events| - 1]);
    }
  }

  lemma NextTracks(s: System, e: Event)
    requires Tracks(s.table, s.sent)
    ensures Tracks(Next(s, e).table, Next(s, e).sent)
  {
    if e.Send? && Enabled(s, e) {
      PlacedTracks(s.table, s.sent, s.hand.job);
    } else if e.InvalidatePool? {
      InvalidatedTracks(s.table, s.sent, e.pool);
    } else if e.InvalidateAll? {
      InvalidatedTracks(s.table, s.sent, 0);
    }
  }

  lemma NoEarlyReturn(d: int, k: int)
    requires 0 < d < 16
    ensures 3 * d != 16 * k
  {}

  lemma DistinctIds(n: nat, d: nat)
    requires 0 < d < 16
    ensures IdAt(n + d) != IdAt(n)
  {
    var a: int, b: int := Laps(n), Laps(n + d);
    IdIs(n);
    IdIs(n + d);
    NoEarlyReturn(d, b - a);
  }

  /** Ids come round after sixteen sends, not before. */
  lemma {:induction false} LastOfSixteen(sent: seq<Job>, n: nat)
    requires n < |sent| <= n + 16
    ensures LastUnder(sent, IdAt(n + 1)) == To(sent[n])
    decreases |sent|
  {
    if |sent| > n + 1 {
      DistinctIds(n + 1, |sent| - n - 1);
      LastOfSixteen(sent[..|sent| - 1], n);
    }
  }

  /** The byte that comes back names the id that went out, whichever of the sixteen small
      cores found the nonce. */
  lemma EchoNamesSlot(n: nat, core: nat)
    requires core < 16
    ensures SlotOf(2 * IdAt(n) + core) == IdAt(n) && 2 * IdAt(n) + core < 256
  {
    IdIs(n);
    SlotOfIs(3 * n - 16 * Laps(n), core);
  }

  lemma SlotOfIs(k: nat, core: nat)
    requires k < 16 && core < 16
    ensures SlotOf(2 * (8 * k) + core) == 8 * k
  {
    assert (16 * k + core) / 16 == k;
  }

  // When a slot counts.

  /** Since job `n` was sent, all slots, or those of its pool, were discounted. */
  predicate DiscountedSince(events: seq<Event>, n: nat) {
    exists i :: 0 <= i < |events| && Strikes(events, i, n)
  }

  /** Step `i` discounts the slots of job `n`'s pool, which had been sent by then. */
  predicate Strikes(events: seq<Event>, i: nat, n: nat)
    requires i < |events|
  {
    var sent := After(events[..i]).sent;
    n < |sent| && events[i] in {InvalidateAll, InvalidatePool(sent[n].pool)}
  }

  lemma NextSends(s: System, e: Event)
    requires TableOk(s.table)
    ensures s.sent <= Next(s, e).sent && |Next(s, e).sent| <= |s.sent| + 1
    ensures |Next(s, e).sent| > |s.sent| ==> e == Send && Enabled(s, e)
  {}

  lemma {:induction false} SentGrows(events: seq<Event>, i: nat)
    requires i <= |events|
    ensures After(events[..i]).sent <= After(events).sent
    decreases |events| - i
  {
    if i == |events| {
      assert events[..i] == events;
    } else {
      AfterPush(events[..i + 1], events[..i], events[i]);
      NextSends(After(events[..i]), events[i]);
      SentGrows(events, i + 1);
    }
  }

  /** A discounting before the last step, or the last step. */
  lemma StrikesLast(events: seq<Event>, before: seq<Event>, e: Event, n: nat)
    requires events == before + [e]
    ensures DiscountedSince(events, n) <==>
      DiscountedSince(before, n)
      || (n < |After(before).sent| && e in {InvalidateAll, InvalidatePool(After(before).sent[n].pool)})
  {
    assert events[..|before|] == before;
    forall i | 0 <= i < |before| ensures Strikes(events, i, n) == Strikes(before, i, n) {
      assert events[..i] == before[..i];
    }
    if DiscountedSince(before, n) {
      var i :| 0 <= i < |before| && Strikes(before, i, n);
      assert Strikes(events, i, n);
    }
    if n < |After(before).sent| && e in {InvalidateAll, InvalidatePool(After(before).sent[n].pool)} {
      assert Strikes(events, |before|, n);
    }
  }

  /** A job not sent yet has not been discounted since. */
  lemma NotYetSent(events: seq<Event>, n: nat)
    requires |After(events).sent| <= n
    ensures !DiscountedSince(events, n)
  {
    forall i | 0 <= i < |events| ensures !Strikes(events, i, n) {
      SentGrows(events, i);
    }
  }

  /** What a step does to the slot of job `n`, which has been sent. */
  lemma SlotNext(s: System, e: Event, n: nat)
    requires Tracks(s.table, s.sent) && n < |s.sent| && |Next(s, e).sent| <= n + 16
    ensures Next(s, e).table.valid[IdAt(n + 1)]
      == (s.table.valid[IdAt(n + 1)] && e !in {InvalidateAll, InvalidatePool(s.sent[n].pool)})
  {
    var id := IdAt(n + 1);
    LastOfSixteen(s.sent, n);
    assert SlotTracks(s.table, s.sent, id);
    if e == Send && Enabled(s, e) {
      DistinctIds(n + 1, |s.sent| - n);
    }
  }

  /** The slot of a job that was sent within the last sixteen counts if and only if neither all
      slots nor those of its own pool have been discounted since; what becomes of other pools makes
      no difference. */
  lemma {:induction false} CountsIff(events: seq<Event>, n: nat)
    requires n < |After(events).sent| <= n + 16
    ensures After(events).table.valid[IdAt(n + 1)] <==> !DiscountedSince(events, n)
  {
    if events != [] {
      var before, e := events[..|events| - 1], events[|events| - 1];
      NextSends(After(before), e);
      StrikesLast(events, before, e, n);
      EveryRunTracks(before);
      if n < |After(before).sent| {
        CountsIff(before, n);
        SlotNext(After(before), e, n);
      } else {
        NotYetSent(before, n);
      }
    }
  }

  /** A nonce for a job with at most fifteen sent after it resolves to that very job, unless all slots
      or those of its pool have been discounted since it was sent; then to nothing.  And what it
      resolves to has not been freed. */
  lemma {:induction false} NonceResolves(events: seq<Event>, n: nat, core: nat, x: nat)
    requires n < |After(events).sent| <= n + 16 && core < 16
    requires x == 2 * IdAt(n + 1) + core
    ensures var s := After(events);
      var p := Resolved(s.table, x);
      && p == (if DiscountedSince(events, n) then Null else To(s.sent[n]))
      && (p.To? ==> p.job !in s.freed && s.displaced != p)
  {
    var s := After(events);
    var id := IdAt(n + 1);
    EveryRunTracks(events);
    CountsIff(events, n);
    EchoNamesSlot(n + 1, core);
    LastOfSixteen(s.sent, n);
    assert SlotTracks(s.table, s.sent, id);
    HeldNotFreed(events, id);
  }

  lemma SlotCounts(a: seq<Pointer>, i: nat)
    requires i < |a| && a[i].To?
    ensures multiset(Jobs(a))[a[i].job] > 0
  {
    JobsUpdate(a, i, Null);
    assert (multiset(Jobs(a[i := Null])) + One(a[i]))[a[i].job] > 0;
    assert multiset(Jobs(a)) + One(Null) == multiset(Jobs(a));
  }

  /** A job in a slot is nowhere else: not with the builder, queued, in hand, displaced or freed. */
  lemma {:induction false} HeldNotFreed(events: seq<Event>, i: nat)
    requires i < SLOTS && After(events).table.active[i].To?
    ensures var s := After(events);
      var job := s.table.active[i].job;
      && job !in Jobs(s.queue) && job !in s.freed
      && s.built != To(job) && s.hand != To(job) && s.displaced != To(job)
  {
    var s := After(events);
    var job := s.table.active[i].job;
    SlotCounts(s.table.active, i);
    EveryRunConserves(events);
    SerialOnce(s.made, job);
    assert Places(s)[job] <= 1;
    assert multiset(Jobs(s.queue))[job] == 0;
    assert multiset(s.freed)[job] == 0;
  }

  // ---------------------------------------------------------------- order

  /** Serials rise, and stay below `bound`. */
  predicate Rising(s: seq<Job>, bound: nat) {
    s == [] || (s[|s| - 1].serial < bound && Rising(s[..|s| - 1], s[|s| - 1].serial))
  }

  lemma {:induction false} RisingWider(s: seq<Job>, low: nat, high: nat)
    requires Rising(s, low) && low <= high
    ensures Rising(s, high)
  {}

  lemma RisingPush(s: seq<Job>, job: Job, bound: nat)
    ensures Rising(s + [job], bound) <==> job.serial < bound && Rising(s, job.serial)
  {
    assert (s + [job])[..|s|] == s;
  }

  lemma RisingPushAfter(front: seq<Job>, s: seq<Job>, job: Job, bound: nat)
    ensures Rising(front + (s + [job]), bound) <==> job.serial < bound && Rising(front + s, job.serial)
  {
    assert front + (s + [job]) == (front + s) + [job];
    RisingPush(front + s, job, bound);
  }

  lemma KeptPush(q: seq<Pointer>, p: Pointer, pool: nat)
    ensures Kept(q + [p], pool) == if p.To? && p.job.pool != pool then Kept(q, pool) + [p] else Kept(q, pool)
  {
    assert (q + [p])[..|q|] == q;
  }

  lemma {:induction false} KeptRises(front: seq<Job>, q: seq<Pointer>, pool: nat, bound: nat)
    requires Rising(front + Jobs(q), bound)
    ensures Rising(front + Jobs(Kept(q, pool)), bound)
    decreases |q|
  {
    if q != [] {
      var before, last := q[..|q| - 1], q[|q| - 1];
      assert q == before + [last];
      JobsPush(before, last);
      KeptPush(before, last, pool);
      if last == Null {
        KeptRises(front, before, pool, bound);
      } else {
        RisingPushAfter(front, Jobs(before), last.job, bound);
        KeptRises(front, before, pool, last.job.serial);
        if last.job.pool != pool {
          JobsPush(Kept(before, pool), last);
          RisingPushAfter(front, Jobs(Kept(before, pool)), last.job, bound);
        } else {
          RisingWider(front + Jobs(Kept(before, pool)), last.job.serial, bound);
        }
      }
    }
  }

  lemma JobsPush(q: seq<Pointer>, p: Pointer)
    ensures Jobs(q + [p]) == if p.To? then Jobs(q) + [p.job] else Jobs(q)
  {
    assert (q + [p])[..|q|] == q;
  }

  /** The jobs sent, the one in hand, and those queued. */
  function Line(s: System): seq<Job> {
    s.sent + Jobs([s.hand]) + Jobs(s.queue)
  }

  /** What serials on the line stay below: that of the job in the builder's hand. */
  function Bound(s: System): nat {
    if s.built.To? then s.built.job.serial else |s.made|
  }

  predicate Ordered(s: System) {
    (s.built.To? ==> s.built.job.serial < |s.made|) && Rising(Line(s), Bound(s))
  }

  lemma {:induction false} EveryRunRises(events: seq<Event>)
    ensures Ordered(After(events))
  {
    if events != [] {
      EveryRunRises(events[..|events| - 1]);
      NextRises(After(events[..|events| - 1]), events[|events| - 1]);
    } else {
      NoneInHand(Start());
      assert Line(Start()) == [];
    }
  }

  lemma NoneInHand(s: System)
    ensures Jobs([s.hand]) == if s.hand.To? then [s.hand.job] else []
  {
    JobsPush([], s.hand);
    assert [] + [s.hand] == [s.hand];
  }

  lemma EnqueueRises(s: System)
    requires TableOk(s.table) && Ordered(s) && Enabled(s, Enqueue)
    ensures Ordered(Next(s, Enqueue))
  {
    var job := s.built.job;
    JobsPush(s.queue, s.built);
    assert Line(Next(s, Enqueue)) == Line(s) + [job];
    RisingPush(Line(s), job, |s.made|);
  }

  lemma TakeKeepsLine(s: System)
    requires TableOk(s.table) && Enabled(s, Take)
    ensures Line(Next(s, Take)) == Line(s)
  {
    NoneInHand(s);
    assert s.queue == [s.queue[0]] + s.queue[1..];
    JobsConcat([s.queue[0]], s.queue[1..]);
  }

  lemma SendKeepsLine(s: System)
    requires TableOk(s.table) && Enabled(s, Send)
    ensures Line(Next(s, Send)) == Line(s)
  {
    NoneInHand(s);
    NoneInHand(Next(s, Send));
  }

  lemma ClearAllRises(s: System)
    requires TableOk(s.table) && Ordered(s)
    ensures Ordered(Next(s, ClearAll))
  {
    RisingPrefix(s.sent + Jobs([s.hand]), Jobs(s.queue), Bound(s));
    assert Line(Next(s, ClearAll)) == s.sent + Jobs([s.hand]);
  }

  lemma NextRises(s: System, e: Event)
    requires TableOk(s.table) && Ordered(s)
    ensures Ordered(Next(s, e))
  {
    if Enabled(s, e) {
      match e {
        case Build(pool) =>
        case Enqueue => EnqueueRises(s);
        case Take => TakeKeepsLine(s);
        case Send => SendKeepsLine(s);
        case Release =>
        case ClearPool(pool) => KeptRises(s.sent + Jobs([s.hand]), s.queue, pool, Bound(s));
        case ClearAll => ClearAllRises(s);
        case InvalidatePool(_) =>
        case InvalidateAll =>
      }
    }
  }

  lemma {:induction false} RisingPrefix(a: seq<Job>, b: seq<Job>, bound: nat)
    requires Rising(a + b, bound)
    ensures Rising(a, bound)
    decreases |b|
  {
    if b == [] {
      assert a + b == a;
    } else {
      var last := b[|b| - 1];
      assert a + b == a + b[..|b| - 1] + [last];
      RisingPush(a + b[..|b| - 1], last, bound);
      RisingPrefix(a, b[..|b| - 1], last.serial);
      RisingWider(a, last.serial, bound);
    }
  }

  lemma {:induction false} RisingBetween(s: seq<Job>, bound: nat, i: nat, j: nat)
    requires Rising(s, bound) && i < j < |s|
    ensures s[i].serial < s[j].serial
    decreases |s|
  {
    var last := s[|s| - 1];
    if j < |s| - 1 {
      RisingBetween(s[..|s| - 1], last.serial, i, j);
    } else {
      RisingBelow(s[..|s| - 1], last.serial, i);
    }
  }

  lemma {:induction false} RisingBelow(s: seq<Job>, bound: nat, i: nat)
    requires Rising(s, bound) && i < |s|
    ensures s[i].serial < bound
    decreases |s|
  {
    if i < |s| - 1 { RisingBelow(s[..|s| - 1], s[|s| - 1].serial, i); }
  }

  /** In every run, whatever was cleared in between, jobs reach the ASIC in the order they
      were made, and none twice. */
  lemma SentInOrder(events: seq<Event>, i: nat, j: nat)
    requires i < j < |After(events).sent|
    ensures After(events).sent[i].serial < After(events).sent[j].serial
  {
    var s := After(events);
    EveryRunRises(events);
    RisingBetween(Line(s), Bound(s), i, j);
  }

  // ---------------------------------------------------------------- abandoning a pool's work

  predicate Mine(p: Pointer, pool: nat) {
    p.To? && p.job.pool == pool
  }

  /** A job of the pool is on its way to the ASIC. */
  predicate UnderWay(s: System, pool: nat) {
    Mine(s.built, pool) || Mine(s.hand, pool) || exists p :: p in s.queue && Mine(p, pool)
  }

  /** No work of the pool is on its way to the ASIC, and no nonce counts for it. */
  predicate Gone(s: System, pool: nat) {
    && TableOk(s.table) && !UnderWay(s, pool)
    && (forall i | 0 <= i < SLOTS :: s.table.valid[i] ==> s.table.owner[i] != pool)
  }

  lemma {:induction false} KeptIn(q: seq<Pointer>, pool: nat, p: Pointer)
    ensures p in Kept(q, pool) <==> p in q && p.To? && !Mine(p, pool)
  {
    if q != [] {
      KeptIn(q[..|q| - 1], pool, p);
      assert q == q[..|q| - 1] + [q[|q| - 1]];
    }
  }

  /** What other tasks may do while one abandons the pool's work, holding the lock of the slots:
      none can send or discount then.  Whoever drops the pool's jobs once more starts afresh. */
  predicate Meanwhile(e: Event, pool: nat) {
    e.Build? || e.Enqueue? || e.Take? || e.Release? || (e.ClearPool? && e.pool != pool)
  }

  predicate Drops(e: Event, pool: nat) { e == ClearPool(pool) || e == ClearAll }

  predicate Discounts(e: Event, pool: nat) { e == InvalidatePool(pool) || e == InvalidateAll }

  lemma DroppedUnderWay(s: System, e: Event, pool: nat)
    requires TableOk(s.table) && Drops(e, pool)
    ensures UnderWay(Next(s, e), pool) <==> Mine(s.built, pool) || Mine(s.hand, pool)
  {
    forall p | p in Kept(s.queue, pool) ensures !Mine(p, pool) {
      KeptIn(s.queue, pool, p);
    }
  }

  lemma MeanwhileKeeps(s: System, e: Event, pool: nat)
    requires TableOk(s.table) && Meanwhile(e, pool)
    ensures UnderWay(Next(s, e), pool) <==> UnderWay(s, pool) || (e == Build(pool) && s.built == Null)
  {
    if Enabled(s, e) {
      match e {
        case Build(_) =>
        case Enqueue => assert forall p :: p in s.queue + [s.built] <==> p in s.queue || p == s.built;
        case Take =>
          assert s.queue == [s.queue[0]] + s.queue[1..];
          assert forall p :: p in s.queue <==> p == s.queue[0] || p in s.queue[1..];
        case Release =>
        case ClearPool(other) =>
          forall p | Mine(p, pool) ensures p in Kept(s.queue, other) <==> p in s.queue {
            KeptIn(s.queue, other, p);
          }
      }
    }
  }

  /** The builder, its hands free, makes a job of the pool in the course of `mid`. */
  predicate Makes(events: seq<Event>, mid: seq<Event>, pool: nat)
    decreases |mid|
  {
    mid != []
    && var earlier := mid[..|mid| - 1];
      Makes(events, earlier, pool) || (mid[|mid| - 1] == Build(pool) && After(events + earlier).built == Null)
  }

  lemma {:induction false} MeanwhileKeep(events: seq<Event>, mid: seq<Event>, pool: nat)
    requires forall e :: e in mid ==> Meanwhile(e, pool)
    ensures UnderWay(After(events + mid), pool) <==> UnderWay(After(events), pool) || Makes(events, mid, pool)
    decreases |mid|
  {
    if mid == [] {
      assert events + mid == events;
    } else {
      var earlier, e := mid[..|mid| - 1], mid[|mid| - 1];
      MeanwhileKeep(events, earlier, pool);
      assert e in mid;
      AfterPush(events + mid, events + earlier, e);
      MeanwhileKeeps(After(events + earlier), e, pool);
    }
  }

  lemma AfterPush(all: seq<Event>, events: seq<Event>, e: Event)
    requires all == events + [e]
    ensures After(all) == Next(After(events), e)
  {
    assert all[..|all| - 1] == events;
  }

  /** Dropping a pool's queued jobs and then discounting its slots abandons its work, whatever
      happens meanwhile, if and only if neither the builder nor the ASIC task has one of its
      jobs in hand at the start, and the builder makes no other meanwhile, as it can of the
      notification it still holds. */
  lemma AbandonedIff(events: seq<Event>, drop: Event, mid: seq<Event>, discount: Event, pool: nat)
    requires Drops(drop, pool) && Discounts(discount, pool) && forall e :: e in mid ==> Meanwhile(e, pool)
    ensures Gone(After(events + [drop] + mid + [discount]), pool)
       <==> !Mine(After(events).built, pool) && !Mine(After(events).hand, pool)
            && !Makes(events + [drop], mid, pool)
  {
    var dropped := events + [drop];
    AfterPush(dropped, events, drop);
    DroppedUnderWay(After(events), drop, pool);
    MeanwhileKeep(dropped, mid, pool);
    AfterPush(dropped + mid + [discount], dropped + mid, discount);
  }

  // The job that escapes is sent, and counts.

  /** While the ASIC task has a job in hand, it has nothing left to free. */
  lemma {:induction false} HandsFree(events: seq<Event>)
    ensures After(events).hand == Null || After(events).displaced == Null
  {
    if events != [] { HandsFree(events[..|events| - 1]); }
  }

  /** What tasks do of themselves with the jobs made. */
  predicate Working(e: Event) { e in {Enqueue, Take, Send, Release} }

  /** The byte that comes back for an id from a small core. */
  function Echo(id: nat, core: nat): nat { 2 * id + core }

  /** A nonce counts for this job, whichever core finds it. */
  predicate Scored(s: System, p: Pointer) {
    TableOk(s.table) && forall core: nat :: core < 16 ==> Resolved(s.table, Echo(s.table.id, core)) == p
  }

  lemma SentCounts(events: seq<Event>)
    requires After(events).hand.To?
    ensures Scored(After(events + [Send]), After(events).hand)
  {
    var s := After(events + [Send]);
    HandsFree(events);
    AfterPush(events + [Send], events, Send);
    EveryRunTracks(events + [Send]);
    forall core: nat | core < 16 ensures Resolved(s.table, Echo(s.table.id, core)) == After(events).hand {
      EchoNamesSlot(|s.sent|, core);
    }
  }

  /** The ASIC task can finish what it is at. */
  lemma Settles(events: seq<Event>) returns (more: seq<Event>)
    ensures (forall e :: e in more ==> Working(e)) && |more| <= 2
    ensures var (s, t) := (After(events), After(events + more));
      t.hand == t.displaced == Null && t.built == s.built && t.queue == s.queue
  {
    var s := After(events);
    HandsFree(events);
    more := if s.hand.To? then [Send] else [];
    if s.hand.To? {
      AfterPush(events + more, events, Send);
    } else {
      assert events + more == events;
    }
    if After(events + more).displaced.To? {
      AfterPush(events + (more + [Release]), events + more, Release);
      more := more + [Release];
    }
  }

  /** A queued job can get to count, when those before it have been sent. */
  lemma {:induction false} QueuedCounts(events: seq<Event>, i: nat) returns (more: seq<Event>)
    requires i < |After(events).queue| && After(events).queue[i].To?
    ensures (forall e :: e in more ==> Working(e)) && Scored(After(events + more), After(events).queue[i])
    decreases i
  {
    var settle := Settles(events);
    var took := events + settle + [Take];
    AfterPush(took, events + settle, Take);
    if i == 0 {
      SentCounts(took);
      more := settle + [Take, Send];
      assert events + more == took + [Send];
    } else {
      var rest := QueuedCounts(took, i - 1);
      more := settle + [Take] + rest;
      assert events + more == took + rest;
    }
  }

  lemma BuiltCounts(events: seq<Event>) returns (more: seq<Event>)
    requires After(events).built.To?
    ensures (forall e :: e in more ==> Working(e)) && Scored(After(events + more), After(events).built)
  {
    var room := Room(events);
    var queued := events + room + [Enqueue];
    AfterPush(queued, events + room, Enqueue);
    var q := After(queued).queue;
    assert q[|q| - 1] == After(events).built;
    var rest := QueuedCounts(queued, |q| - 1);
    more := room + [Enqueue] + rest;
    assert events + more == queued + rest;
  }

  /** A full queue can get room. */
  lemma Room(events: seq<Event>) returns (more: seq<Event>)
    ensures (forall e :: e in more ==> Working(e))
    ensures |After(events + more).queue| < QUEUE_SIZE && After(events + more).built == After(events).built
  {
    QueueBounded(events);
    if |After(events).queue| < QUEUE_SIZE {
      more := [];
      assert events + more == events;
    } else {
      var settle := Settles(events);
      more := settle + [Take];
      AfterPush(events + more, events + settle, Take);
    }
  }

  lemma {:induction false} QueueBounded(events: seq<Event>)
    ensures |After(events).queue| <= QUEUE_SIZE
  {
    if events != [] { QueueBounded(events[..|events| - 1]); }
  }

  /** So a job still under way, its pool's work abandoned or not, can be sent with the tasks just
      going on, and then any nonce for it counts. */
  lemma EscapeCounts(events: seq<Event>, p: Pointer) returns (more: seq<Event>)
    requires var s := After(events); p.To? && (p == s.built || p == s.hand || p in s.queue)
    ensures (forall e :: e in more ==> Working(e)) && Scored(After(events + more), p)
  {
    var s := After(events);
    if p == s.hand {
      more := [Send];
      SentCounts(events);
    } else if p == s.built {
      more := BuiltCounts(events);
    } else {
      var i :| 0 <= i < |s.queue| && s.queue[i] == p;
      more := QueuedCounts(events, i);
    }
  }

  lemma NextGone(s: System, e: Event, pool: nat)
    requires Gone(s, pool) && e != Build(pool)
    ensures Gone(Next(s, e), pool)
  {
    if Meanwhile(e, pool) {
      MeanwhileKeeps(s, e, pool);
    } else if Drops(e, pool) {
      DroppedUnderWay(s, e, pool);
    }
  }

  /** Once gone, a pool's work stays gone until the builder makes more. */
  lemma {:induction false} GoneForGood(events: seq<Event>, more: seq<Event>, pool: nat)
    requires Gone(After(events), pool) && Build(pool) !in more
    ensures Gone(After(events + more), pool)
    decreases |more|
  {
    if more == [] {
      assert events + more == events;
    } else {
      var earlier, e := more[..|more| - 1], more[|more| - 1];
      GoneForGood(events, earlier, pool);
      assert e in more;
      AfterPush(events + more, events + earlier, e);
      NextGone(After(events + earlier), e, pool);
    }
  }

  /** And then no returned nonce, whatever its id byte, is scored for the pool. */
  lemma GoneNeverScored(events: seq<Event>, pool: nat, x: nat)
    requires Gone(After(events), pool)
    ensures !Mine(Resolved(After(events).table, x), pool)
  {
    EveryRunTracks(events);
    assert SlotTracks(After(events).table, After(events).sent, SlotOf(x));
  }
}

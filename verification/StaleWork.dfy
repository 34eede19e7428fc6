/** The notifications that jobs are made of (main/tasks/create_jobs_task.c,
    main/tasks/stratum_poolb_task.c): a pool's task queues them, and the builder holds one of each
    pool until it fetches the next.  What is left of a pool's old work when it is abandoned. */
module StaleWork {
  import opened WorkQueue
  import opened JobPipeline

  /** The notifications received so far, by number; those queued and the one held, by pool; and
      what each job was made of. */
  datatype Desk = Desk(notices: nat, pending: map<nat, seq<nat>>, held: map<nat, nat>, of: seq<nat>)

  /** The steps taken in the job pipeline so far, and the notifications. */
  datatype Plant = Plant(events: seq<Event>, desk: Desk)

  datatype Act =
    | Step(e: Event)      // a step in the pipeline
    | Notify(pool: nat)   // a pool's task queues a notification
    | Unqueue(pool: nat)  // and drops those queued
    | Fetch(pool: nat)    // the builder takes the next, and lets go of the one it held
    | LetGo(pool: nat)    // the builder lets go of it, the session having ended

  function Opening(): Plant {
    Plant([], Desk(0, map[], map[], []))
  }

  function Pending(d: Desk, pool: nat): seq<nat> {
    if pool in d.pending then d.pending[pool] else []
  }

  /** What is queued when one more comes: of a full queue the oldest is dropped. */
  function Queued(q: seq<nat>, note: nat): seq<nat> {
    (if |q| < QUEUE_SIZE then q else q[1..]) + [note]
  }

  /** A queue never holds more than twelve, and those are the newest. */
  lemma QueuedKeepsNewest(q: seq<nat>, note: nat)
    requires |q| <= 12
    ensures var (r, all) := (Queued(q, note), q + [note]);
      |r| <= 12 && r == all[|all| - |r|..] && (|all| <= 12 ==> r == all)
  {}

  /** The builder makes jobs of what it holds only. */
  predicate Able(p: Plant, e: Event) {
    e.Build? ==> e.pool in p.desk.held
  }

  function Filed(p: Plant, e: Event): Desk
    requires Able(p, e)
  {
    if e.Build? && Enabled(After(p.events), e) then p.desk.(of := p.desk.of + [p.desk.held[e.pool]]) else p.desk
  }

  function Done(p: Plant, a: Act): Plant {
    match a
    case Step(e) => if Able(p, e) then Plant(p.events + [e], Filed(p, e)) else p
    case Notify(pool) =>
      var q := Queued(Pending(p.desk, pool), p.desk.notices);
      p.(desk := p.desk.(notices := p.desk.notices + 1, pending := p.desk.pending[pool := q]))
    case Unqueue(pool) => p.(desk := p.desk.(pending := p.desk.pending[pool := []]))
    case Fetch(pool) =>
      var q := Pending(p.desk, pool);
      if q == [] then p
      else p.(desk := p.desk.(held := p.desk.held[pool := q[0]], pending := p.desk.pending[pool := q[1..]]))
    case LetGo(pool) => p.(desk := p.desk.(held := p.desk.held - {pool}))
  }

  function Run(p: Plant, acts: seq<Act>): Plant {
    if acts == [] then p else Done(Run(p, acts[..|acts| - 1]), acts[|acts| - 1])
  }

  lemma RunPush(p: Plant, all: seq<Act>, acts: seq<Act>, a: Act)
    requires all == acts + [a]
    ensures Run(p, all) == Done(Run(p, acts), a)
  {
    assert all[..|all| - 1] == acts;
  }

  lemma {:induction false} RunJoin(p: Plant, a: seq<Act>, b: seq<Act>)
    ensures Run(p, a + b) == Run(Run(p, a), b)
    decreases |b|
  {
    if b == [] {
      assert a + b == a;
    } else {
      RunJoin(p, a, b[..|b| - 1]);
      RunPush(p, a + b, a + b[..|b| - 1], b[|b| - 1]);
    }
  }

  function Steps(events: seq<Event>): seq<Act> {
    seq(|events|, i requires 0 <= i < |events| => Step(events[i]))
  }

  /** Steps of the tasks with the jobs made leave the notifications alone. */
  lemma {:induction false} JobsOnly(p: Plant, events: seq<Event>)
    requires forall e :: e in events ==> Working(e)
    ensures Run(p, Steps(events)) == p.(events := p.events + events)
  {
    if events == [] {
      assert p.events + events == p.events;
    } else {
      var before, last := events[..|events| - 1], events[|events| - 1];
      assert last in events;
      JobsOnly(p, before);
      RunPush(p, Steps(events), Steps(before), Step(last));
      assert p.events + events == (p.events + before) + [last];
    }
  }

  // ---------------------------------------------------------------- what is on record

  /** What each job was made of is on record, and everything is of the notifications so far. */
  predicate Recorded(p: Plant) {
    var d := p.desk;
    && |d.of| == |After(p.events).made|
    && (forall note | note in d.of :: note < d.notices)
    && (forall pool | pool in d.held :: d.held[pool] < d.notices)
    && (forall pool | pool in d.pending :: Below(d.pending[pool], d.notices))
  }

  predicate Below(q: seq<nat>, n: nat) { forall note | note in q :: note < n }

  lemma MadeGrows(s: System, e: Event)
    requires TableOk(s.table)
    ensures |Next(s, e).made| == |s.made| + if e.Build? && Enabled(s, e) then 1 else 0
  {}

  lemma QueuedHas(q: seq<nat>, note: nat, x: nat)
    requires x in Queued(q, note)
    ensures x == note || x in q
  {}

  lemma DoneRecorded(p: Plant, a: Act)
    requires Recorded(p)
    ensures Recorded(Done(p, a))
  {
    var d, t := p.desk, Done(p, a).desk;
    if a.Step? {
      AfterPush(p.events + [a.e], p.events, a.e);
      MadeGrows(After(p.events), a.e);
    } else if a.Notify? {
      forall x | x in t.pending[a.pool] ensures x < t.notices {
        QueuedHas(Pending(d, a.pool), d.notices, x);
      }
      forall pool | pool in d.pending ensures Below(d.pending[pool], t.notices) {
        assert Below(d.pending[pool], d.notices);
      }
    } else if a.Fetch? && Pending(d, a.pool) != [] {
      var q := d.pending[a.pool];
      assert Below(q, d.notices) && q[0] in q && forall x :: x in q[1..] ==> x in q;
    }
  }

  lemma {:induction false} EveryRunRecorded(acts: seq<Act>)
    ensures Recorded(Run(Opening(), acts))
  {
    if acts != [] {
      EveryRunRecorded(acts[..|acts| - 1]);
      DoneRecorded(Run(Opening(), acts[..|acts| - 1]), acts[|acts| - 1]);
    }
  }

  lemma {:induction false} RunRecorded(p: Plant, acts: seq<Act>)
    requires Recorded(p)
    ensures var t := Run(p, acts); Recorded(t) && p.desk.of <= t.desk.of && p.desk.notices <= t.desk.notices
  {
    if acts != [] {
      RunRecorded(p, acts[..|acts| - 1]);
      DoneRecorded(Run(p, acts[..|acts| - 1]), acts[|acts| - 1]);
    }
  }

  // ---------------------------------------------------------------- old work

  /** A job of the pool that was made of one of the first `n` notifications. */
  predicate Old(d: Desk, p: Pointer, pool: nat, n: nat) {
    Mine(p, pool) && p.job.serial < |d.of| && d.of[p.job.serial] < n
  }

  lemma SameAge(d: Desk, t: Desk, p: Pointer, pool: nat, n: nat)
    requires d.of <= t.of && (p.To? ==> p.job.serial < |d.of|)
    ensures Old(t, p, pool, n) == Old(d, p, pool, n)
  {}

  /** Somewhere in the pipeline. */
  predicate Inside(s: System, p: Pointer) {
    p.To? && (p == s.built || p == s.hand || p in s.queue || p in s.table.active)
  }

  lemma {:induction false} JobsHas(q: seq<Pointer>, p: Pointer)
    requires p in q && p.To?
    ensures p.job in Jobs(q)
  {
    if q[|q| - 1] != p { JobsHas(q[..|q| - 1], p); }
  }

  /** What is in the pipeline has been made. */
  lemma InsideMade(events: seq<Event>, p: Pointer)
    requires Inside(After(events), p)
    ensures p.job.serial < |After(events).made|
  {
    var s := After(events);
    EveryRunConserves(events);
    if p in s.queue { JobsHas(s.queue, p); }
    if p in s.table.active { JobsHas(s.table.active, p); }
    assert p.job in Places(s);
    assert p.job in s.made;
  }

  /** No job of the pool's first `n` notifications is under way or counts, and the builder can make
      no more. */
  ghost predicate OldGone(p: Plant, pool: nat, n: nat) {
    && n <= p.desk.notices && NotesNew(p.desk, pool, n)
    && forall q :: Live(After(p.events), q) ==> !Old(p.desk, q, pool, n)
  }

  /** Under way, or in a slot that counts. */
  predicate Live(s: System, p: Pointer) {
    || p == s.built || p == s.hand || p in s.queue
    || (TableOk(s.table) && exists i :: 0 <= i < SLOTS && s.table.valid[i] && s.table.active[i] == p)
  }

  predicate NotesNew(d: Desk, pool: nat, n: nat) {
    && (pool in d.held ==> d.held[pool] >= n)
    && (forall note | note in Pending(d, pool) :: note >= n)
  }

  lemma DoneNotesNew(p: Plant, a: Act, pool: nat, n: nat)
    requires NotesNew(p.desk, pool, n) && n <= p.desk.notices
    ensures NotesNew(Done(p, a).desk, pool, n) && n <= Done(p, a).desk.notices
  {
    var d, t := p.desk, Done(p, a).desk;
    if a == Notify(pool) {
      forall x | x in Pending(t, pool) ensures x >= n {
        QueuedHas(Pending(d, pool), d.notices, x);
      }
    } else if a == Fetch(pool) && Pending(d, pool) != [] {
      var q := Pending(d, pool);
      assert Pending(t, pool) == q[1..] && q[0] in q;
      assert forall x :: x in q[1..] ==> x in q;
    } else if a == Unqueue(pool) {
      assert Pending(t, pool) == [];
    } else {
      assert Pending(t, pool) == Pending(d, pool);
    }
  }

  lemma LiveNext(s: System, e: Event, p: Pointer)
    requires TableOk(s.table) && Live(Next(s, e), p) && p.To?
    ensures Live(s, p) || (e.Build? && Enabled(s, e) && p == Next(s, e).built)
  {
    if Enabled(s, e) {
      if e.ClearPool? && p in Next(s, e).queue { KeptIn(s.queue, e.pool, p); }
      if e.Take? { assert s.queue[0] in s.queue; }
    }
  }

  lemma LiveMade(events: seq<Event>, p: Pointer)
    requires Live(After(events), p) && p.To?
    ensures p.job.serial < |After(events).made|
  {
    InsideMade(events, p);
  }

  lemma JobOldGone(p: Plant, e: Event, pool: nat, n: nat)
    requires Recorded(p) && OldGone(p, pool, n) && Able(p, e)
    ensures OldGone(Done(p, Step(e)), pool, n)
  {
    var s, t := After(p.events), Done(p, Step(e));
    AfterPush(t.events, p.events, e);
    MadeGrows(s, e);
    DoneNotesNew(p, Step(e), pool, n);
    forall q | Live(After(t.events), q) && q.To? ensures !Old(t.desk, q, pool, n) {
      LiveNext(s, e, q);
      if Live(s, q) {
        LiveMade(p.events, q);
        SameAge(p.desk, t.desk, q, pool, n);
      }
    }
  }

  lemma DoneOldGone(p: Plant, a: Act, pool: nat, n: nat)
    requires Recorded(p) && OldGone(p, pool, n)
    ensures OldGone(Done(p, a), pool, n)
  {
    if a.Step? {
      if Able(p, a.e) { JobOldGone(p, a.e, pool, n); }
    } else {
      DoneNotesNew(p, a, pool, n);
    }
  }

  /** Old work that is gone, notification and all, stays gone whatever comes. */
  lemma {:induction false} OldStaysGone(p: Plant, acts: seq<Act>, pool: nat, n: nat)
    requires Recorded(p) && OldGone(p, pool, n)
    ensures OldGone(Run(p, acts), pool, n)
  {
    if acts != [] {
      var earlier := acts[..|acts| - 1];
      OldStaysGone(p, earlier, pool, n);
      RunRecorded(p, earlier);
      DoneOldGone(Run(p, earlier), acts[|acts| - 1], pool, n);
    }
  }

  // ---------------------------------------------------------------- what is not gone counts

  /** The builder can get its hands free. */
  lemma HandsOver(events: seq<Event>) returns (more: seq<Event>)
    ensures (forall e :: e in more ==> Working(e)) && After(events + more).built == Null
  {
    if After(events).built == Null {
      more := [];
      assert events + more == events;
    } else {
      var room := Room(events);
      more := room + [Enqueue];
      AfterPush(events + more, events + room, Enqueue);
    }
  }

  /** A job still under way can come to count. */
  lemma UnderWayCounts(p: Plant, q: Pointer) returns (acts: seq<Act>)
    requires var s := After(p.events); q.To? && (q == s.built || q == s.hand || q in s.queue)
    ensures Scored(After(Run(p, acts).events), q) && Run(p, acts).desk == p.desk
  {
    var more := EscapeCounts(p.events, q);
    JobsOnly(p, more);
    acts := Steps(more);
  }

  /** As long as the builder holds a notification, it can make a job of it that comes to count. */
  lemma HeldCounts(p: Plant, pool: nat, n: nat) returns (acts: seq<Act>, q: Pointer)
    requires Recorded(p) && pool in p.desk.held && p.desk.held[pool] < n
    ensures Scored(After(Run(p, acts).events), q) && Old(Run(p, acts).desk, q, pool, n)
  {
    var free := HandsOver(p.events);
    JobsOnly(p, free);
    var ready := Run(p, Steps(free));
    RunRecorded(p, Steps(free));
    var made := Done(ready, Step(Build(pool)));
    AfterPush(made.events, ready.events, Build(pool));
    q := After(made.events).built;
    assert Old(made.desk, q, pool, n);
    var rest := UnderWayCounts(made, q);
    acts := Steps(free) + [Step(Build(pool))] + rest;
    RunPush(p, Steps(free) + [Step(Build(pool))], Steps(free), Step(Build(pool)));
    RunJoin(p, Steps(free) + [Step(Build(pool))], rest);
  }

  /** So can it of one that is queued, once it has fetched it. */
  lemma {:induction false} QueuedNoteCounts(p: Plant, pool: nat, n: nat, i: nat) returns (acts: seq<Act>, q: Pointer)
    requires Recorded(p) && i < |Pending(p.desk, pool)| && Pending(p.desk, pool)[i] < n
    ensures Scored(After(Run(p, acts).events), q) && Old(Run(p, acts).desk, q, pool, n)
    decreases i
  {
    var fetched := Done(p, Fetch(pool));
    DoneRecorded(p, Fetch(pool));
    var rest;
    if i == 0 {
      rest, q := HeldCounts(fetched, pool, n);
    } else {
      assert Pending(fetched.desk, pool) == Pending(p.desk, pool)[1..];
      rest, q := QueuedNoteCounts(fetched, pool, n, i - 1);
    }
    acts := [Fetch(pool)] + rest;
    RunPush(p, [Fetch(pool)], [], Fetch(pool));
    RunJoin(p, [Fetch(pool)], rest);
  }

  lemma {:induction false} SentUnder(sent: seq<Job>, id: nat) returns (k: nat)
    requires LastUnder(sent, id).To?
    ensures IdAt(k) == id
  {
    if IdAt(|sent|) == id {
      k := |sent|;
    } else {
      k := SentUnder(sent[..|sent| - 1], id);
    }
  }

  /** A slot that counts is named by some id byte. */
  lemma SlotResolves(events: seq<Event>, i: nat)
    requires i < SLOTS && After(events).table.valid[i]
    ensures Resolved(After(events).table, Echo(i, 0)) == After(events).table.active[i]
  {
    var s := After(events);
    EveryRunTracks(events);
    assert SlotTracks(s.table, s.sent, i);
    var k := SentUnder(s.sent, i);
    EchoNamesSlot(k, 0);
  }

  /** A live job can come to count, if it does not already. */
  lemma LiveCounts(p: Plant, q: Pointer) returns (acts: seq<Act>, x: nat)
    requires Live(After(p.events), q) && q.To?
    ensures Resolved(After(Run(p, acts).events).table, x) == q && Run(p, acts).desk == p.desk
  {
    var s := After(p.events);
    if q == s.built || q == s.hand || q in s.queue {
      acts := UnderWayCounts(p, q);
      x := Echo(After(Run(p, acts).events).table.id, 0);
    } else {
      var i :| 0 <= i < SLOTS && s.table.valid[i] && s.table.active[i] == q;
      acts, x := [], Echo(i, 0);
      SlotResolves(p.events, i);
    }
  }

  /** After so much more, this id byte stands for work of the pool's first `n` notifications. */
  predicate ScoresOld(p: Plant, acts: seq<Act>, x: nat, pool: nat, n: nat) {
    Old(Run(p, acts).desk, Resolved(After(Run(p, acts).events).table, x), pool, n)
  }

  /** No nonce will ever be scored for it. */
  ghost predicate OldNeverScored(p: Plant, pool: nat, n: nat) {
    forall acts, x: nat :: !ScoresOld(p, acts, x, pool, n)
  }

  lemma GoneResolves(p: Plant, pool: nat, n: nat, x: nat)
    requires OldGone(p, pool, n)
    ensures !Old(p.desk, Resolved(After(p.events).table, x), pool, n)
  {
    var s := After(p.events);
    assert s.table.valid[SlotOf(x)] ==> Live(s, s.table.active[SlotOf(x)]);
  }

  lemma ScoredOld(p: Plant, acts: seq<Act>, q: Pointer, pool: nat, n: nat)
    requires Scored(After(Run(p, acts).events), q) && Old(Run(p, acts).desk, q, pool, n)
    ensures exists x: nat :: ScoresOld(p, acts, x, pool, n)
  {
    var t := After(Run(p, acts).events).table;
    assert Resolved(t, Echo(t.id, 0)) == q;
    assert ScoresOld(p, acts, Echo(t.id, 0), pool, n);
  }

  /** At any time, a pool's old work is done with for good, whatever comes, if and only if no job of it
      is under way or counts, and no notification of it is held by the builder or queued for it. */
  lemma OldNeverScoredIff(acts: seq<Act>, pool: nat, n: nat)
    requires n <= Run(Opening(), acts).desk.notices
    ensures OldNeverScored(Run(Opening(), acts), pool, n) <==> OldGone(Run(Opening(), acts), pool, n)
  {
    var p := Run(Opening(), acts);
    EveryRunRecorded(acts);
    if OldGone(p, pool, n) {
      forall more, x: nat ensures !ScoresOld(p, more, x, pool, n) {
        OldStaysGone(p, more, pool, n);
        GoneResolves(Run(p, more), pool, n, x);
      }
    } else if q :| Live(After(p.events), q) && Old(p.desk, q, pool, n) {
      var more, x := LiveCounts(p, q);
      assert ScoresOld(p, more, x, pool, n);
    } else if pool in p.desk.held && p.desk.held[pool] < n {
      var more, q := HeldCounts(p, pool, n);
      ScoredOld(p, more, q, pool, n);
    } else {
      var i :| 0 <= i < |Pending(p.desk, pool)| && Pending(p.desk, pool)[i] < n;
      var more, q := QueuedNoteCounts(p, pool, n, i);
      ScoredOld(p, more, q, pool, n);
    }
  }

  /** In particular, when a pool's slots have been discounted and its notifications dropped, as when
      its work is abandoned: unless some of it is still under way, it is done with exactly when the
      builder holds no notification of the pool.  Of one it holds it can go on making jobs until it
      fetches the next. */
  lemma AbandonedForGoodIff(acts: seq<Act>, pool: nat)
    requires Gone(After(Run(Opening(), acts).events), pool) && Pending(Run(Opening(), acts).desk, pool) == []
    ensures var p := Run(Opening(), acts);
      OldNeverScored(p, pool, p.desk.notices) <==> pool !in p.desk.held
  {
    var p := Run(Opening(), acts);
    var s, n := After(p.events), p.desk.notices;
    EveryRunRecorded(acts);
    OldNeverScoredIff(acts, pool, n);
    EveryRunTracks(p.events);
    forall i | 0 <= i < SLOTS && s.table.valid[i] ensures !Mine(s.table.active[i], pool) {
      assert SlotTracks(s.table, s.sent, i);
    }
    assert pool in p.desk.held ==> p.desk.held[pool] < n;
  }
}

/**
 The task pool of src/task_pool.h: a queue of immediate jobs and a vector of timers whose
 earliest deadline is meant to sit at the back. `Pool` and the functions on it say what each
 operation computes; class `TaskPool` holds the loops.
 */
module TaskPools {
  import opened Wrappers

  type Time = int
  type TaskId = nat

  /** A timer; its job is `None` once `pop(task_id)` has moved it out. */
  datatype Entry = Entry(time: Time, job: Option<TaskId>)

  datatype Pool = Pool(tasks: seq<TaskId>, timers: seq<Entry>)

  /** What `pop()` hands out: nothing, or a job pointer that may be null. */
  datatype Popped = Nothing | Job(job: Option<TaskId>)

  ghost predicate Sorted(timers: seq<Entry>) {
    forall i, j :: 0 <= i < j < |timers| ==> timers[i].time >= timers[j].time
  }

  predicate NoHoles(timers: seq<Entry>) {
    forall e :: e in timers ==> e.job.Some?
  }

  // ----- What the operations compute -----

  /** The first timer with a time before `t`, or the end. */
  function InsertPos(timers: seq<Entry>, t: Time): (p: nat)
    ensures p <= |timers|
    ensures forall i :: 0 <= i < p ==> timers[i].time >= t
    ensures p < |timers| ==> timers[p].time < t
  {
    if timers == [] || timers[0].time < t then 0 else 1 + InsertPos(timers[1..], t)
  }

  function InsertTimer(timers: seq<Entry>, e: Entry): seq<Entry> {
    var p := InsertPos(timers, e.time);
    timers[..p] + [e] + timers[p..]
  }

  /** Index of the timer holding `id`, or the number of timers. */
  function Find(timers: seq<Entry>, id: TaskId): (p: nat)
    ensures p <= |timers|
    ensures p < |timers| ==> timers[p].job == Some(id)
    ensures forall i :: 0 <= i < p ==> timers[i].job != Some(id)
  {
    if timers == [] || timers[0].job == Some(id) then 0 else 1 + Find(timers[1..], id)
  }

  function Without(timers: seq<Entry>, p: nat): seq<Entry>
    requires p < |timers|
  {
    timers[..p] + timers[p + 1..]
  }

  /**
   The loop of `delay`, from an entry to the front of the vector: at every place the later
   of the two neighbours goes forward, all the way to the front.
   */
  function Walk(front: seq<Entry>, e: Entry): seq<Entry> {
    if front == [] then [e]
    else
      var n, x := |front| - 1, front[|front| - 1];
      if e.time > x.time then Walk(front[..n], e) + [x] else Walk(front[..n], x) + [e]
  }

  function Push(p: Pool, id: TaskId): Pool {
    p.(tasks := p.tasks + [id])
  }

  function PushDelayed(p: Pool, t: Time, id: TaskId): Pool {
    p.(timers := InsertTimer(p.timers, Entry(t, Some(id))))
  }

  function Delay(p: Pool, id: TaskId, t: Time): Pool {
    var k := Find(p.timers, id);
    if k == |p.timers| then p else p.(timers := Walk(p.timers[..k], Entry(t, Some(id))) + p.timers[k + 1..])
  }

  function Cancel(p: Pool, id: TaskId): (Pool, bool) {
    var k := Find(p.timers, id);
    if k == |p.timers| then (p, false) else (p.(timers := Without(p.timers, k)), true)
  }

  function PopById(p: Pool, id: TaskId): (Pool, Option<Entry>) {
    var k := Find(p.timers, id);
    if k == |p.timers| then (p, None)
    else (p.(timers := p.timers[k := p.timers[k].(job := None)]), Some(p.timers[k]))
  }

  predicate Ready(p: Pool, now: Time) {
    p.tasks != [] || (p.timers != [] && p.timers[|p.timers| - 1].time <= now)
  }

  function Pop(p: Pool, now: Time): (Pool, Popped) {
    if p.tasks != [] then (p.(tasks := p.tasks[1..]), Job(Some(p.tasks[0])))
    else if p.timers != [] && p.timers[|p.timers| - 1].time <= now then
      (p.(timers := p.timers[..|p.timers| - 1]), Job(p.timers[|p.timers| - 1].job))
    else (p, Nothing)
  }

  function Next(p: Pool): Option<Time> {
    if p.timers == [] then None else Some(p.timers[|p.timers| - 1].time)
  }

  // ----- Order of the timers -----

  lemma SortedConcat(a: seq<Entry>, b: seq<Entry>)
    ensures Sorted(a + b) <==>
      Sorted(a) && Sorted(b) && (a == [] || b == [] || a[|a| - 1].time >= b[0].time)
  {
    if Sorted(a + b) {
      forall i, j | 0 <= i < j < |a|
        ensures a[i].time >= a[j].time
      {
        assert (a + b)[i] == a[i] && (a + b)[j] == a[j];
      }
      forall i, j | 0 <= i < j < |b|
        ensures b[i].time >= b[j].time
      {
        assert (a + b)[|a| + i] == b[i] && (a + b)[|a| + j] == b[j];
      }
      if a != [] && b != [] {
        assert (a + b)[|a| - 1] == a[|a| - 1] && (a + b)[|a|] == b[0];
      }
    }
  }

  lemma InsertKeepsOrder(timers: seq<Entry>, e: Entry)
    requires Sorted(timers)
    ensures Sorted(InsertTimer(timers, e))
  {
    var p := InsertPos(timers, e.time);
    var a, b := timers[..p], timers[p..];
    assert timers == a + b;
    SortedConcat(a, b);
    SortedConcat(a, [e]);
    SortedConcat(a + [e], b);
  }

  lemma AppendOrder(a: seq<Entry>, y: Entry)
    requires Sorted(a) && a != [] && a[|a| - 1].time >= y.time
    ensures Sorted(a + [y]) && (a + [y])[|a|] == y
  {
  }

  lemma FrontOrder(front: seq<Entry>)
    requires Sorted(front) && front != []
    ensures Sorted(front[..|front| - 1])
    ensures |front| > 1 ==> front[|front| - 2].time >= front[|front| - 1].time
  {
  }

  lemma {:induction false} WalkKeepsOrder(front: seq<Entry>, e: Entry)
    requires Sorted(front)
    ensures var r := Walk(front, e);
      && |r| == |front| + 1
      && Sorted(r)
      && r[|front|].time == (if front == [] || e.time <= front[|front| - 1].time then e.time else front[|front| - 1].time)
  {
    if front != [] {
      FrontOrder(front);
      var n, x := |front| - 1, front[|front| - 1];
      var first, last := if e.time > x.time then e else x, if e.time > x.time then x else e;
      WalkKeepsOrder(front[..n], first);
      hide Sorted;
      AppendOrder(Walk(front[..n], first), last);
    }
  }

  lemma SplitOrder(timers: seq<Entry>, k: nat)
    requires Sorted(timers) && k < |timers|
    ensures Sorted(timers[..k]) && Sorted(timers[k + 1..])
    ensures 0 < k && k + 1 < |timers| ==> timers[..k][k - 1].time >= timers[k + 1..][0].time
  {
  }

  /**
   `delay` keeps the order exactly when the new deadline is not before the one of the
   timer behind it: the loop only ever moves an entry towards the front.
   */
  lemma DelayKeepsOrderIff(p: Pool, id: TaskId, t: Time)
    requires Sorted(p.timers)
    ensures var k := Find(p.timers, id);
      Sorted(Delay(p, id, t).timers) <==> (k + 1 >= |p.timers| || t >= p.timers[k + 1].time)
  {
    var k := Find(p.timers, id);
    if k < |p.timers| {
      var a, b, e := p.timers[..k], p.timers[k + 1..], Entry(t, Some(id));
      SplitOrder(p.timers, k);
      WalkKeepsOrder(a, e);
      SortedConcat(Walk(a, e), b);
    }
  }

  /** Putting a deadline off never disturbs the order. */
  lemma DelayLaterKeepsOrder(p: Pool, id: TaskId, t: Time)
    requires Sorted(p.timers)
    requires forall e :: e in p.timers && e.job == Some(id) ==> e.time <= t
    ensures Sorted(Delay(p, id, t).timers)
  {
    DelayKeepsOrderIff(p, id, t);
    var k := Find(p.timers, id);
    if k < |p.timers| {
      assert p.timers[k] in p.timers;
    }
  }

  /** A pool for which bringing a deadline forward leaves a due timer unseen. */
  lemma DelayEarlierHidesTimer()
    ensures var p := Pool([], [Entry(20, Some(1)), Entry(10, Some(2))]);
      Sorted(p.timers) && var q := Delay(p, 1, 0);
      Pop(q, 5).1 == Nothing && Entry(0, Some(1)) in q.timers
  {
    var ts := [Entry(20, Some(1)), Entry(10, Some(2))];
    assert Find(ts, 1) == 0;
    var q := Delay(Pool([], ts), 1, 0);
    assert q.timers == [Entry(0, Some(1)), Entry(10, Some(2))];
    assert q.timers[0] == Entry(0, Some(1));
  }

  /** In a sorted pool `ready` sees every due timer, and `pop` has something to hand out exactly then. */
  lemma ReadySeesDueTimers(p: Pool, now: Time)
    requires Sorted(p.timers)
    ensures Ready(p, now) <==> p.tasks != [] || exists e :: e in p.timers && e.time <= now
    ensures Ready(p, now) <==> Pop(p, now).1.Job?
  {
    if p.timers != [] {
      assert p.timers[|p.timers| - 1] in p.timers;
    }
  }

  /** With no immediate job waiting, `pop` takes exactly one timer, one with the earliest deadline, and it is due. */
  lemma PopEarliest(p: Pool, now: Time)
    requires Sorted(p.timers) && p.tasks == [] && Pop(p, now).1.Job?
    ensures var e := p.timers[|p.timers| - 1];
      && Pop(p, now).1 == Job(e.job)
      && p.timers == Pop(p, now).0.timers + [e]
      && e.time <= now
      && forall o :: o in p.timers ==> e.time <= o.time
    ensures Sorted(Pop(p, now).0.timers)
  {
    var n := |p.timers| - 1;
    var e := p.timers[n];
    assert p.timers == p.timers[..n] + [e];
    SortedConcat(p.timers[..n], [e]);
    assert Pop(p, now).1 == Job(e.job);
  }

  /**
   `pop(task_id)` keeps the slot. In a pool of any size, the next `pop()` at `now` then hands out
   a null job exactly when no immediate job waits and the slot is the last one, and due.
   */
  lemma PopByIdLeavesHole(p: Pool, id: TaskId, now: Time)
    requires NoHoles(p.timers)
    ensures var (q, r) := PopById(p, id);
      && |q.timers| == |p.timers|
      && (Sorted(p.timers) ==> Sorted(q.timers))
      && (NoHoles(q.timers) <==> r.None?)
      && (Pop(q, now).1 == Job(None)
          <==> r.Some? && p.tasks == [] && Find(p.timers, id) == |p.timers| - 1 && r.value.time <= now)
  {
    var k, n := Find(p.timers, id), |p.timers|;
    if k < n {
      assert PopById(p, id).0.timers[k].job == None;
    }
    if n > 0 {
      assert p.timers[n - 1] in p.timers;
    }
  }

  // ----- Whole runs -----

  datatype Event =
    | DoPush(id: TaskId)
    | DoPushDelayed(t: Time, id: TaskId)
    | DoDelay(id: TaskId, t: Time)
    | DoCancel(id: TaskId)
    | DoPop(now: Time)
    | DoPopById(id: TaskId)

  /** A pool with its past: what was pushed, handed out, cancelled and taken by id, and how many null jobs were handed out. */
  datatype Hist = Hist(pool: Pool, pushed: set<TaskId>, pushedNow: seq<TaskId>,
                       popped: seq<TaskId>, poppedNow: seq<TaskId>, cancelled: set<TaskId>,
                       taken: set<TaskId>, nulls: nat)

  const START := Hist(Pool([], []), {}, [], [], [], {}, {}, 0)

  /** Every job object is pushed once. */
  predicate Legal(h: Hist, e: Event) {
    match e
    case DoPush(id) => id !in h.pushed
    case DoPushDelayed(_, id) => id !in h.pushed
    case _ => true
  }

  function Step(h: Hist, e: Event): Hist {
    match e
    case DoPush(id) =>
      h.(pool := Push(h.pool, id), pushed := h.pushed + {id}, pushedNow := h.pushedNow + [id])
    case DoPushDelayed(t, id) =>
      h.(pool := PushDelayed(h.pool, t, id), pushed := h.pushed + {id})
    case DoDelay(id, t) => h.(pool := Delay(h.pool, id, t))
    case DoCancel(id) =>
      var (q, ok) := Cancel(h.pool, id);
      h.(pool := q, cancelled := if ok then h.cancelled + {id} else h.cancelled)
    case DoPop(now) =>
      var (q, r) := Pop(h.pool, now);
      var h' := h.(pool := q);
      if r == Nothing then h'
      else if r.job == None then h'.(nulls := h.nulls + 1)
      else h'.(popped := h.popped + [r.job.value],
               poppedNow := if h.pool.tasks == [] then h.poppedNow else h.poppedNow + [r.job.value])
    case DoPopById(id) =>
      var (q, r) := PopById(h.pool, id);
      h.(pool := q, taken := if r.Some? then h.taken + {id} else h.taken)
  }

  function Run(events: seq<Event>): Hist {
    if events == [] then START else Step(Run(events[..|events| - 1]), events[|events| - 1])
  }

  predicate LegalRun(events: seq<Event>) {
    events == [] ||
    (LegalRun(events[..|events| - 1]) && Legal(Run(events[..|events| - 1]), events[|events| - 1]))
  }

  /** Every `delay` of the run meets the condition of DelayKeepsOrderIff. */
  predicate OrderlyRun(events: seq<Event>) {
    events == [] ||
    (OrderlyRun(events[..|events| - 1])
    && (events[|events| - 1].DoDelay? ==> Orderly(Run(events[..|events| - 1]).pool, events[|events| - 1].id, events[|events| - 1].t)))
  }

  predicate Orderly(p: Pool, id: TaskId, t: Time) {
    var k := Find(p.timers, id);
    k + 1 >= |p.timers| || t >= p.timers[k + 1].time
  }

  lemma {:induction false} RunKeepsOrder(events: seq<Event>)
    requires OrderlyRun(events)
    ensures Sorted(Run(events).pool.timers)
  {
    if events != [] {
      var init := events[..|events| - 1];
      RunKeepsOrder(init);
      var p := Run(init).pool;
      match events[|events| - 1]
      case DoPush(_) =>
      case DoPushDelayed(t, id) => InsertKeepsOrder(p.timers, Entry(t, Some(id)));
      case DoDelay(id, t) => DelayKeepsOrderIff(p, id, t);
      case DoCancel(id) =>
      case DoPop(_) =>
      case DoPopById(_) =>
    }
  }

  /** How often `id` occurs in a queue. */
  function Count(s: seq<TaskId>, id: TaskId): nat {
    if s == [] then 0 else (if s[0] == id then 1 else 0) + Count(s[1..], id)
  }

  function TimerCount(timers: seq<Entry>, j: Option<TaskId>): nat {
    if timers == [] then 0 else (if timers[0].job == j then 1 else 0) + TimerCount(timers[1..], j)
  }

  function Held(p: Pool, id: TaskId): nat {
    Count(p.tasks, id) + TimerCount(p.timers, Some(id))
  }

  function Holes(p: Pool): nat {
    TimerCount(p.timers, None)
  }

  /** Conservation: a pushed job is, exactly once, still held, handed out, cancelled, or taken by id. */
  predicate Conserved(h: Hist, id: TaskId) {
    Held(h.pool, id) + Count(h.popped, id) + (if id in h.cancelled then 1 else 0) + (if id in h.taken then 1 else 0)
      == (if id in h.pushed then 1 else 0)
  }

  /** Every job taken by id has left a hole, or has already cost a null job. */
  predicate HolesPaid(h: Hist) {
    Holes(h.pool) + h.nulls == |h.taken|
  }

  lemma {:induction false} CountConcat(a: seq<TaskId>, b: seq<TaskId>, id: TaskId)
    ensures Count(a + b, id) == Count(a, id) + Count(b, id)
  {
    if a == [] {
      assert a + b == b;
    } else {
      CountConcat(a[1..], b, id);
      assert (a + b)[1..] == a[1..] + b;
    }
  }

  lemma {:induction false} TimerCountConcat(a: seq<Entry>, b: seq<Entry>, j: Option<TaskId>)
    ensures TimerCount(a + b, j) == TimerCount(a, j) + TimerCount(b, j)
  {
    if a == [] {
      assert a + b == b;
    } else {
      TimerCountConcat(a[1..], b, j);
      assert (a + b)[1..] == a[1..] + b;
    }
  }

  lemma InsertCount(timers: seq<Entry>, e: Entry, j: Option<TaskId>)
    ensures TimerCount(InsertTimer(timers, e), j) == TimerCount(timers, j) + TimerCount([e], j)
  {
    var p := InsertPos(timers, e.time);
    assert timers == timers[..p] + timers[p..];
    TimerCountConcat(timers[..p], timers[p..], j);
    TimerCountConcat(timers[..p] + [e], timers[p..], j);
    TimerCountConcat(timers[..p], [e], j);
  }

  lemma {:induction false} WalkCount(front: seq<Entry>, e: Entry, j: Option<TaskId>)
    ensures TimerCount(Walk(front, e), j) == TimerCount(front, j) + TimerCount([e], j)
    ensures NoHoles(front) && e.job.Some? ==> NoHoles(Walk(front, e))
  {
    if front != [] {
      var n, x := |front| - 1, front[|front| - 1];
      assert front == front[..n] + [x];
      TimerCountConcat(front[..n], [x], j);
      if e.time > x.time {
        WalkCount(front[..n], e, j);
        TimerCountConcat(Walk(front[..n], e), [x], j);
      } else {
        WalkCount(front[..n], x, j);
        TimerCountConcat(Walk(front[..n], x), [e], j);
      }
    }
  }

  lemma SplitCount(timers: seq<Entry>, k: nat, j: Option<TaskId>)
    requires k < |timers|
    ensures TimerCount(timers, j)
      == TimerCount(timers[..k], j) + TimerCount([timers[k]], j) + TimerCount(timers[k + 1..], j)
    ensures TimerCount(Without(timers, k), j) == TimerCount(timers[..k], j) + TimerCount(timers[k + 1..], j)
  {
    assert timers == timers[..k] + ([timers[k]] + timers[k + 1..]);
    TimerCountConcat(timers[..k], [timers[k]] + timers[k + 1..], j);
    TimerCountConcat([timers[k]], timers[k + 1..], j);
    TimerCountConcat(timers[..k], timers[k + 1..], j);
  }

  lemma DelayedCount(p: Pool, job: TaskId, t: Time, j: Option<TaskId>)
    requires Find(p.timers, job) < |p.timers|
    ensures TimerCount(Delay(p, job, t).timers, j) == TimerCount(p.timers, j)
  {
    var k, e := Find(p.timers, job), Entry(t, Some(job));
    SplitCount(p.timers, k, j);
    WalkCount(p.timers[..k], e, j);
    TimerCountConcat(Walk(p.timers[..k], e), p.timers[k + 1..], j);
    TimerCountOne(e, j);
    TimerCountOne(p.timers[k], j);
  }

  lemma DelayCount(p: Pool, job: TaskId, t: Time, id: TaskId)
    ensures Held(Delay(p, job, t), id) == Held(p, id) && Holes(Delay(p, job, t)) == Holes(p)
    ensures NoHoles(p.timers) ==> NoHoles(Delay(p, job, t).timers)
  {
    var k := Find(p.timers, job);
    if k < |p.timers| {
      var e := Entry(t, Some(job));
      DelayedCount(p, job, t, Some(id));
      DelayedCount(p, job, t, None);
      WalkCount(p.timers[..k], e, None);
    }
  }

  lemma CancelCount(p: Pool, job: TaskId, id: TaskId)
    ensures var (q, ok) := Cancel(p, job);
      Held(q, id) == Held(p, id) - (if ok && id == job then 1 else 0) && Holes(q) == Holes(p)
    ensures NoHoles(p.timers) ==> NoHoles(Cancel(p, job).0.timers)
  {
    var k := Find(p.timers, job);
    if k < |p.timers| {
      SplitCount(p.timers, k, Some(id));
      SplitCount(p.timers, k, None);
    }
  }

  lemma PopCount(p: Pool, now: Time, id: TaskId)
    ensures var (q, r) := Pop(p, now);
      && Held(q, id) == Held(p, id) - (if r == Job(Some(id)) then 1 else 0)
      && Holes(q) == Holes(p) - (if r == Job(None) then 1 else 0)
      && (NoHoles(p.timers) ==> NoHoles(q.timers) && (r.Job? ==> r.job.Some?))
  {
    if p.tasks == [] && Ready(p, now) {
      var n := |p.timers| - 1;
      SplitCount(p.timers, n, Some(id));
      SplitCount(p.timers, n, None);
      assert p.timers[n] in p.timers;
      assert Without(p.timers, n) == p.timers[..n];
    }
  }

  lemma PopByIdCount(p: Pool, job: TaskId, id: TaskId)
    ensures var (q, r) := PopById(p, job);
      && Held(q, id) == Held(p, id) - (if r.Some? && id == job then 1 else 0)
      && Holes(q) == Holes(p) + (if r.Some? then 1 else 0)
  {
    var k := Find(p.timers, job);
    if k < |p.timers| {
      EmptiedCount(p.timers, k, Some(id));
      EmptiedCount(p.timers, k, None);
    }
  }

  lemma EmptiedCount(timers: seq<Entry>, k: nat, j: Option<TaskId>)
    requires k < |timers|
    ensures TimerCount(timers[k := timers[k].(job := None)], j) + TimerCount([timers[k]], j)
         == TimerCount(timers, j) + (if j == None then 1 else 0)
  {
    var after := timers[k := timers[k].(job := None)];
    SplitCount(timers, k, j);
    SplitCount(after, k, j);
    assert after[..k] == timers[..k] && after[k + 1..] == timers[k + 1..];
    TimerCountOne(after[k], j);
  }

  lemma StepConserves(h: Hist, e: Event, id: TaskId)
    requires Conserved(h, id) && Legal(h, e)
    ensures Conserved(Step(h, e), id)
  {
    hide Held, Holes, NoHoles, Count, Push, PushDelayed, Delay, Cancel, Pop, PopById;
    match e
    case DoPush(job) => PushConserves(h, job, id);
    case DoPushDelayed(t, job) => PushDelayedConserves(h, t, job, id);
    case DoDelay(job, t) => DelayCount(h.pool, job, t, id);
    case DoCancel(job) => CancelCount(h.pool, job, id);
    case DoPop(now) => PopConserves(h, now, id);
    case DoPopById(job) => PopByIdCount(h.pool, job, id);
  }

  /** Nothing but `pop(task_id)` makes a hole, and nothing but a null job uses one up. */
  lemma StepKeepsHolesPaid(h: Hist, e: Event)
    requires HolesPaid(h) && Legal(h, e) && (e.DoPopById? ==> Conserved(h, e.id))
    ensures HolesPaid(Step(h, e))
  {
    hide Held, Holes, Count, Push, PushDelayed, Delay, Cancel, Pop, PopById;
    match e
    case DoPush(job) => PushHoles(h.pool, job);
    case DoPushDelayed(t, job) => PushDelayedHoles(h.pool, t, job);
    case DoDelay(job, t) => DelayCount(h.pool, job, t, 0);
    case DoCancel(job) => CancelCount(h.pool, job, 0);
    case DoPop(now) => PopCount(h.pool, now, 0);
    case DoPopById(job) => PopByIdCount(h.pool, job, job);
  }

  lemma PushHoles(p: Pool, job: TaskId)
    ensures Holes(Push(p, job)) == Holes(p)
  {
  }

  lemma PushDelayedHoles(p: Pool, t: Time, job: TaskId)
    ensures Holes(PushDelayed(p, t, job)) == Holes(p)
  {
    InsertCount(p.timers, Entry(t, Some(job)), None);
    TimerCountOne(Entry(t, Some(job)), None);
  }

  lemma PushConserves(h: Hist, job: TaskId, id: TaskId)
    requires Conserved(h, id) && job !in h.pushed
    ensures Conserved(Step(h, DoPush(job)), id)
  {
    CountConcat(h.pool.tasks, [job], id);
    CountOne(job, id);
    hide Count, TimerCount;
  }

  lemma CountOne(job: TaskId, id: TaskId)
    ensures Count([job], id) == if job == id then 1 else 0
  {
  }

  lemma PushDelayedConserves(h: Hist, t: Time, job: TaskId, id: TaskId)
    requires Conserved(h, id) && job !in h.pushed
    ensures Conserved(Step(h, DoPushDelayed(t, job)), id)
  {
    var e := Entry(t, Some(job));
    InsertCount(h.pool.timers, e, Some(id));
    TimerCountOne(e, Some(id));
    hide Count, TimerCount, InsertTimer;
  }

  lemma TimerCountOne(e: Entry, j: Option<TaskId>)
    ensures TimerCount([e], j) == if e.job == j then 1 else 0
  {
  }

  lemma PopConserves(h: Hist, now: Time, id: TaskId)
    requires Conserved(h, id)
    ensures Conserved(Step(h, DoPop(now)), id)
  {
    hide Held, Holes, NoHoles, Pop, Count;
    PopCount(h.pool, now, id);
    var r := Pop(h.pool, now).1;
    if r.Job? && r.job.Some? {
      CountConcat(h.popped, [r.job.value], id);
      CountOne(r.job.value, id);
    }
  }

  lemma {:induction false} RunConserves(events: seq<Event>, id: TaskId)
    requires LegalRun(events)
    ensures Conserved(Run(events), id) && HolesPaid(Run(events))
  {
    if events != [] {
      var init, e := events[..|events| - 1], events[|events| - 1];
      RunConserves(init, id);
      if e.DoPopById? {
        RunConserves(init, e.id);
      }
      hide Conserved, HolesPaid, Step, Legal;
      StepConserves(Run(init), e, id);
      StepKeepsHolesPaid(Run(init), e);
    }
  }

  lemma {:induction false} RunIsFifo(events: seq<Event>)
    ensures Run(events).pushedNow == Run(events).poppedNow + Run(events).pool.tasks
  {
    if events != [] {
      var init := events[..|events| - 1];
      RunIsFifo(init);
      StepIsFifo(Run(init), events[|events| - 1]);
    }
  }

  lemma StepIsFifo(h: Hist, e: Event)
    requires h.pushedNow == h.poppedNow + h.pool.tasks
    ensures Step(h, e).pushedNow == Step(h, e).poppedNow + Step(h, e).pool.tasks
  {
    if h.pool.tasks != [] {
      assert h.pool.tasks == [h.pool.tasks[0]] + h.pool.tasks[1..];
    }
  }

  lemma {:induction false} CountMember(s: seq<TaskId>, id: TaskId)
    ensures Count(s, id) > 0 <==> id in s
  {
    if s != [] {
      CountMember(s[1..], id);
    }
  }

  /**
   In every run of all six operations a job is handed out at most once, by one way only, a job
   whose `cancel` returned true never, and immediate jobs come out in the order they went in.
   There are never more null jobs than jobs taken by id, and none without one.
   */
  lemma RunsAreSafe(events: seq<Event>, id: TaskId, now: Time)
    requires LegalRun(events)
    ensures var h := Run(events);
      && Count(h.popped, id) <= 1
      && (id in h.cancelled ==> id !in h.popped && id !in h.taken && Held(h.pool, id) == 0)
      && (id in h.taken ==> id !in h.popped && Held(h.pool, id) == 0)
      && (id in h.pushed <==> id in h.popped || id in h.cancelled || id in h.taken || Held(h.pool, id) > 0)
      && h.poppedNow <= h.pushedNow
      && h.nulls <= |h.taken|
      && (Pop(h.pool, now).1 == Job(None) ==> h.nulls < |h.taken|)
  {
    RunConserves(events, id);
    RunIsFifo(events);
    CountMember(Run(events).popped, id);
    PopCount(Run(events).pool, now, id);
  }

  // ----- What the operations find -----

  lemma {:induction false} FindIff(timers: seq<Entry>, id: TaskId)
    ensures Find(timers, id) < |timers| <==> TimerCount(timers, Some(id)) > 0
    ensures Find(timers, id) < |timers| ==> timers[Find(timers, id)].job == Some(id)
  {
    if timers != [] {
      FindIff(timers[1..], id);
    }
  }

  /** `cancel` returns true, and `pop(task_id)` something, exactly when the job is among the timers. */
  lemma FoundIff(p: Pool, id: TaskId)
    ensures Cancel(p, id).1 <==> TimerCount(p.timers, Some(id)) > 0
    ensures PopById(p, id).1.Some? <==> TimerCount(p.timers, Some(id)) > 0
    ensures PopById(p, id).1.Some? ==> PopById(p, id).1.value.job == Some(id) && PopById(p, id).1.value in p.timers
  {
    FindIff(p.timers, id);
  }

  /** How often a timer occurs, deadline and job. */
  function DueCount(timers: seq<Entry>, e: Entry): nat {
    if timers == [] then 0 else (if timers[0] == e then 1 else 0) + DueCount(timers[1..], e)
  }

  lemma {:induction false} DueCountConcat(a: seq<Entry>, b: seq<Entry>, e: Entry)
    ensures DueCount(a + b, e) == DueCount(a, e) + DueCount(b, e)
  {
    if a == [] {
      assert a + b == b;
    } else {
      DueCountConcat(a[1..], b, e);
      assert (a + b)[1..] == a[1..] + b;
    }
  }

  lemma {:induction false} WalkDue(front: seq<Entry>, e: Entry, x: Entry)
    ensures DueCount(Walk(front, e), x) == DueCount(front, x) + DueCount([e], x)
  {
    if front != [] {
      var n, last := |front| - 1, front[|front| - 1];
      assert front == front[..n] + [last];
      DueCountConcat(front[..n], [last], x);
      if e.time > last.time {
        WalkDue(front[..n], e, x);
        DueCountConcat(Walk(front[..n], e), [last], x);
      } else {
        WalkDue(front[..n], last, x);
        DueCountConcat(Walk(front[..n], last), [e], x);
      }
    }
  }

  /** Adding a timer adds exactly it; delaying one replaces exactly its deadline. */
  lemma TimersAfter(p: Pool, id: TaskId, t: Time, x: Entry)
    ensures DueCount(PushDelayed(p, t, id).timers, x) == DueCount(p.timers, x) + (if x == Entry(t, Some(id)) then 1 else 0)
    ensures TimerCount(p.timers, Some(id)) > 0 ==>
      exists before :: before in p.timers && before.job == Some(id)
        && DueCount(Delay(p, id, t).timers, x) + (if x == before then 1 else 0)
           == DueCount(p.timers, x) + (if x == Entry(t, Some(id)) then 1 else 0)
    ensures TimerCount(p.timers, Some(id)) == 0 ==> Delay(p, id, t) == p
  {
    InsertDue(p.timers, Entry(t, Some(id)), x);
    FindIff(p.timers, id);
    if Find(p.timers, id) < |p.timers| {
      DelayDue(p, id, t, x);
      assert p.timers[Find(p.timers, id)] in p.timers;
    }
  }

  lemma OneDue(e: Entry, x: Entry)
    ensures DueCount([e], x) == if x == e then 1 else 0
  {
  }

  lemma InsertDue(timers: seq<Entry>, e: Entry, x: Entry)
    ensures DueCount(InsertTimer(timers, e), x) == DueCount(timers, x) + (if x == e then 1 else 0)
  {
    hide DueCount;
    var k := InsertPos(timers, e.time);
    assert timers == timers[..k] + timers[k..];
    DueCountConcat(timers[..k], timers[k..], x);
    DueCountConcat(timers[..k] + [e], timers[k..], x);
    DueCountConcat(timers[..k], [e], x);
    OneDue(e, x);
  }

  lemma DelayDue(p: Pool, id: TaskId, t: Time, x: Entry)
    requires Find(p.timers, id) < |p.timers|
    ensures DueCount(Delay(p, id, t).timers, x) + (if x == p.timers[Find(p.timers, id)] then 1 else 0)
         == DueCount(p.timers, x) + (if x == Entry(t, Some(id)) then 1 else 0)
  {
    hide DueCount;
    var k, e := Find(p.timers, id), Entry(t, Some(id));
    assert p.timers == p.timers[..k] + ([p.timers[k]] + p.timers[k + 1..]);
    DueCountConcat(p.timers[..k], [p.timers[k]] + p.timers[k + 1..], x);
    DueCountConcat([p.timers[k]], p.timers[k + 1..], x);
    OneDue(p.timers[k], x);
    OneDue(e, x);
    WalkDue(p.timers[..k], e, x);
    DueCountConcat(Walk(p.timers[..k], e), p.timers[k + 1..], x);
  }

  // ----- The loops -----

  function Swapped(timers: seq<Entry>, it: nat): seq<Entry>
    requires 0 < it < |timers|
  {
    timers[it := timers[it - 1]][it - 1 := timers[it]]
  }

  lemma WalkStep(timers: seq<Entry>, it: nat)
    requires 0 < it < |timers|
    ensures var ts := if timers[it].time > timers[it - 1].time then Swapped(timers, it) else timers;
      Walk(timers[..it], timers[it]) + timers[it + 1..] == Walk(ts[..it - 1], ts[it - 1]) + ts[it..]
  {
    var ts := if timers[it].time > timers[it - 1].time then Swapped(timers, it) else timers;
    assert timers[..it][..it - 1] == ts[..it - 1];
    assert ts[it..] == [ts[it]] + timers[it + 1..];
  }

  class TaskPool {
    var tasks: seq<TaskId>
    var timers: seq<Entry>

    function State(): Pool
      reads this
    {
      Pool(tasks, timers)
    }

    constructor ()
      ensures State() == Pool([], [])
    {
      tasks, timers := [], [];
    }

    method PushTask(id: TaskId)
      modifies this
      ensures State() == Push(old(State()), id)
    {
      tasks := tasks + [id];
    }

    method PushTimer(t: Time, id: TaskId)
      modifies this
      ensures State() == PushDelayed(old(State()), t, id)
    {
      var it := 0;
      while it < |timers|
        invariant it <= |timers| && timers == old(timers)
        invariant InsertPos(timers, t) == it + InsertPos(timers[it..], t)
      {
        if timers[it].time < t {
          break;
        }
        assert timers[it..][1..] == timers[it + 1..];
        it := it + 1;
      }
      timers := timers[..it] + [Entry(t, Some(id))] + timers[it..];
    }

    method FindTimer(id: TaskId) returns (it: nat)
      ensures it == Find(timers, id)
    {
      it := 0;
      while it < |timers| && timers[it].job != Some(id)
        invariant it <= |timers|
        invariant Find(timers, id) == it + Find(timers[it..], id)
      {
        assert timers[it..][1..] == timers[it + 1..];
        it := it + 1;
      }
    }

    method DelayTask(id: TaskId, t: Time)
      modifies this
      ensures State() == Delay(old(State()), id, t)
    {
      var it := FindTimer(id);
      if it == |timers| {
        return;
      }
      timers := timers[it := Entry(t, Some(id))];
      ghost var goal := Walk(timers[..it], timers[it]) + timers[it + 1..];
      while it > 0
        invariant 0 <= it < |timers| && tasks == old(tasks)
        invariant Walk(timers[..it], timers[it]) + timers[it + 1..] == goal
      {
        WalkStep(timers, it);
        if timers[it].time > timers[it - 1].time {
          timers := Swapped(timers, it);
        }
        it := it - 1;
      }
      assert timers == [timers[0]] + timers[1..];
    }

    method CancelTask(id: TaskId) returns (ok: bool)
      modifies this
      ensures (State(), ok) == Cancel(old(State()), id)
    {
      var it := FindTimer(id);
      ok := it < |timers|;
      if ok {
        timers := timers[..it] + timers[it + 1..];
      }
    }

    method PopTimer(id: TaskId) returns (e: Option<Entry>)
      modifies this
      ensures (State(), e) == PopById(old(State()), id)
    {
      var it := FindTimer(id);
      if it == |timers| {
        return None;
      }
      e := Some(timers[it]);
      timers := timers[it := timers[it].(job := None)];
    }

    method PopTask(now: Time) returns (r: Popped)
      modifies this
      ensures (State(), r) == Pop(old(State()), now)
    {
      if tasks != [] {
        r := Job(Some(tasks[0]));
        tasks := tasks[1..];
        return;
      }
      if timers != [] && timers[|timers| - 1].time <= now {
        r := Job(timers[|timers| - 1].job);
        timers := timers[..|timers| - 1];
        return;
      }
      r := Nothing;
    }
  }
}

/**
 The thread pool of src/thread_pool.h as an interleaving of its workers and its callers.
 One action is one section that no other thread can observe half done: a call of the task
 pool is atomic under the pool's own mutex, `push`, `pushDelayed` and `stop` hold `_lock`
 from start to end, and a worker's locked section is several actions that keep `lock`.
 */
module ThreadPools {
  import opened Wrappers
  import opened TaskPools

  /** Where a worker stands in `_main`. */
  datatype Phase =
    | Checking                        // about to read _continue
    | Popping                         // about to call pop()
    | Running(job: TaskId)
    | Locking                         // nothing to do, about to take _lock
    | Holding                         // has _lock, about to call ready()
    | NotReady                        // ready() was false, about to read _continue
    | Deciding                        // about to call next()
    | Parking(until: Option<Time>)    // about to block
    | Waiting(until: Option<Time>)    // blocked on the condition variable
    | Waking                          // notified or timed out, needs _lock again
    | Draining                        // after the loop, about to call pop()
    | LastRun(job: TaskId)
    | Done

  datatype Threads = Threads(
    pool: Pool, cont: bool, lock: Option<nat>, workers: seq<Phase>, now: Time,
    pushed: set<TaskId>,     // every job handed to the pool
    early: set<TaskId>,      // immediate jobs pushed before stop()
    loud: set<TaskId>,       // timers added through the overload that notifies, and not brought forward since
    orderly: bool,           // every delay so far kept the timers in order
    cancelled: set<TaskId>,
    finished: seq<TaskId>)

  datatype Action =
    | Tick(t: Time)
    | PushJob(id: TaskId, w: nat)          // w is the worker that notify_one picks
    | PushLoud(t: Time, id: TaskId)        // pushDelayed(f, duration): notify_all
    | PushQuiet(t: Time, id: TaskId)       // pushDelayed(pair): no notification
    | DelayJob(id: TaskId, t: Time)
    | CancelJob(id: TaskId)
    | Stop
    | Work(w: nat)

  function Started(threads: nat): Threads {
    Threads(Pool([], []), true, None, seq(threads, _ => Checking), 0, {}, {}, {}, true, {}, [])
  }

  function WakeAll(ws: seq<Phase>): (r: seq<Phase>)
    ensures |r| == |ws|
    ensures forall i :: 0 <= i < |ws| ==> r[i] == if ws[i].Waiting? then Waking else ws[i]
  {
    seq(|ws|, i requires 0 <= i < |ws| => if ws[i].Waiting? then Waking else ws[i])
  }

  predicate NobodyWaits(ws: seq<Phase>) {
    forall i :: 0 <= i < |ws| ==> !ws[i].Waiting?
  }

  function SetPhase(s: Threads, w: nat, p: Phase): Threads
    requires w < |s.workers|
  {
    s.(workers := s.workers[w := p])
  }

  /** The state after an action, or None when the action cannot happen. */
  function Apply(s: Threads, a: Action): Option<Threads> {
    match a
    case Tick(t) => if t >= s.now then Some(s.(now := t)) else None
    case PushJob(id, w) =>
      if s.lock.Some? || id in s.pushed then None
      else
        var s' := s.(pool := Push(s.pool, id), pushed := s.pushed + {id},
                     early := if s.cont then s.early + {id} else s.early);
        if w < |s.workers| && s.workers[w].Waiting? then Some(SetPhase(s', w, Waking))
        else if NobodyWaits(s.workers) then Some(s')
        else None
    case PushLoud(t, id) =>
      if s.lock.Some? || id in s.pushed then None
      else Some(s.(pool := PushDelayed(s.pool, t, id), pushed := s.pushed + {id},
                   loud := s.loud + {id}, workers := WakeAll(s.workers)))
    case PushQuiet(t, id) =>
      if s.lock.Some? || id in s.pushed then None
      else Some(s.(pool := PushDelayed(s.pool, t, id), pushed := s.pushed + {id}))
    case DelayJob(id, t) =>
      // `delay` notifies nobody: a deadline brought forward is no longer one that was announced.
      var k := Find(s.pool.timers, id);
      if k == |s.pool.timers| then Some(s)
      else Some(s.(pool := Delay(s.pool, id, t), orderly := s.orderly && Orderly(s.pool, id, t),
                   loud := if t >= s.pool.timers[k].time then s.loud else s.loud - {id}))
    case CancelJob(id) =>
      var (q, ok) := Cancel(s.pool, id);
      Some(s.(pool := q, cancelled := if ok then s.cancelled + {id} else s.cancelled))
    case Stop =>
      if s.lock.Some? then None else Some(s.(cont := false, workers := WakeAll(s.workers)))
    case Work(w) => if w < |s.workers| then WorkStep(s, w) else None
  }

  /** What one action of a worker changes: where it stands, the lock, the pool and the finished jobs. */
  datatype Turn = Turn(next: Phase, lock: Option<nat>, pool: Pool, finished: seq<TaskId>)

  /** One action of worker `w`, by the line of `_main` it stands on. */
  function TurnOf(s: Threads, w: nat): Option<Turn>
    requires w < |s.workers|
  {
    var p := s.workers[w];
    var t := Turn(p, s.lock, s.pool, s.finished);
    match p
    case Checking => Some(t.(next := if s.cont then Popping else Draining))
    case Popping =>
      var (q, r) := Pop(s.pool, s.now);
      if r == Nothing then Some(t.(next := Locking))
      else if r.job.Some? then Some(t.(next := Running(r.job.value), pool := q))
      else None
    case Running(id) => Some(t.(next := Checking, finished := s.finished + [id]))
    case Locking => if s.lock.None? then Some(t.(next := Holding, lock := Some(w))) else None
    case Holding => Some(if Ready(s.pool, s.now) then t.(next := Checking, lock := None) else t.(next := NotReady))
    case NotReady => Some(if s.cont then t.(next := Deciding) else t.(next := Draining, lock := None))
    case Deciding => Some(t.(next := Parking(Next(s.pool))))
    case Parking(d) => Some(t.(next := Waiting(d), lock := None))
    case Waiting(_) => Some(t.(next := Waking))  // time-out or spurious wake-up
    case Waking => if s.lock.None? then Some(t.(next := Checking)) else None
    case Draining =>
      var (q, r) := Pop(s.pool, s.now);
      if r == Nothing then Some(t.(next := Done))
      else if r.job.Some? then Some(t.(next := LastRun(r.job.value), pool := q))
      else None
    case LastRun(id) => Some(t.(next := Draining, finished := s.finished + [id]))
    case Done => None
  }

  function WorkStep(s: Threads, w: nat): Option<Threads>
    requires w < |s.workers|
  {
    var t := TurnOf(s, w);
    if t.None? then None
    else Some(s.(workers := s.workers[w := t.value.next], lock := t.value.lock, pool := t.value.pool, finished := t.value.finished))
  }

  ghost predicate Reaches(threads: nat, actions: seq<Action>, s: Threads) {
    RunAll(Started(threads), actions) == Some(s)
  }

  function RunAll(s: Threads, actions: seq<Action>): Option<Threads> {
    if actions == [] then Some(s)
    else
      var before := RunAll(s, actions[..|actions| - 1]);
      if before.None? then None else Apply(before.value, actions[|actions| - 1])
  }

  // ----- Mutual exclusion -----

  predicate Locked(p: Phase) {
    p.Holding? || p.NotReady? || p.Deciding? || p.Parking?
  }

  predicate Leaving(p: Phase) {
    p.Draining? || p.LastRun? || p.Done?
  }

  /** The lock is held exactly by the worker inside the locked section, and behind `ready()` no immediate job waits. */
  ghost predicate LockAt(s: Threads, w: nat)
    requires w < |s.workers|
  {
    var p := s.workers[w];
    && (Locked(p) <==> s.lock == Some(w))
    && (p.NotReady? || p.Deciding? || p.Parking? ==> s.pool.tasks == [])
    && (p.Deciding? || p.Parking? ==> s.cont)
    && (Leaving(p) ==> !s.cont)
  }

  ghost predicate LockInv(s: Threads) {
    forall w :: 0 <= w < |s.workers| ==> LockAt(s, w)
  }

  lemma OwnLockKept(s: Threads, w: nat)
    requires w < |s.workers| && LockAt(s, w) && WorkStep(s, w).Some?
    ensures LockAt(WorkStep(s, w).value, w)
  {
    hide Pop, Next;
    TurnPool(s, w);
  }

  lemma OtherLockKept(s: Threads, w: nat, v: nat)
    requires w < |s.workers| && v < |s.workers| && v != w
    requires LockAt(s, w) && LockAt(s, v) && WorkStep(s, w).Some?
    ensures LockAt(WorkStep(s, w).value, v)
  {
    WorkFrame(s, w);
    TurnLock(s, w);
    NothingAdded(s.pool, s.now);
    hide TurnOf, Pop;
  }

  lemma NothingAdded(p: Pool, now: Time)
    ensures p.tasks == [] ==> Pop(p, now).0.tasks == []
  {
  }

  /** A worker takes the lock for itself when it is free, or gives up its own. */
  lemma TurnLock(s: Threads, w: nat)
    requires w < |s.workers| && LockAt(s, w) && TurnOf(s, w).Some?
    ensures var l := TurnOf(s, w).value.lock;
      l == s.lock || (s.lock == None && l == Some(w)) || (s.lock == Some(w) && l == None)
  {
    hide Pop;
  }

  lemma CallerLockKept(s: Threads, a: Action, v: nat)
    requires v < |s.workers| && LockAt(s, v) && !a.Work? && Apply(s, a).Some?
    ensures v < |Apply(s, a).value.workers| && LockAt(Apply(s, a).value, v)
  {
  }

  lemma LockInvKept(s: Threads, a: Action)
    requires LockInv(s) && Apply(s, a).Some?
    ensures LockInv(Apply(s, a).value)
  {
    forall v | 0 <= v < |s.workers|
      ensures LockAt(Apply(s, a).value, v)
    {
      match a
      case Work(w) =>
        if v == w {
          OwnLockKept(s, w);
        } else {
          OtherLockKept(s, w, v);
        }
      case _ => CallerLockKept(s, a, v);
    }
  }

  // ----- Wake-ups -----

  /** Before stop(), a waiting immediate job means that some worker is not blocked. */
  ghost predicate JobsWake(s: Threads) {
    s.cont && s.pool.tasks != [] ==> exists w :: 0 <= w < |s.workers| && !s.workers[w].Waiting?
  }

  /** A blocking call until `d` ends no later than every timer added through the notifying overload. */
  ghost predicate InTime(d: Option<Time>, s: Threads) {
    forall e :: e in s.pool.timers && e.job.Some? && e.job.value in s.loud ==> d.Some? && d.value <= e.time
  }

  /** A worker that is blocked, or about to be, has a deadline no later than any notifying timer. */
  ghost predicate TimersWake(s: Threads) {
    forall w :: 0 <= w < |s.workers| && (s.workers[w].Waiting? || s.workers[w].Parking?) && s.orderly ==>
      InTime(s.workers[w].until, s)
  }

  /** Timers are in order as long as delays keep it, hold jobs, and only jobs that were pushed. */
  ghost predicate TimersOk(s: Threads) {
    && (s.orderly ==> Sorted(s.pool.timers))
    && (forall e :: e in s.pool.timers ==> e.job.Some? && e.job.value in s.pushed)
    && s.loud <= s.pushed
  }

  lemma JobsWakeKept(s: Threads, a: Action)
    requires |s.workers| > 0 && LockInv(s) && JobsWake(s) && Apply(s, a).Some?
    ensures JobsWake(Apply(s, a).value)
  {
    var t := Apply(s, a).value;
    if t.cont && t.pool.tasks != [] {
      match a
      case Work(w) =>
        assert LockAt(s, w);
        assert !t.workers[w].Waiting?;
      case PushJob(_, w) => assert !t.workers[if w < |s.workers| then w else 0].Waiting?;
      case PushLoud(_, _) => assert !t.workers[0].Waiting?;
      case Stop =>
      case _ => assert t.workers == s.workers;
    }
  }

  lemma {:induction false} WalkMembers(front: seq<Entry>, e: Entry, x: Entry)
    ensures x in Walk(front, e) <==> x in front || x == e
  {
    if front != [] {
      var n, y := |front| - 1, front[|front| - 1];
      assert front == front[..n] + [y];
      if e.time > y.time {
        WalkMembers(front[..n], e, x);
      } else {
        WalkMembers(front[..n], y, x);
      }
    }
  }

  /** A delayed pool holds the delayed entry and old ones, nothing else. */
  lemma DelayMembers(p: Pool, id: TaskId, t: Time, x: Entry)
    requires x in Delay(p, id, t).timers
    ensures x in p.timers || (x == Entry(t, Some(id)) && Find(p.timers, id) < |p.timers|)
    ensures exists o :: o in p.timers && o.job == x.job
  {
    var k := Find(p.timers, id);
    if k < |p.timers| {
      WalkMembers(p.timers[..k], Entry(t, Some(id)), x);
      assert p.timers[k] in p.timers;
    }
    assert x in p.timers || x == Entry(t, Some(id));
  }

  lemma InsertMembers(timers: seq<Entry>, e: Entry, x: Entry)
    ensures x in InsertTimer(timers, e) <==> x in timers || x == e
  {
    var p := InsertPos(timers, e.time);
    assert timers == timers[..p] + timers[p..];
  }

  lemma AddedTimersOk(s: Threads, t: Time, id: TaskId)
    requires TimersOk(s)
    ensures var ts := PushDelayed(s.pool, t, id).timers;
      (s.orderly ==> Sorted(ts)) && forall e :: e in ts ==> e.job.Some? && e.job.value in s.pushed + {id}
  {
    var e := Entry(t, Some(id));
    if s.orderly {
      InsertKeepsOrder(s.pool.timers, e);
    }
    forall x | x in InsertTimer(s.pool.timers, e)
      ensures x.job.Some? && x.job.value in s.pushed + {id}
    {
      InsertMembers(s.pool.timers, e, x);
    }
  }

  lemma DelayedTimersOk(s: Threads, id: TaskId, t: Time)
    requires TimersOk(s)
    ensures var ts := Delay(s.pool, id, t).timers;
      && (s.orderly && Orderly(s.pool, id, t) ==> Sorted(ts))
      && forall e :: e in ts ==> e.job.Some? && e.job.value in s.pushed
  {
    if s.orderly {
      DelayKeepsOrderIff(s.pool, id, t);
    }
    forall x | x in Delay(s.pool, id, t).timers
      ensures x.job.Some? && x.job.value in s.pushed
    {
      DelayMembers(s.pool, id, t, x);
    }
  }

  lemma FewerTimersOk(timers: seq<Entry>, k: nat)
    requires k < |timers|
    ensures Sorted(timers) ==> Sorted(Without(timers, k)) && Sorted(timers[..|timers| - 1])
    ensures forall e :: e in Without(timers, k) || e in timers[..|timers| - 1] ==> e in timers
  {
  }

  lemma TimersOkKept(s: Threads, a: Action)
    requires TimersOk(s) && Apply(s, a).Some?
    ensures TimersOk(Apply(s, a).value)
  {
    hide Sorted, PushDelayed, Delay, Cancel, Find, WorkStep;
    match a
    case PushLoud(t, id) => AddedTimersOk(s, t, id);
    case PushQuiet(t, id) => AddedTimersOk(s, t, id);
    case DelayJob(id, t) => DelayedTimersOk(s, id, t);
    case CancelJob(id) => CancelledTimersOk(s, id);
    case Work(w) => WorkTimersOk(s, w);
    case _ =>
  }

  lemma CancelledTimersOk(s: Threads, id: TaskId)
    requires TimersOk(s)
    ensures var ts := Cancel(s.pool, id).0.timers;
      (s.orderly ==> Sorted(ts)) && forall e :: e in ts ==> e.job.Some? && e.job.value in s.pushed
  {
    var k := Find(s.pool.timers, id);
    if k < |s.pool.timers| {
      FewerTimersOk(s.pool.timers, k);
    }
  }

  lemma WorkTimersOk(s: Threads, w: nat)
    requires TimersOk(s) && w < |s.workers| && WorkStep(s, w).Some?
    ensures TimersOk(WorkStep(s, w).value)
  {
    WorkFrame(s, w);
    FewerAfterPop(s);
    hide WorkStep, Sorted, Pop;
  }

  lemma FewerAfterPop(s: Threads)
    ensures Sorted(s.pool.timers) ==> Sorted(Pop(s.pool, s.now).0.timers)
    ensures forall e :: e in Pop(s.pool, s.now).0.timers ==> e in s.pool.timers
  {
    if s.pool.timers != [] {
      FewerTimersOk(s.pool.timers, 0);
    }
  }

  lemma DelayInTime(s: Threads, id: TaskId, t: Time, d: Option<Time>)
    requires InTime(d, s) && Apply(s, DelayJob(id, t)).Some?
    ensures InTime(d, Apply(s, DelayJob(id, t)).value)
  {
    forall x | x in Delay(s.pool, id, t).timers
      ensures x in s.pool.timers || (x == Entry(t, Some(id)) && Find(s.pool.timers, id) < |s.pool.timers|)
    {
      DelayMembers(s.pool, id, t, x);
    }
    var k := Find(s.pool.timers, id);
    if k < |s.pool.timers| {
      assert s.pool.timers[k] in s.pool.timers && s.pool.timers[k].job == Some(id);
    }
  }

  lemma QuietInTime(s: Threads, t: Time, id: TaskId, d: Option<Time>)
    requires InTime(d, s) && s.loud <= s.pushed && Apply(s, PushQuiet(t, id)).Some?
    ensures InTime(d, Apply(s, PushQuiet(t, id)).value)
  {
    var e := Entry(t, Some(id));
    forall x | x in InsertTimer(s.pool.timers, e)
      ensures x in s.pool.timers || x == e
    {
      InsertMembers(s.pool.timers, e, x);
    }
  }

  lemma FewerInTime(s: Threads, t: Threads, d: Option<Time>)
    requires InTime(d, s) && t.loud == s.loud
    requires forall e :: e in t.pool.timers ==> e in s.pool.timers
    ensures InTime(d, t)
  {
  }

  lemma NextInTime(s: Threads)
    requires TimersOk(s) && s.orderly
    ensures InTime(Next(s.pool), s)
  {
  }

  /** A caller's action leaves a deadline in time, or nobody holds one afterwards. */
  lemma CallerInTime(s: Threads, a: Action, w: nat)
    requires LockInv(s) && TimersOk(s) && !a.Work? && Apply(s, a).Some? && w < |s.workers|
    requires (s.workers[w].Waiting? || s.workers[w].Parking?) && s.orderly ==> InTime(s.workers[w].until, s)
    ensures var t := Apply(s, a).value;
      (t.workers[w].Waiting? || t.workers[w].Parking?) && t.orderly ==> InTime(t.workers[w].until, t)
  {
    var t := Apply(s, a).value;
    assert LockAt(s, w);
    if (t.workers[w].Waiting? || t.workers[w].Parking?) && t.orderly {
      assert t.workers[w] == s.workers[w];
      var d := s.workers[w].until;
      match a
      case PushQuiet(time, id) => QuietInTime(s, time, id, d);
      case DelayJob(id, time) => DelayInTime(s, id, time, d);
      case CancelJob(id) =>
        if Find(s.pool.timers, id) < |s.pool.timers| {
          FewerTimersOk(s.pool.timers, Find(s.pool.timers, id));
        }
        FewerInTime(s, t, d);
      case _ => FewerInTime(s, t, d);
    }
  }

  /** A worker that is blocked, or about to be, was so before, or has just asked for the next deadline. */
  lemma TurnBlocks(s: Threads, w: nat)
    requires w < |s.workers| && TurnOf(s, w).Some?
    ensures var p := TurnOf(s, w).value.next;
      p.Waiting? || p.Parking? ==>
        p.until == Next(s.pool) || ((s.workers[w].Waiting? || s.workers[w].Parking?) && p.until == s.workers[w].until)
  {
    hide Pop, Next;
  }

  lemma WorkInTime(s: Threads, v: nat, w: nat)
    requires TimersOk(s) && v < |s.workers| && w < |s.workers| && WorkStep(s, v).Some?
    requires (s.workers[w].Waiting? || s.workers[w].Parking?) && s.orderly ==> InTime(s.workers[w].until, s)
    ensures var t := WorkStep(s, v).value;
      (t.workers[w].Waiting? || t.workers[w].Parking?) && t.orderly ==> InTime(t.workers[w].until, t)
  {
    var t := WorkStep(s, v).value;
    WorkFrame(s, v);
    FewerAfterPop(s);
    TurnBlocks(s, v);
    hide TurnOf, Pop, Sorted, InTime;
    if (t.workers[w].Waiting? || t.workers[w].Parking?) && t.orderly {
      var d := t.workers[w].until;
      if s.orderly {
        NextInTime(s);
      }
      FewerInTime(s, t, d);
    }
  }

  lemma TimersWakeKept(s: Threads, a: Action)
    requires LockInv(s) && TimersOk(s) && TimersWake(s) && Apply(s, a).Some?
    ensures TimersWake(Apply(s, a).value)
  {
    forall w | 0 <= w < |s.workers|
      ensures var t := Apply(s, a).value;
        (t.workers[w].Waiting? || t.workers[w].Parking?) && t.orderly ==> InTime(t.workers[w].until, t)
    {
      match a
      case Work(v) => WorkInTime(s, v, w);
      case _ => CallerInTime(s, a, w);
    }
  }

  // ----- Every job runs once -----

  function RunCount(ws: seq<Phase>, id: TaskId): nat {
    if ws == [] then 0
    else (if ws[0] == Running(id) || ws[0] == LastRun(id) then 1 else 0) + RunCount(ws[1..], id)
  }

  /** Each pushed job is, exactly once, waiting in the pool, running, finished or cancelled. */
  ghost predicate Accounted(s: Threads, id: TaskId) {
    Held(s.pool, id) + RunCount(s.workers, id) + Count(s.finished, id) + (if id in s.cancelled then 1 else 0)
      == (if id in s.pushed then 1 else 0)
  }

  /** Immediate jobs pushed before stop() are not timers, and none is left once a worker is done. */
  ghost predicate EarlyInv(s: Threads, id: TaskId) {
    id in s.early ==>
      && id in s.pushed
      && id !in s.cancelled
      && TimerCount(s.pool.timers, Some(id)) == 0
      && ((exists w :: 0 <= w < |s.workers| && s.workers[w].Done?) ==> Count(s.pool.tasks, id) == 0)
  }

  lemma {:induction false} RunCountUpdate(ws: seq<Phase>, w: nat, p: Phase, id: TaskId)
    requires w < |ws|
    ensures RunCount(ws[w := p], id) + RunCount([ws[w]], id) == RunCount(ws, id) + RunCount([p], id)
  {
    if w > 0 {
      RunCountUpdate(ws[1..], w - 1, p, id);
      assert ws[w := p][1..] == ws[1..][w - 1 := p];
    } else {
      assert ws[w := p][1..] == ws[1..];
    }
  }

  lemma {:induction false} RunCountWake(ws: seq<Phase>, id: TaskId)
    ensures RunCount(WakeAll(ws), id) == RunCount(ws, id)
  {
    if ws != [] {
      RunCountWake(ws[1..], id);
      assert WakeAll(ws)[1..] == WakeAll(ws[1..]);
    }
  }

  lemma {:induction false} NobodyRuns(n: nat, id: TaskId)
    ensures RunCount(Started(n).workers, id) == 0
  {
    if n > 0 {
      NobodyRuns(n - 1, id);
      assert Started(n).workers[1..] == Started(n - 1).workers;
    }
  }

  function Busy(p: Phase, id: TaskId): nat {
    if p == Running(id) || p == LastRun(id) then 1 else 0
  }

  /** A worker's action touches the pool only by `pop`, and ends only when there is nothing left. */
  lemma TurnPool(s: Threads, w: nat)
    requires w < |s.workers| && TurnOf(s, w).Some?
    ensures var t := TurnOf(s, w).value;
      && (t.pool == s.pool || t.pool == Pop(s.pool, s.now).0)
      && (t.next.Done? ==> s.workers[w].Draining? && Pop(s.pool, s.now).1 == Nothing)
  {
  }

  lemma WorkFrame(s: Threads, w: nat)
    requires w < |s.workers| && WorkStep(s, w).Some?
    ensures var t := WorkStep(s, w).value;
      && t.workers == s.workers[w := t.workers[w]]
      && t.early == s.early && t.pushed == s.pushed && t.cancelled == s.cancelled
      && t.loud == s.loud && t.orderly == s.orderly && t.cont == s.cont && t.now == s.now
      && (t.pool == s.pool || t.pool == Pop(s.pool, s.now).0)
      && (t.workers[w].Done? ==> s.workers[w].Draining? && Pop(s.pool, s.now).1 == Nothing)
  {
    TurnPool(s, w);
    hide TurnOf, Pop;
  }

  lemma WorkHeld(s: Threads, w: nat, id: TaskId)
    requires TimersOk(s) && w < |s.workers| && WorkStep(s, w).Some?
    ensures var t := WorkStep(s, w).value;
      Held(t.pool, id) + Busy(t.workers[w], id) + Count(t.finished, id)
        == Held(s.pool, id) + Busy(s.workers[w], id) + Count(s.finished, id)
  {
    TurnHeld(s, w, id);
    hide TurnOf, Held, Count, Busy;
  }

  lemma TurnHeld(s: Threads, w: nat, id: TaskId)
    requires NoHoles(s.pool.timers) && w < |s.workers| && TurnOf(s, w).Some?
    ensures var t := TurnOf(s, w).value;
      Held(t.pool, id) + Busy(t.next, id) + Count(t.finished, id)
        == Held(s.pool, id) + Busy(s.workers[w], id) + Count(s.finished, id)
  {
    PopCount(s.pool, s.now, id);
    match s.workers[w]
    case Running(job) => CountConcat(s.finished, [job], id); CountOne(job, id);
    case LastRun(job) => CountConcat(s.finished, [job], id); CountOne(job, id);
    case _ =>
    hide Held, Pop, Count;
  }

  lemma WorkAccounted(s: Threads, w: nat, id: TaskId)
    requires TimersOk(s) && Accounted(s, id) && w < |s.workers| && WorkStep(s, w).Some?
    ensures Accounted(WorkStep(s, w).value, id)
  {
    var t := WorkStep(s, w).value;
    WorkFrame(s, w);
    WorkHeld(s, w, id);
    hide WorkStep, TimersOk;
    RunCountUpdate(s.workers, w, t.workers[w], id);
    assert RunCount([s.workers[w]], id) == Busy(s.workers[w], id);
    assert RunCount([t.workers[w]], id) == Busy(t.workers[w], id);
  }

  lemma PushAccounted(s: Threads, job: TaskId, w: nat, id: TaskId)
    requires Accounted(s, id) && Apply(s, PushJob(job, w)).Some?
    ensures Accounted(Apply(s, PushJob(job, w)).value, id)
  {
    CountConcat(s.pool.tasks, [job], id);
    CountOne(job, id);
    hide Count, TimerCount;
    if w < |s.workers| {
      RunCountUpdate(s.workers, w, Waking, id);
    }
  }

  lemma AccountedKept(s: Threads, a: Action, id: TaskId)
    requires TimersOk(s) && Accounted(s, id) && Apply(s, a).Some?
    ensures Accounted(Apply(s, a).value, id)
  {
    if a.PushJob? {
      PushAccounted(s, a.id, a.w, id);
    } else if a.Work? {
      WorkAccounted(s, a.w, id);
    } else {
      CallerAccounted(s, a, id);
    }
  }

  lemma CallerAccounted(s: Threads, a: Action, id: TaskId)
    requires !a.PushJob? && !a.Work? && Accounted(s, id) && Apply(s, a).Some?
    ensures Accounted(Apply(s, a).value, id)
  {
    hide Count, Held;
    match a
    case Tick(_) =>
    case PushLoud(t, job) => TimerHeld(s.pool, t, job, id); RunCountWake(s.workers, id);
    case PushQuiet(t, job) => TimerHeld(s.pool, t, job, id);
    case DelayJob(job, t) => DelayAccounted(s, job, t, id);
    case CancelJob(job) => CancelAccounted(s, job, id);
    case Stop => RunCountWake(s.workers, id);
  }

  lemma TimerHeld(p: Pool, t: Time, job: TaskId, id: TaskId)
    ensures Held(PushDelayed(p, t, job), id) == Held(p, id) + (if job == id then 1 else 0)
  {
    InsertCount(p.timers, Entry(t, Some(job)), Some(id));
    TimerCountOne(Entry(t, Some(job)), Some(id));
  }

  lemma DelayAccounted(s: Threads, job: TaskId, t: Time, id: TaskId)
    requires Accounted(s, id)
    ensures Accounted(s.(pool := Delay(s.pool, job, t)), id)
  {
    DelayCount(s.pool, job, t, id);
  }

  lemma CancelAccounted(s: Threads, job: TaskId, id: TaskId)
    requires Accounted(s, id)
    ensures var (q, ok) := Cancel(s.pool, job);
      Accounted(s.(pool := q, cancelled := if ok then s.cancelled + {job} else s.cancelled), id)
  {
    CancelCount(s.pool, job, id);
  }

  lemma CallerFrame(s: Threads, a: Action)
    requires !a.PushJob? && !a.Work? && Apply(s, a).Some?
    ensures var t := Apply(s, a).value;
      && t.pool.tasks == s.pool.tasks && t.early == s.early && s.pushed <= t.pushed
      && |t.workers| == |s.workers|
      && forall w :: 0 <= w < |s.workers| && t.workers[w].Done? ==> s.workers[w].Done?
  {
  }

  lemma DelayedNotTimer(p: Pool, job: TaskId, t: Time, id: TaskId)
    requires TimerCount(p.timers, Some(id)) == 0
    ensures TimerCount(Delay(p, job, t).timers, Some(id)) == 0
  {
    DelayCount(p, job, t, id);
  }

  lemma CancelledNotTimer(p: Pool, job: TaskId, id: TaskId)
    requires TimerCount(p.timers, Some(id)) == 0
    ensures TimerCount(Cancel(p, job).0.timers, Some(id)) == 0
    ensures Cancel(p, job).1 ==> job != id
  {
    CancelCount(p, job, id);
  }

  lemma AddedTimerCount(p: Pool, t: Time, job: TaskId, id: TaskId)
    ensures TimerCount(PushDelayed(p, t, job).timers, Some(id)) == TimerCount(p.timers, Some(id)) + (if job == id then 1 else 0)
  {
    InsertCount(p.timers, Entry(t, Some(job)), Some(id));
    TimerCountOne(Entry(t, Some(job)), Some(id));
  }

  /** A timer operation neither adds `id` as a timer nor cancels it, when it is no timer and not new. */
  lemma CallerTimers(s: Threads, a: Action, id: TaskId)
    requires !a.PushJob? && !a.Work? && Apply(s, a).Some?
    requires id in s.pushed && TimerCount(s.pool.timers, Some(id)) == 0 && id !in s.cancelled
    ensures TimerCount(Apply(s, a).value.pool.timers, Some(id)) == 0 && id !in Apply(s, a).value.cancelled
  {
    hide TimerCount, Cancel, Delay, PushDelayed;
    match a
    case Tick(_) =>
    case PushLoud(t, job) => AddedTimerCount(s.pool, t, job, id);
    case PushQuiet(t, job) => AddedTimerCount(s.pool, t, job, id);
    case DelayJob(job, t) => DelayedNotTimer(s.pool, job, t, id);
    case CancelJob(job) => CancelledNotTimer(s.pool, job, id);
    case Stop =>
  }

  lemma EarlyKept(s: Threads, a: Action, id: TaskId)
    requires LockInv(s) && TimersOk(s) && Accounted(s, id) && EarlyInv(s, id) && Apply(s, a).Some?
    ensures EarlyInv(Apply(s, a).value, id)
  {
    if a.PushJob? {
      EarlyPush(s, a.id, a.w, id);
    } else if a.Work? {
      EarlyWork(s, a.w, id);
    } else {
      CallerFrame(s, a);
      if id in s.early {
        CallerTimers(s, a, id);
      }
      hide Apply, LockInv, TimersOk, Accounted;
      var t := Apply(s, a).value;
      if w :| 0 <= w < |t.workers| && t.workers[w].Done? {
        assert s.workers[w].Done?;
      }
    }
  }

  lemma EarlyPush(s: Threads, job: TaskId, w: nat, id: TaskId)
    requires LockInv(s) && Accounted(s, id) && EarlyInv(s, id) && Apply(s, PushJob(job, w)).Some?
    ensures EarlyInv(Apply(s, PushJob(job, w)).value, id)
  {
    var t := Apply(s, PushJob(job, w)).value;
    CountConcat(s.pool.tasks, [job], id);
    if v :| 0 <= v < |t.workers| && t.workers[v].Done? {
      assert LockAt(s, v) && s.workers[v].Done?;
    }
  }

  lemma DoneDrained(s: Threads, w: nat)
    requires w < |s.workers| && WorkStep(s, w).Some?
    ensures WorkStep(s, w).value.workers[w].Done? ==> WorkStep(s, w).value.pool == s.pool && s.pool.tasks == []
  {
  }

  lemma WorkParts(s: Threads, w: nat, id: TaskId)
    requires TimersOk(s) && w < |s.workers| && WorkStep(s, w).Some?
    ensures var t := WorkStep(s, w).value;
      && Count(t.pool.tasks, id) <= Count(s.pool.tasks, id)
      && TimerCount(t.pool.timers, Some(id)) <= TimerCount(s.pool.timers, Some(id))
      && (t.workers[w].Done? ==> t.pool.tasks == [])
      && t.early == s.early && t.pushed == s.pushed && t.cancelled == s.cancelled
  {
    WorkFrame(s, w);
    PopParts(s.pool, s.now, id);
    hide WorkStep, TimersOk;
    DoneDrained(s, w);
  }

  lemma EarlyWork(s: Threads, w: nat, id: TaskId)
    requires TimersOk(s) && EarlyInv(s, id) && w < |s.workers| && WorkStep(s, w).Some?
    ensures EarlyInv(WorkStep(s, w).value, id)
  {
    var t := WorkStep(s, w).value;
    WorkParts(s, w, id);
    if v :| 0 <= v < |t.workers| && t.workers[v].Done? {
      if v != w {
        assert s.workers[v].Done?;
      }
    }
  }

  lemma PopParts(p: Pool, now: Time, id: TaskId)
    requires NoHoles(p.timers)
    ensures var q := Pop(p, now).0;
      Count(q.tasks, id) <= Count(p.tasks, id) && TimerCount(q.timers, Some(id)) <= TimerCount(p.timers, Some(id))
    ensures Pop(p, now).1 == Nothing ==> p.tasks == []
  {
    PopCount(p, now, id);
  }

  // ----- Whole runs -----

  ghost predicate Inv(s: Threads, id: TaskId) {
    LockInv(s) && TimersOk(s) && JobsWake(s) && TimersWake(s) && Accounted(s, id) && EarlyInv(s, id)
  }

  lemma InvStart(threads: nat, id: TaskId)
    requires threads > 0
    ensures |Started(threads).workers| == threads && Inv(Started(threads), id)
  {
    NobodyRuns(threads, id);
  }

  lemma SameWorkers(s: Threads, a: Action)
    requires Apply(s, a).Some?
    ensures |Apply(s, a).value.workers| == |s.workers|
  {
  }

  lemma InvStep(s: Threads, a: Action, id: TaskId)
    requires |s.workers| > 0 && Inv(s, id) && Apply(s, a).Some?
    ensures |Apply(s, a).value.workers| == |s.workers| && Inv(Apply(s, a).value, id)
  {
    hide Apply, LockInv, TimersOk, JobsWake, TimersWake, Accounted, EarlyInv;
    SameWorkers(s, a);
    LockInvKept(s, a);
    TimersOkKept(s, a);
    JobsWakeKept(s, a);
    TimersWakeKept(s, a);
    AccountedKept(s, a, id);
    EarlyKept(s, a, id);
  }

  lemma {:induction false} InvHolds(threads: nat, actions: seq<Action>, s: Threads, id: TaskId)
    requires threads > 0 && Reaches(threads, actions, s)
    ensures |s.workers| == threads && Inv(s, id)
  {
    if actions == [] {
      InvStart(threads, id);
    } else {
      var init, a := actions[..|actions| - 1], actions[|actions| - 1];
      var before := RunAll(Started(threads), init).value;
      InvHolds(threads, init, before, id);
      InvStep(before, a, id);
    }
  }

  /** No lost wake-up, in any interleaving of any number of workers and callers. */
  lemma NoLostWakeUp(threads: nat, actions: seq<Action>, s: Threads)
    requires threads > 0 && Reaches(threads, actions, s)
    ensures s.cont && s.pool.tasks != [] ==> exists w :: 0 <= w < |s.workers| && !s.workers[w].Waiting?
    ensures s.orderly ==> forall w :: 0 <= w < |s.workers| && s.workers[w].Waiting? ==> InTime(s.workers[w].until, s)
  {
    InvHolds(threads, actions, s, 0);
  }

  /** A job runs at most once, a cancelled one never, and nobody runs two jobs under one name. */
  lemma RunsOnce(threads: nat, actions: seq<Action>, s: Threads, id: TaskId)
    requires threads > 0 && Reaches(threads, actions, s)
    ensures Count(s.finished, id) + RunCount(s.workers, id) <= 1
    ensures id in s.cancelled ==> Count(s.finished, id) + RunCount(s.workers, id) == 0
  {
    InvHolds(threads, actions, s, id);
  }

  /** When `join` returns, every immediate job pushed before `stop` has run, exactly once. */
  lemma JoinMeansFinished(threads: nat, actions: seq<Action>, s: Threads, id: TaskId)
    requires threads > 0 && Reaches(threads, actions, s)
    requires forall w :: 0 <= w < |s.workers| ==> s.workers[w].Done?
    requires id in s.early
    ensures Count(s.finished, id) == 1
  {
    InvHolds(threads, actions, s, id);
    AllDoneRunNothing(s.workers, id);
    assert s.workers[0].Done?;
  }

  lemma {:induction false} AllDoneRunNothing(ws: seq<Phase>, id: TaskId)
    requires forall w :: 0 <= w < |ws| ==> ws[w].Done?
    ensures RunCount(ws, id) == 0
  {
    if ws != [] {
      AllDoneRunNothing(ws[1..], id);
    }
  }

  // ----- Ready jobs are taken -----

  /** How many of its own actions a worker needs before it asks for a job. */
  function ActionsToPop(p: Phase): nat {
    match p
    case Checking => 1
    case Running(_) => 2
    case Holding => 2
    case Waking => 2
    case Locking => 3
    case _ => 0
  }

  predicate OnItsWay(p: Phase) {
    p.Checking? || p.Running? || p.Holding? || p.Waking? || p.Locking?
  }

  /** While a job is ready a worker that is neither blocked nor about to be gets closer to asking for it with every action of its own. */
  lemma OneCloser(s: Threads, w: nat)
    requires LockInv(s) && s.cont && Ready(s.pool, s.now) && w < |s.workers| && OnItsWay(s.workers[w])
    requires s.lock == None || s.lock == Some(w)
    ensures WorkStep(s, w).Some?
    ensures var t := WorkStep(s, w).value;
      && (OnItsWay(t.workers[w]) || t.workers[w].Popping?)
      && ActionsToPop(t.workers[w]) + 1 == ActionsToPop(s.workers[w])
      && t.pool == s.pool && t.cont && t.now == s.now && (t.lock == None || t.lock == Some(w))
  {
    assert LockAt(s, w);
  }

  predicate DueFirst(s: Threads, e: Entry) {
    e.time <= s.now && (s.orderly ==> forall o :: o in s.pool.timers ==> e.time <= o.time)
  }

  /** Asked for, a ready job is taken: the first immediate one, else a timer that is due and has the earliest deadline. */
  lemma ReadyIsTaken(s: Threads, w: nat)
    requires TimersOk(s) && w < |s.workers| && s.workers[w].Popping? && Ready(s.pool, s.now)
    ensures WorkStep(s, w).Some? && WorkStep(s, w).value.workers[w].Running?
    ensures var job := WorkStep(s, w).value.workers[w].job;
      if s.pool.tasks != [] then job == s.pool.tasks[0]
      else exists e :: e in s.pool.timers && e.job == Some(job) && DueFirst(s, e)
  {
    PopHasJob(s);
    if s.pool.tasks == [] {
      var e := s.pool.timers[|s.pool.timers| - 1];
      assert e in s.pool.timers;
      if s.orderly {
        PopEarliest(s.pool, s.now);
      }
    }
  }

  predicate NeedsLock(p: Phase) {
    p.Locking? || p.Waking?
  }

  /** A worker cannot go on exactly when it is done or needs a lock that is held. */
  lemma CannotGoOnIff(s: Threads, w: nat)
    requires TimersOk(s) && w < |s.workers|
    ensures WorkStep(s, w).None? <==> s.workers[w].Done? || (NeedsLock(s.workers[w]) && s.lock.Some?)
  {
    PopHasJob(s);
    hide Pop, TimersOk, Ready, Next;
  }

  /** `cancel` takes a waiting timer away, and then the job is cancelled; any other id changes nothing. */
  lemma CancelTakesTimer(s: Threads, id: TaskId)
    ensures Apply(s, CancelJob(id)).Some?
    ensures var t, waits := Apply(s, CancelJob(id)).value, TimerCount(s.pool.timers, Some(id)) > 0;
      && t.cancelled == (if waits then s.cancelled + {id} else s.cancelled)
      && TimerCount(t.pool.timers, Some(id)) == TimerCount(s.pool.timers, Some(id)) - (if waits then 1 else 0)
      && (!waits ==> t == s)
  {
    FoundIff(s.pool, id);
    var k := Find(s.pool.timers, id);
    if k < |s.pool.timers| {
      SplitCount(s.pool.timers, k, Some(id));
      TimerCountOne(s.pool.timers[k], Some(id));
    }
  }

  // ----- After stop -----

  /** What is kept after `stop`: nobody is blocked, and a held lock has a holder. */
  ghost predicate Stopping(s: Threads) {
    && LockInv(s) && TimersOk(s)
    && (!s.cont ==> NobodyWaits(s.workers))
    && (s.lock.Some? ==> s.lock.value < |s.workers|)
  }

  lemma StoppingKept(s: Threads, a: Action)
    requires Stopping(s) && Apply(s, a).Some?
    ensures Stopping(Apply(s, a).value)
  {
    LockInvKept(s, a);
    TimersOkKept(s, a);
    hide TimersOk;
    if a.Work? {
      assert LockAt(s, a.w);
      StoppedTurn(s, a.w);
      WorkFrame(s, a.w);
    } else {
      hide LockInv, Delay, Cancel, Push, PushDelayed;
      CallerWaits(s, a);
    }
  }

  lemma StoppedTurn(s: Threads, w: nat)
    requires w < |s.workers| && LockAt(s, w) && TurnOf(s, w).Some?
    ensures !s.cont ==> !TurnOf(s, w).value.next.Waiting?
    ensures TurnOf(s, w).value.lock in {s.lock, None, Some(w)}
  {
    hide Pop;
  }

  lemma CallerWaits(s: Threads, a: Action)
    requires !a.Work? && Apply(s, a).Some? && (!s.cont ==> NobodyWaits(s.workers))
    ensures var t := Apply(s, a).value;
      && (!t.cont ==> NobodyWaits(t.workers)) && t.lock == s.lock && |t.workers| == |s.workers|
  {
  }

  lemma {:induction false} StoppingHolds(threads: nat, actions: seq<Action>, s: Threads)
    requires Reaches(threads, actions, s)
    ensures Stopping(s) && |s.workers| == threads
  {
    if actions != [] {
      var before := RunAll(Started(threads), actions[..|actions| - 1]).value;
      StoppingHolds(threads, actions[..|actions| - 1], before);
      StoppingKept(before, actions[|actions| - 1]);
      SameWorkers(before, actions[|actions| - 1]);
    }
  }

  /** After `stop` no worker is ever blocked. */
  lemma StopWakesAll(threads: nat, actions: seq<Action>, s: Threads)
    requires Reaches(threads, actions, s) && !s.cont
    ensures forall w :: 0 <= w < |s.workers| ==> !s.workers[w].Waiting?
  {
    StoppingHolds(threads, actions, s);
  }

  /** How many actions a worker has left at most, jobs aside, once the pool was stopped. */
  function Left(p: Phase): nat {
    match p
    case Popping => 5
    case Locking => 4
    case Holding => 3
    case Waking => 3
    case Running(_) => 3
    case Checking => 2
    case NotReady => 2
    case LastRun(_) => 2
    case Draining => 1
    case _ => 0
  }

  function LeftOf(ws: seq<Phase>): nat {
    if ws == [] then 0 else Left(ws[0]) + LeftOf(ws[1..])
  }

  /** An upper bound on everything the workers can still do. */
  function Remaining(s: Threads): nat {
    LeftOf(s.workers) + 2 * (|s.pool.tasks| + |s.pool.timers|)
  }

  lemma {:induction false} LeftUpdate(ws: seq<Phase>, w: nat, p: Phase)
    requires w < |ws|
    ensures LeftOf(ws[w := p]) + Left(ws[w]) == LeftOf(ws) + Left(p)
  {
    if w == 0 {
      assert ws[w := p][1..] == ws[1..];
    } else {
      LeftUpdate(ws[1..], w - 1, p);
      assert ws[w := p][1..] == ws[1..][w - 1 := p];
    }
  }

  lemma WorkUsesUp(s: Threads, w: nat)
    requires Stopping(s) && !s.cont && w < |s.workers| && WorkStep(s, w).Some?
    ensures Remaining(WorkStep(s, w).value) < Remaining(s)
  {
    assert LockAt(s, w);
    LeftUpdate(s.workers, w, TurnOf(s, w).value.next);
    TurnUsesUp(s, w);
    hide TurnOf, Left, LeftOf, LockInv, TimersOk;
  }

  lemma TurnUsesUp(s: Threads, w: nat)
    requires w < |s.workers| && LockAt(s, w) && !s.cont && !s.workers[w].Waiting? && TurnOf(s, w).Some?
    ensures var t := TurnOf(s, w).value;
      Left(t.next) + 2 * (|t.pool.tasks| + |t.pool.timers|)
        < Left(s.workers[w]) + 2 * (|s.pool.tasks| + |s.pool.timers|)
  {
  }

  predicate AllDone(s: Threads) {
    forall w :: 0 <= w < |s.workers| ==> s.workers[w].Done?
  }

  /** As long as a worker is not done, some worker can act: whoever waits for the lock waits for one that can. */
  lemma SomeoneCanWork(s: Threads) returns (w: nat)
    requires Stopping(s) && !s.cont && !AllDone(s)
    ensures w < |s.workers| && WorkStep(s, w).Some?
  {
    var v: nat :| v < |s.workers| && !s.workers[v].Done?;
    assert LockAt(s, v);
    PopHasJob(s);
    if s.lock.Some? && (s.workers[v].Locking? || s.workers[v].Waking?) {
      w := s.lock.value;
      assert LockAt(s, w);
    } else {
      w := v;
    }
    hide LockInv, TimersOk, Pop;
  }

  lemma PopHasJob(s: Threads)
    requires TimersOk(s)
    ensures Pop(s.pool, s.now).1 != Nothing ==> Pop(s.pool, s.now).1.job.Some?
  {
    var n := |s.pool.timers|;
    if n > 0 {
      assert s.pool.timers[n - 1] in s.pool.timers;
    }
  }

  predicate OnlyWork(actions: seq<Action>) {
    forall i :: 0 <= i < |actions| ==> actions[i].Work?
  }

  lemma {:induction false} RunCons(s: Threads, a: Action, rest: seq<Action>)
    requires Apply(s, a).Some?
    ensures RunAll(s, [a] + rest) == RunAll(Apply(s, a).value, rest)
  {
    var all := [a] + rest;
    if rest == [] {
      assert all[..|all| - 1] == [];
      assert all == [a];
    } else {
      RunCons(s, a, rest[..|rest| - 1]);
      assert all[..|all| - 1] == [a] + rest[..|rest| - 1];
    }
  }

  lemma Finish(s: Threads) returns (more: seq<Action>)
    requires Stopping(s) && !s.cont
    ensures OnlyWork(more) && |more| <= Remaining(s) && RunAll(s, more).Some? && AllDone(RunAll(s, more).value)
    decreases Remaining(s)
  {
    if AllDone(s) {
      more := [];
    } else {
      var w := SomeoneCanWork(s);
      var t := WorkStep(s, w).value;
      assert Apply(s, Work(w)) == Some(t);
      WorkUsesUp(s, w);
      StoppingKept(s, Work(w));
      WorkFrame(s, w);
      hide Stopping, WorkStep, Remaining;
      var rest := Finish(t);
      RunCons(s, Work(w), rest);
      more := [Work(w)] + rest;
    }
  }

  lemma {:induction false} WorkRunsOut(s: Threads, more: seq<Action>)
    requires Stopping(s) && !s.cont && OnlyWork(more) && RunAll(s, more).Some?
    ensures |more| + Remaining(RunAll(s, more).value) <= Remaining(s)
    ensures Stopping(RunAll(s, more).value) && !RunAll(s, more).value.cont
    decreases |more|
  {
    if more != [] {
      var init, a := more[..|more| - 1], more[|more| - 1];
      WorkRunsOut(s, init);
      var t := RunAll(s, init).value;
      StoppingKept(t, a);
      WorkUsesUp(t, a.w);
      WorkFrame(t, a.w);
      hide Stopping, WorkStep, Remaining;
    }
  }

  /**
   `join` returns: in every state after `stop`, whatever the workers do, they can do no more than
   `Remaining` actions while nobody calls, they are never all stuck before they are all done, and
   there is a way for them to finish.
   */
  lemma WorkersFinish(threads: nat, actions: seq<Action>, s: Threads) returns (more: seq<Action>)
    requires Reaches(threads, actions, s) && !s.cont
    ensures OnlyWork(more) && RunAll(s, more).Some? && AllDone(RunAll(s, more).value)
    ensures forall any :: OnlyWork(any) && RunAll(s, any).Some? ==> |any| <= Remaining(s)
    ensures forall any :: OnlyWork(any) && RunAll(s, any).Some? && !AllDone(RunAll(s, any).value) ==>
      exists w: nat :: Apply(RunAll(s, any).value, Work(w)).Some?
  {
    StoppingHolds(threads, actions, s);
    more := Finish(s);
    forall any | OnlyWork(any) && RunAll(s, any).Some?
      ensures |any| <= Remaining(s)
      ensures !AllDone(RunAll(s, any).value) ==> exists w: nat :: Apply(RunAll(s, any).value, Work(w)).Some?
    {
      WorkRunsOut(s, any);
      if !AllDone(RunAll(s, any).value) {
        var w := SomeoneCanWork(RunAll(s, any).value);
        assert Apply(RunAll(s, any).value, Work(w)).Some?;
      }
    }
  }

  // ----- Exactly when every timer is covered -----

  /** Every worker that is blocked, or about to be, wakes no later than every timer there is, however it was added. */
  ghost predicate Covered(s: Threads) {
    forall w :: 0 <= w < |s.workers| && (s.workers[w].Waiting? || s.workers[w].Parking?) ==>
      forall e :: e in s.pool.timers ==> Within(s.workers[w].until, e.time)
  }

  predicate Within(d: Option<Time>, t: Time) {
    d.Some? && d.value <= t
  }

  /** Every worker that is blocked, or about to be, wakes no later than `t`. */
  ghost predicate AwakeBy(s: Threads, t: Time) {
    forall w :: 0 <= w < |s.workers| && (s.workers[w].Waiting? || s.workers[w].Parking?) ==> Within(s.workers[w].until, t)
  }

  /** What a caller would have to see to before a call that notifies nobody. */
  ghost predicate Safe(s: Threads, a: Action) {
    match a
    case PushQuiet(t, _) => AwakeBy(s, t)
    case DelayJob(id, t) => Find(s.pool.timers, id) < |s.pool.timers| ==> AwakeBy(s, t)
    case _ => true
  }

  /**
   From a state in which every timer is covered, every timer is covered after an action exactly
   when it notifies, or no worker sleeps past the time it sets. So a timer added through the pair
   overload, or brought forward by `delay`, is missed exactly when some worker is blocked without
   a deadline or with a later one.
   */
  lemma CoveredIff(s: Threads, a: Action)
    requires LockInv(s) && TimersOk(s) && s.orderly && Covered(s) && Apply(s, a).Some?
    ensures Covered(Apply(s, a).value) <==> Safe(s, a)
  {
    match a
    case PushQuiet(t, id) => QuietCovered(s, t, id);
    case DelayJob(id, t) => DelayCovered(s, id, t);
    case Work(v) => WorkCovered(s, v);
    case _ => LoudCovered(s, a);
  }

  lemma QuietCovered(s: Threads, t: Time, id: TaskId)
    requires Covered(s) && Apply(s, PushQuiet(t, id)).Some?
    ensures Covered(Apply(s, PushQuiet(t, id)).value) <==> AwakeBy(s, t)
  {
    var e := Entry(t, Some(id));
    var ts := InsertTimer(s.pool.timers, e);
    forall x ensures x in ts <==> x in s.pool.timers || x == e {
      InsertMembers(s.pool.timers, e, x);
    }
    hide InsertTimer;
    if Covered(Apply(s, PushQuiet(t, id)).value) {
      assert e in ts;
    }
  }

  lemma DelayCovered(s: Threads, id: TaskId, t: Time)
    requires Covered(s) && Apply(s, DelayJob(id, t)).Some?
    ensures Covered(Apply(s, DelayJob(id, t)).value) <==> (Find(s.pool.timers, id) < |s.pool.timers| ==> AwakeBy(s, t))
  {
    var k, e := Find(s.pool.timers, id), Entry(t, Some(id));
    var ts := Delay(s.pool, id, t).timers;
    forall x | x in ts ensures x in s.pool.timers || x == e {
      DelayMembers(s.pool, id, t, x);
    }
    if k < |s.pool.timers| {
      WalkMembers(s.pool.timers[..k], e, e);
      assert e in ts;
    }
    hide Delay, Walk;
  }

  lemma WorkCovered(s: Threads, v: nat)
    requires TimersOk(s) && s.orderly && Covered(s) && v < |s.workers| && WorkStep(s, v).Some?
    ensures Covered(WorkStep(s, v).value)
  {
    WorkFrame(s, v);
    FewerAfterPop(s);
    TurnBlocks(s, v);
    NextCovers(s.pool);
    hide TurnOf, Pop, Next;
    var t := WorkStep(s, v).value;
    forall w | 0 <= w < |t.workers| && (t.workers[w].Waiting? || t.workers[w].Parking?)
      ensures forall e :: e in t.pool.timers ==> Within(t.workers[w].until, e.time)
    {
      assert w == v || t.workers[w] == s.workers[w];
    }
  }

  lemma NextCovers(p: Pool)
    requires Sorted(p.timers)
    ensures forall e :: e in p.timers ==> Within(Next(p), e.time)
  {
  }

  /** Calls that notify, and calls that set no time. */
  lemma LoudCovered(s: Threads, a: Action)
    requires LockInv(s) && Covered(s) && Apply(s, a).Some? && !a.PushQuiet? && !a.DelayJob? && !a.Work?
    ensures Covered(Apply(s, a).value)
  {
    var t := Apply(s, a).value;
    forall w | 0 <= w < |t.workers| && (t.workers[w].Waiting? || t.workers[w].Parking?)
      ensures forall e :: e in t.pool.timers ==> Within(t.workers[w].until, e.time)
    {
      assert LockAt(s, w);
      assert t.workers[w] == s.workers[w];
      if a.CancelJob? && Find(s.pool.timers, a.id) < |s.pool.timers| {
        FewerTimersOk(s.pool.timers, Find(s.pool.timers, a.id));
      }
    }
  }

  ghost predicate SafeRun(threads: nat, actions: seq<Action>) {
    forall n :: 0 <= n < |actions| ==>
      RunAll(Started(threads), actions[..n]).Some? ==> Safe(RunAll(Started(threads), actions[..n]).value, actions[n])
  }

  /** Over every run whose silent calls are safe and whose delays keep the order, no blocked worker ever sleeps past any timer. */
  lemma {:induction false} SafeRunsAreCovered(threads: nat, actions: seq<Action>, s: Threads)
    requires threads > 0 && Reaches(threads, actions, s) && s.orderly && SafeRun(threads, actions)
    ensures Covered(s)
  {
    if actions != [] {
      var n := |actions| - 1;
      var init, a := actions[..n], actions[n];
      var before := RunAll(Started(threads), init).value;
      assert forall k :: 0 <= k < n ==> init[..k] == actions[..k];
      OrderlyBefore(before, a);
      SafeRunsAreCovered(threads, init, before);
      InvHolds(threads, init, before, 0);
      CoveredIff(before, a);
    }
  }

  lemma OrderlyBefore(s: Threads, a: Action)
    requires Apply(s, a).Some? && Apply(s, a).value.orderly
    ensures s.orderly
  {
  }

  // ----- A timer that is missed -----

  ghost predicate TimerMissed(s: Threads) {
    s.workers == [Waiting(None)] && s.pool.timers == [Entry(5, Some(0))] && s.now == 10
  }

  /**
   The pair overload does not notify: a lone worker can be blocked without a deadline
   while a timer added that way is long due.
   */
  lemma QuietTimerIsMissed()
    ensures exists actions, s :: Reaches(1, actions, s) && s.cont && TimerMissed(s)
  {
    var parked := [Work(0), Work(0), Work(0), Work(0), Work(0), Work(0), Work(0)];
    var s0 := Started(1);
    ParkedRun();
    var s1 := RunAll(s0, parked).value;
    var more := parked + [PushQuiet(5, 0)];
    var all := more + [Tick(10)];
    assert more[..|more| - 1] == parked && all[..|all| - 1] == more;
    var s2 := RunAll(s0, more).value;
    assert s2.pool.timers == [Entry(5, Some(0))];
    var s3 := RunAll(s0, all).value;
    assert Reaches(1, all, s3);
  }

  /** The lone worker finds nothing to do and takes the lock. */
  lemma IdleRun(s0: Threads, actions: seq<Action>)
    requires s0 == Started(1).(workers := [Checking]) && actions == [] + [Work(0)] + [Work(0)] + [Work(0)] + [Work(0)]
    ensures RunAll(s0, actions) == Some(s0.(workers := [NotReady], lock := Some(0)))
  {
    WorkTo(s0, [], s0, s0.(workers := [Popping]));
    WorkTo(s0, [] + [Work(0)], s0.(workers := [Popping]), s0.(workers := [Locking]));
    WorkTo(s0, [] + [Work(0)] + [Work(0)], s0.(workers := [Locking]), s0.(workers := [Holding], lock := Some(0)));
    WorkTo(s0, [] + [Work(0)] + [Work(0)] + [Work(0)], s0.(workers := [Holding], lock := Some(0)),
           s0.(workers := [NotReady], lock := Some(0)));
  }

  lemma ParkedRun()
    ensures RunAll(Started(1), [Work(0), Work(0), Work(0), Work(0), Work(0), Work(0), Work(0)])
      == Some(Started(1).(workers := [Waiting(None)]))
  {
    var s0 := Started(1);
    assert s0.workers == [Checking];
    var a4 := [] + [Work(0)] + [Work(0)] + [Work(0)] + [Work(0)];
    IdleRun(s0, a4);
    WorkTo(s0, a4, s0.(workers := [NotReady], lock := Some(0)), s0.(workers := [Deciding], lock := Some(0)));
    var a5 := a4 + [Work(0)];
    WorkTo(s0, a5, s0.(workers := [Deciding], lock := Some(0)), s0.(workers := [Parking(None)], lock := Some(0)));
    var a6 := a5 + [Work(0)];
    WorkTo(s0, a6, s0.(workers := [Parking(None)], lock := Some(0)), s0.(workers := [Waiting(None)]));
    assert a6 + [Work(0)] == [Work(0), Work(0), Work(0), Work(0), Work(0), Work(0), Work(0)];
  }

  lemma WorkTo(start: Threads, actions: seq<Action>, s: Threads, t: Threads)
    requires RunAll(start, actions) == Some(s) && |s.workers| == 1 && |t.workers| == 1
    requires WorkStep(s, 0).Some? && WorkStep(s, 0).value.workers[0] == t.workers[0]
    requires WorkStep(s, 0).value.(workers := t.workers) == t
    ensures RunAll(start, actions + [Work(0)]) == Some(t)
  {
    assert (actions + [Work(0)])[..|actions|] == actions;
    assert WorkStep(s, 0).value.workers == t.workers;
  }
}

/**
 The rate control of `videoBroadcastThread` (src/stream.cpp). Time is in nanoseconds. The
 environment decides how long the thread takes between its own steps and by how much a sleep
 overshoots.
 */
module Pacing {

  const MILLISECOND := 1_000_000

  /** Around 80% of 1 Gbps, in packets of `blocksize` bytes per millisecond. */
  function PacketsPerMs(blocksize: nat): nat
    requires blocksize > 0
  {
    1_000_000_000 * 80 / 100 / 1000 / blocksize / 8
  }

  /** Less than 64K and at most 64 packets; a batch is never empty. */
  function BatchSize(blocksize: nat): nat
    requires blocksize > 0
  {
    var n := 64 * 1024 / blocksize;
    if n == 0 then 1 else if n > 64 then 64 else n
  }

  /** One call of send_batch: when it is made, and which shards of the current block it covers. */
  datatype Sent = Sent(time: int, first: nat, count: nat)

  /** `rate` is ratecontrol_packets_in_1ms. `prior` and `frames` count earlier frames. */
  datatype Pacer = Pacer(
    rate: nat, batch: nat, start: int,
    nextStart: int, frameStart: int, framePackets: nat, groupPackets: nat, now: int,
    prior: nat, frames: nat, log: seq<Sent>)

  datatype Step =
    | BeginFrame(lag: nat)
    | SendBatch(first: nat, count: nat, lag: nat, over: nat)
    | EndBlock

  function Initial(rate: nat, batch: nat, start: int): Pacer {
    Pacer(rate, batch, start, start, start, 0, 0, start, 0, 0, [])
  }

  /** When the packets after the first `packets` of a frame are due, cut to whole nanoseconds. */
  function Due(p: Pacer, packets: nat): int
    requires p.rate > 0
  {
    p.frameStart + MILLISECOND * packets / p.rate
  }

  function Max(a: int, b: int): int {
    if a >= b then a else b
  }

  predicate MustWait(p: Pacer) {
    p.groupPackets >= p.rate || p.framePackets == 0
  }

  predicate Legal(p: Pacer, s: Step)
    requires p.rate > 0
  {
    match s
    case BeginFrame(_) => p.nextStart == Due(p, p.framePackets)
    case SendBatch(_, n, _, _) => 1 <= n <= p.batch
    case EndBlock => true
  }

  function Apply(p: Pacer, s: Step): (q: Pacer)
    requires p.rate > 0
    ensures q.rate == p.rate && q.batch == p.batch && q.start == p.start
  {
    match s
    case BeginFrame(lag) =>
      var now := p.now + lag;
      p.(now := now, frameStart := Max(p.nextStart, now), framePackets := 0, groupPackets := 0,
         prior := p.prior + p.framePackets, frames := if p.framePackets == 0 then p.frames else p.frames + 1)
    case SendBatch(first, n, lag, over) =>
      var read := p.now + lag;
      var now := if MustWait(p) && read < Due(p, p.framePackets) then Due(p, p.framePackets) + over else read;
      var group := if MustWait(p) then 0 else p.groupPackets;
      p.(now := now, groupPackets := group + n, framePackets := p.framePackets + n, log := p.log + [Sent(now, first, n)])
    case EndBlock => p.(nextStart := Due(p, p.framePackets))
  }

  function RunFrom(p: Pacer, steps: seq<Step>): (q: Pacer)
    requires p.rate > 0
    ensures q.rate == p.rate && q.batch == p.batch && q.start == p.start
  {
    if steps == [] then p else Apply(RunFrom(p, steps[..|steps| - 1]), steps[|steps| - 1])
  }

  predicate LegalRun(p: Pacer, steps: seq<Step>)
    requires p.rate > 0
  {
    steps == [] ||
    (LegalRun(p, steps[..|steps| - 1]) && Legal(RunFrom(p, steps[..|steps| - 1]), steps[|steps| - 1]))
  }

  // ----- When a batch leaves -----

  /** The packets of a frame and of a group before and after a batch. */
  lemma BatchLeaves(p: Pacer, first: nat, n: nat, lag: nat, over: nat)
    requires p.rate > 0
    ensures var q := Apply(p, SendBatch(first, n, lag, over));
      var reached := p.now + lag;
      var due := p.frameStart + MILLISECOND * p.framePackets / p.rate;
      && q.log == p.log + [Sent(q.now, first, n)]
      && q.framePackets == p.framePackets + n
      && (0 < p.framePackets && p.groupPackets < p.rate ==> q.now == reached && q.groupPackets == p.groupPackets + n)
      && (p.framePackets == 0 || p.groupPackets >= p.rate ==>
        && q.groupPackets == n
        && q.now == if reached < due then due + over else reached)
  {
  }

  /** A frame begins when it is reached, but not before the last group of the one before it is paid for. */
  lemma FrameBegins(p: Pacer, lag: nat)
    requires p.rate > 0
    ensures var q := Apply(p, BeginFrame(lag));
      && q.now == p.now + lag && q.framePackets == 0
      && p.nextStart <= q.frameStart && q.now <= q.frameStart && (q.frameStart == p.nextStart || q.frameStart == q.now)
    ensures Apply(p, EndBlock).nextStart == p.frameStart + MILLISECOND * p.framePackets / p.rate
  {
  }

  /** The rate is the largest at which a millisecond's packets fit 100000 bytes, 80 per cent of 1 Gbps. */
  lemma RateIsLargest(blocksize: nat, rate: nat)
    requires blocksize > 0
    ensures rate <= PacketsPerMs(blocksize) <==> rate * blocksize <= 100_000
  {
    var q := 800_000 / blocksize;
    assert 800_000 == blocksize * q + 800_000 % blocksize;
    assert q == 8 * (q / 8) + q % 8;
    RateArith(blocksize, q, q / 8, rate);
  }

  lemma RateArith(b: nat, q: nat, e: nat, rate: nat)
    requires b > 0 && b * q <= 800_000 < b * q + b && 8 * e <= q < 8 * e + 8
    ensures rate <= e <==> rate * b <= 100_000
  {
    if rate <= e {
      Times(b, rate, e);
      Times(b, 8 * e, q);
      MulAssoc(8, e, b);
    } else {
      Times(b, e + 1, rate);
      Times(b, q + 1, 8 * e + 8);
      assert b * (q + 1) == b * q + b;
      MulAssoc(8, e + 1, b);
    }
  }

  lemma Times(b: nat, x: nat, y: nat)
    requires x <= y
    ensures b * x <= b * y && x * b <= y * b && b * x == x * b && b * y == y * b
  {
  }

  /** A batch is the largest of at most 64 packets and 64K, and never empty. */
  lemma BatchIsLargest(blocksize: nat, n: nat)
    requires blocksize > 0
    ensures 0 < n <= BatchSize(blocksize) <==> n == 1 || (0 < n <= 64 && n * blocksize <= 65536)
  {
    var q := 65536 / blocksize;
    assert 65536 == blocksize * q + 65536 % blocksize;
    if n <= q {
      assert n * blocksize <= q * blocksize;
    } else {
      assert n * blocksize >= (q + 1) * blocksize;
      assert (q + 1) * blocksize == blocksize * q + blocksize;
    }
  }

  // ----- The token bucket -----

  /** What cutting a due time to whole nanoseconds can cost: nothing when the rate divides a millisecond. */
  function Loss(rate: nat): nat
    requires rate > 0
  {
    if MILLISECOND % rate == 0 then 0 else rate - 1
  }

  lemma DueLoss(p: Pacer, packets: nat)
    requires p.rate > 0
    ensures MILLISECOND * packets <= p.rate * (Due(p, packets) - p.frameStart) + Loss(p.rate)
  {
    DivLoss(MILLISECOND, packets, p.rate);
  }

  lemma DivLoss(t: nat, n: nat, r: nat)
    requires r > 0
    ensures t * n <= r * (t * n / r) + (if t % r == 0 then 0 else r - 1)
  {
    var x := t * n;
    assert x == r * (x / r) + x % r;
    if t % r == 0 {
      var q := t / r;
      assert t == r * q;
      MulAssoc(r, q, n);
      SameQuotient(r, q * n, x / r, x % r);
    }
  }

  lemma MulAssoc(a: int, b: int, c: int)
    ensures a * b * c == a * (b * c)
  {
  }

  lemma SameQuotient(r: nat, k: int, d: int, rem: nat)
    requires r * k == r * d + rem && rem < r
    ensures k == d
  {
    assert r * (k - d) == rem;
    if k - d >= 1 {
      Scale(k - d - 1, 0, r);
    }
  }

  /** Packets sent so far. */
  function Total(p: Pacer): nat {
    p.prior + p.framePackets
  }

  /**
   Earlier frames are paid for by the start of this one; the packets of this frame before the
   current group are paid for by the present; the current group is bounded.
   */
  ghost predicate Inv(p: Pacer) {
    && p.rate > 0
    && MILLISECOND * p.prior <= p.rate * (p.frameStart - p.start) + Loss(p.rate) * p.frames
    && p.groupPackets <= p.framePackets
    && p.groupPackets <= p.rate - 1 + p.batch
    && (p.framePackets > 0 ==>
      && p.frameStart <= p.now
      && MILLISECOND * (p.framePackets - p.groupPackets) <= p.rate * (p.now - p.frameStart) + Loss(p.rate))
  }

  lemma Scale(r: nat, a: int, b: int)
    requires a <= b
    ensures 0 <= r * (b - a)
  {
  }

  lemma Stretch(r: int, a: int, b: int, c: int)
    ensures r * (c - a) == r * (b - a) + r * (c - b)
  {
  }

  /** The books when a frame begins: its predecessor is paid for by `ns`. */
  lemma BeginArith(r: nat, loss: nat, prior: nat, packets: nat, frames: nat, start: int, fs: int, ns: int, fs': int)
    requires MILLISECOND * prior <= r * (fs - start) + loss * frames
    requires MILLISECOND * packets <= r * (ns - fs) + loss && ns <= fs'
    ensures MILLISECOND * (prior + packets) <= r * (fs' - start) + loss * (frames + 1)
  {
    Stretch(r, start, fs, ns);
    Stretch(r, start, ns, fs');
    Scale(r, ns, fs');
  }

  lemma BeginKept(p: Pacer, lag: nat)
    requires Inv(p) && Legal(p, BeginFrame(lag))
    ensures Inv(Apply(p, BeginFrame(lag)))
  {
    var q := Apply(p, BeginFrame(lag));
    if p.framePackets > 0 {
      DueLoss(p, p.framePackets);
      BeginArith(p.rate, Loss(p.rate), p.prior, p.framePackets, p.frames, p.start, p.frameStart, p.nextStart, q.frameStart);
    } else {
      NothingDue(p);
      Stretch(p.rate, p.start, p.frameStart, q.frameStart);
      Scale(p.rate, p.frameStart, q.frameStart);
    }
  }

  lemma NothingDue(p: Pacer)
    requires p.rate > 0
    ensures Due(p, 0) == p.frameStart
  {
  }

  lemma SendKept(p: Pacer, first: nat, n: nat, lag: nat, over: nat)
    requires Inv(p) && Legal(p, SendBatch(first, n, lag, over))
    ensures Inv(Apply(p, SendBatch(first, n, lag, over)))
  {
    var q := Apply(p, SendBatch(first, n, lag, over));
    if MustWait(p) {
      var due := Due(p, p.framePackets);
      DueLoss(p, p.framePackets);
      DueNotBefore(p, p.framePackets);
      Scale(p.rate, due, q.now);
      Stretch(p.rate, p.frameStart, due, q.now);
    } else {
      Scale(p.rate, p.now, q.now);
      Stretch(p.rate, p.frameStart, p.now, q.now);
    }
  }

  lemma DueNotBefore(p: Pacer, packets: nat)
    requires p.rate > 0
    ensures Due(p, packets) >= p.frameStart
  {
  }

  lemma {:induction false} InvHolds(p: Pacer, steps: seq<Step>)
    requires Inv(p) && LegalRun(p, steps)
    ensures Inv(RunFrom(p, steps))
  {
    if steps != [] {
      var q, s := RunFrom(p, steps[..|steps| - 1]), steps[|steps| - 1];
      InvHolds(p, steps[..|steps| - 1]);
      match s
      case BeginFrame(lag) => BeginKept(q, lag);
      case SendBatch(first, n, lag, over) => SendKept(q, first, n, lag, over);
      case EndBlock =>
    }
  }

  /**
   A token bucket over whole runs, blocks and frames: whenever a batch has just been sent, the
   packets sent so far are at most rate * (elapsed ms) + rate - 1 + batch, plus what rounding
   due times down has cost, which is below one packet's time for each frame.
   */
  lemma TokenBucket(rate: nat, batch: nat, start: int, steps: seq<Step>)
    requires rate > 0 && LegalRun(Initial(rate, batch, start), steps)
    requires steps != [] && steps[|steps| - 1].SendBatch?
    ensures var p := RunFrom(Initial(rate, batch, start), steps);
      && p.log != [] && p.log[|p.log| - 1].time == p.now
      && MILLISECOND * Total(p)
        <= rate * (p.now - start) + MILLISECOND * (rate - 1 + batch) + Loss(rate) * (p.frames + 1)
  {
    var p := RunFrom(Initial(rate, batch, start), steps);
    InvHolds(Initial(rate, batch, start), steps);
    JustSent(Initial(rate, batch, start), steps);
    hide RunFrom, LegalRun, Inv;
    assert p.rate == rate && p.batch == batch && p.start == start;
    BucketArith(p);
  }

  lemma JustSent(p0: Pacer, steps: seq<Step>)
    requires p0.rate > 0 && LegalRun(p0, steps) && steps != [] && steps[|steps| - 1].SendBatch?
    ensures var p := RunFrom(p0, steps);
      p.framePackets > 0 && p.log != [] && p.log[|p.log| - 1].time == p.now
  {
    hide Due;
  }

  lemma BucketArith(p: Pacer)
    requires p.rate > 0 && Inv(p) && p.framePackets > 0
    ensures MILLISECOND * Total(p)
      <= p.rate * (p.now - p.start) + MILLISECOND * (p.rate - 1 + p.batch) + Loss(p.rate) * (p.frames + 1)
  {
    hide Loss;
    Stretch(p.rate, p.start, p.frameStart, p.now);
    assert Loss(p.rate) * (p.frames + 1) == Loss(p.rate) * p.frames + Loss(p.rate);
  }

  /** A run that has just sent a batch is within the exact bucket. */
  predicate Within(rate: nat, batch: nat, start: int, steps: seq<Step>)
    requires rate > 0
  {
    var p := RunFrom(Initial(rate, batch, start), steps);
    MILLISECOND * Total(p) <= rate * (p.now - start) + MILLISECOND * (rate - 1 + batch)
  }

  predicate JustSentLegally(rate: nat, batch: nat, start: int, steps: seq<Step>)
    requires rate > 0
  {
    LegalRun(Initial(rate, batch, start), steps) && steps != [] && steps[|steps| - 1].SendBatch?
  }

  /** When the rate divides a millisecond the bucket is exact. */
  lemma TokenBucketExact(rate: nat, batch: nat, start: int, steps: seq<Step>)
    requires rate > 0 && MILLISECOND % rate == 0 && JustSentLegally(rate, batch, start, steps)
    ensures Within(rate, batch, start, steps)
  {
    TokenBucket(rate, batch, start, steps);
  }

  /** The log adds up to the packets sent, in order of time. */
  function LogTotal(log: seq<Sent>): nat {
    if log == [] then 0 else LogTotal(log[..|log| - 1]) + log[|log| - 1].count
  }

  lemma {:induction false} LogIsTotal(p: Pacer, steps: seq<Step>)
    requires p.rate > 0 && LogTotal(p.log) == Total(p)
    requires forall i, j :: 0 <= i < j < |p.log| ==> p.log[i].time <= p.log[j].time
    requires forall i :: 0 <= i < |p.log| ==> p.log[i].time <= p.now
    ensures var q := RunFrom(p, steps);
      && LogTotal(q.log) == Total(q)
      && (forall i, j :: 0 <= i < j < |q.log| ==> q.log[i].time <= q.log[j].time)
      && (forall i :: 0 <= i < |q.log| ==> q.log[i].time <= q.now)
  {
    if steps != [] {
      LogIsTotal(p, steps[..|steps| - 1]);
      LogStep(RunFrom(p, steps[..|steps| - 1]), steps[|steps| - 1]);
      hide Apply, LogTotal, Total;
    }
  }

  lemma LogStep(q: Pacer, s: Step)
    requires q.rate > 0 && LogTotal(q.log) == Total(q)
    requires forall i, j :: 0 <= i < j < |q.log| ==> q.log[i].time <= q.log[j].time
    requires forall i :: 0 <= i < |q.log| ==> q.log[i].time <= q.now
    ensures var r := Apply(q, s);
      && LogTotal(r.log) == Total(r)
      && (forall i, j :: 0 <= i < j < |r.log| ==> r.log[i].time <= r.log[j].time)
      && (forall i :: 0 <= i < |r.log| ==> r.log[i].time <= r.now)
  {
    hide Due;
    if s.SendBatch? {
      var log := Apply(q, s).log;
      assert log[..|log| - 1] == q.log;
    }
  }

  /** Frames of one packet, nobody ever late. */
  function OneByOne(frames: nat): seq<Step> {
    if frames == 0 then [] else OneByOne(frames - 1) + FrameOfOne()
  }

  lemma Extend(p: Pacer, steps: seq<Step>, q: Pacer, s: Step)
    requires p.rate > 0 && LegalRun(p, steps) && RunFrom(p, steps) == q && Legal(q, s)
    ensures LegalRun(p, steps + [s]) && RunFrom(p, steps + [s]) == Apply(q, s)
  {
    assert (steps + [s])[..|steps|] == steps;
  }

  /** A frame begins on time, and its first packet leaves at once. */
  lemma FirstPacket(q: Pacer)
    requires q.rate > 0 && q.now <= q.nextStart
    ensures var r := Apply(Apply(q, BeginFrame(0)), SendBatch(0, 1, 0, 0));
      r.frameStart == r.now == q.nextStart && r.framePackets == 1 && r.prior == Total(q)
  {
    NothingDue(Apply(q, BeginFrame(0)));
  }

  lemma BeginAndSend(p: Pacer, steps: seq<Step>, q: Pacer, a: Step, b: Step)
    requires p.rate > 0 && LegalRun(p, steps) && RunFrom(p, steps) == q && p.batch > 0
    requires a == BeginFrame(0) && b == SendBatch(0, 1, 0, 0) && q.nextStart == Due(q, q.framePackets)
    ensures LegalRun(p, steps + [a] + [b]) && RunFrom(p, steps + [a] + [b]) == Apply(Apply(q, a), b)
  {
    Extend(p, steps, q, a);
    Extend(p, steps + [a], Apply(q, a), b);
  }

  /** The time of one packet, cut to whole nanoseconds. */
  function Slot(rate: nat): nat
    requires rate > 0
  {
    MILLISECOND / rate
  }

  lemma OnePacketDue(q: Pacer)
    requires q.rate > 0 && q.framePackets == 1
    ensures var r := Apply(q, EndBlock);
      r.nextStart == Due(r, r.framePackets) == q.frameStart + Slot(q.rate) && r.now == q.now && Total(r) == Total(q)
  {
  }

  /** A whole frame of one packet. */
  function FrameOfOne(): seq<Step> {
    [BeginFrame(0)] + [SendBatch(0, 1, 0, 0)] + [EndBlock]
  }

  lemma Regroup(s: seq<Step>, a: seq<Step>, b: seq<Step>, c: seq<Step>)
    ensures s + (a + b + c) == s + a + b + c
  {
  }

  lemma OnePacketFrame(p: Pacer, steps: seq<Step>, q: Pacer)
    requires p.rate > 0 && p.batch > 0 && LegalRun(p, steps) && RunFrom(p, steps) == q
    requires q.nextStart == Due(q, q.framePackets) && q.now <= q.nextStart
    ensures var r := RunFrom(p, steps + FrameOfOne());
      && LegalRun(p, steps + FrameOfOne())
      && r.nextStart == q.nextStart + Slot(p.rate) == Due(r, r.framePackets)
      && r.now == q.nextStart && Total(r) == Total(q) + 1
  {
    hide Due, RunFrom, LegalRun, Slot;
    var a, b, c := BeginFrame(0), SendBatch(0, 1, 0, 0), EndBlock;
    FirstPacket(q);
    BeginAndSend(p, steps, q, a, b);
    var t := Apply(Apply(q, a), b);
    assert t.rate == q.rate == p.rate && Legal(t, c);
    Extend(p, steps + [a] + [b], t, c);
    hide Apply;
    OnePacketDue(t);
    Regroup(steps, [a], [b], [c]);
  }

  /** Each such frame begins one truncated packet time after the one before. */
  lemma {:induction false} OneByOneRuns(p: Pacer, frames: nat)
    requires p.rate > 0 && p.batch > 0 && p.now == p.start == p.nextStart == Due(p, p.framePackets) && Total(p) == 0
    ensures LegalRun(p, OneByOne(frames))
    ensures var q := RunFrom(p, OneByOne(frames));
      && q.nextStart == Due(q, q.framePackets) == p.start + frames * Slot(p.rate)
      && q.now <= q.nextStart && Total(q) == frames
  {
    if frames == 0 {
      NoFrames(p);
    } else {
      hide Due, LegalRun, RunFrom, Total, Slot;
      OneByOneRuns(p, frames - 1);
      OnePacketFrame(p, OneByOne(frames - 1), RunFrom(p, OneByOne(frames - 1)));
      NextSlot(frames, Slot(p.rate));
    }
  }

  lemma NoFrames(p: Pacer)
    requires p.rate > 0
    ensures LegalRun(p, OneByOne(0)) && RunFrom(p, OneByOne(0)) == p
  {
  }

  lemma NextSlot(frames: nat, slot: nat)
    requires frames > 0
    ensures frames * slot == (frames - 1) * slot + slot
    ensures frames * slot >= 0
  {
  }

  lemma InitialFacts(p: Pacer, rate: nat, batch: nat, start: int)
    requires rate > 0 && p == Initial(rate, batch, start)
    ensures p.rate == rate && p.batch == batch && p.now == p.start == p.nextStart == Due(p, p.framePackets) == start && Total(p) == 0
  {
    NothingDue(p);
  }

  /** Enough frames of one packet, and the first packet of one more. */
  function DriftingRun(rate: nat, batch: nat): seq<Step> {
    OneByOne(MILLISECOND * (rate + batch)) + [BeginFrame(0)] + [SendBatch(0, 1, 0, 0)]
  }

  /** Truncation always shows when there is any: this run ends with more packets out than the exact bucket allows. */
  lemma RoundingDrifts(rate: nat, batch: nat, start: int)
    requires rate > 0 && batch > 0 && MILLISECOND % rate != 0
    ensures LegalRun(Initial(rate, batch, start), DriftingRun(rate, batch))
    ensures !Within(rate, batch, start, DriftingRun(rate, batch))
  {
    hide Due, LegalRun, RunFrom, Apply, Initial, OneByOne;
    var p := Initial(rate, batch, start);
    InitialFacts(p, rate, batch, start);
    var frames := MILLISECOND * (rate + batch);
    OneByOneRuns(p, frames);
    var q := RunFrom(p, OneByOne(frames));
    BeginAndSend(p, OneByOne(frames), q, BeginFrame(0), SendBatch(0, 1, 0, 0));
    FirstPacket(q);
    DriftArith(rate, batch, frames, Slot(rate));
  }

  lemma DriftArith(rate: nat, batch: nat, frames: nat, quotient: nat)
    requires rate > 0 && batch > 0 && MILLISECOND % rate != 0 && quotient == Slot(rate)
    requires frames == MILLISECOND * (rate + batch)
    ensures MILLISECOND * (frames + 1) > rate * (frames * quotient) + MILLISECOND * (rate - 1 + batch)
  {
    assert rate * quotient <= MILLISECOND - 1;
    assert rate * (frames * quotient) == frames * (rate * quotient);
    assert frames * (rate * quotient) <= frames * (MILLISECOND - 1);
    assert frames * (MILLISECOND - 1) == MILLISECOND * frames - frames;
  }

  /**
   The bucket is exact for exactly the rates that divide a millisecond: then every run is within
   it, and otherwise some run is not.
   */
  lemma TokenBucketExactIff(rate: nat, batch: nat, start: int)
    requires rate > 0 && batch > 0
    ensures (forall steps :: JustSentLegally(rate, batch, start, steps) ==> Within(rate, batch, start, steps))
      <==> MILLISECOND % rate == 0
  {
    hide Within, LegalRun, OneByOne;
    if MILLISECOND % rate == 0 {
      forall steps | JustSentLegally(rate, batch, start, steps)
        ensures Within(rate, batch, start, steps)
      {
        TokenBucketExact(rate, batch, start, steps);
      }
    } else {
      RoundingDrifts(rate, batch, start);
      var steps := DriftingRun(rate, batch);
      assert steps[|steps| - 1] == SendBatch(0, 1, 0, 0);
    }
  }

  /** Ordinary packet sizes are on the drifting side. */
  lemma DriftingSize()
    ensures PacketsPerMs(33333) == 3 && PacketsPerMs(1040) == 96 && PacketsPerMs(1408) == 71
    ensures MILLISECOND % 3 != 0 && MILLISECOND % 96 != 0 && MILLISECOND % 71 != 0
    ensures BatchSize(33333) == 1 && BatchSize(1040) == 63 && BatchSize(1408) == 46
  {
  }

  // ----- The sending loop -----

  /** Calls that cover shards 0 to `upTo`, in order, each once, full batches except perhaps the last. */
  ghost predicate Covers(calls: seq<Sent>, upTo: nat, batch: nat) {
    if calls == [] then upTo == 0
    else
      var last := calls[|calls| - 1];
      && last.first + last.count == upTo
      && 1 <= last.count <= batch
      && Covers(calls[..|calls| - 1], last.first, batch)
  }

  ghost predicate FullButLast(calls: seq<Sent>, batch: nat) {
    forall i :: 0 <= i < |calls| - 1 ==> calls[i].count == batch
  }

  class VideoPacer {
    var p: Pacer

    constructor (blocksize: nat, start: int)
      requires 0 < blocksize <= 100_000
      ensures p == Initial(PacketsPerMs(blocksize), BatchSize(blocksize), start)
      ensures p.rate > 0 && p.batch > 0
    {
      RateIsPositive(blocksize);
      p := Initial(PacketsPerMs(blocksize), BatchSize(blocksize), start);
    }

    method StartFrame(lag: nat)
      requires p.rate > 0 && Legal(p, BeginFrame(lag))
      modifies this
      ensures p == Apply(old(p), BeginFrame(lag))
    {
      var now := p.now + lag;
      p := p.(prior := p.prior + p.framePackets, frames := if p.framePackets == 0 then p.frames else p.frames + 1,
              now := now, frameStart := if p.nextStart >= now then p.nextStart else now);
      p := p.(framePackets := 0, groupPackets := 0);
    }

    /** Wait if the group is used up, then send `count` shards from `first` on. */
    method PaceAndSend(first: nat, count: nat, lag: nat, over: nat)
      requires p.rate > 0 && 1 <= count <= p.batch
      modifies this
      ensures p == Apply(old(p), SendBatch(first, count, lag, over))
    {
      var now := p.now + lag;
      if p.groupPackets >= p.rate || p.framePackets == 0 {
        var due := p.frameStart + MILLISECOND * p.framePackets / p.rate;
        if now < due {
          now := due + over;
        }
        p := p.(groupPackets := 0);
      }
      p := p.(now := now, log := p.log + [Sent(now, first, count)]);
      p := p.(groupPackets := p.groupPackets + count, framePackets := p.framePackets + count);
    }

    /** PaceAndSend as the next step of the run that began in `origin`. */
    method SendNext(first: nat, count: nat, lag: nat, over: nat, ghost origin: Pacer, ghost steps: seq<Step>)
      returns (ghost more: seq<Step>)
      requires p.rate > 0 && 1 <= count <= p.batch && origin.rate > 0
      requires LegalRun(origin, steps) && p == RunFrom(origin, steps)
      modifies this
      ensures LegalRun(origin, more) && p == RunFrom(origin, more)
      ensures p.rate == old(p).rate && p.batch == old(p).batch
      ensures |p.log| == |old(p).log| + 1 && p.log == old(p).log + [p.log[|old(p).log|]]
      ensures p.log[|old(p).log|].first == first && p.log[|old(p).log|].count == count
    {
      ghost var step := SendBatch(first, count, lag, over);
      Extend(origin, steps, p, step);
      more := steps + [step];
      PaceAndSend(first, count, lag, over);
    }

    /**
     The loop over the shards of one FEC block. `lag(x)` is the time that passes before shard
     `x` is looked at, `over(x)` by how much a sleep there overshoots.
     */
    method SendBlock(shards: nat, lag: nat -> nat, over: nat -> nat) returns (ghost steps: seq<Step>)
      requires p.rate > 0 && p.batch > 0
      modifies this
      ensures LegalRun(old(p), steps) && p == RunFrom(old(p), steps)
      ensures p.nextStart == Due(p, p.framePackets)
      ensures old(p).log <= p.log
      ensures Covers(p.log[|old(p).log|..], shards, p.batch)
      ensures FullButLast(p.log[|old(p).log|..], p.batch)
    {
      steps := [];
      var next: nat, waited: nat := 0, 0;
      ghost var calls: seq<Sent> := [];
      NoCalls(p.batch);
      hide Covers, FullButLast, AllFull, Due, Apply;
      for x := 0 to shards
        invariant next <= x < next + p.batch && (next == shards <==> x == shards)
        invariant p.rate == old(p.rate) && p.batch == old(p.batch)
        invariant LegalRun(old(p), steps) && p == RunFrom(old(p), steps)
        invariant p.log == old(p).log + calls
        invariant Covers(calls, next, p.batch)
        invariant FullButLast(calls, p.batch)
        invariant next < shards ==> AllFull(calls, p.batch)
      {
        waited := waited + lag(x);
        if x - next + 1 >= p.batch || x + 1 == shards {
          steps := SendNext(next, x - next + 1, waited, over(x), old(p), steps);
          ghost var call := p.log[|p.log| - 1];
          AddCall(calls, call, next, p.batch);
          calls := calls + [call];
          next, waited := x + 1, 0;
        }
      }
      Extend(old(p), steps, p, EndBlock);
      steps := steps + [EndBlock];
      FinishBlock();
      assert p.log[|old(p).log|..] == calls;
    }

    /** Remembered in case the next frame comes immediately. */
    method FinishBlock()
      requires p.rate > 0
      modifies this
      ensures p == Apply(old(p), EndBlock) && p.log == old(p.log)
      ensures p.nextStart == Due(p, p.framePackets)
    {
      p := p.(nextStart := p.frameStart + MILLISECOND * p.framePackets / p.rate);
    }
  }

  ghost predicate AllFull(calls: seq<Sent>, batch: nat) {
    forall c :: c in calls ==> c.count == batch
  }

  lemma NoCalls(batch: nat)
    ensures Covers([], 0, batch) && FullButLast([], batch) && AllFull([], batch)
  {
  }

  lemma AddCall(calls: seq<Sent>, c: Sent, next: nat, batch: nat)
    requires Covers(calls, next, batch) && AllFull(calls, batch)
    requires c.first == next && 1 <= c.count <= batch
    ensures Covers(calls + [c], next + c.count, batch)
    ensures FullButLast(calls + [c], batch)
    ensures c.count == batch ==> AllFull(calls + [c], batch)
  {
    assert (calls + [c])[..|calls|] == calls;
  }

  lemma RateIsPositive(blocksize: nat)
    requires 0 < blocksize <= 100_000
    ensures PacketsPerMs(blocksize) > 0 && BatchSize(blocksize) > 0
  {
    var r := 800_000 / blocksize;
    assert 800_000 < blocksize * (r + 1);
    assert r >= 8;
  }
}

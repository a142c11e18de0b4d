/**
 Movements in src/input.cpp: what batching does to sums of relative motion and scroll
 amounts, and the accumulators that turn scroll amounts into whole wheel ticks.
 */
module Motions {
  import opened InputQueues

  const WHEEL_DELTA := 120

  datatype Axis = DeltaX | DeltaY | Vertical | Horizontal

  function Amount(axis: Axis, p: Packet): int {
    match (axis, p)
    case (DeltaX, RelMouse(x, _)) => x
    case (DeltaY, RelMouse(_, y)) => y
    case (Vertical, Scroll(a, _)) => a
    case (Horizontal, HScroll(a)) => a
    case _ => 0
  }

  function Total(axis: Axis, s: seq<Packet>): int {
    if s == [] then 0 else Amount(axis, s[0]) + Total(axis, s[1..])
  }

  lemma {:induction false} TotalConcat(axis: Axis, a: seq<Packet>, b: seq<Packet>)
    ensures Total(axis, a + b) == Total(axis, a) + Total(axis, b)
  {
    if a == [] {
      assert a + b == b;
    } else {
      TotalConcat(axis, a[1..], b);
      assert (a + b)[1..] == a[1..] + b;
    }
  }

  /** Equal up to a multiple of 2^16. */
  predicate SameWord(a: int, b: int) {
    (a - b) % 65536 == 0
  }

  lemma BatchKeepsWord(g: Guard, axis: Axis, d: Packet, s: Packet)
    requires Batch(g, d, s).Batched?
    ensures SameWord(Amount(axis, Batch(g, d, s).dest), Amount(axis, d) + Amount(axis, s))
    ensures g.AsCommented? ==> Amount(axis, Batch(g, d, s).dest) == Amount(axis, d) + Amount(axis, s)
  {
    SameWordLaws(0, 0, 0, 0);
    hide SameWord, Wrap16;
    match (d, s)
    case (RelMouse(aX, aY), RelMouse(bX, bY)) =>
      WrapIsWord(aX + bX);
      WrapIsWord(aY + bY);
    case (Scroll(a, _), Scroll(b, _)) => WrapIsWord(a + b);
    case (HScroll(a), HScroll(b)) => WrapIsWord(a + b);
    case _ =>
  }

  lemma WrapIsWord(x: int)
    ensures SameWord(Wrap16(x), x)
    ensures Wrap16(x) == x <==> !Overflows(x)
  {
  }

  /**
   With the guard as the code has it, two relative movements are merged exactly when both
   sums overflow, and then neither sum is right; the two together are delivered
   unchanged exactly when one of the sums does not overflow.
   */
  lemma WrittenGuardIsExactIff(aX: short, aY: short, bX: short, bY: short)
    ensures var r := Batch(AsWritten, RelMouse(aX, aY), RelMouse(bX, bY));
      && (r == Terminate <==> !(Overflows(aX + bX) && Overflows(aY + bY)))
      && (r.Batched? ==> Amount(DeltaX, r.dest) != aX + bX && Amount(DeltaY, r.dest) != aY + bY)
  {
    WrapIsWord(aX + bX);
    WrapIsWord(aY + bY);
  }

  /** The same for scroll amounts; the second field of a vertical packet plays no part, and is overwritten. */
  lemma WrittenScrollGuardIsExactIff(a: short, b: short, a2: short, b2: short)
    ensures var r := Batch(AsWritten, HScroll(a), HScroll(b));
      && (r == Terminate <==> !Overflows(a + b))
      && (r.Batched? ==> Amount(Horizontal, r.dest) != a + b)
    ensures var r := Batch(AsWritten, Scroll(a, a2), Scroll(b, b2));
      && (r == Terminate <==> !Overflows(a + b))
      && (r.Batched? ==> Amount(Vertical, r.dest) != a + b && r.dest.amt2 == r.dest.amt1)
  {
    WrapIsWord(a + b);
  }

  /** Conserved as far as the guard allows: exactly, or modulo 2^16. */
  predicate Kept(g: Guard, after: int, before: int) {
    SameWord(after, before) && (g.AsCommented? ==> after == before)
  }

  lemma KeptChain(g: Guard, after: int, d: int, rest: int, both: int)
    requires Kept(g, after, d + rest) && Kept(g, d, both)
    ensures Kept(g, after, both + rest)
  {
  }

  lemma KeptShift(g: Guard, after: int, before: int, k: int)
    requires Kept(g, after, before)
    ensures Kept(g, after + k, before + k)
  {
  }

  lemma KeptSame(g: Guard, x: int)
    ensures Kept(g, x, x)
  {
  }

  lemma {:induction false} ScanKeepsWord(g: Guard, axis: Axis, h: Packet, rest: seq<Packet>)
    ensures var (h', r) := Scan(g, h, rest);
      Kept(g, Amount(axis, h') + Total(axis, r), Amount(axis, h) + Total(axis, rest))
    decreases |rest|
  {
    hide Amount, Batch, Kept;
    if rest == [] || Batch(g, h, rest[0]) == Terminate {
      KeptSame(g, Amount(axis, h) + Total(axis, rest));
    } else if Batch(g, h, rest[0]).Batched? {
      var d, tail := Batch(g, h, rest[0]).dest, rest[1..];
      BatchKept(g, axis, h, rest[0]);
      ScanKeepsWord(g, axis, d, tail);
      var (h', r) := Scan(g, d, tail);
      KeptChain(g, Amount(axis, h') + Total(axis, r), Amount(axis, d), Total(axis, tail), Amount(axis, h) + Amount(axis, rest[0]));
    } else {
      var e, tail := rest[0], rest[1..];
      ScanKeepsWord(g, axis, h, tail);
      var (h', r) := Scan(g, h, tail);
      assert ([e] + r)[1..] == r;
      KeptShift(g, Amount(axis, h') + Total(axis, r), Amount(axis, h) + Total(axis, tail), Amount(axis, e));
    }
  }

  lemma BatchKept(g: Guard, axis: Axis, d: Packet, s: Packet)
    requires Batch(g, d, s).Batched?
    ensures Kept(g, Amount(axis, Batch(g, d, s).dest), Amount(axis, d) + Amount(axis, s))
  {
    BatchKeepsWord(g, axis, d, s);
    hide Amount, Batch;
  }

  lemma SameWordLaws(a: int, b: int, c: int, k: int)
    ensures SameWord(a, a)
    ensures SameWord(a, b) ==> SameWord(a + k, b + k)
    ensures SameWord(a, b) && SameWord(b, c) ==> SameWord(a, c)
  {
  }

  /**
   Conservation over any interleaving: with the guard as commented, what was delivered and
   what is still queued add up to what arrived; with the guard as written, modulo 2^16.
   */
  lemma MotionConserved(g: Guard, axis: Axis, events: seq<Event>)
    ensures var s := Run(g, events);
      && SameWord(Total(axis, s.delivered) + Total(axis, s.queue), Total(axis, s.arrived))
      && (g.AsCommented? ==> Total(axis, s.delivered) + Total(axis, s.queue) == Total(axis, s.arrived))
  {
    RunConserves(g, axis, events);
  }

  lemma {:induction false} RunConserves(g: Guard, axis: Axis, events: seq<Event>)
    ensures Conserved(g, axis, Run(g, events))
  {
    if events != [] {
      var init, e := events[..|events| - 1], events[|events| - 1];
      RunConserves(g, axis, init);
      hide Conserved, Step;
      if e.Arrive? {
        ArriveConserves(g, axis, Run(g, init), e.perms, e.packet);
      } else {
        DrainConserves(g, axis, Run(g, init));
      }
    }
  }

  ghost predicate Conserved(g: Guard, axis: Axis, s: Stream) {
    Kept(g, Total(axis, s.delivered) + Total(axis, s.queue), Total(axis, s.arrived))
  }

  lemma ArriveConserves(g: Guard, axis: Axis, s: Stream, perms: set<Group>, p: Packet)
    requires Conserved(g, axis, s)
    ensures Conserved(g, axis, Step(g, s, Arrive(perms, p)))
  {
    hide Amount, Kept, Permitted;
    TotalConcat(axis, s.queue, [p]);
    TotalConcat(axis, s.arrived, [p]);
    KeptShift(g, Total(axis, s.delivered) + Total(axis, s.queue), Total(axis, s.arrived), Total(axis, [p]));
  }

  lemma DrainConserves(g: Guard, axis: Axis, s: Stream)
    requires Conserved(g, axis, s)
    ensures Conserved(g, axis, Step(g, s, Drain))
  {
    hide Amount, Kept, Batch, Scan;
    if s.queue != [] {
      var (h, r) := Scan(g, s.queue[0], s.queue[1..]);
      ScanKeepsWord(g, axis, s.queue[0], s.queue[1..]);
      TotalConcat(axis, s.delivered, [h]);
      KeptShift(g, Amount(axis, h) + Total(axis, r), Total(axis, s.queue), Total(axis, s.delivered));
      KeptChain(g, Total(axis, s.delivered + [h]) + Total(axis, r),
                Total(axis, s.delivered) + Total(axis, s.queue), 0, Total(axis, s.arrived));
    }
  }

  /** A stream of two movements whose sum the written guard delivers with the wrong sign. */
  lemma WrittenGuardLosesMotion()
    ensures var p := RelMouse(30000, 30000);
      var s := Run(AsWritten, [Arrive(ALL_GROUPS, p), Arrive(ALL_GROUPS, p), Drain]);
      s.queue == [] && s.delivered == [RelMouse(-5536, -5536)] && Total(DeltaX, s.arrived) == 60000
  {
    var p := RelMouse(30000, 30000);
    var e := Arrive(ALL_GROUPS, p);
    var es := [e, e, Drain];
    assert es[..2] == [e, e] && [e, e][..1] == [e] && [e][..0] == [];
    assert Run(AsWritten, [e]) == Stream([p], [p], []);
    assert [p] + [p] == [p, p];
    assert Run(AsWritten, [e, e]) == Stream([p, p], [p, p], []);
    assert [p, p][1..] == [p] && [p][1..] == [];
    assert Scan(AsWritten, RelMouse(-5536, -5536), []) == (RelMouse(-5536, -5536), []);
    assert Scan(AsWritten, p, [p]) == (RelMouse(-5536, -5536), []);
    assert Total(DeltaX, [p]) == 30000;
  }

  // ----- Wheel ticks -----

  /** Division in C++ rounds towards zero. */
  function TruncDiv(a: int, b: int): int
    requires b > 0
  {
    if a >= 0 then a / b else -((-a) / b)
  }

  /** One scroll packet in low-resolution mode: the new accumulator and what is sent. */
  function Tick(acc: int, amt: int): (int, int) {
    var ticks := TruncDiv(acc + amt, WHEEL_DELTA);
    (acc + amt - ticks * WHEEL_DELTA, ticks * WHEEL_DELTA)
  }

  /** The accumulator and the sum of everything sent after a stream of amounts. */
  function Scrolled(amts: seq<int>): (int, int) {
    if amts == [] then (0, 0)
    else
      var (acc, sent) := Scrolled(amts[..|amts| - 1]);
      var (acc', now) := Tick(acc, amts[|amts| - 1]);
      (acc', sent + now)
  }

  function Sum(amts: seq<int>): int {
    if amts == [] then 0 else Sum(amts[..|amts| - 1]) + amts[|amts| - 1]
  }

  lemma TickKeeps(acc: int, amt: int)
    ensures var (acc', now) := Tick(acc, amt);
      acc' + now == acc + amt && -WHEEL_DELTA < acc' < WHEEL_DELTA && now % WHEEL_DELTA == 0
  {
    var ticks := TruncDiv(acc + amt, WHEEL_DELTA);
    assert (ticks * WHEEL_DELTA) % WHEEL_DELTA == 0;
  }

  /** Nothing is sent before a whole tick has come together, and what is left over never points the other way. */
  lemma TickWaits(acc: int, amt: int)
    ensures var (rest, now) := Tick(acc, amt);
      && (now == 0 <==> -120 < acc + amt < 120)
      && (acc + amt >= 0 ==> 0 <= rest <= acc + amt)
      && (acc + amt <= 0 ==> acc + amt <= rest <= 0)
  {
    var ticks := TruncDiv(acc + amt, WHEEL_DELTA);
    assert acc + amt >= 0 ==> 120 * ticks <= acc + amt < 120 * ticks + 120;
    assert acc + amt <= 0 ==> 120 * ticks - 120 < acc + amt <= 120 * ticks;
  }

  /** After every packet: sent plus accumulated is what was received, the rest is less than a tick, only whole ticks are sent. */
  lemma {:induction false} ScrollConserved(amts: seq<int>)
    ensures var (acc, sent) := Scrolled(amts);
      acc + sent == Sum(amts) && -WHEEL_DELTA < acc < WHEEL_DELTA && sent % WHEEL_DELTA == 0
  {
    hide Tick;
    if amts != [] {
      ScrollConserved(amts[..|amts| - 1]);
      TickKeeps(Scrolled(amts[..|amts| - 1]).0, amts[|amts| - 1]);
    }
  }

  /** The amounts of the scroll packets of a stream. */
  function Amounts(axis: Axis, s: seq<Packet>): seq<int> {
    if s == [] then []
    else
      var p := s[|s| - 1];
      Amounts(axis, s[..|s| - 1]) + (if IsScroll(axis, p) then [Amount(axis, p)] else [])
  }

  predicate IsScroll(axis: Axis, p: Packet) {
    (axis.Vertical? && p.Scroll?) || (axis.Horizontal? && p.HScroll?)
  }

  lemma {:induction false} SumOfAmounts(axis: Axis, s: seq<Packet>)
    requires axis.Vertical? || axis.Horizontal?
    ensures Sum(Amounts(axis, s)) == Total(axis, s)
  {
    if s != [] {
      var init, p := s[..|s| - 1], s[|s| - 1];
      SumOfAmounts(axis, init);
      assert s == init + [p];
      TotalConcat(axis, init, [p]);
      var a := Amounts(axis, init);
      if IsScroll(axis, p) {
        assert (a + [Amount(axis, p)])[..|a|] == a;
      } else {
        assert a + [] == a;
      }
    }
  }

  /**
   With the guard as commented and the queue drained, the ticks sent for the batched stream
   and for the unbatched one differ by at most one tick.
   */
  lemma BatchedTicksAgree(events: seq<Event>, axis: Axis)
    requires axis.Vertical? || axis.Horizontal?
    requires Run(AsCommented, events).queue == []
    ensures var s := Run(AsCommented, events);
      var difference := Scrolled(Amounts(axis, s.delivered)).1 - Scrolled(Amounts(axis, s.arrived)).1;
      difference in {-WHEEL_DELTA, 0, WHEEL_DELTA}
  {
    var s := Run(AsCommented, events);
    MotionConserved(AsCommented, axis, events);
    SumOfAmounts(axis, s.delivered);
    SumOfAmounts(axis, s.arrived);
    ScrollConserved(Amounts(axis, s.delivered));
    ScrollConserved(Amounts(axis, s.arrived));
    OneTickApart(Scrolled(Amounts(axis, s.delivered)), Scrolled(Amounts(axis, s.arrived)));
  }

  lemma OneTickApart(a: (int, int), b: (int, int))
    requires a.0 + a.1 == b.0 + b.1
    requires -WHEEL_DELTA < a.0 < WHEEL_DELTA && -WHEEL_DELTA < b.0 < WHEEL_DELTA
    requires a.1 % WHEEL_DELTA == 0 && b.1 % WHEEL_DELTA == 0
    ensures a.1 - b.1 in {-WHEEL_DELTA, 0, WHEEL_DELTA}
  {
    assert (a.1 - b.1) % WHEEL_DELTA == 0;
    assert -240 < a.1 - b.1 < 240;
  }

  /** The scroll part of a client's input context, with everything sent to the platform. */
  class ScrollContext {
    var accumulated: int
    var received: seq<int>
    var sent: int

    ghost predicate Valid()
      reads this
    {
      (accumulated, sent) == Scrolled(received)
    }

    constructor ()
      ensures Valid() && received == []
    {
      accumulated, received, sent := 0, [], 0;
    }

    /** `passthrough` of a scroll packet with high-resolution scrolling off. */
    method PassScroll(mouseEnabled: bool, amt: int)
      requires Valid()
      modifies this
      ensures Valid()
      ensures received == if mouseEnabled then old(received) + [amt] else old(received)
    {
      if !mouseEnabled {
        return;
      }
      assert (received + [amt])[..|received|] == received;
      received := received + [amt];
      accumulated := accumulated + amt;
      var fullTicks := TruncDiv(accumulated, WHEEL_DELTA);
      if fullTicks != 0 {
        sent := sent + fullTicks * WHEEL_DELTA;
        accumulated := accumulated - fullTicks * WHEEL_DELTA;
      }
    }
  }
}

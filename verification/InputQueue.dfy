/**
 The input queue of src/input.cpp: packets wait in order, and a drain delivers the first
 one after merging later packets into it. What matters of a packet is kept field by field;
 the rest of its payload is `data`.
 */
module InputQueues {
  import opened Wrappers

  type short = x: int | -32768 <= x < 32768

  datatype TouchEvent = Hover | Move | OtherEvent(code: nat)

  datatype Plain = MouseButton | Key | Text | ControllerArrival | ControllerBattery | Unknown(magic: nat)

  datatype Packet =
    | RelMouse(dx: short, dy: short)
    | AbsMouse(width: int, height: int, data: seq<int>)
    | Scroll(amt1: short, amt2: short)
    | HScroll(amt: short)
    | MultiController(controller: int, mask: int, buttons: int, buttons2: int, data: seq<int>)
    | Touch(event: TouchEvent, pointer: int, data: seq<int>)
    | Pen(event: TouchEvent, buttons: int, tool: int, data: seq<int>)
    | ControllerTouch(event: TouchEvent, controller: int, pointer: int, data: seq<int>)
    | Motion(controller: int, sensor: int, data: seq<int>)
    | Other(plain: Plain, data: seq<int>)

  /** The additions of `batch` are guarded against overflow; the code negates the test its comment describes. */
  datatype Guard = AsWritten | AsCommented

  datatype BatchResult = Batched(dest: Packet) | NotBatchable | Terminate

  function Wrap16(x: int): short {
    (x + 32768) % 65536 - 32768
  }

  predicate Overflows(x: int) {
    x < -32768 || x >= 32768
  }

  /** Whether `batch` goes on after adding `a` and `b`. */
  predicate GoesOn(g: Guard, a: short, b: short) {
    if g.AsWritten? then Overflows(a + b) else !Overflows(a + b)
  }

  predicate Movable(e: TouchEvent) {
    e == Move || e == Hover
  }

  /** The overloads of `batch` behind the dispatch on the packet type. */
  function Batch(g: Guard, dest: Packet, src: Packet): BatchResult {
    match (dest, src)
    case (RelMouse(aX, aY), RelMouse(bX, bY)) =>
      if GoesOn(g, aX, bX) && GoesOn(g, aY, bY) then Batched(RelMouse(Wrap16(aX + bX), Wrap16(aY + bY)))
      else Terminate
    case (AbsMouse(aw, ah, _), AbsMouse(bw, bh, _)) =>
      if aw != bw || ah != bh then Terminate else Batched(src)
    case (Scroll(a, _), Scroll(b, _)) =>
      if GoesOn(g, a, b) then Batched(Scroll(Wrap16(a + b), Wrap16(a + b))) else Terminate
    case (HScroll(a), HScroll(b)) =>
      if GoesOn(g, a, b) then Batched(HScroll(Wrap16(a + b))) else Terminate
    case (MultiController(an, am, ab, ab2, _), MultiController(bn, bm, bb, bb2, _)) =>
      if am != bm then Terminate
      else if an != bn then NotBatchable
      else if ab != bb || ab2 != bb2 then Terminate
      else Batched(src)
    case (Touch(ae, ap, _), Touch(be, bp, _)) =>
      if !Movable(ae) then Terminate
      else if !Movable(be) then Terminate
      else if ap != bp then NotBatchable
      else if ae != be then Terminate
      else Batched(src)
    case (Pen(ae, ab, at, _), Pen(be, bb, bt, _)) =>
      if !Movable(ae) then Terminate
      else if ae != be || ab != bb || at != bt then Terminate
      else Batched(src)
    case (ControllerTouch(ae, an, ap, _), ControllerTouch(be, bn, bp, _)) =>
      if !Movable(ae) then Terminate
      else if an != bn then NotBatchable
      else if !Movable(be) then Terminate
      else if ap != bp then NotBatchable
      else if ae != be then Terminate
      else Batched(src)
    case (Motion(an, asn, _), Motion(bn, bsn, _)) =>
      if an != bn || asn != bsn then NotBatchable else Batched(src)
    case _ => Terminate
  }

  /** The loop of `passthrough_next_message`: the packet to deliver and what stays queued. */
  function Scan(g: Guard, head: Packet, rest: seq<Packet>): (Packet, seq<Packet>)
    decreases |rest|
  {
    if rest == [] then (head, [])
    else
      match Batch(g, head, rest[0])
      case Terminate => (head, rest)
      case Batched(d) => Scan(g, d, rest[1..])
      case NotBatchable =>
        var (h, r) := Scan(g, head, rest[1..]);
        (h, [rest[0]] + r)
  }

  // ----- Permissions -----

  datatype Group = Controllers | Touches | Pens | Mice | Keyboards

  const ALL_GROUPS := {Controllers, Touches, Pens, Mice, Keyboards}

  function GroupOf(p: Packet): Option<Group> {
    match p
    case MultiController(_, _, _, _, _) => Some(Controllers)
    case ControllerTouch(_, _, _, _) => Some(Controllers)
    case Motion(_, _, _) => Some(Controllers)
    case RelMouse(_, _) => Some(Mice)
    case AbsMouse(_, _, _) => Some(Mice)
    case Scroll(_, _) => Some(Mice)
    case HScroll(_) => Some(Mice)
    case Touch(_, _, _) => Some(Touches)
    case Pen(_, _, _, _) => Some(Pens)
    case Other(k, _) =>
      match k
      case MouseButton => Some(Mice)
      case Key => Some(Keyboards)
      case Text => Some(Keyboards)
      case ControllerArrival => Some(Controllers)
      case ControllerBattery => Some(Controllers)
      case Unknown(_) => None
  }

  /** A client with every input permission is not checked at all. */
  predicate Permitted(perms: set<Group>, p: Packet) {
    perms != {} && (perms == ALL_GROUPS || (GroupOf(p).Some? && GroupOf(p).value in perms))
  }

  /** Permissions: nothing passes with none, everything with all, more of them never stop a packet, and one alone lets its own group through. */
  lemma PermissionsGrow(few: set<Group>, more: set<Group>, p: Packet)
    ensures !Permitted({}, p) && Permitted(ALL_GROUPS, p)
    ensures few <= more && Permitted(few, p) ==> Permitted(more, p)
    ensures Permitted({Mice}, p) <==>
      p.RelMouse? || p.AbsMouse? || p.Scroll? || p.HScroll? || (p.Other? && p.plain.MouseButton?)
    ensures Permitted({Keyboards}, p) <==> p.Other? && (p.plain.Key? || p.plain.Text?)
    ensures Permitted({Touches}, p) <==> p.Touch?
    ensures Permitted({Pens}, p) <==> p.Pen?
    ensures Permitted({Controllers}, p) <==>
      || p.MultiController? || p.ControllerTouch? || p.Motion?
      || (p.Other? && (p.plain.ControllerArrival? || p.plain.ControllerBattery?))
  {
    assert Controllers in ALL_GROUPS && Mice in ALL_GROUPS;
    if few <= more && few == ALL_GROUPS {
      forall x ensures x in ALL_GROUPS {
        EveryGroup(x);
      }
      assert more == ALL_GROUPS;
    }
  }

  lemma EveryGroup(x: Group)
    ensures x in ALL_GROUPS
  {
    match x
    case Controllers =>
    case Touches =>
    case Pens =>
    case Mice =>
    case Keyboards =>
  }

  // ----- Keys, discrete states and merging -----

  /** The packet type, as far as `magic` tells it. */
  datatype Kind = KRel | KAbs | KScroll | KHScroll | KMulti | KTouch | KPen | KCTouch | KMotion | KOther(plain: Plain)

  function KindOf(p: Packet): Kind {
    match p
    case RelMouse(_, _) => KRel
    case AbsMouse(_, _, _) => KAbs
    case Scroll(_, _) => KScroll
    case HScroll(_) => KHScroll
    case MultiController(_, _, _, _, _) => KMulti
    case Touch(_, _, _) => KTouch
    case Pen(_, _, _, _) => KPen
    case ControllerTouch(_, _, _, _) => KCTouch
    case Motion(_, _, _) => KMotion
    case Other(k, _) => KOther(k)
  }

  /** A device a packet speaks for: a controller, a controller's sensor or finger, a pointer. */
  datatype Device = Device(kind: Kind, first: int, second: int)

  function DeviceOf(p: Packet): Device {
    match p
    case MultiController(n, _, _, _, _) => Device(KMulti, n, 0)
    case Touch(_, f, _) => Device(KTouch, f, 0)
    case ControllerTouch(_, n, f, _) => Device(KCTouch, n, f)
    case Motion(n, s, _) => Device(KMotion, n, s)
    case _ => Device(KindOf(p), 0, 0)
  }

  /** The part of a packet whose changes must all arrive: masks, buttons, event types, tools, reference sizes. */
  function Discrete(p: Packet): seq<int> {
    match p
    case AbsMouse(w, h, _) => [w, h]
    case MultiController(_, m, b, b2, _) => [m, b, b2]
    case Touch(e, _, _) => EventCode(e)
    case Pen(e, b, t, _) => EventCode(e) + [b, t]
    case ControllerTouch(e, _, _, _) => EventCode(e)
    case _ => []
  }

  function EventCode(e: TouchEvent): seq<int> {
    match e
    case Hover => [0, 0]
    case Move => [1, 0]
    case OtherEvent(c) => [2, c]
  }

  /** Packets of one device whose merging loses nothing: same discrete state, and not a state change. */
  predicate Mergeable(p: Packet, q: Packet) {
    && DeviceOf(p) == DeviceOf(q)
    && !p.Other? && !q.Other?
    && Discrete(p) == Discrete(q)
    && (p.Touch? || p.Pen? || p.ControllerTouch? ==> Movable(p.event))
  }

  /** Movements add up, anything else is replaced by the later packet. */
  function Merge(p: Packet, q: Packet): Packet {
    match (p, q)
    case (RelMouse(aX, aY), RelMouse(bX, bY)) => RelMouse(Wrap16(aX + bX), Wrap16(aY + bY))
    case (Scroll(a, _), Scroll(b, _)) => Scroll(Wrap16(a + b), Wrap16(a + b))
    case (HScroll(a), HScroll(b)) => HScroll(Wrap16(a + b))
    case _ => q
  }

  lemma EventCodeInjective(a: TouchEvent, b: TouchEvent)
    ensures EventCode(a) == EventCode(b) <==> a == b
  {
    if EventCode(a) == EventCode(b) {
      assert EventCode(a)[0] == EventCode(b)[0] && EventCode(a)[1] == EventCode(b)[1];
    }
  }

  lemma Wrap16Associates(a: int, b: int, c: int)
    ensures Wrap16(Wrap16(a + b) + c) == Wrap16(a + b + c) == Wrap16(a + Wrap16(b + c))
  {
  }

  lemma MergeableIsTransitive(p: Packet, q: Packet, r: Packet)
    requires Mergeable(p, q)
    ensures Mergeable(q, r) <==> Mergeable(p, r)
    ensures Mergeable(Merge(p, q), r) <==> Mergeable(q, r)
    ensures Mergeable(q, r) ==> Mergeable(p, Merge(q, r))
  {
    match (p, q)
    case (Touch(a, _, _), Touch(b, _, _)) => EventCodeInjective(a, b);
    case (ControllerTouch(a, _, _, _), ControllerTouch(b, _, _, _)) => EventCodeInjective(a, b);
    case (Pen(a, _, _, _), Pen(b, _, _, _)) =>
      assert Discrete(p)[0] == Discrete(q)[0] && Discrete(p)[1] == Discrete(q)[1];
      EventCodeInjective(a, b);
    case _ =>
  }

  lemma MergeAssociates(p: Packet, q: Packet, r: Packet)
    requires Mergeable(p, q) && Mergeable(q, r)
    ensures Merge(Merge(p, q), r) == Merge(p, Merge(q, r))
  {
    hide Wrap16, Discrete;
    if p.RelMouse? {
      Wrap16Associates(p.dx, q.dx, r.dx);
      Wrap16Associates(p.dy, q.dy, r.dy);
    } else if p.Scroll? {
      Wrap16Associates(p.amt1, q.amt1, r.amt1);
    } else if p.HScroll? {
      Wrap16Associates(p.amt, q.amt, r.amt);
    }
  }

  /** `batch` merges exactly as `Merge` says, skips only other devices of the same type, under either guard. */
  lemma BatchIsMerge(g: Guard, d: Packet, s: Packet)
    ensures Batch(g, d, s).Batched? ==> Mergeable(d, s) && Batch(g, d, s).dest == Merge(d, s)
    ensures Batch(g, d, s).NotBatchable? ==> KindOf(d) == KindOf(s) && DeviceOf(d) != DeviceOf(s)
    ensures KindOf(d) != KindOf(s) ==> Batch(g, d, s) == Terminate
    ensures DeviceOf(Merge(d, s)) == DeviceOf(s) && KindOf(Merge(d, s)) == KindOf(s)
  {
  }

  // ----- Exactly when packets are merged, passed over, or stop the scan -----

  /** Every sum that merging two movements would make fits its 16 bits. */
  predicate SumsFit(p: Packet, q: Packet) {
    match (p, q)
    case (RelMouse(aX, aY), RelMouse(bX, bY)) => -32768 <= aX + bX < 32768 && -32768 <= aY + bY < 32768
    case (Scroll(a, _), Scroll(b, _)) => -32768 <= a + b < 32768
    case (HScroll(a), HScroll(b)) => -32768 <= a + b < 32768
    case _ => false
  }

  /** Every such sum fails to fit. */
  predicate SumsOverflow(p: Packet, q: Packet) {
    match (p, q)
    case (RelMouse(aX, aY), RelMouse(bX, bY)) => !(-32768 <= aX + bX < 32768) && !(-32768 <= aY + bY < 32768)
    case (Scroll(a, _), Scroll(b, _)) => !(-32768 <= a + b < 32768)
    case (HScroll(a), HScroll(b)) => !(-32768 <= a + b < 32768)
    case _ => false
  }

  /** A packet of another device of the same type, with nothing between the two devices that has to stay in order. */
  predicate MayPass(p: Packet, q: Packet) {
    && KindOf(p) == KindOf(q) && DeviceOf(p) != DeviceOf(q)
    && (p.MultiController? ==> p.mask == q.mask)
    && (p.Touch? ==> Movable(p.event) && Movable(q.event))
    && (p.ControllerTouch? ==> Movable(p.event) && (p.controller != q.controller || Movable(q.event)))
  }

  /**
   The three answers of `batch`, for all packets: a state is replaced exactly by a later one of the
   same device and discrete state; movements are added exactly when all sums fit, or, as written,
   exactly when none does; a packet is passed over exactly when it may be; all others stop the scan.
   */
  lemma BatchIff(g: Guard, p: Packet, q: Packet)
    ensures !IsMovement(p) ==> (Batch(g, p, q).Batched? <==> Mergeable(p, q))
    ensures IsMovement(p) ==> (Batch(g, p, q).Batched? <==> if g.AsCommented? then SumsFit(p, q) else SumsOverflow(p, q))
    ensures Batch(g, p, q).NotBatchable? <==> MayPass(p, q)
    ensures Batch(g, p, q).Terminate? <==> !Batch(g, p, q).Batched? && !MayPass(p, q)
  {
    StateBatchedIff(g, p, q);
    MovementBatchedIff(g, p, q);
    PassedIff(g, p, q);
    hide Batch, Mergeable, MayPass, SumsFit, SumsOverflow;
  }

  lemma StateBatchedIff(g: Guard, p: Packet, q: Packet)
    ensures !IsMovement(p) ==> (Batch(g, p, q).Batched? <==> Mergeable(p, q))
  {
    if p.Touch? && q.Touch? {
      EventCodeInjective(p.event, q.event);
    } else if p.ControllerTouch? && q.ControllerTouch? {
      EventCodeInjective(p.event, q.event);
    } else if p.Pen? && q.Pen? {
      PenState(p, q);
    }
  }

  lemma MovementBatchedIff(g: Guard, p: Packet, q: Packet)
    ensures IsMovement(p) ==> (Batch(g, p, q).Batched? <==> if g.AsCommented? then SumsFit(p, q) else SumsOverflow(p, q))
  {
  }

  lemma PassedIff(g: Guard, p: Packet, q: Packet)
    ensures Batch(g, p, q).NotBatchable? <==> MayPass(p, q)
  {
  }

  lemma PenState(p: Packet, q: Packet)
    requires p.Pen? && q.Pen?
    ensures Discrete(p) == Discrete(q) <==> p.event == q.event && p.buttons == q.buttons && p.tool == q.tool
  {
    EventCodeInjective(p.event, q.event);
    var a, b := Discrete(p), Discrete(q);
    assert a[..2] == EventCode(p.event) && b[..2] == EventCode(q.event);
    assert a[2] == p.buttons && a[3] == p.tool && b[2] == q.buttons && b[3] == q.tool;
  }

  lemma MergedPasses(g: Guard, p: Packet, q: Packet, x: Packet)
    requires Batch(g, p, q).Batched?
    ensures MayPass(p, x) ==> MayPass(Batch(g, p, q).dest, x)
  {
    BatchIff(g, p, q);
    if p.Touch? && q.Touch? {
      EventCodeInjective(p.event, q.event);
    } else if p.ControllerTouch? && q.ControllerTouch? {
      EventCodeInjective(p.event, q.event);
    }
  }

  lemma {:induction false} ScanKeepsPassing(g: Guard, h: Packet, rest: seq<Packet>, x: Packet)
    requires MayPass(h, x)
    ensures MayPass(Scan(g, h, rest).0, x)
    decreases |rest|
  {
    hide Batch, MayPass;
    if rest != [] {
      match Batch(g, h, rest[0])
      case Terminate =>
      case Batched(d) =>
        MergedPasses(g, h, rest[0], x);
        ScanKeepsPassing(g, d, rest[1..], x);
      case NotBatchable => ScanKeepsPassing(g, h, rest[1..], x);
    }
  }

  /** Of what a scan leaves queued, `k` packets were passed over, and the next one stops it: nothing that could be merged is left before it. */
  ghost predicate Exhausted(g: Guard, d: Packet, r: seq<Packet>, k: nat) {
    && k <= |r|
    && (forall i :: 0 <= i < k ==> MayPass(d, r[i]))
    && (k < |r| ==> Blocks(g, d, r[k]))
  }

  predicate Blocks(g: Guard, d: Packet, x: Packet) {
    && !MayPass(d, x)
    && (!IsMovement(d) ==> !Mergeable(d, x))
    && (IsMovement(d) ==> if g.AsCommented? then !SumsFit(d, x) else !SumsOverflow(d, x))
  }

  lemma {:induction false} ScanExhausts(g: Guard, h: Packet, rest: seq<Packet>) returns (k: nat)
    ensures Exhausted(g, Scan(g, h, rest).0, Scan(g, h, rest).1, k)
    decreases |rest|
  {
    hide Batch, MayPass, Mergeable;
    if rest == [] {
      k := 0;
    } else {
      BatchIff(g, h, rest[0]);
      match Batch(g, h, rest[0])
      case Terminate => k := 0;
      case Batched(d) => k := ScanExhausts(g, d, rest[1..]);
      case NotBatchable =>
        var n := ScanExhausts(g, h, rest[1..]);
        ScanKeepsPassing(g, h, rest[1..], rest[0]);
        k := n + 1;
    }
  }

  /** After every drain of a queue that is not empty the packet delivered has taken in all it could. */
  lemma DrainExhausts(g: Guard, s: Stream) returns (d: Packet, k: nat)
    requires s.queue != []
    ensures var t := Step(g, s, Drain);
      t.delivered == s.delivered + [d] && |t.queue| < |s.queue| && Exhausted(g, d, t.queue, k)
  {
    d := Scan(g, s.queue[0], s.queue[1..]).0;
    k := ScanExhausts(g, s.queue[0], s.queue[1..]);
    ScanShrinks(g, s.queue[0], s.queue[1..]);
  }

  lemma {:induction false} ScanShrinks(g: Guard, h: Packet, rest: seq<Packet>)
    ensures |Scan(g, h, rest).1| <= |rest|
    decreases |rest|
  {
    hide Batch;
    if rest != [] {
      match Batch(g, h, rest[0])
      case Terminate =>
      case Batched(d) => ScanShrinks(g, d, rest[1..]);
      case NotBatchable => ScanShrinks(g, h, rest[1..]);
    }
  }

  // ----- What one device sees of a stream -----

  /** Packets of the device itself; packets of other types are separators, other devices of its type are unseen. */
  datatype Seen = Mine(packet: Packet) | Separator

  function Sight(dev: Device, p: Packet): seq<Seen> {
    if DeviceOf(p) == dev then [Mine(p)] else if KindOf(p) == dev.kind then [] else [Separator]
  }

  function View(dev: Device, s: seq<Packet>): seq<Seen> {
    if s == [] then [] else Sight(dev, s[0]) + View(dev, s[1..])
  }

  predicate Joinable(x: Seen, y: Seen) {
    (x.Separator? && y.Separator?) || (x.Mine? && y.Mine? && Mergeable(x.packet, y.packet))
  }

  function Join(x: Seen, y: Seen): Seen {
    if x.Mine? && y.Mine? then Mine(Merge(x.packet, y.packet)) else y
  }

  function PutFront(x: Seen, n: seq<Seen>): seq<Seen> {
    if n != [] && Joinable(x, n[0]) then [Join(x, n[0])] + n[1..] else [x] + n
  }

  /** Every maximal run of mergeable packets replaced by its merge: the meaning of a stream to one device. */
  function Norm(v: seq<Seen>): seq<Seen> {
    if v == [] then [] else PutFront(v[0], Norm(v[1..]))
  }

  function Meaning(dev: Device, s: seq<Packet>): seq<Seen> {
    Norm(View(dev, s))
  }

  lemma PutFrontJoin(x: Seen, y: Seen, n: seq<Seen>)
    requires Joinable(x, y)
    ensures PutFront(x, PutFront(y, n)) == PutFront(Join(x, y), n)
  {
    if x.Mine? {
      if n != [] && n[0].Mine? {
        MergeableIsTransitive(x.packet, y.packet, n[0].packet);
        if Joinable(y, n[0]) {
          MergeAssociates(x.packet, y.packet, n[0].packet);
        }
      }
    }
  }

  lemma {:induction false} ViewConcat(dev: Device, a: seq<Packet>, b: seq<Packet>)
    ensures View(dev, a + b) == View(dev, a) + View(dev, b)
  {
    hide Sight;
    if a == [] {
      assert a + b == b;
    } else {
      ViewConcat(dev, a[1..], b);
      assert (a + b)[1..] == a[1..] + b;
      var x, y, z := Sight(dev, a[0]), View(dev, a[1..]), View(dev, b);
      assert x + (y + z) == (x + y) + z;
    }
  }

  lemma {:induction false} NormPrefix(x: seq<Seen>, a: seq<Seen>, b: seq<Seen>)
    requires Norm(a) == Norm(b)
    ensures Norm(x + a) == Norm(x + b)
  {
    hide PutFront;
    if x == [] {
      assert x + a == a && x + b == b;
    } else {
      NormPrefix(x[1..], a, b);
      assert (x + a)[1..] == x[1..] + a && (x + b)[1..] == x[1..] + b;
    }
  }

  lemma NormSuffixStep(x: Seen, n: seq<Seen>, t: seq<Seen>)
    ensures Norm(PutFront(x, n) + t) == PutFront(x, Norm(n + t))
  {
    hide Joinable, Join;
    if n != [] && Joinable(x, n[0]) {
      var r := n[1..];
      assert (PutFront(x, n) + t)[1..] == r + t;
      assert (n + t)[1..] == r + t;
      PutFrontJoin(x, n[0], Norm(r + t));
    } else {
      assert (PutFront(x, n) + t)[1..] == n + t;
    }
  }

  lemma {:induction false} NormSuffix(a: seq<Seen>, t: seq<Seen>)
    ensures Norm(a + t) == Norm(Norm(a) + t)
  {
    hide PutFront;
    if a != [] {
      NormSuffix(a[1..], t);
      assert (a + t)[1..] == a[1..] + t;
      NormSuffixStep(a[0], Norm(a[1..]), t);
    }
  }

  // ----- One drain keeps the meaning -----

  lemma ViewCons(dev: Device, p: Packet, s: seq<Packet>)
    ensures View(dev, [p] + s) == View(dev, [p]) + View(dev, s)
  {
    ViewConcat(dev, [p], s);
  }

  lemma MeaningCons(dev: Device, p: Packet, a: seq<Packet>, b: seq<Packet>)
    requires Meaning(dev, a) == Meaning(dev, b)
    ensures Meaning(dev, [p] + a) == Meaning(dev, [p] + b)
  {
    ViewCons(dev, p, a);
    ViewCons(dev, p, b);
    NormPrefix(View(dev, [p]), View(dev, a), View(dev, b));
  }

  /** Merging two neighbours changes no device's view. */
  lemma MergeKeepsMeaning(dev: Device, p: Packet, q: Packet, s: seq<Packet>)
    requires Mergeable(p, q)
    ensures Meaning(dev, [Merge(p, q)] + s) == Meaning(dev, [p] + ([q] + s))
  {
    var m := Merge(p, q);
    MergedDevice(p, q);
    if DeviceOf(p) == dev {
      MineFirst(dev, m, s);
      MineFirst(dev, q, s);
      MineFirst(dev, p, [q] + s);
      PutFrontJoin(Mine(p), Mine(q), Meaning(dev, s));
    } else if KindOf(p) != dev.kind {
      OtherFirst(dev, m, s);
      OtherFirst(dev, q, s);
      OtherFirst(dev, p, [q] + s);
      PutFrontJoin(Separator, Separator, Meaning(dev, s));
    } else {
      UnseenFirst(dev, m, s);
      UnseenFirst(dev, q, s);
      UnseenFirst(dev, p, [q] + s);
    }
  }

  lemma MergedDevice(p: Packet, q: Packet)
    requires Mergeable(p, q)
    ensures DeviceOf(Merge(p, q)) == DeviceOf(p) == DeviceOf(q)
    ensures KindOf(Merge(p, q)) == KindOf(p) == KindOf(q)
  {
  }

  lemma MineFirst(dev: Device, p: Packet, s: seq<Packet>)
    requires DeviceOf(p) == dev
    ensures Meaning(dev, [p] + s) == PutFront(Mine(p), Meaning(dev, s))
  {
    assert ([p] + s)[1..] == s;
    assert View(dev, [p] + s) == [Mine(p)] + View(dev, s);
  }

  lemma OtherFirst(dev: Device, p: Packet, s: seq<Packet>)
    requires DeviceOf(p) != dev && KindOf(p) != dev.kind
    ensures Meaning(dev, [p] + s) == PutFront(Separator, Meaning(dev, s))
  {
    assert ([p] + s)[1..] == s;
    assert View(dev, [p] + s) == [Separator] + View(dev, s);
  }

  lemma UnseenFirst(dev: Device, p: Packet, s: seq<Packet>)
    requires DeviceOf(p) != dev && KindOf(p) == dev.kind
    ensures Meaning(dev, [p] + s) == Meaning(dev, s)
  {
    assert ([p] + s)[1..] == s;
    assert View(dev, [p] + s) == View(dev, s);
  }

  lemma KindIsOfDevice(p: Packet)
    ensures DeviceOf(p).kind == KindOf(p)
  {
  }

  lemma {:induction false} ScanKeepsDevice(g: Guard, h: Packet, rest: seq<Packet>)
    ensures DeviceOf(Scan(g, h, rest).0) == DeviceOf(h) && KindOf(Scan(g, h, rest).0) == KindOf(h)
    decreases |rest|
  {
    if rest != [] {
      BatchIsMerge(g, h, rest[0]);
      match Batch(g, h, rest[0])
      case Terminate =>
      case Batched(d) =>
        KindIsOfDevice(h);
        KindIsOfDevice(rest[0]);
        ScanKeepsDevice(g, d, rest[1..]);
      case NotBatchable => ScanKeepsDevice(g, h, rest[1..]);
    }
  }

  /** A skipped packet may stand before or after the delivered one, as far as any device can tell. */
  lemma SkipKeepsMeaning(dev: Device, h: Packet, h': Packet, e: Packet, a: seq<Packet>, b: seq<Packet>)
    requires DeviceOf(h') == DeviceOf(h) && KindOf(h') == KindOf(h)
    requires KindOf(e) == KindOf(h) && DeviceOf(e) != DeviceOf(h)
    requires Meaning(dev, [h'] + a) == Meaning(dev, [h] + b)
    ensures Meaning(dev, [h'] + ([e] + a)) == Meaning(dev, [h] + ([e] + b))
  {
    KindIsOfDevice(h);
    KindIsOfDevice(e);
    if KindOf(h) != dev.kind {
      OtherFirst(dev, h', a);
      OtherFirst(dev, e, a);
      OtherFirst(dev, h', [e] + a);
      OtherFirst(dev, h, b);
      OtherFirst(dev, e, b);
      OtherFirst(dev, h, [e] + b);
    } else if DeviceOf(h) == dev {
      UnseenFirst(dev, e, a);
      UnseenFirst(dev, e, b);
      MineFirst(dev, h', a);
      MineFirst(dev, h', [e] + a);
      MineFirst(dev, h, b);
      MineFirst(dev, h, [e] + b);
    } else {
      UnseenFirst(dev, h', a);
      UnseenFirst(dev, h, b);
      UnseenFirst(dev, h', [e] + a);
      UnseenFirst(dev, h, [e] + b);
      MeaningCons(dev, e, a, b);
    }
  }

  lemma {:induction false} ScanKeepsMeaning(g: Guard, dev: Device, h: Packet, rest: seq<Packet>)
    ensures var (h', r) := Scan(g, h, rest);
      Meaning(dev, [h'] + r) == Meaning(dev, [h] + rest)
    decreases |rest|
  {
    if rest == [] {
    } else {
      var e, tail := rest[0], rest[1..];
      assert rest == [e] + tail;
      BatchIsMerge(g, h, e);
      match Batch(g, h, e)
      case Terminate =>
      case Batched(d) =>
        ScanKeepsMeaning(g, dev, d, tail);
        MergeKeepsMeaning(dev, h, e, tail);
      case NotBatchable =>
        ScanKeepsMeaning(g, dev, h, tail);
        ScanKeepsDevice(g, h, tail);
        var (h', r) := Scan(g, h, tail);
        SkipKeepsMeaning(dev, h, h', e, r, tail);
    }
  }

  // ----- Whole runs of enqueues and drains -----

  datatype Event = Arrive(perms: set<Group>, packet: Packet) | Drain

  /** The queue with everything that got past the permission check, and everything delivered. */
  datatype Stream = Stream(queue: seq<Packet>, arrived: seq<Packet>, delivered: seq<Packet>)

  function Step(g: Guard, s: Stream, e: Event): Stream {
    match e
    case Arrive(perms, p) =>
      if Permitted(perms, p) then Stream(s.queue + [p], s.arrived + [p], s.delivered) else s
    case Drain =>
      if s.queue == [] then s
      else
        var (h, r) := Scan(g, s.queue[0], s.queue[1..]);
        Stream(r, s.arrived, s.delivered + [h])
  }

  function Run(g: Guard, events: seq<Event>): Stream {
    if events == [] then Stream([], [], []) else Step(g, Run(g, events[..|events| - 1]), events[|events| - 1])
  }

  lemma ArriveKeeps(dev: Device, a: seq<Packet>, b: seq<Packet>, p: Packet)
    requires Meaning(dev, a) == Meaning(dev, b)
    ensures Meaning(dev, a + [p]) == Meaning(dev, b + [p])
  {
    ViewConcat(dev, a, [p]);
    ViewConcat(dev, b, [p]);
    NormSuffix(View(dev, a), View(dev, [p]));
    NormSuffix(View(dev, b), View(dev, [p]));
  }

  lemma DrainKeeps(g: Guard, dev: Device, delivered: seq<Packet>, queue: seq<Packet>)
    requires queue != []
    ensures var (h, r) := Scan(g, queue[0], queue[1..]);
      Meaning(dev, delivered + [h] + r) == Meaning(dev, delivered + queue)
  {
    var (h, r) := Scan(g, queue[0], queue[1..]);
    ScanKeepsMeaning(g, dev, queue[0], queue[1..]);
    assert queue == [queue[0]] + queue[1..];
    ViewConcat(dev, delivered, queue);
    ViewConcat(dev, delivered, [h] + r);
    assert delivered + [h] + r == delivered + ([h] + r);
    NormPrefix(View(dev, delivered), View(dev, [h] + r), View(dev, queue));
  }

  /**
   Batching preserves meaning under any interleaving of arrivals and drains, whichever way
   the overflow guard is read: to every device, what was delivered followed by what is still
   queued says the same as what arrived. Packets of other types stay where they were, runs of
   one discrete state keep their last packet, movements keep their sum modulo 2^16.
   */
  lemma {:induction false} BatchingKeepsMeaning(g: Guard, events: seq<Event>, dev: Device)
    ensures var s := Run(g, events);
      Meaning(dev, s.delivered + s.queue) == Meaning(dev, s.arrived)
  {
    hide Meaning;
    if events == [] {
      assert Run(g, events).delivered + Run(g, events).queue == Run(g, events).arrived;
    } else {
      var init, e := events[..|events| - 1], events[|events| - 1];
      BatchingKeepsMeaning(g, init, dev);
      var s := Run(g, init);
      match e
      case Arrive(perms, p) =>
        ArriveKeeps(dev, s.delivered + s.queue, s.arrived, p);
        assert s.delivered + s.queue + [p] == s.delivered + (s.queue + [p]);
      case Drain =>
        if s.queue != [] {
          DrainKeeps(g, dev, s.delivered, s.queue);
        }
    }
  }

  // ----- What equal meaning says -----

  function DiscreteOf(x: Seen): Option<seq<int>> {
    if x.Mine? then Some(Discrete(x.packet)) else None
  }

  /** The discrete states of a view, separators included, repetitions collapsed. */
  function States(v: seq<Seen>): seq<Option<seq<int>>> {
    if v == [] then []
    else
      var r := States(v[1..]);
      if r != [] && r[0] == DiscreteOf(v[0]) then r else [DiscreteOf(v[0])] + r
  }

  lemma {:induction false} NormKeepsStates(v: seq<Seen>)
    ensures States(Norm(v)) == States(v)
    ensures v != [] ==> Norm(v) != [] && States(v) != [] && States(v)[0] == DiscreteOf(Norm(v)[0])
  {
    if v != [] {
      NormKeepsStates(v[1..]);
      var n := Norm(v[1..]);
      assert Norm(v) == PutFront(v[0], n);
      if n != [] && Joinable(v[0], n[0]) {
        assert DiscreteOf(Join(v[0], n[0])) == DiscreteOf(n[0]) == DiscreteOf(v[0]);
        assert ([Join(v[0], n[0])] + n[1..])[1..] == n[1..];
      } else {
        assert ([v[0]] + n)[1..] == n;
      }
    }
  }

  /** No change of a discrete state is lost or invented, and none moves past a packet of another type. */
  lemma StatesDelivered(g: Guard, events: seq<Event>, dev: Device)
    ensures var s := Run(g, events);
      States(View(dev, s.delivered + s.queue)) == States(View(dev, s.arrived))
  {
    BatchingKeepsMeaning(g, events, dev);
    var s := Run(g, events);
    NormKeepsStates(View(dev, s.delivered + s.queue));
    NormKeepsStates(View(dev, s.arrived));
  }

  /** The packets after which no mergeable one follows. */
  function RunEnds(v: seq<Seen>): seq<Seen> {
    if v == [] then []
    else if |v| > 1 && Joinable(v[0], v[1]) then RunEnds(v[1..])
    else [v[0]] + RunEnds(v[1..])
  }

  predicate IsMovement(p: Packet) {
    p.RelMouse? || p.Scroll? || p.HScroll?
  }

  lemma {:induction false} NormIsRunEnds(v: seq<Seen>)
    requires forall x :: x in v && x.Mine? ==> !IsMovement(x.packet)
    ensures Norm(v) == RunEnds(v)
    ensures v != [] ==> Norm(v) != [] && (Joinable(v[0], Norm(v)[0]) || v[0] == Norm(v)[0])
    ensures forall x :: x in Norm(v) ==> x in v
  {
    if |v| > 1 {
      NormIsRunEnds(v[1..]);
      var n := Norm(v[1..]);
      assert v[1] == v[1..][0];
      if v[0].Mine? && v[1].Mine? && n[0].Mine? {
        if Mergeable(v[1].packet, n[0].packet) {
          MergeableSymmetric(v[1].packet, n[0].packet);
          MergeableBothWays(v[0].packet, v[1].packet, n[0].packet);
        }
      }
      assert Joinable(v[0], n[0]) <==> Joinable(v[0], v[1]);
    }
  }

  lemma MergeableSymmetric(p: Packet, q: Packet)
    requires Mergeable(p, q)
    ensures Mergeable(q, p)
  {
    MergeableIsTransitive(p, q, p);
  }

  lemma MergeableBothWays(p: Packet, q: Packet, r: Packet)
    requires Mergeable(q, r) && Mergeable(r, q)
    ensures Mergeable(p, q) <==> Mergeable(p, r)
  {
    if Mergeable(p, q) {
      MergeableIsTransitive(p, q, r);
    }
    if Mergeable(p, r) {
      MergeableIsTransitive(p, r, q);
    }
  }

  lemma {:induction false} ViewMembers(dev: Device, s: seq<Packet>)
    ensures forall x :: x in View(dev, s) && x.Mine? ==> DeviceOf(x.packet) == dev
  {
    if s != [] {
      ViewMembers(dev, s[1..]);
    }
  }

  /** For every device that does not report movements, the last packet of each run delivered is the last one that arrived. */
  lemma LastOfEachRunDelivered(g: Guard, events: seq<Event>, dev: Device)
    requires !ReportsMovements(dev)
    ensures var s := Run(g, events);
      RunEnds(View(dev, s.delivered + s.queue)) == RunEnds(View(dev, s.arrived))
  {
    var s := Run(g, events);
    BatchingKeepsMeaning(g, events, dev);
    NotMovements(dev, s.delivered + s.queue);
    NotMovements(dev, s.arrived);
    NormIsRunEnds(View(dev, s.delivered + s.queue));
    NormIsRunEnds(View(dev, s.arrived));
  }

  // ----- Nothing is made up -----

  /** The packets of one device, in order. */
  function OfDevice(dev: Device, s: seq<Packet>): seq<Packet> {
    if s == [] then [] else (if DeviceOf(s[0]) == dev then [s[0]] else []) + OfDevice(dev, s[1..])
  }

  /** `a` is `b` with some packets left out. */
  predicate Subsequence(a: seq<Packet>, b: seq<Packet>) {
    if b == [] then a == []
    else Subsequence(a, b[1..]) || (a != [] && a[0] == b[0] && Subsequence(a[1..], b[1..]))
  }

  lemma {:induction false} SubsequenceRefl(a: seq<Packet>)
    ensures Subsequence(a, a)
  {
    if a != [] {
      SubsequenceRefl(a[1..]);
    }
  }

  lemma {:induction false} SubsequenceTrans(a: seq<Packet>, b: seq<Packet>, c: seq<Packet>)
    requires Subsequence(a, b) && Subsequence(b, c)
    ensures Subsequence(a, c)
    decreases |c|
  {
    if c != [] {
      if Subsequence(b, c[1..]) {
        SubsequenceTrans(a, b, c[1..]);
      } else if Subsequence(a, b[1..]) {
        SubsequenceTrans(a, b[1..], c[1..]);
      } else {
        SubsequenceTrans(a[1..], b[1..], c[1..]);
      }
    }
  }

  lemma {:induction false} SubsequenceBehind(p: seq<Packet>, a: seq<Packet>, b: seq<Packet>)
    requires Subsequence(a, b)
    ensures Subsequence(p + a, p + b)
  {
    if p == [] {
      assert p + a == a && p + b == b;
    } else {
      SubsequenceBehind(p[1..], a, b);
      assert (p + a)[1..] == p[1..] + a && (p + b)[1..] == p[1..] + b;
    }
  }

  lemma {:induction false} SubsequenceBefore(a: seq<Packet>, b: seq<Packet>, p: seq<Packet>)
    requires Subsequence(a, b)
    ensures Subsequence(a + p, b + p)
    decreases |b|
  {
    if b == [] {
      SubsequenceRefl(p);
      assert a + p == p && b + p == p;
    } else {
      assert (b + p)[1..] == b[1..] + p;
      if Subsequence(a, b[1..]) {
        SubsequenceBefore(a, b[1..], p);
      } else {
        SubsequenceBefore(a[1..], b[1..], p);
        assert (a + p)[1..] == a[1..] + p;
      }
    }
  }

  lemma {:induction false} OfDeviceConcat(dev: Device, a: seq<Packet>, b: seq<Packet>)
    ensures OfDevice(dev, a + b) == OfDevice(dev, a) + OfDevice(dev, b)
  {
    if a == [] {
      assert a + b == b;
    } else {
      OfDeviceConcat(dev, a[1..], b);
      assert (a + b)[1..] == a[1..] + b;
    }
  }

  lemma OfDeviceCons(dev: Device, p: Packet, s: seq<Packet>)
    ensures OfDevice(dev, [p] + s) == (if DeviceOf(p) == dev then [p] else []) + OfDevice(dev, s)
  {
    assert ([p] + s)[1..] == s;
  }

  lemma SkipFirst(p: Packet, s: seq<Packet>)
    ensures Subsequence(s, [p] + s)
  {
    SubsequenceRefl(s);
    assert ([p] + s)[1..] == s;
  }

  predicate ReportsMovements(dev: Device) {
    dev.kind == KRel || dev.kind == KScroll || dev.kind == KHScroll
  }

  /** A scan leaves out packets of a device, and changes and reorders none. */
  lemma {:induction false} ScanIsSubsequence(g: Guard, dev: Device, h: Packet, rest: seq<Packet>)
    requires !ReportsMovements(dev)
    ensures var (d, r) := Scan(g, h, rest);
      Subsequence(OfDevice(dev, [d] + r), OfDevice(dev, [h] + rest))
    decreases |rest|
  {
    hide Batch, Subsequence, OfDevice, Merge, Mergeable, KindOf, DeviceOf;
    SubsequenceRefl(OfDevice(dev, [h] + rest));
    if rest != [] {
      var x, tail := rest[0], rest[1..];
      assert rest == [x] + tail;
      OfDeviceCons(dev, h, rest);
      OfDeviceCons(dev, x, tail);
      OfDeviceCons(dev, h, tail);
      match Batch(g, h, x)
      case Terminate =>
      case Batched(y) =>
        ScanIsSubsequence(g, dev, y, tail);
        BatchedIsLater(g, dev, h, x);
        OfDeviceCons(dev, y, tail);
        SubsequenceRefl(OfDevice(dev, rest));
        if DeviceOf(h) == dev {
          SkipFirst(h, OfDevice(dev, rest));
        } else {
          assert [] + OfDevice(dev, rest) == OfDevice(dev, rest);
        }
        SubsequenceTrans(OfDevice(dev, [Scan(g, y, tail).0] + Scan(g, y, tail).1), OfDevice(dev, [y] + tail), OfDevice(dev, [h] + rest));
      case NotBatchable =>
        ScanIsSubsequence(g, dev, h, tail);
        var (d, r) := Scan(g, h, tail);
        BatchIsMerge(g, h, x);
        ScanKeepsDevice(g, h, tail);
        OfDeviceCons(dev, d, r);
        OfDeviceCons(dev, d, [x] + r);
        OfDeviceCons(dev, x, r);
        if DeviceOf(x) == dev {
          SubsequenceBehind([x], [] + OfDevice(dev, r), [] + OfDevice(dev, tail));
          assert [] + OfDevice(dev, r) == OfDevice(dev, r) && [] + OfDevice(dev, tail) == OfDevice(dev, tail);
          assert [] + ([x] + OfDevice(dev, r)) == [x] + OfDevice(dev, r);
          assert [] + ([x] + OfDevice(dev, tail)) == [x] + OfDevice(dev, tail);
        } else {
          assert [] + OfDevice(dev, r) == OfDevice(dev, r) && [] + OfDevice(dev, tail) == OfDevice(dev, tail);
        }
    }
  }

  /** What a batch of two packets of such a device leaves is the later one. */
  lemma BatchedIsLater(g: Guard, dev: Device, h: Packet, x: Packet)
    requires Batch(g, h, x).Batched? && !ReportsMovements(dev)
    ensures DeviceOf(h) == DeviceOf(x) == DeviceOf(Batch(g, h, x).dest)
    ensures DeviceOf(x) == dev ==> Batch(g, h, x).dest == x
  {
    BatchIsMerge(g, h, x);
    KindIsOfDevice(x);
  }

  /** Of every device that does not report movements, what is delivered is what arrived with some packets left out. */
  lemma {:induction false} DeliveredIsSubsequence(g: Guard, events: seq<Event>, dev: Device)
    requires !ReportsMovements(dev)
    ensures var s := Run(g, events);
      Subsequence(OfDevice(dev, s.delivered + s.queue), OfDevice(dev, s.arrived))
  {
    hide Scan, Subsequence, OfDevice, Permitted;
    if events == [] {
      SubsequenceRefl(OfDevice(dev, []));
      assert [] + Run(g, events).queue == [];
    } else {
      var s := Run(g, events[..|events| - 1]);
      DeliveredIsSubsequence(g, events[..|events| - 1], dev);
      match events[|events| - 1]
      case Arrive(perms, p) => ArriveSubsequence(dev, s, p);
      case Drain =>
        if s.queue != [] {
          DrainSubsequence(g, dev, s);
        }
    }
  }

  lemma ArriveSubsequence(dev: Device, s: Stream, p: Packet)
    requires Subsequence(OfDevice(dev, s.delivered + s.queue), OfDevice(dev, s.arrived))
    ensures Subsequence(OfDevice(dev, s.delivered + (s.queue + [p])), OfDevice(dev, s.arrived + [p]))
  {
    hide Subsequence, OfDevice;
    assert s.delivered + (s.queue + [p]) == (s.delivered + s.queue) + [p];
    OfDeviceConcat(dev, s.delivered + s.queue, [p]);
    OfDeviceConcat(dev, s.arrived, [p]);
    SubsequenceBefore(OfDevice(dev, s.delivered + s.queue), OfDevice(dev, s.arrived), OfDevice(dev, [p]));
  }

  lemma DrainSubsequence(g: Guard, dev: Device, s: Stream)
    requires s.queue != [] && !ReportsMovements(dev)
    requires Subsequence(OfDevice(dev, s.delivered + s.queue), OfDevice(dev, s.arrived))
    ensures var (d, r) := Scan(g, s.queue[0], s.queue[1..]);
      Subsequence(OfDevice(dev, s.delivered + [d] + r), OfDevice(dev, s.arrived))
  {
    hide Subsequence, OfDevice, Scan;
    var (d, r) := Scan(g, s.queue[0], s.queue[1..]);
    ScanIsSubsequence(g, dev, s.queue[0], s.queue[1..]);
    assert s.queue == [s.queue[0]] + s.queue[1..];
    assert s.delivered + [d] + r == s.delivered + ([d] + r);
    OfDeviceConcat(dev, s.delivered, s.queue);
    OfDeviceConcat(dev, s.delivered, [d] + r);
    SubsequenceBehind(OfDevice(dev, s.delivered), OfDevice(dev, [d] + r), OfDevice(dev, s.queue));
    SubsequenceTrans(OfDevice(dev, s.delivered + [d] + r), OfDevice(dev, s.delivered + s.queue), OfDevice(dev, s.arrived));
  }

  lemma NotMovements(dev: Device, s: seq<Packet>)
    requires !ReportsMovements(dev)
    ensures forall x :: x in View(dev, s) && x.Mine? ==> !IsMovement(x.packet)
  {
    ViewMembers(dev, s);
    forall x | x in View(dev, s) && x.Mine?
      ensures !IsMovement(x.packet)
    {
      KindIsOfDevice(x.packet);
    }
  }

  // ----- The queue itself -----

  lemma AroundPlace(q: seq<Packet>, i: nat)
    requires i < |q|
    ensures q[i..][0] == q[i] && q[i..][1..] == q[i + 1..]
    ensures (q[..i] + q[i + 1..])[i..] == q[i + 1..] && (q[..i] + q[i + 1..])[..i] == q[..i]
  {
  }

  lemma SkipPlace(q: seq<Packet>, i: nat, r: seq<Packet>)
    requires i < |q|
    ensures q[..i] + ([q[i]] + r) == q[..i + 1] + r
  {
  }

  class InputQueue {
    const guard: Guard
    var queue: seq<Packet>
    var arrived: seq<Packet>
    var delivered: seq<Packet>

    function State(): Stream
      reads this
    {
      Stream(queue, arrived, delivered)
    }

    constructor (guard: Guard)
      ensures this.guard == guard && State() == Stream([], [], [])
    {
      this.guard := guard;
      queue, arrived, delivered := [], [], [];
    }

    /** `passthrough` on the control thread: check the permission, then queue. */
    method Enqueue(perms: set<Group>, p: Packet)
      modifies this
      ensures State() == Step(guard, old(State()), Arrive(perms, p))
    {
      if perms == {} {
        return;
      }
      if perms != ALL_GROUPS {
        var group := GroupOf(p);
        if group.None? || group.value !in perms {
          return;
        }
      }
      queue := queue + [p];
      arrived := arrived + [p];
    }

    /** `passthrough_next_message`: erases what it merges and walks past what it cannot. */
    method DeliverNext()
      modifies this
      ensures State() == Step(guard, old(State()), Drain)
    {
      if queue == [] {
        return;
      }
      var entry := queue[0];
      queue := queue[1..];
      ghost var goal := Scan(guard, entry, queue);
      var i := 0;
      assert queue[0..] == queue && queue[..0] + goal.1 == goal.1;
      while i < |queue|
        invariant i <= |queue| && arrived == old(arrived) && delivered == old(delivered)
        invariant Resumed(entry, i) == goal
        decreases |queue| - i
      {
        var result := Batch(guard, entry, queue[i]);
        if result == Terminate {
          break;
        }
        AroundPlace(queue, i);
        if result.Batched? {
          queue := queue[..i] + queue[i + 1..];
          entry := result.dest;
        } else {
          SkipPlace(queue, i, Scan(guard, entry, queue[i + 1..]).1);
          i := i + 1;
        }
      }
      assert queue == queue[..i] + queue[i..];
      delivered := delivered + [entry];
    }

    /** What the loop will end with, seen from place `i`. */
    ghost function Resumed(entry: Packet, i: nat): (Packet, seq<Packet>)
      requires i <= |queue|
      reads this
    {
      var (h, r) := Scan(guard, entry, queue[i..]);
      (h, queue[..i] + r)
    }
  }
}

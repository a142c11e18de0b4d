/**
 Gamepad ids of src/input.cpp: every client has sixteen controller slots, the ids come from
 one bitset shared by all clients, and the slots of a client that goes away are freed later by
 jobs on the task pool.
 */
module Gamepads {

  const MAX_GAMEPADS := 16

  type ClientId = nat

  /** `mask` is gamepadMask, a slot holds an id or -1, `pending` are the free jobs not yet run. */
  datatype Pads = Pads(mask: seq<bool>, clients: map<ClientId, seq<int>>, pending: seq<int>)

  datatype Event =
    | Connect(c: ClientId)
    | Arrival(c: ClientId, n: int, platformFails: bool)
    | Update(c: ClientId, n: int, active: bool, platformFails: bool)  // active: bit n of activeGamepadMask
    | Disconnect(c: ClientId)
    | RunFree(k: nat)

  function Initial(): Pads {
    Pads(seq(MAX_GAMEPADS, _ => false), map[], [])
  }

  /** The lowest clear bit from `x` on, or -1. */
  function FirstFree(mask: seq<bool>, x: nat): (id: int)
    requires x <= |mask|
    ensures -1 <= id < |mask|
    ensures id >= 0 ==> x <= id && !mask[id]
    ensures id == -1 <==> forall i :: x <= i < |mask| ==> mask[i]
    decreases |mask| - x
  {
    if x == |mask| then -1 else if !mask[x] then x else FirstFree(mask, x + 1)
  }

  /** Take an id for slot `n`; a failing platform call gives the bit back. */
  function Allocate(p: Pads, c: ClientId, n: nat, platformFails: bool): Pads
    requires c in p.clients && n < |p.clients[c]|
  {
    var id := FirstFree(p.mask, 0);
    if id < 0 || platformFails then p
    else p.(mask := p.mask[id := true], clients := p.clients[c := p.clients[c][n := id]])
  }

  function HeldIds(slots: seq<int>): seq<int> {
    if slots == [] then []
    else (if slots[0] >= 0 then [slots[0]] else []) + HeldIds(slots[1..])
  }

  predicate WellFormed(p: Pads) {
    && |p.mask| == MAX_GAMEPADS
    && (forall c :: c in p.clients ==> |p.clients[c]| == MAX_GAMEPADS)
    && (forall c, n :: c in p.clients && 0 <= n < |p.clients[c]| ==> -1 <= p.clients[c][n] < MAX_GAMEPADS)
    && (forall k :: 0 <= k < |p.pending| ==> 0 <= p.pending[k] < MAX_GAMEPADS)
  }

  /** One event; a packet for a controller out of range, or for an unknown client, changes nothing. */
  function Step(p: Pads, e: Event): Pads
    requires WellFormed(p)
  {
    match e
    case Connect(c) => if c in p.clients then p else p.(clients := p.clients[c := seq(MAX_GAMEPADS, _ => -1)])
    case Arrival(c, n, fails) =>
      if c !in p.clients || !(0 <= n < MAX_GAMEPADS) || p.clients[c][n] >= 0 then p
      else Allocate(p, c, n, fails)
    case Update(c, n, active, fails) =>
      if c !in p.clients || !(0 <= n < MAX_GAMEPADS) then p
      else if active && p.clients[c][n] < 0 then Allocate(p, c, n, fails)
      else if !active && p.clients[c][n] >= 0 then
        p.(mask := p.mask[p.clients[c][n] := false], clients := p.clients[c := p.clients[c][n := -1]])
      else p
    case Disconnect(c) =>
      if c !in p.clients then p
      else p.(clients := p.clients - {c}, pending := p.pending + HeldIds(p.clients[c]))
    case RunFree(k) =>
      if k >= |p.pending| then p
      else p.(mask := p.mask[p.pending[k] := false], pending := p.pending[..k] + p.pending[k + 1..])
  }

  // ----- The bitset is the disjoint union of held and pending ids -----

  predicate Holds(p: Pads, c: ClientId, n: nat, id: nat) {
    c in p.clients && n < |p.clients[c]| && p.clients[c][n] == id
  }

  ghost predicate Held(p: Pads, id: nat) {
    exists c, n :: Holds(p, c, n, id)
  }

  ghost predicate SlotsDistinct(p: Pads) {
    forall id, c, n, d, m :: Holds(p, c, n, id) && Holds(p, d, m, id) ==> c == d && n == m
  }

  ghost predicate PendingDistinct(p: Pads) {
    && (forall i, j :: 0 <= i < j < |p.pending| ==> p.pending[i] != p.pending[j])
    && (forall c, n, id :: Holds(p, c, n, id) ==> id !in p.pending)
  }

  ghost predicate MaskExact(p: Pads)
    requires WellFormed(p)
  {
    forall id: nat :: id < MAX_GAMEPADS ==> (p.mask[id] <==> Held(p, id) || id in p.pending)
  }

  ghost predicate Inv(p: Pads) {
    WellFormed(p) && SlotsDistinct(p) && PendingDistinct(p) && MaskExact(p)
  }

  lemma AllocateKept(p: Pads, c: ClientId, n: nat, fails: bool)
    requires Inv(p) && c in p.clients && n < MAX_GAMEPADS && p.clients[c][n] < 0
    ensures Inv(Allocate(p, c, n, fails))
    ensures fails || (forall id :: 0 <= id < MAX_GAMEPADS ==> p.mask[id]) ==> Allocate(p, c, n, fails) == p
  {
    var id := FirstFree(p.mask, 0);
    if id >= 0 && !fails {
      var t := Allocate(p, c, n, fails);
      forall d, m, i | Holds(t, d, m, i)
        ensures (d == c && m == n && i == id) || (Holds(p, d, m, i) && !(d == c && m == n) && i != id)
      {
        assert !Held(p, id);
        if !(d == c && m == n) {
          assert Holds(p, d, m, i);
        }
      }
      forall i: nat | i < MAX_GAMEPADS
        ensures t.mask[i] <==> Held(t, i) || i in t.pending
      {
        if d, m :| Holds(p, d, m, i) {
          assert Holds(t, d, m, i);
        }
        assert Holds(t, c, n, id);
      }
    }
  }

  lemma ReleaseKept(p: Pads, c: ClientId, n: nat)
    requires Inv(p) && c in p.clients && n < MAX_GAMEPADS && p.clients[c][n] >= 0
    ensures Inv(Step(p, Update(c, n, false, false)))
  {
    var id := p.clients[c][n];
    var t := Step(p, Update(c, n, false, false));
    assert Holds(p, c, n, id);
    forall d, m, i | Holds(t, d, m, i)
      ensures Holds(p, d, m, i) && !(d == c && m == n) && i != id
    {
      if i == id {
        assert Holds(p, c, n, i) && Holds(p, d, m, i);
      }
    }
    forall i: nat | i < MAX_GAMEPADS
      ensures t.mask[i] <==> Held(t, i) || i in t.pending
    {
      if i != id {
        if d, m :| Holds(p, d, m, i) {
          assert Holds(t, d, m, i);
        }
      }
    }
  }

  lemma {:induction false} HeldIdsMembers(slots: seq<int>, id: int)
    ensures id in HeldIds(slots) <==> id >= 0 && id in slots
  {
    if slots != [] {
      HeldIdsMembers(slots[1..], id);
    }
  }

  lemma {:induction false} HeldIdsDistinct(slots: seq<int>)
    requires forall i, j :: 0 <= i < j < |slots| && slots[i] >= 0 ==> slots[i] != slots[j]
    ensures forall i, j :: 0 <= i < j < |HeldIds(slots)| ==> HeldIds(slots)[i] != HeldIds(slots)[j]
  {
    if slots != [] {
      HeldIdsDistinct(slots[1..]);
      HeldIdsMembers(slots[1..], slots[0]);
    }
  }

  lemma DisconnectKept(p: Pads, c: ClientId)
    requires Inv(p) && c in p.clients
    ensures Inv(Step(p, Disconnect(c)))
  {
    var t, slots := Step(p, Disconnect(c)), p.clients[c];
    var ids := HeldIds(slots);
    forall id: nat
      ensures id in ids <==> exists n :: Holds(p, c, n, id)
    {
      HeldIdsMembers(slots, id);
      if id in ids {
        var n :| 0 <= n < |slots| && slots[n] == id;
        assert Holds(p, c, n, id);
      }
    }
    forall i, j | 0 <= i < j < |slots| && slots[i] >= 0
      ensures slots[i] != slots[j]
    {
      if slots[i] == slots[j] {
        assert Holds(p, c, i, slots[i]) && Holds(p, c, j, slots[i]);
      }
    }
    HeldIdsDistinct(slots);
    forall i | 0 <= i < |ids|
      ensures 0 <= ids[i]
    {
      HeldIdsMembers(slots, ids[i]);
    }
    DisconnectParts(p, c, t, ids);
  }

  /** The bookkeeping of a disconnect, given what the freed ids are. */
  lemma DisconnectParts(p: Pads, c: ClientId, t: Pads, ids: seq<int>)
    requires Inv(p) && c in p.clients
    requires t == p.(clients := p.clients - {c}, pending := p.pending + ids)
    requires forall id: nat :: id in ids <==> exists n :: Holds(p, c, n, id)
    requires forall i, j :: 0 <= i < j < |ids| ==> ids[i] != ids[j]
    requires forall i :: 0 <= i < |ids| ==> 0 <= ids[i]
    ensures Inv(t)
  {
    forall d, m, i | Holds(t, d, m, i)
      ensures Holds(p, d, m, i) && d != c && i !in ids
    {
      if n :| Holds(p, c, n, i) {
        assert Holds(p, d, m, i);
      }
    }
    forall i: nat | i in ids
      ensures i < MAX_GAMEPADS && i !in p.pending && p.mask[i]
    {
      var n :| Holds(p, c, n, i);
      assert Held(p, i);
    }
    forall i, j | 0 <= i < j < |t.pending|
      ensures t.pending[i] != t.pending[j]
    {
      if i < |p.pending| <= j {
        assert ids[j - |p.pending|] in ids && p.pending[i] in p.pending;
      }
    }
    forall k | 0 <= k < |t.pending|
      ensures 0 <= t.pending[k] < MAX_GAMEPADS
    {
      if k >= |p.pending| {
        assert ids[k - |p.pending|] in ids;
      }
    }
    forall i: nat | i < MAX_GAMEPADS
      ensures t.mask[i] <==> Held(t, i) || i in t.pending
    {
      if d, m :| Holds(p, d, m, i) {
        if d != c {
          assert Holds(t, d, m, i);
        }
      }
    }
  }

  lemma RunFreeKept(p: Pads, k: nat)
    requires Inv(p) && k < |p.pending|
    ensures Inv(Step(p, RunFree(k)))
  {
    var t, id := Step(p, RunFree(k)), p.pending[k];
    RemovedPending(p.pending, k);
    SameHolders(p, t);
    assert !Held(p, id);
    hide Held, Holds;
    assert forall i: nat :: i < MAX_GAMEPADS ==> (t.mask[i] <==> p.mask[i] && i != id);
  }

  lemma RemovedPending(s: seq<int>, k: nat)
    requires k < |s| && forall i, j :: 0 <= i < j < |s| ==> s[i] != s[j]
    ensures var r := s[..k] + s[k + 1..];
      && (forall x :: x in r <==> x in s && x != s[k])
      && (forall i, j :: 0 <= i < j < |r| ==> r[i] != r[j])
  {
    assert s == s[..k] + [s[k]] + s[k + 1..];
  }

  lemma SameHolders(p: Pads, t: Pads)
    requires p.clients == t.clients
    ensures forall c, m, i :: Holds(t, c, m, i) <==> Holds(p, c, m, i)
    ensures forall i :: Held(t, i) <==> Held(p, i)
  {
    forall i: nat ensures Held(t, i) <==> Held(p, i) {
      if Held(p, i) {
        var d, m :| Holds(p, d, m, i);
        assert Holds(t, d, m, i);
      }
      if Held(t, i) {
        var d, m :| Holds(t, d, m, i);
        assert Holds(p, d, m, i);
      }
    }
  }

  /** An arriving controller without an id gets one exactly when there is one to spare and the platform does not fail. */
  lemma ArrivalTakesId(p: Pads, c: ClientId, n: nat, fails: bool)
    requires Inv(p) && c in p.clients && n < MAX_GAMEPADS && p.clients[c][n] < 0
    ensures var t := Step(p, Arrival(c, n, fails));
      && c in t.clients && |t.clients[c]| == MAX_GAMEPADS
      && (t.clients[c][n] >= 0 <==> !fails && exists i: nat :: i < MAX_GAMEPADS && !p.mask[i])
      && (t.clients[c][n] < 0 ==> t == p)
  {
    if i: nat :| i < MAX_GAMEPADS && !p.mask[i] {
      assert FirstFree(p.mask, 0) >= 0;
    }
  }

  /** A new client starts with sixteen empty slots; one that is known keeps its own. */
  lemma ConnectStarts(p: Pads, c: ClientId, d: ClientId, n: nat)
    requires Inv(p) && n < MAX_GAMEPADS
    ensures var t := Step(p, Connect(c));
      && c in t.clients && |t.clients[c]| == MAX_GAMEPADS
      && (c !in p.clients ==> t.clients[c][n] == -1)
      && (d in p.clients ==> d in t.clients && t.clients[d] == p.clients[d])
      && t.mask == p.mask && t.pending == p.pending
  {
  }

  /** With an id to spare and no failure, a controller has one afterwards exactly when its bit is set, and no other slot changes. */
  lemma UpdateFollowsBit(p: Pads, c: ClientId, n: nat, active: bool)
    requires Inv(p) && c in p.clients && n < MAX_GAMEPADS && exists i: nat :: i < MAX_GAMEPADS && !p.mask[i]
    ensures var t := Step(p, Update(c, n, active, false));
      && c in t.clients && |t.clients[c]| == MAX_GAMEPADS
      && (t.clients[c][n] >= 0 <==> active)
      && (p.clients[c][n] >= 0 && active ==> t == p)
      && (forall m :: 0 <= m < MAX_GAMEPADS && m != n ==> t.clients[c][m] == p.clients[c][m])
      && (forall d :: d != c && d in p.clients ==> d in t.clients && t.clients[d] == p.clients[d])
      && t.pending == p.pending
  {
    var i: nat :| i < MAX_GAMEPADS && !p.mask[i];
    assert FirstFree(p.mask, 0) >= 0;
  }

  lemma ConnectKept(p: Pads, c: ClientId)
    requires Inv(p) && c !in p.clients
    ensures Inv(Step(p, Connect(c)))
  {
    var t := Step(p, Connect(c));
    assert forall d, m, i: nat :: Holds(t, d, m, i) <==> Holds(p, d, m, i);
    forall i: nat | i < MAX_GAMEPADS
      ensures t.mask[i] <==> Held(t, i) || i in t.pending
    {
      if d, m :| Holds(p, d, m, i) {
        assert Holds(t, d, m, i);
      }
    }
  }

  lemma StepKept(p: Pads, e: Event)
    requires Inv(p)
    ensures Inv(Step(p, e))
  {
    if Step(p, e) != p {
      match e
      case Connect(c) => ConnectKept(p, c);
      case Arrival(c, n, fails) => AllocateKept(p, c, n, fails);
      case Update(c, n, active, fails) =>
        if active {
          AllocateKept(p, c, n, fails);
        } else {
          ReleaseKept(p, c, n);
        }
      case Disconnect(c) => DisconnectKept(p, c);
      case RunFree(k) => RunFreeKept(p, k);
    }
  }

  // ----- Whole runs -----

  ghost function Run(events: seq<Event>): Pads
  {
    if events == [] then Initial()
    else
      var p := Run(events[..|events| - 1]);
      if WellFormed(p) then Step(p, events[|events| - 1]) else p
  }

  /**
   In every reachable state of any number of clients the set bits are exactly the ids held
   by slots and the ids waiting to be freed, and no id is there twice.
   */
  lemma {:induction false} RunIsSafe(events: seq<Event>)
    ensures Inv(Run(events))
  {
    if events != [] {
      RunIsSafe(events[..|events| - 1]);
      StepKept(Run(events[..|events| - 1]), events[|events| - 1]);
    }
  }

  /** Once all clients are gone and the jobs have run, every id is free again: nothing leaks. */
  lemma NothingLeaks(events: seq<Event>)
    requires Run(events).clients == map[] && Run(events).pending == []
    ensures Run(events).mask == Initial().mask
  {
    RunIsSafe(events);
  }

  // ----- The mutable state -----

  class GamepadTable {
    var mask: seq<bool>
    var clients: map<ClientId, seq<int>>
    var pending: seq<int>

    function State(): Pads
      reads this
    {
      Pads(mask, clients, pending)
    }

    constructor ()
      ensures State() == Initial()
    {
      mask, clients, pending := seq(MAX_GAMEPADS, _ => false), map[], [];
    }

    /** `alloc_id`: sets the lowest clear bit. */
    method AllocId() returns (id: int)
      modifies this`mask
      ensures id == FirstFree(old(mask), 0)
      ensures mask == if id < 0 then old(mask) else old(mask)[id := true]
    {
      for x := 0 to |mask|
        invariant mask == old(mask)
        invariant FirstFree(mask, 0) == FirstFree(mask, x)
      {
        if !mask[x] {
          mask := mask[x := true];
          return x;
        }
      }
      return -1;
    }

    method FreeId(id: int)
      requires 0 <= id < |mask|
      modifies this`mask
      ensures mask == old(mask)[id := false]
    {
      mask := mask[id := false];
    }

    /** The allocating part shared by the two packet handlers. */
    method AllocSlot(c: ClientId, n: nat, platformFails: bool)
      requires c in clients && n < |clients[c]|
      modifies this
      ensures State() == Allocate(old(State()), c, n, platformFails)
    {
      var id := AllocId();
      if id < 0 {
        return;
      }
      if platformFails {
        FreeId(id);
        assert mask == old(mask);
        return;
      }
      clients := clients[c := clients[c][n := id]];
    }

    method ControllerArrival(c: ClientId, n: int, platformFails: bool)
      requires WellFormed(State()) && c in clients
      modifies this
      ensures State() == Step(old(State()), Arrival(c, n, platformFails))
    {
      if n < 0 || n >= MAX_GAMEPADS || clients[c][n] >= 0 {
        return;
      }
      AllocSlot(c, n, platformFails);
    }

    method MultiController(c: ClientId, n: int, active: bool, platformFails: bool)
      requires WellFormed(State()) && c in clients
      modifies this
      ensures State() == Step(old(State()), Update(c, n, active, platformFails))
    {
      if n < 0 || n >= MAX_GAMEPADS {
        return;
      }
      if active && clients[c][n] < 0 {
        AllocSlot(c, n, platformFails);
      } else if !active && clients[c][n] >= 0 {
        FreeId(clients[c][n]);
        clients := clients[c := clients[c][n := -1]];
      }
    }

    /** The destructors of a client's sixteen slots queue one free job for each id. */
    method DestroyClient(c: ClientId)
      requires WellFormed(State()) && c in clients
      modifies this
      ensures State() == Step(old(State()), Disconnect(c))
    {
      var slots := clients[c];
      for n := 0 to |slots|
        invariant mask == old(mask) && clients == old(clients)
        invariant pending + HeldIds(slots[n..]) == old(pending) + HeldIds(slots)
      {
        assert slots[n..][1..] == slots[n + 1..];
        if slots[n] >= 0 {
          pending := pending + [slots[n]];
        }
      }
      clients := clients - {c};
    }

    method RunFreeJob(k: nat)
      requires WellFormed(State()) && k < |pending|
      modifies this
      ensures State() == Step(old(State()), RunFree(k))
    {
      FreeId(pending[k]);
      pending := pending[..k] + pending[k + 1..];
    }
  }
}

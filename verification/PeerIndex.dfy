/**
 Control sessions and the index that finds them by ENet peer (src/stream.cpp
 `control_server_t::get_session`, `iterate`, the sweep of `controlBroadcastThread`, and the
 `session::start` and `session::stop` that other threads run between its steps).
 Session and peer pointers are numbers.
 */
module PeerIndexes {
  import opened Wrappers

  datatype State = Stopped | Running | Stopping

  /** `byData`: the client identifies itself by connect data, not by its address. */
  datatype Session = Session(
    id: nat,
    peer: Option<nat>,
    byData: bool,
    connectData: nat,
    address: string,
    state: State,
    deadline: int)

  datatype Control = Control(sessions: seq<Session>, index: map<nat, nat>)

  // ----- The invariant -----

  ghost predicate Holds(ss: seq<Session>, p: nat, id: nat) {
    exists i :: 0 <= i < |ss| && ss[i].id == id && ss[i].peer == Some(p)
  }

  ghost predicate DistinctIds(ss: seq<Session>) {
    forall i, j :: 0 <= i < j < |ss| ==> ss[i].id != ss[j].id
  }

  ghost predicate DistinctPeers(ss: seq<Session>) {
    forall i, j :: 0 <= i < j < |ss| && ss[i].peer.Some? ==> ss[i].peer != ss[j].peer
  }

  /** The index says of a peer exactly what the list says. */
  ghost predicate Agrees(st: Control) {
    && (forall p :: p in st.index ==> Holds(st.sessions, p, st.index[p]))
    && (forall i :: 0 <= i < |st.sessions| && st.sessions[i].peer.Some? ==>
      st.sessions[i].peer.value in st.index && st.index[st.sessions[i].peer.value] == st.sessions[i].id)
  }

  ghost predicate Inv(st: Control) {
    DistinctIds(st.sessions) && DistinctPeers(st.sessions) && Agrees(st)
  }

  /** In the words of the list alone: `index[p] == s` exactly when `s` is in the list with peer `p`. */
  lemma AgreesIff(st: Control, p: nat, id: nat)
    requires Inv(st)
    ensures p in st.index && st.index[p] == id <==> Holds(st.sessions, p, id)
  {
  }

  // ----- Finding a session -----

  /** Position of the first session with this peer, or the length of the list. */
  function ByPeer(ss: seq<Session>, p: nat): nat {
    if ss == [] || ss[0].peer == Some(p) then 0 else 1 + ByPeer(ss[1..], p)
  }

  predicate Matches(s: Session, connectData: nat, address: string) {
    s.peer.None? && if s.byData then s.connectData == connectData else s.address == address
  }

  /** Position of the first session not yet claimed that expects this connection. */
  function Waiting(ss: seq<Session>, connectData: nat, address: string): nat {
    if ss == [] || Matches(ss[0], connectData, address) then 0 else 1 + Waiting(ss[1..], connectData, address)
  }

  lemma {:induction false} ByPeerFinds(ss: seq<Session>, p: nat)
    ensures ByPeer(ss, p) <= |ss|
    ensures ByPeer(ss, p) < |ss| ==> ss[ByPeer(ss, p)].peer == Some(p)
    ensures forall i :: 0 <= i < ByPeer(ss, p) ==> ss[i].peer != Some(p)
  {
    if ss != [] && ss[0].peer != Some(p) {
      ByPeerFinds(ss[1..], p);
      forall i | 0 <= i < ByPeer(ss, p) ensures ss[i].peer != Some(p) {
        if i > 0 {
          assert ss[i] == ss[1..][i - 1];
        }
      }
    }
  }

  lemma {:induction false} WaitingFinds(ss: seq<Session>, connectData: nat, address: string, k: nat)
    requires k <= |ss| && forall i :: 0 <= i < k ==> !Matches(ss[i], connectData, address)
    requires k < |ss| ==> Matches(ss[k], connectData, address)
    ensures Waiting(ss, connectData, address) == k
  {
    if k > 0 {
      WaitingFinds(ss[1..], connectData, address, k - 1);
    }
  }

  lemma {:induction false} WaitingBound(ss: seq<Session>, connectData: nat, address: string)
    ensures Waiting(ss, connectData, address) <= |ss|
    ensures Waiting(ss, connectData, address) < |ss| ==> Matches(ss[Waiting(ss, connectData, address)], connectData, address)
  {
    if ss != [] {
      WaitingBound(ss[1..], connectData, address);
    }
  }

  function Claim(st: Control, i: nat, p: nat): Control
    requires i < |st.sessions|
  {
    Control(st.sessions[i := st.sessions[i].(peer := Some(p))], st.index[p := st.sessions[i].id])
  }

  /** `get_session` by linear search alone: a session that has the peer, else one that waits for it and is claimed. */
  function Search(st: Control, p: nat, connectData: nat, address: string): (Control, Option<nat>) {
    var known := ByPeer(st.sessions, p);
    var waiting := Waiting(st.sessions, connectData, address);
    if known < |st.sessions| then (st, Some(st.sessions[known].id))
    else if waiting < |st.sessions| then (Claim(st, waiting, p), Some(st.sessions[waiting].id))
    else (st, None)
  }

  /** `get_session` as it is: the index first, the list only for an unknown peer. */
  function Get(st: Control, p: nat, connectData: nat, address: string): (Control, Option<nat>) {
    var waiting := Waiting(st.sessions, connectData, address);
    if p in st.index then (st, Some(st.index[p]))
    else if waiting < |st.sessions| then (Claim(st, waiting, p), Some(st.sessions[waiting].id))
    else (st, None)
  }

  /** The index is a fast form of the search. */
  lemma IndexIsSearch(st: Control, p: nat, connectData: nat, address: string)
    requires Inv(st)
    ensures Get(st, p, connectData, address) == Search(st, p, connectData, address)
  {
    ByPeerFinds(st.sessions, p);
  }

  /** Session `i` expects a connection that brings this data from this address: by the data if it can, else by the address. */
  predicate Expects(ss: seq<Session>, i: nat, connectData: nat, address: string) {
    && i < |ss| && ss[i].peer == None
    && (ss[i].byData ==> ss[i].connectData == connectData)
    && (!ss[i].byData ==> ss[i].address == address)
  }

  /** An unknown peer claims exactly the first session that expects it; only that session changes, and only its peer. */
  lemma UnknownPeerClaims(st: Control, p: nat, connectData: nat, address: string, i: nat)
    requires Inv(st) && forall k :: 0 <= k < |st.sessions| ==> st.sessions[k].peer != Some(p)
    ensures var (after, id) := Get(st, p, connectData, address);
      && (Expects(st.sessions, i, connectData, address) && (forall k: nat :: k < i ==> !Expects(st.sessions, k, connectData, address)) ==>
        && id == Some(st.sessions[i].id)
        && after.sessions == st.sessions[i := st.sessions[i].(peer := Some(p))])
      && (id == None <==> forall k: nat :: k < |st.sessions| ==> !Expects(st.sessions, k, connectData, address))
      && (id == None ==> after == st)
  {
    var w := Waiting(st.sessions, connectData, address);
    WaitingBound(st.sessions, connectData, address);
    assert p !in st.index;
    forall k: nat | k < |st.sessions|
      ensures Expects(st.sessions, k, connectData, address) <==> Matches(st.sessions[k], connectData, address)
    {
    }
    if Expects(st.sessions, i, connectData, address) && forall k: nat :: k < i ==> !Expects(st.sessions, k, connectData, address) {
      WaitingFinds(st.sessions, connectData, address, i);
    }
    if w == |st.sessions| {
      NoneWaits(st.sessions, connectData, address);
    }
  }

  lemma {:induction false} NoneWaits(ss: seq<Session>, connectData: nat, address: string)
    requires Waiting(ss, connectData, address) == |ss|
    ensures forall k :: 0 <= k < |ss| ==> !Matches(ss[k], connectData, address)
  {
    if ss != [] {
      NoneWaits(ss[1..], connectData, address);
      forall k | 0 <= k < |ss| ensures !Matches(ss[k], connectData, address) {
        if k > 0 {
          assert ss[k] == ss[1..][k - 1];
        }
      }
    }
  }

  lemma ClaimKeepsInv(st: Control, i: nat, p: nat)
    requires Inv(st) && i < |st.sessions| && st.sessions[i].peer.None? && p !in st.index
    ensures Inv(Claim(st, i, p))
  {
    var after := Claim(st, i, p);
    assert after.sessions[i].peer == Some(p);
    forall q | q in after.index ensures Holds(after.sessions, q, after.index[q]) {
      if q == p {
        assert after.sessions[i].id == after.index[p];
      } else {
        var k :| 0 <= k < |st.sessions| && st.sessions[k].id == st.index[q] && st.sessions[k].peer == Some(q);
        assert after.sessions[k] == st.sessions[k];
      }
    }
  }

  // ----- The sweep -----

  function Erase(st: Control, i: nat): Control
    requires i < |st.sessions|
  {
    Control(st.sessions[..i] + st.sessions[i + 1..],
      if st.sessions[i].peer.Some? then st.index - {st.sessions[i].peer.value} else st.index)
  }

  /** Timing out stops a running session; one that is not running yet is left alone. */
  function Timed(s: Session, now: int): Session {
    if now > s.deadline && s.state == Running then s.(state := Stopping) else s
  }

  /** The sweep from position `i`, broken off after `visits` sessions when the server shuts down. */
  function SweepFrom(st: Control, i: nat, now: int, visits: nat): Control
    decreases visits
  {
    if visits == 0 || i >= |st.sessions| then st
    else
      var timed := st.(sessions := st.sessions[i := Timed(st.sessions[i], now)]);
      if timed.sessions[i].state == Stopping then SweepFrom(Erase(timed, i), i, now, visits - 1)
      else SweepFrom(timed, i + 1, now, visits - 1)
  }

  lemma EraseKeepsInv(st: Control, i: nat)
    requires Inv(st) && i < |st.sessions|
    ensures Inv(Erase(st, i))
  {
    var after := Erase(st, i);
    assert forall k :: 0 <= k < |after.sessions| ==> after.sessions[k] == st.sessions[if k < i then k else k + 1];
    forall q | q in after.index ensures Holds(after.sessions, q, after.index[q]) {
      var k :| 0 <= k < |st.sessions| && st.sessions[k].id == st.index[q] && st.sessions[k].peer == Some(q);
      assert k != i;
      assert after.sessions[if k < i then k else k - 1] == st.sessions[k];
    }
  }

  /** Changing a session's state or deadline touches neither its peer nor the index. */
  lemma UpdateKeepsInv(st: Control, i: nat, s: Session)
    requires Inv(st) && i < |st.sessions| && s.id == st.sessions[i].id && s.peer == st.sessions[i].peer
    ensures Inv(st.(sessions := st.sessions[i := s]))
  {
    var after := st.(sessions := st.sessions[i := s]);
    forall q | q in after.index ensures Holds(after.sessions, q, after.index[q]) {
      var k :| 0 <= k < |st.sessions| && st.sessions[k].id == st.index[q] && st.sessions[k].peer == Some(q);
      assert after.sessions[k].id == st.index[q] && after.sessions[k].peer == Some(q);
    }
  }

  lemma {:induction false} SweepKeepsInv(st: Control, i: nat, now: int, visits: nat)
    requires Inv(st)
    ensures Inv(SweepFrom(st, i, now, visits))
    decreases visits
  {
    if visits > 0 && i < |st.sessions| {
      var s := Timed(st.sessions[i], now);
      var timed := st.(sessions := st.sessions[i := s]);
      UpdateKeepsInv(st, i, s);
      if s.state == Stopping {
        EraseKeepsInv(timed, i);
        SweepKeepsInv(Erase(timed, i), i, now, visits - 1);
      } else {
        SweepKeepsInv(timed, i + 1, now, visits - 1);
      }
    }
  }

  predicate Ends(s: Session, now: int) {
    s.state == Stopping || (s.state == Running && now > s.deadline)
  }

  /** The sessions a whole sweep leaves: those neither stopping nor timed out, in their order, untouched. */
  function Left(ss: seq<Session>, now: int): seq<Session> {
    if ss == [] then []
    else if Ends(ss[0], now) then Left(ss[1..], now)
    else [ss[0]] + Left(ss[1..], now)
  }

  lemma {:induction false} SweepFilters(st: Control, i: nat, now: int, visits: nat)
    requires i <= |st.sessions| && visits >= |st.sessions| - i
    ensures SweepFrom(st, i, now, visits).sessions == st.sessions[..i] + Left(st.sessions[i..], now)
    decreases visits
  {
    if i < |st.sessions| {
      var s := Timed(st.sessions[i], now);
      var timed := st.(sessions := st.sessions[i := s]);
      assert st.sessions[i..][1..] == st.sessions[i + 1..];
      assert timed.sessions[i + 1..] == st.sessions[i + 1..] && timed.sessions[..i] == st.sessions[..i];
      if s.state == Stopping {
        var erased := Erase(timed, i);
        assert erased.sessions[..i] == st.sessions[..i] && erased.sessions[i..] == st.sessions[i + 1..];
        SweepFilters(erased, i, now, visits - 1);
      } else {
        SweepFilters(timed, i + 1, now, visits - 1);
        assert timed.sessions[..i + 1] == st.sessions[..i] + [st.sessions[i]];
      }
    }
  }

  // ----- Runs -----

  /** `Packet` is one event of the control socket; `stops`: it ends the session (disconnect, or a message that fails to decrypt). */
  datatype Event =
    | Add(id: nat, byData: bool, connectData: nat, address: string, deadline: int)
    | Start(sid: nat)
    | Stop(sid: nat)
    | Packet(peer: nat, data: nat, from: string, stops: bool, next: int)
    | Sweep(now: int, visits: nat)

  function IndexOf(ss: seq<Session>, id: nat): (i: nat)
    ensures i <= |ss| && (i < |ss| ==> ss[i].id == id)
  {
    if ss == [] || ss[0].id == id then 0 else 1 + IndexOf(ss[1..], id)
  }

  function SetState(ss: seq<Session>, id: nat, from: State, to: State): seq<Session> {
    var i := IndexOf(ss, id);
    if i < |ss| && ss[i].state == from then ss[i := ss[i].(state := to)] else ss
  }

  function Refreshed(ss: seq<Session>, id: nat, next: int): seq<Session> {
    var i := IndexOf(ss, id);
    if i < |ss| then ss[i := ss[i].(deadline := next)] else ss
  }

  function Step(st: Control, e: Event): Control {
    match e
    case Add(id, byData, data, address, deadline) =>
      st.(sessions := st.sessions + [Session(id, None, byData, data, address, Stopped, deadline)])
    case Start(id) => st.(sessions := SetState(st.sessions, id, Stopped, Running))
    case Stop(id) => st.(sessions := SetState(st.sessions, id, Running, Stopping))
    case Packet(p, data, from, stops, next) =>
      var (found, id) := Get(st, p, data, from);
      if id.None? then found
      else
        var refreshed := Refreshed(found.sessions, id.value, next);
        found.(sessions := if stops then SetState(refreshed, id.value, Running, Stopping) else refreshed)
    case Sweep(now, visits) => SweepFrom(st, 0, now, visits)
  }

  /** A new session is a new object. */
  predicate Legal(st: Control, e: Event) {
    e.Add? ==> forall i :: 0 <= i < |st.sessions| ==> st.sessions[i].id != e.id
  }

  function Run(events: seq<Event>): Control {
    if events == [] then Control([], map[]) else Step(Run(events[..|events| - 1]), events[|events| - 1])
  }

  ghost predicate LegalRun(events: seq<Event>) {
    forall n :: 0 <= n < |events| ==> Legal(Run(events[..n]), events[n])
  }

  lemma AddKeepsInv(st: Control, s: Session)
    requires Inv(st) && s.peer.None? && forall i :: 0 <= i < |st.sessions| ==> st.sessions[i].id != s.id
    ensures Inv(st.(sessions := st.sessions + [s]))
  {
    var after := st.(sessions := st.sessions + [s]);
    forall q | q in after.index ensures Holds(after.sessions, q, after.index[q]) {
      var k :| 0 <= k < |st.sessions| && st.sessions[k].id == st.index[q] && st.sessions[k].peer == Some(q);
      assert after.sessions[k] == st.sessions[k];
    }
  }

  lemma SetStateKeepsInv(st: Control, id: nat, from: State, to: State)
    requires Inv(st)
    ensures Inv(st.(sessions := SetState(st.sessions, id, from, to)))
  {
    var i := IndexOf(st.sessions, id);
    if i < |st.sessions| {
      UpdateKeepsInv(st, i, st.sessions[i].(state := to));
    }
  }

  lemma GetKeepsInv(st: Control, p: nat, connectData: nat, address: string)
    requires Inv(st)
    ensures Inv(Get(st, p, connectData, address).0)
  {
    WaitingBound(st.sessions, connectData, address);
    var waiting := Waiting(st.sessions, connectData, address);
    if p !in st.index && waiting < |st.sessions| {
      ClaimKeepsInv(st, waiting, p);
    }
  }

  lemma StepKeepsInv(st: Control, e: Event)
    requires Inv(st) && Legal(st, e)
    ensures Inv(Step(st, e))
  {
    hide Inv, Get, SetState;
    match e
    case Add(id, byData, data, address, deadline) =>
      AddKeepsInv(st, Session(id, None, byData, data, address, Stopped, deadline));
    case Start(id) => SetStateKeepsInv(st, id, Stopped, Running);
    case Stop(id) => SetStateKeepsInv(st, id, Running, Stopping);
    case Packet(p, data, from, stops, next) =>
      GetKeepsInv(st, p, data, from);
      var (found, id) := Get(st, p, data, from);
      if id.Some? {
        var i := IndexOf(found.sessions, id.value);
        if i < |found.sessions| {
          UpdateKeepsInv(found, i, found.sessions[i].(deadline := next));
        }
        var refreshed := found.(sessions := Refreshed(found.sessions, id.value, next));
        SetStateKeepsInv(refreshed, id.value, Running, Stopping);
      }
    case Sweep(now, visits) => SweepKeepsInv(st, 0, now, visits);
  }

  /**
   In every reachable state the index agrees with the list it speeds up, no two sessions share a
   peer, and looking a peer up gives what a linear search would.
   */
  lemma {:induction false} IndexAlwaysAgrees(events: seq<Event>, p: nat, connectData: nat, address: string)
    requires LegalRun(events)
    ensures Inv(Run(events))
    ensures Get(Run(events), p, connectData, address) == Search(Run(events), p, connectData, address)
    decreases |events|
  {
    if events != [] {
      var n := |events| - 1;
      assert forall k :: 0 <= k < n ==> events[..n][..k] == events[..k];
      IndexAlwaysAgrees(events[..n], p, connectData, address);
      StepKeepsInv(Run(events[..n]), events[n]);
    }
    IndexIsSearch(Run(events), p, connectData, address);
  }

  /** A session runs once it is started, and stops when told to while it runs; both touch no other. */
  lemma StartsAndStops(st: Control, i: nat)
    requires Inv(st) && i < |st.sessions|
    ensures var s := st.sessions[i];
      && Step(st, Start(s.id)).sessions == (if s.state == Stopped then st.sessions[i := s.(state := Running)] else st.sessions)
      && Step(st, Stop(s.id)).sessions == (if s.state == Running then st.sessions[i := s.(state := Stopping)] else st.sessions)
  {
    IndexOfIs(st.sessions, i);
  }

  /** A packet of a known peer puts off its session's time-out, and stops it only if it says so; no other session changes. */
  lemma KnownPeerIsHeard(st: Control, i: nat, p: nat, data: nat, from: string, stops: bool, next: int)
    requires Inv(st) && i < |st.sessions| && st.sessions[i].peer == Some(p)
    ensures var after := Step(st, Packet(p, data, from, stops, next)).sessions;
      && |after| == |st.sessions|
      && after[i] == st.sessions[i].(deadline := next, state :=
          if stops && st.sessions[i].state == Running then Stopping else st.sessions[i].state)
      && forall k :: 0 <= k < |after| && k != i ==> after[k] == st.sessions[k]
  {
    var s := st.sessions[i];
    assert st.index[p] == s.id;
    var at := IndexOf(st.sessions, s.id);
    IndexOfIs(st.sessions, i);
    var refreshed := Refreshed(st.sessions, s.id, next);
    assert DistinctIds(refreshed);
    IndexOfIs(refreshed, i);
  }

  lemma {:induction false} IndexOfIs(ss: seq<Session>, i: nat)
    requires DistinctIds(ss) && i < |ss|
    ensures IndexOf(ss, ss[i].id) == i
  {
    if i > 0 {
      assert ss[0].id != ss[i].id;
      IndexOfIs(ss[1..], i - 1);
    }
  }

  // ----- A claimed session keeps its peer -----

  ghost predicate HasId(ss: seq<Session>, id: nat) {
    exists i :: 0 <= i < |ss| && ss[i].id == id
  }

  /** Every session of `b` is one of `a`, with the same peer. */
  ghost predicate From(a: seq<Session>, b: seq<Session>) {
    forall i :: 0 <= i < |b| ==> Same(a, b[i])
  }

  ghost predicate Same(a: seq<Session>, s: Session) {
    exists k :: 0 <= k < |a| && a[k].id == s.id && a[k].peer == s.peer
  }

  lemma FromUpdate(a: seq<Session>, i: nat, s: Session)
    requires i < |a| && s.id == a[i].id && s.peer == a[i].peer
    ensures From(a, a[i := s])
  {
    var b := a[i := s];
    forall k | 0 <= k < |b| ensures Same(a, b[k]) {
      assert a[k].id == b[k].id && a[k].peer == b[k].peer;
    }
  }

  lemma FromTrans(a: seq<Session>, b: seq<Session>, c: seq<Session>)
    requires From(a, b) && From(b, c)
    ensures From(a, c)
  {
    forall i | 0 <= i < |c| ensures Same(a, c[i]) {
      assert Same(b, c[i]);
      var k :| 0 <= k < |b| && b[k].id == c[i].id && b[k].peer == c[i].peer;
      assert Same(a, b[k]);
    }
  }

  lemma {:induction false} SweepIsFrom(st: Control, i: nat, now: int, visits: nat)
    ensures From(st.sessions, SweepFrom(st, i, now, visits).sessions)
    decreases visits
  {
    if visits == 0 || i >= |st.sessions| {
      forall k | 0 <= k < |st.sessions| ensures Same(st.sessions, st.sessions[k]) {
      }
    } else {
      var s := Timed(st.sessions[i], now);
      var timed := st.(sessions := st.sessions[i := s]);
      FromUpdate(st.sessions, i, s);
      if s.state == Stopping {
        var erased := Erase(timed, i);
        forall k | 0 <= k < |erased.sessions| ensures Same(timed.sessions, erased.sessions[k]) {
          var j := if k < i then k else k + 1;
          assert timed.sessions[j] == erased.sessions[k];
        }
        SweepIsFrom(erased, i, now, visits - 1);
        FromTrans(timed.sessions, erased.sessions, SweepFrom(erased, i, now, visits - 1).sessions);
      } else {
        SweepIsFrom(timed, i + 1, now, visits - 1);
      }
      FromTrans(st.sessions, timed.sessions, SweepFrom(st, i, now, visits).sessions);
    }
  }

  lemma KeptIfFrom(a: seq<Session>, b: seq<Session>, p: nat, id: nat)
    requires DistinctIds(a) && From(a, b) && Holds(a, p, id) && HasId(b, id)
    ensures Holds(b, p, id)
  {
    var i :| 0 <= i < |b| && b[i].id == id;
    assert Same(a, b[i]);
  }

  lemma SetStateKeepsPeer(ss: seq<Session>, id: nat, from: State, to: State, p: nat, held: nat)
    requires Holds(ss, p, held)
    ensures Holds(SetState(ss, id, from, to), p, held)
  {
    var k :| 0 <= k < |ss| && ss[k].id == held && ss[k].peer == Some(p);
    assert SetState(ss, id, from, to)[k].id == held;
  }

  /** Until a sweep removes it, a session keeps the peer that claimed it. */
  lemma PeerIsKept(st: Control, e: Event, p: nat, id: nat)
    requires Inv(st) && Legal(st, e) && Holds(st.sessions, p, id)
    ensures HasId(Step(st, e).sessions, id) ==> Holds(Step(st, e).sessions, p, id)
    ensures !e.Sweep? ==> HasId(Step(st, e).sessions, id)
  {
    hide SetState, SweepFrom;
    var k :| 0 <= k < |st.sessions| && st.sessions[k].id == id && st.sessions[k].peer == Some(p);
    match e
    case Add(_, _, _, _, _) =>
      assert Step(st, e).sessions[k] == st.sessions[k];
    case Start(other) => SetStateKeepsPeer(st.sessions, other, Stopped, Running, p, id);
    case Stop(other) => SetStateKeepsPeer(st.sessions, other, Running, Stopping, p, id);
    case Packet(q, data, from, stops, next) =>
      WaitingBound(st.sessions, data, from);
      var (found, target) := Get(st, q, data, from);
      assert found.sessions[k] == st.sessions[k];
      if target.Some? {
        var refreshed := Refreshed(found.sessions, target.value, next);
        assert refreshed[k].id == id && refreshed[k].peer == Some(p);
        SetStateKeepsPeer(refreshed, target.value, Running, Stopping, p, id);
      }
    case Sweep(now, visits) =>
      SweepIsFrom(st, 0, now, visits);
      if HasId(Step(st, e).sessions, id) {
        KeptIfFrom(st.sessions, Step(st, e).sessions, p, id);
      }
  }

  // ----- The control server -----

  class ControlServer {
    var sessions: seq<Session>
    var peerToSession: map<nat, nat>

    constructor ()
      ensures State() == Control([], map[]) && Inv(State())
    {
      sessions, peerToSession := [], map[];
    }

    ghost function State(): Control
      reads this
    {
      Control(sessions, peerToSession)
    }

    /** The fast path by the index, the slow path by a search for a session that waits for this connection. */
    method GetSession(peer: nat, connectData: nat, address: string) returns (id: Option<nat>)
      requires Inv(State())
      modifies this
      ensures (State(), id) == Search(old(State()), peer, connectData, address) && Inv(State())
    {
      IndexIsSearch(State(), peer, connectData, address);
      GetKeepsInv(State(), peer, connectData, address);
      hide Inv, Search;
      if peer in peerToSession {
        return Some(peerToSession[peer]);
      }
      for pos := 0 to |sessions|
        invariant State() == old(State())
        invariant forall i :: 0 <= i < pos ==> !Matches(sessions[i], connectData, address)
      {
        var session := sessions[pos];
        if session.peer.Some? {
          continue;
        }
        if session.byData {
          if session.connectData != connectData {
            continue;
          }
        } else if session.address != address {
          continue;
        }
        WaitingFinds(sessions, connectData, address, pos);
        sessions := sessions[pos := session.(peer := Some(peer))];
        peerToSession := peerToSession[peer := session.id];
        return Some(session.id);
      }
      WaitingFinds(sessions, connectData, address, |sessions|);
      id := None;
    }

    method AddSession(id: nat, byData: bool, connectData: nat, address: string, deadline: int)
      requires Inv(State()) && Legal(State(), Add(id, byData, connectData, address, deadline))
      modifies this
      ensures State() == Step(old(State()), Add(id, byData, connectData, address, deadline)) && Inv(State())
    {
      StepKeepsInv(State(), Add(id, byData, connectData, address, deadline));
      sessions := sessions + [Session(id, None, byData, connectData, address, Stopped, deadline)];
    }

    /** The sweep; `visits` is where a shutdown breaks it off. */
    method SweepSessions(now: int, visits: nat)
      requires Inv(State())
      modifies this
      ensures State() == Step(old(State()), Sweep(now, visits)) && Inv(State())
      ensures visits >= |old(sessions)| ==> sessions == Left(old(sessions), now)
    {
      SweepKeepsInv(State(), 0, now, visits);
      if visits >= |sessions| {
        SweepFilters(State(), 0, now, visits);
      }
      assert sessions[0..] == sessions && sessions[..0] == [];
      hide Inv, Left, Timed;
      var pos, visited := 0, 0;
      while pos < |sessions|
        invariant 0 <= pos && visited <= visits
        invariant SweepFrom(State(), pos, now, visits - visited) == SweepFrom(old(State()), 0, now, visits)
        decreases |sessions| - pos
      {
        if visited == visits {
          break;
        }
        visited := visited + 1;
        var session := Timed(sessions[pos], now);
        sessions := sessions[pos := session];
        if session.state == Stopping {
          sessions := sessions[..pos] + sessions[pos + 1..];
          if session.peer.Some? {
            peerToSession := peerToSession - {session.peer.value};
          }
          continue;
        }
        pos := pos + 1;
      }
    }
  }
}

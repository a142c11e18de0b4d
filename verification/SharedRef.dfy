/**
 The reference-counted singleton `shared_t` and its handles `ptr_t` of src/thread_safe.h.
 `ref`, copy construction and `release` are atomic under `_lock`, so a run is a sequence of them.
 A handle is a name; it maps to whether its `owner` is non-null.
 */
module SharedRefs {

  type Handle = nat

  const COUNT_LIMIT := 0x1_0000_0000

  datatype Call = Construct(ok: bool) | Destruct

  datatype Shared = Shared(count: nat, alive: bool, handles: map<Handle, bool>, calls: seq<Call>)

  datatype Op =
    | Default(h: Handle)
    | Ref(h: Handle, ok: bool)          // ok: whether the construct callback returns zero
    | Copy(h: Handle, from: Handle)
    | MoveNew(h: Handle, from: Handle)
    | MoveAssign(h: Handle, from: Handle)
    | Destroy(h: Handle)

  const EMPTY := Shared(0, false, map[], [])

  /** `_count` is a 32-bit unsigned number. */
  function Increment(n: nat): nat {
    (n + 1) % COUNT_LIMIT
  }

  function Decrement(n: nat): nat {
    if n == 0 then COUNT_LIMIT - 1 else n - 1
  }

  /** The body of `ref`, and whether the handle it returns is non-null. */
  function TakeRef(s: Shared, ok: bool): (Shared, bool) {
    if s.count == 0 && !ok then (s.(calls := s.calls + [Construct(false)]), false)
    else if s.count == 0 then
      (s.(count := Increment(s.count), alive := true, calls := s.calls + [Construct(true)]), true)
    else (s.(count := Increment(s.count)), true)
  }

  function Release(s: Shared, h: Handle): Shared {
    var n := Decrement(s.count);
    var s' := s.(count := n, handles := s.handles[h := false]);
    if n == 0 then s'.(alive := false, calls := s.calls + [Destruct]) else s'
  }

  /** A handle is made once, and used while it exists. */
  predicate Legal(s: Shared, op: Op) {
    match op
    case Default(h) => h !in s.handles
    case Ref(h, _) => h !in s.handles
    case Copy(h, from) => h !in s.handles && from in s.handles
    case MoveNew(h, from) => h !in s.handles && from in s.handles
    case MoveAssign(h, from) => h in s.handles && from in s.handles
    case Destroy(h) => h in s.handles
  }

  /** Whether the count can take one more, if the operation adds one. */
  predicate Room(s: Shared, op: Op)
    requires Legal(s, op)
  {
    match op
    case Ref(_, ok) => (s.count == 0 && !ok) || s.count + 1 < COUNT_LIMIT
    case Copy(_, from) => !s.handles[from] || s.count + 1 < COUNT_LIMIT
    case _ => true
  }

  function Apply(s: Shared, op: Op): Shared
    requires Legal(s, op)
  {
    match op
    case Default(h) => s.(handles := s.handles[h := false])
    case Ref(h, ok) =>
      var (s', got) := TakeRef(s, ok);
      s'.(handles := s.handles[h := got])
    case Copy(h, from) =>
      if s.handles[from] then TakeRef(s, true).0.(handles := s.handles[h := true])
      else s.(handles := s.handles[h := false])
    case MoveNew(h, from) => s.(handles := s.handles[h := s.handles[from]][from := false])
    case MoveAssign(h, from) =>
      var s' := if s.handles[h] then Release(s, h) else s;
      s'.(handles := s'.handles[h := s'.handles[from]][from := s'.handles[h]])
    case Destroy(h) =>
      var s' := if s.handles[h] then Release(s, h) else s;
      s'.(handles := s'.handles - {h})
  }

  function Live(s: Shared): set<Handle> {
    set h | h in s.handles && s.handles[h]
  }

  // ----- What the callbacks see -----

  /** The calls that mark the life of the object: a failed construction marks nothing. */
  function Marks(calls: seq<Call>): seq<Call> {
    if calls == [] then []
    else
      var last := calls[|calls| - 1];
      if last == Construct(false) then Marks(calls[..|calls| - 1]) else Marks(calls[..|calls| - 1]) + [last]
  }

  ghost predicate Alternate(marks: seq<Call>) {
    forall i :: 0 <= i < |marks| ==> marks[i] == if i % 2 == 0 then Construct(true) else Destruct
  }

  ghost predicate Inv(s: Shared) {
    && s.count == |Live(s)| < COUNT_LIMIT
    && (s.alive <==> s.count > 0)
    && Alternate(Marks(s.calls))
    && (|Marks(s.calls)| % 2 == 1 <==> s.alive)
  }

  // ----- Preservation -----

  lemma AddLive(s: Shared, t: Shared, h: Handle)
    requires h !in s.handles && t.handles == s.handles[h := true]
    ensures |Live(t)| == |Live(s)| + 1
  {
    assert Live(t) == Live(s) + {h};
  }

  lemma AddNull(s: Shared, t: Shared, h: Handle)
    requires h !in s.handles && t.handles == s.handles[h := false]
    ensures Live(t) == Live(s)
  {
  }

  lemma ReleaseKept(s: Shared, h: Handle)
    requires Inv(s) && h in s.handles && s.handles[h]
    ensures Inv(Release(s, h))
  {
    var t := Release(s, h);
    assert h in Live(s);
    assert Live(t) == Live(s) - {h};
    MarksSnoc(s.calls, Destruct);
  }

  lemma MarksSnoc(calls: seq<Call>, c: Call)
    ensures Marks(calls + [c]) == if c == Construct(false) then Marks(calls) else Marks(calls) + [c]
  {
    assert (calls + [c])[..|calls|] == calls;
  }

  lemma RefKept(s: Shared, h: Handle, ok: bool)
    requires Inv(s) && Legal(s, Ref(h, ok)) && Room(s, Ref(h, ok))
    ensures Inv(Apply(s, Ref(h, ok)))
  {
    var t := Apply(s, Ref(h, ok));
    hide Live;
    MarksSnoc(s.calls, Construct(ok));
    if t.handles[h] {
      AddLive(s, t, h);
    } else {
      AddNull(s, t, h);
    }
  }

  lemma CopyKept(s: Shared, h: Handle, from: Handle)
    requires Inv(s) && Legal(s, Copy(h, from)) && Room(s, Copy(h, from))
    ensures Inv(Apply(s, Copy(h, from)))
    ensures Apply(s, Copy(h, from)).calls == s.calls
  {
    var t := Apply(s, Copy(h, from));
    if s.handles[from] {
      assert from in Live(s);
      AddLive(s, t, h);
    } else {
      AddNull(s, t, h);
    }
  }

  lemma MoveNewKept(s: Shared, h: Handle, from: Handle)
    requires Inv(s) && Legal(s, MoveNew(h, from))
    ensures Inv(Apply(s, MoveNew(h, from)))
  {
    var t := Apply(s, MoveNew(h, from));
    if s.handles[from] {
      MovedLive(Live(s), Live(t), h, from);
    } else {
      assert Live(t) == Live(s);
    }
  }

  lemma HandOverLive(s: Shared, t: Shared, h: Handle, from: Handle)
    requires h in s.handles && from in s.handles && !s.handles[h]
    requires t.handles == s.handles[h := s.handles[from]][from := false]
    ensures |Live(t)| == |Live(s)|
  {
    if s.handles[from] {
      MovedLive(Live(s), Live(t), h, from);
    } else {
      assert Live(t) == Live(s);
    }
  }

  lemma MovedLive(a: set<Handle>, b: set<Handle>, h: Handle, from: Handle)
    requires from in a && h !in a
    requires forall x :: x in b <==> x == h || (x in a && x != from)
    ensures |b| == |a|
  {
    assert b == a - {from} + {h};
  }

  lemma MoveAssignKept(s: Shared, h: Handle, from: Handle)
    requires Inv(s) && Legal(s, MoveAssign(h, from))
    ensures Inv(Apply(s, MoveAssign(h, from)))
  {
    var s' := if s.handles[h] then Release(s, h) else s;
    if s.handles[h] {
      ReleaseKept(s, h);
    }
    HandOverLive(s', Apply(s, MoveAssign(h, from)), h, from);
  }

  lemma DestroyKept(s: Shared, h: Handle)
    requires Inv(s) && Legal(s, Destroy(h))
    ensures Inv(Apply(s, Destroy(h)))
  {
    var s' := if s.handles[h] then Release(s, h) else s;
    if s.handles[h] {
      ReleaseKept(s, h);
    }
    assert Live(Apply(s, Destroy(h))) == Live(s');
  }

  /** An operation keeps the books exactly when the count has room for it. */
  lemma KeptIff(s: Shared, op: Op)
    requires Inv(s) && Legal(s, op)
    ensures Inv(Apply(s, op)) <==> Room(s, op)
  {
    if Room(s, op) {
      match op
      case Default(h) => AddNull(s, Apply(s, op), h);
      case Ref(h, ok) => RefKept(s, h, ok);
      case Copy(h, from) => CopyKept(s, h, from);
      case MoveNew(h, from) => MoveNewKept(s, h, from);
      case MoveAssign(h, from) => MoveAssignKept(s, h, from);
      case Destroy(h) => DestroyKept(s, h);
    } else {
      AddLive(s, Apply(s, op), op.h);
    }
  }

  /** Which handles hold the object afterwards: copies share it, moves take it over and leave the other null, all others keep theirs. */
  lemma HandlesAfter(s: Shared, op: Op, other: Handle)
    requires Inv(s) && Legal(s, op) && Room(s, op)
    ensures var t := Apply(s, op).handles;
      match op
      case Default(h) => h in t && !t[h] && (other != h ==> Same(s.handles, t, other))
      case Ref(h, ok) => h in t && (t[h] <==> s.alive || ok) && (other != h ==> Same(s.handles, t, other))
      case Copy(h, from) => h in t && t[h] == s.handles[from] && (other != h ==> Same(s.handles, t, other))
      case MoveNew(h, from) =>
        h in t && from in t && t[h] == s.handles[from] && !t[from] && (other !in {h, from} ==> Same(s.handles, t, other))
      case MoveAssign(h, from) =>
        && h in t && from in t && !t[from] && t[h] == (h != from && s.handles[from])
        && (other !in {h, from} ==> Same(s.handles, t, other))
      case Destroy(h) => h !in t && (other != h ==> Same(s.handles, t, other))
  {
  }

  predicate Same(a: map<Handle, bool>, b: map<Handle, bool>, h: Handle) {
    (h in a <==> h in b) && (h in a ==> a[h] == b[h])
  }

  // ----- Whole runs -----

  /** What cannot be written, the use of a handle that does not exist, is skipped. */
  function Run(ops: seq<Op>): Shared {
    if ops == [] then EMPTY
    else
      var s := Run(ops[..|ops| - 1]);
      if Legal(s, ops[|ops| - 1]) then Apply(s, ops[|ops| - 1]) else s
  }

  /** No operation of the run needs one reference more than the count can hold. */
  ghost predicate AlwaysRoom(ops: seq<Op>) {
    forall n :: 0 <= n < |ops| ==> var s := Run(ops[..n]); Legal(s, ops[n]) ==> Room(s, ops[n])
  }

  /**
   All along a run the count is the number of live non-null handles, the object exists exactly
   while there is one, and successful constructions and destructions alternate, beginning with a
   construction: exactly when the run never needs more than 2^32 - 1 references.
   */
  lemma {:induction false} RunIsSafeIff(ops: seq<Op>)
    ensures SafeThroughout(ops) <==> AlwaysRoom(ops)
  {
    if ops == [] {
      EmptyInv();
    } else {
      var init, op := ops[..|ops| - 1], ops[|ops| - 1];
      RunIsSafeIff(init);
      SafeSnoc(ops);
      RoomSnoc(ops);
      EmptyInv();
      if SafeThroughout(init) {
        SafeEnd(init);
      }
      var s := Run(init);
      hide SafeThroughout, AlwaysRoom, Inv, Legal, Room, Apply;
      if Inv(s) && Legal(s, op) {
        KeptIff(s, op);
      }
    }
  }

  ghost predicate SafeThroughout(ops: seq<Op>) {
    forall n :: 0 <= n <= |ops| ==> Inv(Run(ops[..n]))
  }

  lemma SafeSnoc(ops: seq<Op>)
    requires ops != []
    ensures SafeThroughout(ops) <==> SafeThroughout(ops[..|ops| - 1]) && Inv(Run(ops))
  {
    hide Inv, Run;
    var init := ops[..|ops| - 1];
    assert ops[..|ops|] == ops;
    assert forall n :: 0 <= n < |ops| ==> init[..n] == ops[..n];
    assert SafeThroughout(init) ==> forall n :: 0 <= n < |ops| ==> Inv(Run(ops[..n]));
  }

  lemma RoomSnoc(ops: seq<Op>)
    requires ops != []
    ensures var init, op := ops[..|ops| - 1], ops[|ops| - 1];
      AlwaysRoom(ops) <==> AlwaysRoom(init) && (Legal(Run(init), op) ==> Room(Run(init), op))
  {
    hide Run, Legal, Room;
    var init := ops[..|ops| - 1];
    assert forall n :: 0 <= n < |init| ==> init[..n] == ops[..n] && init[n] == ops[n];
  }

  lemma SafeEnd(ops: seq<Op>)
    requires SafeThroughout(ops)
    ensures Inv(Run(ops))
  {
    assert ops[..|ops|] == ops;
  }

  lemma EmptyInv()
    ensures Inv(Run([])) && Inv(EMPTY)
  {
    assert Live(EMPTY) == {};
  }

  lemma RunIsSafe(ops: seq<Op>)
    requires AlwaysRoom(ops)
    ensures Inv(Run(ops))
  {
    RunIsSafeIff(ops);
    SafeEnd(ops);
  }

  /** Once every handle is gone, every constructed object has been destructed. */
  lemma NothingLeft(ops: seq<Op>)
    requires AlwaysRoom(ops) && Live(Run(ops)) == {}
    ensures !Run(ops).alive && |Marks(Run(ops).calls)| % 2 == 0
  {
    RunIsSafe(ops);
  }

  // ----- Failed constructions -----

  /** Objects placed in the buffer: every construction, failed or not, starts one; a destruction ends one. */
  function Placed(calls: seq<Call>): int {
    if calls == [] then 0 else Placed(calls[..|calls| - 1]) + (if calls[|calls| - 1].Construct? then 1 else -1)
  }

  function Failures(calls: seq<Call>): nat {
    if calls == [] then 0
    else Failures(calls[..|calls| - 1]) + (if calls[|calls| - 1] == Construct(false) then 1 else 0)
  }

  lemma {:induction false} PlacedIs(calls: seq<Call>)
    requires Alternate(Marks(calls))
    ensures Placed(calls) == Failures(calls) + |Marks(calls)| % 2
  {
    if calls != [] {
      var n := |calls| - 1;
      var before, after := Marks(calls[..n]), Marks(calls);
      assert forall i :: 0 <= i < |before| ==> after[i] == before[i];
      PlacedIs(calls[..n]);
      if calls[n] != Construct(false) {
        assert after[|before|] == calls[n];
      }
    }
  }

  /** The object of a failed construction is never destroyed: over every run one is left behind for each failure. */
  lemma FailuresLeak(ops: seq<Op>)
    requires AlwaysRoom(ops)
    ensures Placed(Run(ops).calls) == Failures(Run(ops).calls) + (if Run(ops).alive then 1 else 0)
  {
    RunIsSafe(ops);
    PlacedIs(Run(ops).calls);
  }

  // ----- One reference too many -----

  function Refs(n: nat): seq<Op> {
    if n == 0 then [] else Refs(n - 1) + [Ref(n - 1, true)]
  }

  /** After `n` references in a row. */
  ghost predicate Referenced(s: Shared, n: nat) {
    && s.count == n % COUNT_LIMIT && |Live(s)| == n
    && (forall h :: h in s.handles ==> h < n)
    && (n > 0 ==> s.alive)
    && s.calls == (if n == 0 then [] else if n <= COUNT_LIMIT then [Construct(true)] else [Construct(true), Construct(true)])
  }

  lemma {:induction false} RefsCount(n: nat)
    requires n <= COUNT_LIMIT + 1
    ensures Referenced(Run(Refs(n)), n)
    decreases n
  {
    if n == 0 {
      assert Live(EMPTY) == {};
    } else {
      var ops := Refs(n);
      assert ops[..|ops| - 1] == Refs(n - 1);
      RefsCount(n - 1);
      hide Refs, Referenced, Apply;
      OneMore(Run(Refs(n - 1)), n - 1);
    }
  }

  lemma OneMore(s: Shared, n: nat)
    requires n <= COUNT_LIMIT && Referenced(s, n)
    ensures Legal(s, Ref(n, true)) && Referenced(Apply(s, Ref(n, true)), n + 1)
  {
    AddLive(s, Apply(s, Ref(n, true)), n);
    hide Live;
  }

  /**
   There is such a run: after 2^32 references the count is zero while the object lives and has
   2^32 handles, and the next `ref` constructs a second object over it.
   */
  lemma CountWraps(n: nat)
    requires n == COUNT_LIMIT
    ensures var s := Run(Refs(n));
      s.count == 0 && s.alive && |Live(s)| == n && s.calls == [Construct(true)]
    ensures Run(Refs(n + 1)).calls == [Construct(true), Construct(true)]
    ensures !AlwaysRoom(Refs(n))
  {
    RefsCount(n);
    RefsCount(n + 1);
    if AlwaysRoom(Refs(n)) {
      RunIsSafe(Refs(n));
      assert false;
    }
  }

  // ----- The class -----

  class SharedT {
    var count: nat
    var alive: bool
    var calls: seq<Call>
    var handles: map<Handle, bool>

    function State(): Shared
      reads this
    {
      Shared(count, alive, handles, calls)
    }

    constructor ()
      ensures State() == EMPTY
    {
      count, alive, calls, handles := 0, false, [], map[];
    }

    /** `ref`: the construct callback runs only when the count is zero. */
    method RefHandle(h: Handle, ok: bool)
      requires Legal(State(), Ref(h, ok))
      modifies this
      ensures State() == old(Apply(State(), Ref(h, ok)))
    {
      if count == 0 {
        calls := calls + [Construct(ok)];
        if !ok {
          handles := handles[h := false];
          return;
        }
        alive := true;
      }
      count := Increment(count);
      handles := handles[h := true];
    }

    method ReleaseHandle(h: Handle)
      requires h in handles && handles[h]
      modifies this
      ensures State() == old(Release(State(), h))
    {
      count := Decrement(count);
      if count == 0 {
        calls := calls + [Destruct];
        alive := false;
      }
      handles := handles[h := false];
    }

    method CopyHandle(h: Handle, from: Handle)
      requires Legal(State(), Copy(h, from))
      modifies this
      ensures State() == old(Apply(State(), Copy(h, from)))
    {
      if handles[from] {
        RefHandle(h, true);
      } else {
        handles := handles[h := false];
      }
    }

    method MoveHandle(h: Handle, from: Handle)
      requires Legal(State(), MoveNew(h, from))
      modifies this
      ensures State() == old(Apply(State(), MoveNew(h, from)))
    {
      handles := handles[h := handles[from]];
      handles := handles[from := false];
    }

    method AssignHandle(h: Handle, from: Handle)
      requires Legal(State(), MoveAssign(h, from))
      modifies this
      ensures State() == old(Apply(State(), MoveAssign(h, from)))
    {
      if handles[h] {
        ReleaseHandle(h);
      }
      var mine, other := handles[h], handles[from];
      handles := handles[h := other][from := mine];
    }

    method DestroyHandle(h: Handle)
      requires Legal(State(), Destroy(h))
      modifies this
      ensures State() == old(Apply(State(), Destroy(h)))
    {
      if handles[h] {
        ReleaseHandle(h);
      }
      handles := handles - {h};
    }
  }
}

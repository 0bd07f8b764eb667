/** Maintenance requests waiting without bound, and moving into the bounded priority queue. */
module MaintenanceQueues {
  import opened Dram

  datatype Item = Item(id: nat, next: Command, at: Coordinate)

  predicate IsExit(x: Item) { x.next.SREFEX? }

  predicate HasExit(q: seq<Item>) { exists i | 0 <= i < |q| :: IsExit(q[i]) }

  /** All but the requests to leave self-refresh, in order. */
  function Others(q: seq<Item>): seq<Item> {
    if q == [] then [] else if IsExit(q[0]) then Others(q[1..]) else [q[0]] + Others(q[1..])
  }

  lemma {:induction false} OthersJoin(a: seq<Item>, b: seq<Item>)
    ensures Others(a + b) == Others(a) + Others(b)
  {
    if a == [] {
      assert a + b == b;
    } else {
      assert (a + b)[1..] == a[1..] + b;
      OthersJoin(a[1..], b);
    }
  }

  lemma OthersOne(x: Item)
    ensures Others([x]) == if IsExit(x) then [] else [x]
  {
    assert [x][1..] == [];
  }

  /** Moving a request to leave self-refresh around, or past others, keeps the others' order. */
  lemma OthersWithout(a: seq<Item>, x: Item, b: seq<Item>)
    requires IsExit(x)
    ensures Others(a + [x] + b) == Others(a) + Others(b)
  {
    OthersJoin(a + [x], b);
    OthersJoin(a, [x]);
    OthersOne(x);
  }

  // ---------------------------------------------------------------- the steps

  /** The first request to leave self-refresh moved to the front. */
  function Rotated(q: seq<Item>): seq<Item> {
    if HasExit(q) then
      var k := FirstExit(q);
      [q[k]] + q[..k] + q[k + 1..]
    else q
  }

  function FirstExit(q: seq<Item>): (k: nat)
    requires HasExit(q)
    ensures k < |q| && IsExit(q[k]) && forall i | 0 <= i < k :: !IsExit(q[i])
  {
    if IsExit(q[0]) then 0
    else
      (var i :| 0 <= i < |q| && IsExit(q[i]);
       assert IsExit(q[1..][i - 1]);
       assert forall j | 0 < j < |q| :: q[1..][j - 1] == q[j];
       1 + FirstExit(q[1..]))
  }

  /** The priority queue, the pending queue. */
  datatype Queues = Queues(priority: seq<Item>, pending: seq<Item>)

  /** An exit at the head of a full wait takes the last priority place's turn, at the front. */
  function Swapped(q: Queues): Queues
    requires q.pending != [] && q.priority != []
  {
    var last := |q.priority| - 1;
    Queues([q.pending[0]] + q.priority[..last], [q.priority[last]] + q.pending[1..])
  }

  function OneMoved(q: Queues): Queues
    requires q.pending != []
  {
    var x := q.pending[0];
    Queues(if IsExit(x) then [x] + q.priority else q.priority + [x], q.pending[1..])
  }

  function Moved(q: Queues, capacity: nat): Queues
    decreases |q.pending|
  {
    if q.pending == [] || |q.priority| >= capacity then q else Moved(OneMoved(q), capacity)
  }

  function Serviced(q: Queues, asleep: bool, capacity: nat): Queues {
    var rotated := if asleep then Queues(Rotated(q.priority), Rotated(q.pending)) else q;
    var swapped :=
      if asleep && rotated.pending != [] && IsExit(rotated.pending[0]) && |rotated.priority| >= capacity && rotated.priority != []
      then Swapped(rotated) else rotated;
    Moved(swapped, capacity)
  }

  /** Scheduling appends; a second request to leave self-refresh is dropped, a first one goes ahead. */
  function Scheduled(q: Queues, x: Item): Queues {
    if IsExit(x) then if HasExit(q.pending) || HasExit(q.priority) then q else q.(pending := [x] + q.pending)
    else q.(pending := q.pending + [x])
  }

  // ---------------------------------------------------------------- what servicing keeps

  /** The same requests, with all but the exits in the same order. */
  ghost predicate Keeps(before: Queues, after: Queues) {
    && multiset(after.priority + after.pending) == multiset(before.priority + before.pending)
    && Others(after.priority + after.pending) == Others(before.priority + before.pending)
  }

  lemma RotatedKeeps(q: seq<Item>)
    ensures |Rotated(q)| == |q| && multiset(Rotated(q)) == multiset(q) && Others(Rotated(q)) == Others(q)
    ensures HasExit(q) ==> IsExit(Rotated(q)[0])
  {
    if HasExit(q) {
      var k := FirstExit(q);
      assert q == q[..k] + [q[k]] + q[k + 1..];
      OthersWithout(q[..k], q[k], q[k + 1..]);
      assert [q[k]] + q[..k] + q[k + 1..] == [] + [q[k]] + (q[..k] + q[k + 1..]);
      OthersWithout([], q[k], q[..k] + q[k + 1..]);
      OthersJoin(q[..k], q[k + 1..]);
    }
  }

  lemma SwappedKeeps(q: Queues)
    requires q.pending != [] && q.priority != [] && IsExit(q.pending[0])
    ensures Keeps(q, Swapped(q))
  {
    var last := |q.priority| - 1;
    var x := q.pending[0];
    var rest := q.pending[1..];
    assert q.pending == [x] + rest;
    assert q.priority == q.priority[..last] + [q.priority[last]];
    var s := Swapped(q);
    assert s.priority + s.pending == [] + [x] + (q.priority + rest);
    OthersWithout([], x, q.priority + rest);
    assert q.priority + q.pending == q.priority + [x] + rest;
    OthersWithout(q.priority, x, rest);
    OthersJoin(q.priority, rest);
  }

  lemma OneMovedKeeps(q: Queues)
    requires q.pending != []
    ensures Keeps(q, OneMoved(q))
  {
    var x, rest := q.pending[0], q.pending[1..];
    var next := OneMoved(q);
    assert q.pending == [x] + rest;
    assert q.priority + q.pending == q.priority + [x] + rest;
    if IsExit(x) {
      OthersWithout(q.priority, x, rest);
      assert next.priority + next.pending == [] + [x] + (q.priority + rest);
      OthersWithout([], x, q.priority + rest);
      OthersJoin(q.priority, rest);
    }
  }

  lemma {:induction false} MovedKeeps(q: Queues, capacity: nat)
    ensures Keeps(q, Moved(q, capacity))
    ensures |q.priority| <= capacity ==> |Moved(q, capacity).priority| <= capacity
    ensures Moved(q, capacity).pending == [] || |Moved(q, capacity).priority| >= capacity
    decreases |q.pending|
  {
    if q.pending != [] && |q.priority| < capacity {
      OneMovedKeeps(q);
      MovedKeeps(OneMoved(q), capacity);
    }
  }

  /** The queue is headed by a request to leave self-refresh. */
  predicate ExitFirst(q: seq<Item>) { q != [] && IsExit(q[0]) }

  lemma {:induction false} MovedHead(q: Queues, capacity: nat)
    requires ExitFirst(q.priority) || (|q.priority| < capacity && ExitFirst(q.pending))
    ensures ExitFirst(Moved(q, capacity).priority)
    decreases |q.pending|
  {
    if q.pending != [] && |q.priority| < capacity { MovedHead(OneMoved(q), capacity); }
  }

  lemma JoinKeeps(before: Queues, after: Queues)
    requires multiset(after.priority) == multiset(before.priority) && multiset(after.pending) == multiset(before.pending)
    requires Others(after.priority) == Others(before.priority) && Others(after.pending) == Others(before.pending)
    ensures Keeps(before, after)
  {
    OthersJoin(before.priority, before.pending);
    OthersJoin(after.priority, after.pending);
  }

  /**
    Servicing loses and adds no request, keeps the order of all but exits across both queues, never overfills
    the priority queue, and leaves nothing pending while there is room.
   */
  lemma ServicingKeeps(q: Queues, asleep: bool, capacity: nat)
    requires |q.priority| <= capacity
    ensures
      var s := Serviced(q, asleep, capacity);
      Keeps(q, s) && |s.priority| <= capacity && (s.pending == [] || |s.priority| == capacity)
  {
    var r := if asleep then Queues(Rotated(q.priority), Rotated(q.pending)) else q;
    RotatedKeeps(q.priority);
    RotatedKeeps(q.pending);
    JoinKeeps(q, r);
    if asleep && r.pending != [] && IsExit(r.pending[0]) && |r.priority| >= capacity && r.priority != [] {
      SwappedKeeps(r);
      MovedKeeps(Swapped(r), capacity);
    } else {
      MovedKeeps(r, capacity);
    }
  }

  /** In self-refresh a waiting request to leave it heads the priority queue afterwards, even if that was full. */
  lemma ExitComesFirst(q: Queues, capacity: nat)
    requires 0 < capacity && |q.priority| <= capacity && (HasExit(q.priority) || HasExit(q.pending))
    ensures ExitFirst(Serviced(q, true, capacity).priority)
  {
    var r := Queues(Rotated(q.priority), Rotated(q.pending));
    RotatedKeeps(q.priority);
    RotatedKeeps(q.pending);
    if ExitFirst(r.pending) && |r.priority| >= capacity {
      MovedHead(Swapped(r), capacity);
    } else {
      MovedHead(r, capacity);
    }
  }

  function Exits(q: seq<Item>): nat {
    if q == [] then 0 else Exits(q[1..]) + if IsExit(q[0]) then 1 else 0
  }

  lemma {:induction false} ExitsAreTheRest(q: seq<Item>)
    ensures Exits(q) + |Others(q)| == |q|
    ensures Exits(q) == 0 <==> !HasExit(q)
  {
    if q != [] {
      ExitsAreTheRest(q[1..]);
      assert forall i | 0 < i < |q| :: q[1..][i - 1] == q[i];
      if i :| 0 <= i < |q| && IsExit(q[i]) && i > 0 { assert IsExit(q[1..][i - 1]); }
      if i :| 0 <= i < |q[1..]| && IsExit(q[1..][i]) { assert IsExit(q[i + 1]); }
    }
  }

  /** Every request that waits, in either queue. */
  function Line(q: Queues): seq<Item> { q.priority + q.pending }

  /** Servicing neither adds nor loses a request to leave self-refresh. */
  lemma ServicedExits(q: Queues, asleep: bool, capacity: nat)
    requires |q.priority| <= capacity
    ensures Exits(Line(Serviced(q, asleep, capacity))) == Exits(Line(q))
  {
    var s := Serviced(q, asleep, capacity);
    ServicingKeeps(q, asleep, capacity);
    ExitsAreTheRest(Line(q));
    ExitsAreTheRest(Line(s));
    assert |Line(s)| == |multiset(Line(s))| && |Line(q)| == |multiset(Line(q))|;
  }

  /** Scheduling adds one only where none waits. */
  lemma ScheduledExits(q: Queues, x: Item)
    ensures Exits(Line(Scheduled(q, x))) == if IsExit(x) && Exits(Line(q)) == 0 then 1 else Exits(Line(q))
  {
    ExitsAreTheRest(Line(q));
    ExitsAreTheRest(Line(Scheduled(q, x)));
    ScheduledOthers(q, x);
  }

  lemma ScheduledOthers(q: Queues, x: Item)
    ensures
      var t := Scheduled(q, x);
      && |Others(t.priority + t.pending)| == |Others(q.priority + q.pending)| + (if IsExit(x) then 0 else 1)
      && |t.priority + t.pending| == |q.priority + q.pending|
           + (if IsExit(x) && (HasExit(q.pending) || HasExit(q.priority)) then 0 else 1)
      && (HasExit(q.pending) || HasExit(q.priority) <==> HasExit(q.priority + q.pending))
  {
    OthersJoin(q.priority, q.pending);
    OthersOne(x);
    var both := q.priority + q.pending;
    if i :| 0 <= i < |q.pending| && IsExit(q.pending[i]) { assert IsExit(both[|q.priority| + i]); }
    if i :| 0 <= i < |q.priority| && IsExit(q.priority[i]) { assert IsExit(both[i]); }
    if IsExit(x) {
      if !(HasExit(q.pending) || HasExit(q.priority)) {
        assert q.priority + ([x] + q.pending) == q.priority + [x] + q.pending;
        OthersWithout(q.priority, x, q.pending);
      }
    } else {
      assert q.priority + (q.pending + [x]) == both + [x];
      OthersJoin(both, [x]);
    }
  }

  // ---------------------------------------------------------------- the queues in place

  class MaintenanceQueue {
    const capacity: nat
    var priority: seq<Item>
    var pending: seq<Item>
    var asleep: bool
    var nextId: nat

    ghost function Now(): Queues
      reads this
    {
      Queues(priority, pending)
    }

    constructor (capacity: nat)
      ensures Now() == Queues([], []) && this.capacity == capacity && !asleep
    {
      this.capacity := capacity;
      priority, pending, asleep, nextId := [], [], false, 0;
    }

    method FindExit(q: seq<Item>) returns (k: nat)
      ensures k <= |q| && (k < |q| <==> HasExit(q)) && (HasExit(q) ==> k == FirstExit(q))
    {
      k := 0;
      while k < |q| && !IsExit(q[k])
        invariant k <= |q| && forall i | 0 <= i < k :: !IsExit(q[i])
      {
        k := k + 1;
      }
    }

    method Rotate(q: seq<Item>) returns (r: seq<Item>)
      ensures r == Rotated(q)
    {
      var k := FindExit(q);
      r := if k < |q| then [q[k]] + q[..k] + q[k + 1..] else q;
    }

    method ScheduleMaintenance(cmd: Command, at: Coordinate)
      modifies this`pending, this`nextId
      ensures Now() == Scheduled(old(Now()), Item(old(nextId), cmd, at))
    {
      if cmd.SREFEX? {
        var inPending := FindExit(pending);
        var inPriority := FindExit(priority);
        if inPending < |pending| || inPriority < |priority| { return; }
      }
      var x := Item(nextId, cmd, at);
      nextId := nextId + 1;
      pending := if cmd.SREFEX? then [x] + pending else pending + [x];
    }

    method ServicePendingMaintenance()
      requires 0 < capacity
      modifies this`priority, this`pending
      ensures Now() == Serviced(old(Now()), asleep, capacity)
    {
      if asleep {
        pending := Rotate(pending);
        priority := Rotate(priority);
        if pending != [] && IsExit(pending[0]) && |priority| >= capacity {
          var exit := pending[0];
          pending := [priority[|priority| - 1]] + pending[1..];
          priority := [exit] + priority[..|priority| - 1];
        }
      }
      ghost var q := Now();
      while pending != [] && |priority| < capacity
        invariant Moved(Now(), capacity) == Moved(q, capacity)
        decreases |pending|
      {
        var x := pending[0];
        priority := if IsExit(x) then [x] + priority else priority + [x];
        pending := pending[1..];
      }
    }
  }
}

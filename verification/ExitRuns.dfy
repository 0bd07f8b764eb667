/** How many requests to leave self-refresh wait at once, in runs of the manager, the queues and requests from outside. */
module ExitRuns {
  import opened Dram
  import opened RefreshRules
  import opened MaintenanceQueues
  import opened RefdbOrder
  import Ledger = RefreshLedger

  lemma {:induction false} ExitsJoin(a: seq<Item>, b: seq<Item>)
    ensures Exits(a + b) == Exits(a) + Exits(b)
  {
    if a == [] {
      assert a + b == b;
    } else {
      assert (a + b)[1..] == a[1..] + b;
      ExitsJoin(a[1..], b);
    }
  }

  lemma {:induction false} NoExits(q: seq<Item>)
    requires forall k | 0 <= k < |q| :: !IsExit(q[k])
    ensures Exits(q) == 0
  {
    if q != [] { NoExits(q[1..]); }
  }

  lemma ExitsOne(x: Item)
    ensures Exits([x]) == if IsExit(x) then 1 else 0
  {
    assert [x][1..] == [];
  }

  lemma {:induction false} ExitsErased(q: seq<Item>, id: nat)
    ensures Exits(Erased(q, id)) == Exits(q)
  {
    if q != [] {
      ExitsErased(q[1..], id);
      if !(q[0].id == id && q[0].next.SREFEN?) { assert ([q[0]] + Erased(q[1..], id))[1..] == Erased(q[1..], id); }
    }
  }

  function Outside(step: Step): nat { if step.Push? && IsExit(step.item) then 1 else 0 }

  /** The requests to leave self-refresh that came from outside, past the test for duplicates. */
  function FromOutside(steps: seq<Step>): nat {
    if steps == [] then 0 else FromOutside(steps[..|steps| - 1]) + Outside(steps[|steps| - 1])
  }

  /** Requests that wait after the run. */
  ghost function Left(p: Params, start: nat, capacity: nat, steps: seq<Step>): nat
    requires Enabled(p) && IsRun(p, start, capacity, steps)
  {
    Exits(Line(After(p, start, capacity, steps).queues))
  }

  lemma BatchHasNone(p: Params, start: nat, w: World, input: Ledger.Input)
    requires Enabled(p)
    ensures Exits(Batch(p, start, w, input)) == 0
  {
    NoExits(Batch(p, start, w, input));
  }

  /** Only a request from outside lets one more wait than one or as many as before. */
  lemma StepExits(p: Params, start: nat, capacity: nat, w: World, step: Step)
    requires Enabled(p) && |w.queues.priority| <= capacity && Possible(p, start, capacity, w, step)
    ensures |Next(p, start, capacity, w, step).queues.priority| <= capacity
    ensures Exits(Line(Next(p, start, capacity, w, step).queues)) <= Max(1, Exits(Line(w.queues)) + Outside(step))
  {
    var q, after := w.queues, Next(p, start, capacity, w, step).queues;
    ExitsJoin(q.priority, q.pending);
    ExitsJoin(after.priority, after.pending);
    match step
    case Tick(input) =>
      BatchHasNone(p, start, w, input);
      ExitsJoin(q.pending, Batch(p, start, w, input));
    case Service(asleep) =>
      ServicingKeeps(q, asleep, capacity);
      ServicedExits(q, asleep, capacity);
    case Schedule(c, at) => ScheduledExits(q, Item(w.nextId, c, at));
    case Push(x) =>
      ExitsJoin(q.priority, [x]);
      ExitsOne(x);
    case TakeBack(id) =>
      ExitsErased(q.priority, id);
      ExitsErased(q.pending, id);
    case Drop => ExitsOne(q.priority[0]);
    case IssueHead(_) => ExitsOne(q.priority[0]);
    case IssueOther(_) =>
  }

  lemma {:induction false} RunExits(p: Params, start: nat, capacity: nat, steps: seq<Step>)
    requires Enabled(p) && IsRun(p, start, capacity, steps)
    ensures |After(p, start, capacity, steps).queues.priority| <= capacity
    ensures Left(p, start, capacity, steps) <= 1 + FromOutside(steps)
  {
    if steps == [] {
      assert Line(First().queues) == [];
    } else {
      var n := |steps| - 1;
      RunExits(p, start, capacity, steps[..n]);
      StepExits(p, start, capacity, After(p, start, capacity, steps[..n]), steps[n]);
    }
  }

  lemma OutsideExtends(steps: seq<Step>, x: Step)
    ensures FromOutside(steps + [x]) == FromOutside(steps) + Outside(x)
  {
    assert (steps + [x])[..|steps|] == steps;
  }

  /** One scheduled by the controller, then one from outside. */
  lemma TwoWait(p: Params, start: nat, capacity: nat, at: Coordinate) returns (steps: seq<Step>)
    requires Enabled(p) && 0 < capacity && BankInRange(p.org, at)
    ensures IsRun(p, start, capacity, steps) && Left(p, start, capacity, steps) == 2 && FromOutside(steps) == 1
  {
    var x, y := Item(0, SREFEX, at), Item(1, SREFEX, at);
    Extends(p, start, capacity, [], Schedule(SREFEX, at));
    OutsideExtends([], Schedule(SREFEX, at));
    steps := [] + [Schedule(SREFEX, at)];
    assert After(p, start, capacity, steps).queues == Queues([], [x]);
    Extends(p, start, capacity, steps, Push(y));
    OutsideExtends(steps, Push(y));
    steps := steps + [Push(y)];
    assert Line(After(p, start, capacity, steps).queues) == [y] + [x];
    ExitsJoin([y], [x]);
    ExitsOne(x);
    ExitsOne(y);
  }

  /**
    The controller's own requests to leave self-refresh never wait together, and at most one more waits than came
    from outside; all runs keep to one exactly if none comes from there.
   */
  lemma OneExitExact(p: Params, start: nat, capacity: nat, outside: nat)
    requires Enabled(p) && 0 < capacity
    ensures (forall steps | IsRun(p, start, capacity, steps) && FromOutside(steps) <= outside ::
               Left(p, start, capacity, steps) <= 1)
            <==> outside == 0
  {
    if outside == 0 {
      forall steps | IsRun(p, start, capacity, steps) && FromOutside(steps) <= outside
        ensures Left(p, start, capacity, steps) <= 1
      {
        RunExits(p, start, capacity, steps);
      }
    } else {
      var steps := TwoWait(p, start, capacity, Zero());
    }
  }
}

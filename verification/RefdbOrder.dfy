/**
  From the refresh manager through the maintenance queues to the commands issued: whatever else waits there or is
  issued, dual-bank refreshes come out in rotation order, so that none is ever refused as a repeat.
 */
module RefdbOrder {
  import opened Dram
  import opened TimingHistory
  import opened RefdbSweep
  import opened RefreshRules
  import opened MaintenanceQueues
  import opened RefdbRotation
  import Ledger = RefreshLedger
  import MixedRadix

  /** A dual-bank refresh that waits for the site of `d`. */
  predicate Awaits(x: Item, d: Coordinate) { x.next.REFDB? && SameSite(x.at, d) }

  function Waiting(q: seq<Item>, d: Coordinate): seq<Item> {
    if q == [] then [] else (if Awaits(q[0], d) then [q[0]] else []) + Waiting(q[1..], d)
  }

  lemma {:induction false} WaitingJoin(a: seq<Item>, b: seq<Item>, d: Coordinate)
    ensures Waiting(a + b, d) == Waiting(a, d) + Waiting(b, d)
  {
    if a == [] {
      assert a + b == b;
    } else {
      assert (a + b)[1..] == a[1..] + b;
      WaitingJoin(a[1..], b, d);
    }
  }

  /** Requests to leave self-refresh make no difference. */
  lemma {:induction false} WaitingOthers(q: seq<Item>, d: Coordinate)
    ensures Waiting(Others(q), d) == Waiting(q, d)
  {
    if q != [] {
      WaitingOthers(q[1..], d);
      if !IsExit(q[0]) { assert ([q[0]] + Others(q[1..]))[1..] == Others(q[1..]); }
    }
  }

  lemma {:induction false} WaitingNone(q: seq<Item>, d: Coordinate)
    requires forall k | 0 <= k < |q| :: !Awaits(q[k], d)
    ensures Waiting(q, d) == []
  {
    if q != [] { WaitingNone(q[1..], d); }
  }

  lemma WaitingOne(q: seq<Item>, d: Coordinate, i: nat)
    requires i < |q| && Awaits(q[i], d) && forall k | 0 <= k < |q| && k != i :: !Awaits(q[k], d)
    ensures Waiting(q, d) == [q[i]]
  {
    assert q == q[..i] + ([q[i]] + q[i + 1..]);
    WaitingJoin(q[..i], [q[i]] + q[i + 1..], d);
    WaitingNone(q[..i], d);
    assert ([q[i]] + q[i + 1..])[1..] == q[i + 1..];
    WaitingNone(q[i + 1..], d);
  }

  /** The requests but one to enter self-refresh. */
  function Erased(q: seq<Item>, id: nat): (r: seq<Item>)
    ensures |r| <= |q|
  {
    if q == [] then []
    else if q[0].id == id && q[0].next.SREFEN? then Erased(q[1..], id)
    else [q[0]] + Erased(q[1..], id)
  }

  lemma {:induction false} WaitingErased(q: seq<Item>, id: nat, d: Coordinate)
    ensures Waiting(Erased(q, id), d) == Waiting(q, d)
  {
    if q != [] {
      WaitingErased(q[1..], id, d);
      if !(q[0].id == id && q[0].next.SREFEN?) { assert ([q[0]] + Erased(q[1..], id))[1..] == Erased(q[1..], id); }
    }
  }

  // ---------------------------------------------------------------- the machine

  /** The manager's ticks so far, the maintenance requests waiting, and the commands issued. */
  datatype World = World(inputs: seq<Ledger.Input>, queues: Queues, nextId: nat, history: seq<Event>)

  /**
    The manager ticks; waiting requests move up; another request is scheduled, or put straight into the priority
    queue; a request to enter self-refresh is taken back; the head of the priority queue is dropped or issued; some
    other command is issued.
   */
  datatype Step =
    | Tick(input: Ledger.Input)
    | Service(asleep: bool)
    | Schedule(command: Command, at: Coordinate)
    | Push(item: Item)
    | TakeBack(id: nat)
    | Drop
    | IssueHead(cycle: nat)
    | IssueOther(event: Event)

  /** Inside the controller only the manager asks for dual-bank refreshes, and only the head of the priority queue issues them. */
  predicate Possible(p: Params, start: nat, capacity: nat, w: World, step: Step) {
    match step
    case Tick(input) => Ledger.LastCycle(start, w.inputs) <= input.clk
    case Service(_) => true
    case Schedule(c, _) => !c.REFDB?
    case Push(x) => |w.queues.priority| < capacity && BankInRange(p.org, x.at)
    case TakeBack(_) => true
    case Drop => w.queues.priority != [] && !w.queues.priority[0].next.REFDB?
    case IssueHead(_) => w.queues.priority != []
    case IssueOther(e) => !e.command.REFDB?
  }

  /** No request from outside asks for a dual-bank refresh. */
  predicate Managed(step: Step) { step.Push? ==> !step.item.next.REFDB? }

  predicate AllManaged(steps: seq<Step>) { forall k | 0 <= k < |steps| :: Managed(steps[k]) }

  /** The requests for a batch started by this tick. */
  function Batch(p: Params, start: nat, w: World, input: Ledger.Input): seq<Item>
    requires Enabled(p)
  {
    var m := Ledger.After(p, start, w.inputs);
    var o := Ledger.Choice(p, m, input);
    if o.Batch? then
      var r := Ledger.CrossedAll(p, m.ranks, input.clk, input.asleep)[o.rank];
      seq(BatchSize(p), k requires 0 <= k < BatchSize(p) =>
        var c := BatchCommand(p, o.rank, r, k); Item(w.nextId + k, c.command, c.at))
    else []
  }

  function Next(p: Params, start: nat, capacity: nat, w: World, step: Step): World
    requires Enabled(p) && Possible(p, start, capacity, w, step)
  {
    var q := w.queues;
    match step
    case Tick(input) =>
      var items := Batch(p, start, w, input);
      w.(inputs := w.inputs + [input], queues := q.(pending := q.pending + items), nextId := w.nextId + |items|)
    case Service(asleep) => w.(queues := Serviced(q, asleep, capacity))
    case Schedule(c, at) => w.(queues := Scheduled(q, Item(w.nextId, c, at)), nextId := w.nextId + 1)
    case Push(x) => w.(queues := q.(priority := q.priority + [x]))
    case TakeBack(id) => w.(queues := Queues(Erased(q.priority, id), Erased(q.pending, id)))
    case Drop => w.(queues := q.(priority := q.priority[1..]))
    case IssueHead(cycle) =>
      var x := q.priority[0];
      w.(queues := q.(priority := q.priority[1..]), history := w.history + [Event(x.next, x.at, cycle)])
    case IssueOther(e) => w.(history := w.history + [e])
  }

  function First(): World { World([], Queues([], []), 0, []) }

  ghost predicate IsRun(p: Params, start: nat, capacity: nat, steps: seq<Step>)
    requires Enabled(p)
    decreases |steps|, 0
  {
    steps == []
    || var n := |steps| - 1;
       IsRun(p, start, capacity, steps[..n]) && Possible(p, start, capacity, After(p, start, capacity, steps[..n]), steps[n])
  }

  ghost function After(p: Params, start: nat, capacity: nat, steps: seq<Step>): World
    requires Enabled(p) && IsRun(p, start, capacity, steps)
    decreases |steps|, 1
  {
    if steps == [] then First()
    else
      var n := |steps| - 1;
      Next(p, start, capacity, After(p, start, capacity, steps[..n]), steps[n])
  }

  // ---------------------------------------------------------------- what waits is the rotation's next stretch

  /** The request aims at the `n`-th place of the rotation. */
  predicate ItemAtPlace(p: Params, x: Item, n: nat) { x.next.REFDB? && AtPlace(p, Event(x.next, x.at, 0), n) }

  /** The waiting refreshes of a site stand at the places from `served` on, up to the last batch started. */
  ghost predicate InLine(p: Params, waiting: seq<Item>, served: nat, started: nat) {
    && served + |waiting| == started
    && forall k: nat | k < |waiting| :: ItemAtPlace(p, waiting[k], served + k)
  }

  lemma LineGrows(p: Params, waiting: seq<Item>, served: nat, started: nat, x: Item)
    requires InLine(p, waiting, served, started) && ItemAtPlace(p, x, started)
    ensures InLine(p, waiting + [x], served, started + 1)
  {
  }

  lemma LineShrinks(p: Params, waiting: seq<Item>, served: nat, started: nat)
    requires InLine(p, waiting, served, started) && waiting != []
    ensures InLine(p, waiting[1..], served + 1, started)
  {
    forall k: nat | k < |waiting[1..]|
      ensures ItemAtPlace(p, waiting[1..][k], served + 1 + k)
    {
      assert ItemAtPlace(p, waiting[k + 1], served + (k + 1));
    }
  }

  predicate SiteInRange(o: Organization, d: Coordinate) {
    0 <= d.channel < o.channels && 0 <= d.pseudoChannel < o.pseudoChannels && 0 <= d.rank < o.ranks
  }

  /** Batches started for the rank of the site, if there is such a site. */
  function Started(p: Params, start: nat, inputs: seq<Ledger.Input>, d: Coordinate): nat
    requires Enabled(p)
  {
    if SiteInRange(p.org, d) then Ledger.Batches(p, start, inputs, d.rank) else 0
  }

  ghost predicate OnTrack(p: Params, start: nat, w: World, d: Coordinate)
    requires Enabled(p)
  {
    InLine(p, Waiting(Line(w.queues), d), Served(w.history, d), Started(p, start, w.inputs, d))
  }

  ghost predicate Sound(p: Params, start: nat, capacity: nat, w: World)
    requires Enabled(p)
  {
    && (forall d: Coordinate :: OnTrack(p, start, w, d))
    && InRotation(p, w.history) && Ledger.InOrder(start, w.inputs) && |w.queues.priority| <= capacity
  }

  // ---------------------------------------------------------------- a tick

  /** Which command of a batch is for the site of `d`. */
  lemma CommandSite(p: Params, s: Spec, rank: nat, r: RankState, k: nat, d: Coordinate)
    requires Rotates(p, s) && k < BatchSize(p) && rank < p.org.ranks
    ensures BatchCommand(p, rank, r, k).command.REFDB?
    ensures SameSite(BatchCommand(p, rank, r, k).at, d) <==>
              SiteInRange(p.org, d) && rank == d.rank && k == d.pseudoChannel + d.channel * p.org.pseudoChannels
  {
    MixedRadix.DigitSplit(p.org.pseudoChannels, k);
    MixedRadix.DigitBound(p.org.pseudoChannels, p.org.channels, k);
    if SiteInRange(p.org, d) { MixedRadix.DigitTake(p.org.pseudoChannels, d.pseudoChannel, d.channel); }
  }

  /** A batch holds one command for each site of its rank, at the rotation's next place. */
  lemma BatchWaits(p: Params, s: Spec, start: nat, w: World, input: Ledger.Input, d: Coordinate)
    requires Rotates(p, s) && Enabled(p) && Ledger.InOrder(start, w.inputs)
    requires Ledger.LastCycle(start, w.inputs) <= input.clk
    ensures
      var o := Ledger.Choice(p, Ledger.After(p, start, w.inputs), input);
      var items := Waiting(Batch(p, start, w, input), d);
      if o.Batch? && SiteInRange(p.org, d) && o.rank == d.rank then
        |items| == 1 && ItemAtPlace(p, items[0], Started(p, start, w.inputs, d))
      else items == []
  {
    var m := Ledger.After(p, start, w.inputs);
    var o := Ledger.Choice(p, m, input);
    var items := Batch(p, start, w, input);
    Ledger.RunKeepsCount(p, start, w.inputs);
    if o.Batch? {
      var r := Ledger.CrossedAll(p, m.ranks, input.clk, input.asleep)[o.rank];
      forall k: nat | k < BatchSize(p)
        ensures Awaits(items[k], d) <==>
                SiteInRange(p.org, d) && o.rank == d.rank && k == d.pseudoChannel + d.channel * p.org.pseudoChannels
      {
        CommandSite(p, s, o.rank, r, k, d);
      }
      if SiteInRange(p.org, d) && o.rank == d.rank {
        Ledger.ObligationsConserved(p, start, w.inputs, o.rank);
        var i := d.pseudoChannel + d.channel * p.org.pseudoChannels;
        MixedRadix.DigitBelow(p.org.pseudoChannels, p.org.channels, d.pseudoChannel, d.channel);
        WaitingOne(items, d, i);
        BatchIsAtPlace(p, s, r, Ledger.Batches(p, start, w.inputs, d.rank), i, o.rank, 0);
      } else {
        WaitingNone(items, d);
      }
    }
  }

  lemma TickLine(q: Queues, items: seq<Item>, d: Coordinate)
    ensures Waiting(Line(q.(pending := q.pending + items)), d) == Waiting(Line(q), d) + Waiting(items, d)
  {
    WaitingJoin(Line(q), items, d);
    assert Line(q) + items == q.priority + (q.pending + items);
  }

  lemma TickStarted(p: Params, start: nat, inputs: seq<Ledger.Input>, input: Ledger.Input, d: Coordinate)
    requires Enabled(p)
    ensures
      var o := Ledger.Choice(p, Ledger.After(p, start, inputs), input);
      Started(p, start, inputs + [input], d) ==
      Started(p, start, inputs, d) + if o.Batch? && SiteInRange(p.org, d) && o.rank == d.rank then 1 else 0
  {
    if SiteInRange(p.org, d) { Ledger.LedgerStep(p, start, inputs, input, d.rank); }
  }

  lemma TickOnTrack(p: Params, s: Spec, start: nat, w: World, input: Ledger.Input, d: Coordinate)
    requires Rotates(p, s) && Enabled(p) && Ledger.InOrder(start, w.inputs)
    requires Ledger.LastCycle(start, w.inputs) <= input.clk && OnTrack(p, start, w, d)
    ensures
      var items := Batch(p, start, w, input);
      InLine(p, Waiting(Line(w.queues.(pending := w.queues.pending + items)), d), Served(w.history, d),
             Started(p, start, w.inputs + [input], d))
  {
    var items := Batch(p, start, w, input);
    BatchWaits(p, s, start, w, input, d);
    TickLine(w.queues, items, d);
    TickStarted(p, start, w.inputs, input, d);
    var own := Waiting(items, d);
    if own == [] {
      assert Waiting(Line(w.queues), d) + own == Waiting(Line(w.queues), d);
    } else {
      assert own == [own[0]];
      LineGrows(p, Waiting(Line(w.queues), d), Served(w.history, d), Started(p, start, w.inputs, d), own[0]);
    }
  }

  lemma TickInOrder(start: nat, inputs: seq<Ledger.Input>, input: Ledger.Input)
    requires Ledger.InOrder(start, inputs) && Ledger.LastCycle(start, inputs) <= input.clk
    ensures Ledger.InOrder(start, inputs + [input])
  {
  }

  // ---------------------------------------------------------------- the queues

  lemma ServiceKeepsLine(q: Queues, asleep: bool, capacity: nat, d: Coordinate)
    requires |q.priority| <= capacity
    ensures Waiting(Line(Serviced(q, asleep, capacity)), d) == Waiting(Line(q), d)
  {
    ServicingKeeps(q, asleep, capacity);
    WaitingOthers(Line(q), d);
    WaitingOthers(Line(Serviced(q, asleep, capacity)), d);
  }

  lemma ScheduleKeepsLine(q: Queues, x: Item, d: Coordinate)
    requires !x.next.REFDB?
    ensures Waiting(Line(Scheduled(q, x)), d) == Waiting(Line(q), d)
  {
    WaitingJoin(q.priority, q.pending, d);
    WaitingJoin(q.priority, Scheduled(q, x).pending, d);
    WaitingNone([x], d);
    if IsExit(x) { WaitingJoin([x], q.pending, d); } else { WaitingJoin(q.pending, [x], d); }
  }

  lemma PushKeepsLine(q: Queues, x: Item, d: Coordinate)
    requires !x.next.REFDB?
    ensures Waiting(Line(q.(priority := q.priority + [x])), d) == Waiting(Line(q), d)
  {
    WaitingJoin(q.priority, q.pending, d);
    WaitingJoin(q.priority + [x], q.pending, d);
    WaitingJoin(q.priority, [x], d);
    WaitingNone([x], d);
  }

  function WithoutHead(q: Queues): Queues
    requires q.priority != []
  {
    q.(priority := q.priority[1..])
  }

  /** Taking the head of the priority queue takes the first waiting refresh of its site, if it is one. */
  lemma HeadLeaves(q: Queues, d: Coordinate)
    requires q.priority != []
    ensures Waiting(Line(q), d) == (if Awaits(q.priority[0], d) then [q.priority[0]] else []) + Waiting(Line(WithoutHead(q)), d)
  {
    assert Line(q)[1..] == Line(WithoutHead(q));
  }

  // ---------------------------------------------------------------- issuing

  lemma ServedExtends(history: seq<Event>, e: Event, d: Coordinate)
    ensures Served(history + [e], d) == Served(history, d) + if e.command.REFDB? && SameSite(e.at, d) then 1 else 0
  {
    assert (history + [e])[..|history|] == history;
  }

  lemma IssueOnTrack(p: Params, start: nat, w: World, cycle: nat, d: Coordinate)
    requires Enabled(p) && w.queues.priority != [] && OnTrack(p, start, w, d)
    ensures
      var x := w.queues.priority[0];
      InLine(p, Waiting(Line(WithoutHead(w.queues)), d), Served(w.history + [Event(x.next, x.at, cycle)], d),
             Started(p, start, w.inputs, d))
  {
    var x := w.queues.priority[0];
    var before := Waiting(Line(w.queues), d);
    HeadLeaves(w.queues, d);
    ServedExtends(w.history, Event(x.next, x.at, cycle), d);
    if Awaits(x, d) {
      LineShrinks(p, before, Served(w.history, d), Started(p, start, w.inputs, d));
      assert before[1..] == Waiting(Line(WithoutHead(w.queues)), d);
    } else {
      assert [] + Waiting(Line(WithoutHead(w.queues)), d) == Waiting(Line(WithoutHead(w.queues)), d);
    }
  }

  lemma RotationExtends(p: Params, history: seq<Event>, e: Event)
    requires InRotation(p, history) && (e.command.REFDB? ==> AtPlace(p, e, Served(history, e.at)))
    ensures InRotation(p, history + [e])
  {
    var more := history + [e];
    forall i | 0 <= i < |more| && more[i].command.REFDB?
      ensures AtPlace(p, more[i], Served(more[..i], more[i].at))
    {
      if i < |history| { assert more[..i] == history[..i]; } else { assert more[..i] == history; }
    }
  }

  /** A refresh at the head of the queue is the next of its site in rotation order. */
  lemma HeadInRotation(p: Params, start: nat, w: World, cycle: nat)
    requires Enabled(p) && w.queues.priority != [] && w.queues.priority[0].next.REFDB?
    requires OnTrack(p, start, w, w.queues.priority[0].at)
    ensures
      var x := w.queues.priority[0];
      AtPlace(p, Event(x.next, x.at, cycle), Served(w.history, x.at))
  {
    var x := w.queues.priority[0];
    HeadLeaves(w.queues, x.at);
    assert Waiting(Line(w.queues), x.at)[0] == x;
    assert ItemAtPlace(p, x, Served(w.history, x.at) + 0);
  }

  // ---------------------------------------------------------------- every step

  /** A step of the queues alone. */
  lemma QueueStep(p: Params, start: nat, w: World, after: World, d: Coordinate)
    requires Enabled(p) && OnTrack(p, start, w, d) && after.inputs == w.inputs && after.history == w.history
    requires Waiting(Line(after.queues), d) == Waiting(Line(w.queues), d)
    ensures OnTrack(p, start, after, d)
  {
  }

  lemma TickStep(p: Params, s: Spec, start: nat, w: World, input: Ledger.Input, after: World, d: Coordinate)
    requires Rotates(p, s) && Enabled(p) && Ledger.InOrder(start, w.inputs)
    requires Ledger.LastCycle(start, w.inputs) <= input.clk && OnTrack(p, start, w, d)
    requires after.inputs == w.inputs + [input] && after.history == w.history
    requires after.queues == w.queues.(pending := w.queues.pending + Batch(p, start, w, input))
    ensures OnTrack(p, start, after, d)
  {
    TickOnTrack(p, s, start, w, input, d);
  }

  lemma IssueStep(p: Params, start: nat, w: World, cycle: nat, after: World, d: Coordinate)
    requires Enabled(p) && w.queues.priority != [] && OnTrack(p, start, w, d) && after.inputs == w.inputs
    requires after.queues == WithoutHead(w.queues)
    requires after.history == w.history + [Event(w.queues.priority[0].next, w.queues.priority[0].at, cycle)]
    ensures OnTrack(p, start, after, d)
  {
    IssueOnTrack(p, start, w, cycle, d);
  }

  lemma OtherStep(p: Params, start: nat, w: World, e: Event, after: World, d: Coordinate)
    requires Enabled(p) && OnTrack(p, start, w, d) && !e.command.REFDB?
    requires after.inputs == w.inputs && after.queues == w.queues && after.history == w.history + [e]
    ensures OnTrack(p, start, after, d)
  {
    ServedExtends(w.history, e, d);
  }

  lemma StepOnTrack(p: Params, s: Spec, start: nat, capacity: nat, w: World, step: Step, d: Coordinate)
    requires Rotates(p, s) && Enabled(p) && Ledger.InOrder(start, w.inputs) && |w.queues.priority| <= capacity
    requires OnTrack(p, start, w, d) && Possible(p, start, capacity, w, step) && Managed(step)
    ensures OnTrack(p, start, Next(p, start, capacity, w, step), d)
  {
    var after := Next(p, start, capacity, w, step);
    match step
    case Tick(input) => TickStep(p, s, start, w, input, after, d);
    case IssueHead(cycle) => IssueStep(p, start, w, cycle, after, d);
    case IssueOther(e) => OtherStep(p, start, w, e, after, d);
    case _ =>
      QueuesKeepLine(p, start, capacity, w, step, d);
      QueueStep(p, start, w, after, d);
  }

  lemma QueuesKeepLine(p: Params, start: nat, capacity: nat, w: World, step: Step, d: Coordinate)
    requires Enabled(p) && |w.queues.priority| <= capacity && Possible(p, start, capacity, w, step)
    requires !step.Tick? && !step.IssueHead? && !step.IssueOther? && Managed(step)
    ensures
      var after := Next(p, start, capacity, w, step);
      && Waiting(Line(after.queues), d) == Waiting(Line(w.queues), d)
      && after.inputs == w.inputs && after.history == w.history
  {
    match step
    case Service(asleep) => ServiceKeepsLine(w.queues, asleep, capacity, d);
    case Schedule(c, at) => ScheduleKeepsLine(w.queues, Item(w.nextId, c, at), d);
    case Push(x) => PushKeepsLine(w.queues, x, d);
    case TakeBack(id) =>
      WaitingErased(w.queues.priority, id, d);
      WaitingErased(w.queues.pending, id, d);
      WaitingJoin(w.queues.priority, w.queues.pending, d);
      WaitingJoin(Erased(w.queues.priority, id), Erased(w.queues.pending, id), d);
    case Drop =>
      HeadLeaves(w.queues, d);
      assert [] + Waiting(Line(WithoutHead(w.queues)), d) == Waiting(Line(WithoutHead(w.queues)), d);
  }

  lemma StepInRotation(p: Params, start: nat, capacity: nat, w: World, step: Step)
    requires Enabled(p) && Sound(p, start, capacity, w) && Possible(p, start, capacity, w, step)
    ensures InRotation(p, Next(p, start, capacity, w, step).history)
  {
    match step
    case IssueHead(cycle) =>
      var x := w.queues.priority[0];
      if x.next.REFDB? {
        assert OnTrack(p, start, w, x.at);
        HeadInRotation(p, start, w, cycle);
      }
      RotationExtends(p, w.history, Event(x.next, x.at, cycle));
    case IssueOther(e) => RotationExtends(p, w.history, e);
    case _ =>
  }

  lemma StepKeepsRest(p: Params, start: nat, capacity: nat, w: World, step: Step)
    requires Enabled(p) && Sound(p, start, capacity, w) && Possible(p, start, capacity, w, step)
    ensures Ledger.InOrder(start, Next(p, start, capacity, w, step).inputs)
    ensures |Next(p, start, capacity, w, step).queues.priority| <= capacity
  {
    match step
    case Tick(input) => TickInOrder(start, w.inputs, input);
    case Service(asleep) => ServicingKeeps(w.queues, asleep, capacity);
    case _ =>
  }

  lemma FirstSound(p: Params, start: nat, capacity: nat)
    requires Enabled(p)
    ensures Sound(p, start, capacity, First())
  {
    forall d: Coordinate
      ensures OnTrack(p, start, First(), d)
    {
      assert Line(First().queues) == [];
    }
  }

  lemma {:induction false} RunSound(p: Params, s: Spec, start: nat, capacity: nat, steps: seq<Step>)
    requires Rotates(p, s) && Enabled(p) && IsRun(p, start, capacity, steps) && AllManaged(steps)
    ensures Sound(p, start, capacity, After(p, start, capacity, steps))
  {
    if steps == [] {
      FirstSound(p, start, capacity);
    } else {
      var n := |steps| - 1;
      RunSound(p, s, start, capacity, steps[..n]);
      var w := After(p, start, capacity, steps[..n]);
      forall d: Coordinate
        ensures OnTrack(p, start, Next(p, start, capacity, w, steps[n]), d)
      {
        assert OnTrack(p, start, w, d);
        StepOnTrack(p, s, start, capacity, w, steps[n], d);
      }
      StepInRotation(p, start, capacity, w, steps[n]);
      StepKeepsRest(p, start, capacity, w, steps[n]);
    }
  }

  /**
    In every run of manager, queues and issue, the dual-bank refreshes of each site are issued in rotation order,
    and so none is ever refused for repeating a pair of its sweep.
   */
  lemma RefreshesNeverRepeat(p: Params, s: Spec, start: nat, capacity: nat, steps: seq<Step>)
    requires Rotates(p, s) && Enabled(p) && IsRun(p, start, capacity, steps) && AllManaged(steps)
    ensures
      var history := After(p, start, capacity, steps).history;
      InRotation(p, history) && Admitted(s, history)
  {
    RunSound(p, s, start, capacity, steps);
    RotationNeverRepeats(p, s, After(p, start, capacity, steps).history);
  }

  /** A dual-bank refresh that heads the priority queue is no repeat, so that its wait ends. */
  ghost predicate HeadIsNew(s: Spec, w: World) {
    w.queues.priority != [] && w.queues.priority[0].next.REFDB? ==>
      AllPlain(s, w.history) && PairOf(s.org, w.queues.priority[0].at) !in Sweep(s, w.history, w.queues.priority[0].at)
  }

  lemma Extends(p: Params, start: nat, capacity: nat, steps: seq<Step>, x: Step)
    requires Enabled(p) && IsRun(p, start, capacity, steps) && Possible(p, start, capacity, After(p, start, capacity, steps), x)
    ensures IsRun(p, start, capacity, steps + [x])
    ensures After(p, start, capacity, steps + [x]) == Next(p, start, capacity, After(p, start, capacity, steps), x)
  {
    assert (steps + [x])[..|steps|] == steps;
  }

  /** A refresh that is next to be issued is not a repeat either. */
  lemma NextIsNoRepeat(p: Params, s: Spec, start: nat, capacity: nat, steps: seq<Step>)
    requires Rotates(p, s) && Enabled(p) && IsRun(p, start, capacity, steps) && AllManaged(steps)
    ensures HeadIsNew(s, After(p, start, capacity, steps))
  {
    var w := After(p, start, capacity, steps);
    RefreshesNeverRepeat(p, s, start, capacity, steps);
    if w.queues.priority != [] && w.queues.priority[0].next.REFDB? {
      var x := w.queues.priority[0];
      var more := steps + [IssueHead(0)];
      Extends(p, start, capacity, steps, IssueHead(0));
      RefreshesNeverRepeat(p, s, start, capacity, more);
      var history := After(p, start, capacity, more).history;
      assert history == w.history + [Event(x.next, x.at, 0)] && history[..|w.history|] == w.history;
    }
  }

  // ---------------------------------------------------------------- requests from outside

  /** Every dual-bank refresh, waiting or issued, names a bank of the device. */
  ghost predicate AllInRange(p: Params, s: Spec, w: World) {
    (forall x | x in Line(w.queues) && x.next.REFDB? :: BankInRange(p.org, x.at)) && AllPlain(s, w.history)
  }

  lemma BatchInRange(p: Params, s: Spec, start: nat, w: World, input: Ledger.Input)
    requires Rotates(p, s) && Enabled(p)
    ensures forall x | x in Batch(p, start, w, input) :: BankInRange(p.org, x.at)
  {
    Ledger.RunKeepsCount(p, start, w.inputs);
    var m := Ledger.After(p, start, w.inputs);
    var o := Ledger.Choice(p, m, input);
    if o.Batch? {
      var r := Ledger.CrossedAll(p, m.ranks, input.clk, input.asleep)[o.rank];
      forall k: nat | k < BatchSize(p)
        ensures BankInRange(p.org, BatchCommand(p, o.rank, r, k).at)
      {
        CommandInRange(p, s, o.rank, r, k);
      }
    }
  }

  lemma CommandInRange(p: Params, s: Spec, rank: nat, r: RankState, k: nat)
    requires Rotates(p, s) && k < BatchSize(p) && rank < p.org.ranks
    ensures BankInRange(p.org, BatchCommand(p, rank, r, k).at)
  {
    PositionsArePairs(p, s);
    SomePair(p.org);
    MixedRadix.DigitSplit(p.org.sids, r.sid);
    MixedRadix.DigitSplit(Positions(p), r.bank);
    MixedRadix.DigitBound(p.org.banksPerGroup, p.org.bankGroups / 2, r.bank % Positions(p));
    MixedRadix.DigitSplit(p.org.banksPerGroup, r.bank % Positions(p));
    MixedRadix.DigitBound(p.org.pseudoChannels, p.org.channels, k);
    MixedRadix.DigitSplit(p.org.pseudoChannels, k);
  }

  lemma {:induction false} ErasedFrom(q: seq<Item>, id: nat, x: Item)
    requires x in Erased(q, id)
    ensures x in q
  {
    if !(q[0].id == id && q[0].next.SREFEN?) && x == q[0] {
    } else {
      ErasedFrom(q[1..], id, x);
    }
  }

  /** Nothing waits after a step of the queues that did not wait before, but for what came in. */
  lemma ServicedFrom(q: Queues, asleep: bool, capacity: nat, x: Item)
    requires |q.priority| <= capacity && x in Line(Serviced(q, asleep, capacity))
    ensures x in Line(q)
  {
    ServicingKeeps(q, asleep, capacity);
    assert x in multiset(Line(Serviced(q, asleep, capacity)));
    assert x in multiset(Line(q));
  }

  lemma StepInRange(p: Params, s: Spec, start: nat, capacity: nat, w: World, step: Step)
    requires Rotates(p, s) && Enabled(p) && AllInRange(p, s, w) && |w.queues.priority| <= capacity
    requires Possible(p, start, capacity, w, step)
    ensures AllInRange(p, s, Next(p, start, capacity, w, step))
    ensures |Next(p, start, capacity, w, step).queues.priority| <= capacity
  {
    var after := Next(p, start, capacity, w, step);
    forall x | x in Line(after.queues) && x.next.REFDB?
      ensures BankInRange(p.org, x.at)
    {
      match step
      case Tick(input) => BatchInRange(p, s, start, w, input);
      case Service(asleep) => ServicedFrom(w.queues, asleep, capacity, x);
      case TakeBack(id) =>
        if x in after.queues.priority { ErasedFrom(w.queues.priority, id, x); } else { ErasedFrom(w.queues.pending, id, x); }
      case _ =>
    }
    if step.Service? { ServicingKeeps(w.queues, step.asleep, capacity); }
  }

  lemma {:induction false} RunInRange(p: Params, s: Spec, start: nat, capacity: nat, steps: seq<Step>)
    requires Rotates(p, s) && Enabled(p) && IsRun(p, start, capacity, steps)
    ensures AllInRange(p, s, After(p, start, capacity, steps))
    ensures |After(p, start, capacity, steps).queues.priority| <= capacity
  {
    if steps != [] {
      var n := |steps| - 1;
      RunInRange(p, s, start, capacity, steps[..n]);
      StepInRange(p, s, start, capacity, After(p, start, capacity, steps[..n]), steps[n]);
    }
  }

  /** With a single pair every refresh completes its sweep. */
  lemma OnePairIsNew(p: Params, s: Spec, start: nat, capacity: nat, steps: seq<Step>)
    requires Rotates(p, s) && Enabled(p) && IsRun(p, start, capacity, steps) && Pairs(s.org) == 1
    ensures HeadIsNew(s, After(p, start, capacity, steps))
  {
    RunInRange(p, s, start, capacity, steps);
    var w := After(p, start, capacity, steps);
    if w.queues.priority != [] && w.queues.priority[0].next.REFDB? {
      var x := w.queues.priority[0];
      assert x in Line(w.queues);
      SweepInside(s, w.history, x.at);
      PairInside(s.org, x.at);
      var sweep, all := Sweep(s, w.history, x.at), AllPairs(s.org);
      assert PairOf(s.org, x.at) in sweep ==> sweep == all;
    }
  }

  /** Twice the same refresh from outside, the first one issued. */
  lemma RepeatWaits(p: Params, s: Spec, start: nat, capacity: nat) returns (steps: seq<Step>)
    requires Rotates(p, s) && Enabled(p) && 0 < capacity && Pairs(s.org) > 1
    ensures IsRun(p, start, capacity, steps) && !HeadIsNew(s, After(p, start, capacity, steps))
  {
    var d := Coordinate(0, 0, 0, 0, 0, 0, 0, 0);
    var x := Item(0, REFDB, d);
    Extends(p, start, capacity, [], Push(x));
    steps := [] + [Push(x)];
    assert After(p, start, capacity, steps).queues.priority == [x];
    Extends(p, start, capacity, steps, IssueHead(0));
    steps := steps + [IssueHead(0)];
    var e := Event(REFDB, d, 0);
    assert After(p, start, capacity, steps).history == [e] && After(p, start, capacity, steps).queues.priority == [];
    Extends(p, start, capacity, steps, Push(x));
    steps := steps + [Push(x)];
    assert After(p, start, capacity, steps).queues.priority == [x];
    SweepOfOne(s, e);
  }

  lemma SweepOfOne(s: Spec, e: Event)
    requires PlainEvent(s, e) && e.command.REFDB? && Pairs(s.org) > 1
    ensures PairOf(s.org, e.at) in Sweep(s, [e], e.at)
  {
    var one, none: seq<Event> := [e], [];
    assert one[..|one| - 1] == none;
    PairInside(s.org, e.at);
    assert {PairOf(s.org, e.at)} != AllPairs(s.org) by {
      assert 0 in AllPairs(s.org) && 1 in AllPairs(s.org);
    }
  }

  /** All runs keep to it exactly if no request from outside asks for such a refresh, or there is a single pair. */
  lemma RepeatsExact(p: Params, s: Spec, start: nat, capacity: nat, outside: bool)
    requires Rotates(p, s) && Enabled(p) && 0 < capacity
    ensures (forall steps | IsRun(p, start, capacity, steps) && (outside || AllManaged(steps)) ::
               HeadIsNew(s, After(p, start, capacity, steps)))
            <==> !outside || Pairs(s.org) == 1
  {
    SomePair(s.org);
    if !outside || Pairs(s.org) == 1 {
      forall steps | IsRun(p, start, capacity, steps) && (outside || AllManaged(steps))
        ensures HeadIsNew(s, After(p, start, capacity, steps))
      {
        if Pairs(s.org) == 1 {
          OnePairIsNew(p, s, start, capacity, steps);
        } else {
          NextIsNoRepeat(p, s, start, capacity, steps);
        }
      }
    } else {
      var steps := RepeatWaits(p, s, start, capacity);
    }
  }
}

/** Whole runs of the host interface: one response per host request, whole and in order, never overflowing. */
module HostRuns {
  import opened HostProtocol
  import opened Bitmaps
  import opened Wrappers

  /** A transaction of a host request. */
  datatype Tag = Tag(id: nat, index: nat)

  /**
    The system, the accepted transactions whose responses are still to be collected, and the responses collected
    for the requests still registered.
   */
  datatype World = World(sys: System, flying: set<Tag>, collected: map<Tag, Response>)

  datatype Step = Submit(request: Request, room: bool) | Collect(response: Response) | PopHost | PopTransaction

  function TagOf(r: Response): Tag { Tag(r.id, r.index) }

  /** Controllers answer each accepted transaction once, under its own tag, in any order and with any outcome. */
  ghost predicate Possible(o: Options, w: World, step: Step) {
    match step
    case Submit(_, _) => true
    case Collect(r) =>
      && CanCollect(o, w.sys) && TagOf(r) in w.flying && r.status != INVALID && r.id in w.sys.submissions
      && r.count == w.sys.submissions[r.id].count && r.kind == w.sys.submissions[r.id].kind
    case PopHost => w.sys.host != []
    case PopTransaction => w.sys.transactions != []
  }

  function Forget(collected: map<Tag, Response>, id: nat): map<Tag, Response> {
    map t | t in collected && t.id != id :: collected[t]
  }

  function Next(o: Options, w: World, step: Step): World {
    match step
    case Submit(q, room) =>
      if Misuse(w.sys, q) || !room then w
      else World(Recorded(w.sys, q), w.flying + {Tag(q.id, q.index)}, w.collected)
    case Collect(r) => World(Collected(o, w.sys, r), w.flying - {TagOf(r)}, w.collected[TagOf(r) := r])
    case PopHost =>
      if w.sys.host == [] then w
      else
        var t := Popped(w.sys);
        World(t, w.flying, if w.sys.host[0].id in t.submissions then w.collected else Forget(w.collected, w.sys.host[0].id))
    case PopTransaction =>
      if w.sys.transactions == [] then w else w.(sys := w.sys.(transactions := w.sys.transactions[1..]))
  }

  // ---------------------------------------------------------------- one request

  /** Which transactions of a request have been collected. */
  function DoneBits(collected: map<Tag, Response>, id: nat, n: nat): (v: seq<bool>)
    ensures |v| == n
  {
    seq(n, i requires 0 <= i < n => Tag(id, i) in collected)
  }

  /** Each accepted transaction is either on its way or collected, and no other is. */
  ghost predicate Tracked(w: World, id: nat) {
    if id in w.sys.submissions then
      var s := w.sys.submissions[id];
      && s.count > 0 && |s.accepted| == s.count
      && (forall t: Tag | t.id == id && (t in w.flying || t in w.collected) :: t.index < s.count && s.accepted[t.index])
      && (forall i: nat | i < s.count && s.accepted[i] :: Tag(id, i) in w.flying <==> Tag(id, i) !in w.collected)
    else forall t: Tag | t.id == id :: t !in w.flying && t !in w.collected
  }

  /** Collected responses carry their tag and belong to the request as it was submitted. */
  ghost predicate Fitting(w: World, id: nat) {
    id in w.sys.submissions ==>
      forall t: Tag | t.id == id && t in w.collected ::
        var r := w.collected[t];
        r.id == id && r.index == t.index && r.count == w.sys.submissions[id].count && r.kind == w.sys.submissions[id].kind
  }

  /** The counter of completed transactions is exact. */
  ghost predicate Tallied(w: World, id: nat) {
    id in w.sys.submissions ==>
      var s := w.sys.submissions[id];
      s.completed == Counted(DoneBits(w.collected, id, s.count), s.count)
  }

  /** A request some of whose transactions were collected, but not all, is being assembled from exactly those. */
  ghost predicate Gathering(w: World, id: nat) {
    && (id in w.sys.assemblies <==> id in w.sys.submissions && 0 < w.sys.submissions[id].completed < w.sys.submissions[id].count)
    && (id in w.sys.assemblies && id in w.sys.submissions ==>
          var a, s := w.sys.assemblies[id], w.sys.submissions[id];
          && a.count == s.count == |a.parts| && a.received == s.completed
          && forall i: nat | i < s.count ::
               a.parts[i] == if Tag(id, i) in w.collected then Some(w.collected[Tag(id, i)]) else None)
  }

  ghost predicate RequestOk(w: World, id: nat) {
    Tracked(w, id) && Fitting(w, id) && Tallied(w, id) && Gathering(w, id)
  }

  // ---------------------------------------------------------------- the response queue

  /** All transactions of the request were collected. */
  ghost predicate Whole(w: World, id: nat) {
    id in w.sys.submissions && w.sys.submissions[id].completed >= w.sys.submissions[id].count
  }

  /** The collected parts of a whole request, in index order. */
  ghost function Parts(w: World, id: nat): seq<Response>
    requires id in w.sys.submissions && forall i: nat | i < w.sys.submissions[id].count :: Tag(id, i) in w.collected
  {
    seq(w.sys.submissions[id].count, i requires 0 <= i < w.sys.submissions[id].count => w.collected[Tag(id, i)])
  }

  /** A queued response is that of a whole request, made of its parts in index order. */
  ghost predicate Faithful(w: World, h: HostResponse) {
    && Whole(w, h.id) && w.sys.submissions[h.id].count > 0
    && (forall i: nat | i < w.sys.submissions[h.id].count :: Tag(h.id, i) in w.collected)
    && h == HostOf(Parts(w, h.id))
  }

  ghost predicate Queued(w: World, id: nat) { exists k | 0 <= k < |w.sys.host| :: w.sys.host[k].id == id }

  ghost predicate AllFaithful(w: World) { forall k | 0 <= k < |w.sys.host| :: Faithful(w, w.sys.host[k]) }

  ghost predicate OneEach(host: seq<HostResponse>) { forall j, k | 0 <= j < k < |host| :: host[j].id != host[k].id }

  ghost predicate WholeQueued(w: World) { forall id | Whole(w, id) :: Queued(w, id) }

  ghost predicate Bounded(o: Options, w: World) {
    && (o.hostCapacity != 0 ==> |w.sys.host| <= o.hostCapacity)
    && (o.both && o.transactionCapacity != 0 ==> |w.sys.transactions| <= o.transactionCapacity)
  }

  ghost predicate QueueOk(o: Options, w: World) {
    AllFaithful(w) && OneEach(w.sys.host) && WholeQueued(w) && Bounded(o, w)
  }

  ghost predicate RequestsOk(w: World) { forall id :: RequestOk(w, id) }

  // ---------------------------------------------------------------- counting

  lemma {:induction false} AllCounted(v: seq<bool>, n: nat)
    requires n <= |v|
    ensures Counted(v, n) <= n && (Counted(v, n) == n <==> forall i | 0 <= i < n :: v[i])
    ensures Counted(v, n) == 0 <==> forall i | 0 <= i < n :: !v[i]
  {
    if n > 0 { AllCounted(v, n - 1); }
  }

  // ---------------------------------------------------------------- submitting

  lemma SubmitKeepsRequest(o: Options, w: World, q: Request, id: nat)
    requires RequestsOk(w) && !Misuse(w.sys, q)
    ensures RequestOk(Next(o, w, Submit(q, true)), id)
  {
    assert RequestOk(w, id) && RequestOk(w, q.id);
    if id == q.id && id !in w.sys.submissions { SubmitOpensRequest(o, w, q); }
  }

  lemma SubmitOpensRequest(o: Options, w: World, q: Request)
    requires RequestsOk(w) && !Misuse(w.sys, q) && q.id !in w.sys.submissions
    ensures RequestOk(Next(o, w, Submit(q, true)), q.id)
  {
    var t, n := Next(o, w, Submit(q, true)), q.count;
    assert RequestOk(w, q.id);
    assert DoneBits(t.collected, q.id, n) == seq(n, _ => false);
    AllCounted(DoneBits(t.collected, q.id, n), n);
  }

  /** A registered transaction is new: it is neither on its way nor collected. */
  lemma SubmitKeepsQueue(o: Options, w: World, q: Request)
    requires RequestsOk(w) && QueueOk(o, w) && !Misuse(w.sys, q)
    ensures QueueOk(o, Next(o, w, Submit(q, true)))
  {
    var t := Next(o, w, Submit(q, true));
    assert RequestOk(w, q.id);
    forall k | 0 <= k < |t.sys.host|
      ensures Faithful(t, t.sys.host[k])
    {
      var h := w.sys.host[k];
      assert Faithful(w, h);
      assert Parts(t, h.id) == Parts(w, h.id);
    }
    forall id | Whole(t, id)
      ensures Queued(t, id)
    {
      assert Whole(w, id);
    }
  }

  // ---------------------------------------------------------------- collecting

  /** The assembly of a request after its next transaction is collected, if that is not the last. */
  lemma CollectFits(o: Options, w: World, r: Response)
    requires RequestsOk(w) && Possible(o, w, Collect(r))
    ensures r.index < r.count && r.count > 0 && TagOf(r) !in w.collected
    ensures !Unfit(OpenAssembly(w.sys, r), r)
    ensures OpenAssembly(w.sys, r).received == w.sys.submissions[r.id].completed
    ensures OpenAssembly(w.sys, r).count == r.count
  {
    assert RequestOk(w, r.id);
    var s := w.sys.submissions[r.id];
    assert s.accepted[TagOf(r).index];
    AllCounted(DoneBits(w.collected, r.id, s.count), s.count);
    assert !DoneBits(w.collected, r.id, s.count)[r.index];
  }

  lemma CollectTally(o: Options, w: World, r: Response)
    requires RequestsOk(w) && Possible(o, w, Collect(r))
    ensures
      var n := r.count;
      Counted(DoneBits(w.collected[TagOf(r) := r], r.id, n), n) == w.sys.submissions[r.id].completed + 1
  {
    assert RequestOk(w, r.id);
    CollectFits(o, w, r);
    var n := r.count;
    var before := DoneBits(w.collected, r.id, n);
    assert DoneBits(w.collected[TagOf(r) := r], r.id, n) == before[r.index := true];
    UpdateCounts(before, r.index, true, n);
  }

  /** Collecting a transaction either adds it to its request's assembly or completes the request. */
  lemma CollectShape(o: Options, w: World, r: Response)
    requires RequestsOk(w) && Possible(o, w, Collect(r))
    ensures !Unfit(OpenAssembly(w.sys, r), r)
    ensures
      var t := Collected(o, w.sys, r);
      var s := w.sys.submissions[r.id];
      var a := Filled(OpenAssembly(w.sys, r), r);
      && t.submissions == w.sys.submissions[r.id := s.(completed := s.completed + 1)]
      && t.transactions == (if o.both then w.sys.transactions + [r] else w.sys.transactions)
      && (if s.completed + 1 == s.count then
            Values(a.parts) != [] && t.host == w.sys.host + [Assembled(a.parts)] && t.assemblies == w.sys.assemblies - {r.id}
          else t.host == w.sys.host && t.assemblies == w.sys.assemblies[r.id := a])
  {
    CollectFits(o, w, r);
    var t := Completed(w.sys, r.id);
    AggregatedShape(if o.both then t.(transactions := t.transactions + [r]) else t, r);
  }

  /** What aggregating a fitting response does to the system. */
  lemma AggregatedShape(s: System, r: Response)
    requires r.status != INVALID && r.index < CountOf(r) && !Unfit(OpenAssembly(s, r), r)
    ensures
      var t, a := Aggregated(s, r), Filled(OpenAssembly(s, r), r);
      && t.submissions == s.submissions && t.transactions == s.transactions
      && (if a.received == a.count then
            Values(a.parts) != [] && t.host == s.host + [Assembled(a.parts)] && t.assemblies == s.assemblies - {r.id}
          else t.host == s.host && t.assemblies == s.assemblies[r.id := a])
  {
    var a := Filled(OpenAssembly(s, r), r);
    ValuesHold(a.parts, r.index);
    if a.received == a.count {
      var h := Assembled(a.parts);
      assert Aggregated(s, r) == Published(s, h).(assemblies := s.assemblies - {r.id});
      PublishedShape(s, h, r.id);
    }
  }

  lemma PublishedShape(s: System, h: HostResponse, id: nat)
    ensures
      var t := Published(s, h).(assemblies := s.assemblies - {id});
      && t.host == s.host + [h] && t.assemblies == s.assemblies - {id}
      && t.submissions == s.submissions && t.transactions == s.transactions
  {
  }

  lemma CollectKeepsRequest(o: Options, w: World, r: Response, id: nat)
    requires RequestsOk(w) && Possible(o, w, Collect(r))
    ensures RequestOk(Next(o, w, Collect(r)), id)
  {
    if id == r.id { CollectOwnRequest(o, w, r); } else { CollectOtherRequest(o, w, r, id); }
  }

  lemma CollectOtherRequest(o: Options, w: World, r: Response, id: nat)
    requires RequestsOk(w) && Possible(o, w, Collect(r)) && id != r.id
    ensures RequestOk(Next(o, w, Collect(r)), id)
  {
    var t := Next(o, w, Collect(r));
    CollectShape(o, w, r);
    assert RequestOk(w, id);
    if id in w.sys.submissions {
      var n := w.sys.submissions[id].count;
      assert DoneBits(t.collected, id, n) == DoneBits(w.collected, id, n);
    }
  }

  lemma CollectOwnRequest(o: Options, w: World, r: Response)
    requires RequestsOk(w) && Possible(o, w, Collect(r))
    ensures RequestOk(Next(o, w, Collect(r)), r.id)
  {
    CollectShape(o, w, r);
    CollectFits(o, w, r);
    CollectTally(o, w, r);
    assert RequestOk(w, r.id);
    var t := Next(o, w, Collect(r));
    assert Tracked(t, r.id);
    assert Fitting(t, r.id);
    assert Tallied(t, r.id);
    CollectGathers(o, w, r);
  }

  /** An assembly, be it only just opened, holds exactly the parts collected so far. */
  lemma OpenHolds(o: Options, w: World, r: Response, i: nat)
    requires RequestsOk(w) && Possible(o, w, Collect(r)) && i < r.count
    ensures |OpenAssembly(w.sys, r).parts| == r.count
    ensures OpenAssembly(w.sys, r).parts[i] == if Tag(r.id, i) in w.collected then Some(w.collected[Tag(r.id, i)]) else None
  {
    CollectFits(o, w, r);
    assert RequestOk(w, r.id);
    var done := DoneBits(w.collected, r.id, r.count);
    AllCounted(done, r.count);
    assert done[i] == (Tag(r.id, i) in w.collected);
  }

  lemma CollectGathers(o: Options, w: World, r: Response)
    requires RequestsOk(w) && Possible(o, w, Collect(r))
    ensures Gathering(Next(o, w, Collect(r)), r.id)
  {
    CollectShape(o, w, r);
    CollectFits(o, w, r);
    CollectTally(o, w, r);
    AllCounted(DoneBits(w.collected[TagOf(r) := r], r.id, r.count), r.count);
    forall i: nat | i < r.count
      ensures |OpenAssembly(w.sys, r).parts| == r.count
      ensures OpenAssembly(w.sys, r).parts[i] == if Tag(r.id, i) in w.collected then Some(w.collected[Tag(r.id, i)]) else None
    {
      OpenHolds(o, w, r, i);
    }
  }

  /** Parts that are all there, as values. */
  lemma {:induction false} AllValues(parts: seq<Option<Response>>, values: seq<Response>)
    requires |parts| == |values| && forall i | 0 <= i < |parts| :: parts[i] == Some(values[i])
    ensures Values(parts) == values
  {
    if parts != [] {
      var n := |parts| - 1;
      AllValues(parts[..n], values[..n]);
      assert values == values[..n] + [values[n]];
    }
  }

  ghost predicate IsLast(w: World, r: Response) {
    r.id in w.sys.submissions && w.sys.submissions[r.id].completed + 1 == w.sys.submissions[r.id].count
  }

  /** After a request's last transaction is collected they all are. */
  lemma LastCompletes(o: Options, w: World, r: Response)
    requires RequestsOk(w) && Possible(o, w, Collect(r)) && IsLast(w, r)
    ensures forall i: nat | i < r.count :: Tag(r.id, i) in w.collected[TagOf(r) := r]
  {
    CollectTally(o, w, r);
    var n := r.count;
    var done := DoneBits(w.collected[TagOf(r) := r], r.id, n);
    AllCounted(done, n);
    forall i: nat | i < n
      ensures Tag(r.id, i) in w.collected[TagOf(r) := r]
    {
      assert done[i];
    }
  }

  /** What is published for the last transaction of a request is made of all its parts in index order. */
  lemma LastIsWhole(o: Options, w: World, r: Response, values: seq<Response>)
    requires RequestsOk(w) && Possible(o, w, Collect(r)) && IsLast(w, r)
    requires |values| == r.count
    requires forall i: nat | i < r.count ::
               Tag(r.id, i) in w.collected[TagOf(r) := r] && values[i] == w.collected[TagOf(r) := r][Tag(r.id, i)]
    ensures !Unfit(OpenAssembly(w.sys, r), r)
    ensures
      var parts := Filled(OpenAssembly(w.sys, r), r).parts;
      values != [] && Values(parts) == values && Assembled(parts) == HostOf(values)
  {
    CollectFits(o, w, r);
    var parts := Filled(OpenAssembly(w.sys, r), r).parts;
    LastParts(o, w, r, parts);
    AllValues(parts, values);
  }

  /** The response published for the last transaction of a request is faithful. */
  lemma LastIsFaithful(o: Options, w: World, r: Response)
    requires RequestsOk(w) && Possible(o, w, Collect(r)) && IsLast(w, r)
    ensures |Next(o, w, Collect(r)).sys.host| == |w.sys.host| + 1
    ensures
      var t := Next(o, w, Collect(r));
      t.sys.host == w.sys.host + [t.sys.host[|w.sys.host|]] && t.sys.host[|w.sys.host|].id == r.id
      && Faithful(t, t.sys.host[|w.sys.host|])
  {
    var t := Next(o, w, Collect(r));
    CollectShape(o, w, r);
    CollectFits(o, w, r);
    LastCompletes(o, w, r);
    LastIsWhole(o, w, r, Parts(t, r.id));
    CollectOwnRequest(o, w, r);
    assert t.collected[Tag(r.id, 0)].id == r.id;
  }

  lemma LastParts(o: Options, w: World, r: Response, parts: seq<Option<Response>>)
    requires RequestsOk(w) && Possible(o, w, Collect(r)) && IsLast(w, r)
    requires !Unfit(OpenAssembly(w.sys, r), r) && parts == Filled(OpenAssembly(w.sys, r), r).parts
    requires forall i: nat | i < r.count :: Tag(r.id, i) in w.collected[TagOf(r) := r]
    ensures |parts| == r.count
    ensures forall i: nat | i < r.count :: parts[i] == Some(w.collected[TagOf(r) := r][Tag(r.id, i)])
  {
    CollectFits(o, w, r);
    OpenHolds(o, w, r, r.index);
    forall i: nat | i < r.count
      ensures parts[i] == Some(w.collected[TagOf(r) := r][Tag(r.id, i)])
    {
      OpenHolds(o, w, r, i);
    }
  }

  lemma CollectKeepsFaithful(o: Options, w: World, r: Response)
    requires RequestsOk(w) && QueueOk(o, w) && Possible(o, w, Collect(r))
    ensures AllFaithful(Next(o, w, Collect(r)))
  {
    var t := Next(o, w, Collect(r));
    CollectShape(o, w, r);
    forall k | 0 <= k < |t.sys.host|
      ensures Faithful(t, t.sys.host[k])
    {
      if k < |w.sys.host| { FaithfulStays(o, w, r, w.sys.host[k]); } else { LastIsFaithful(o, w, r); }
    }
  }

  /** A request whose last transaction is only now collected had no response queued. */
  lemma CollectKeepsOneEach(o: Options, w: World, r: Response)
    requires RequestsOk(w) && QueueOk(o, w) && Possible(o, w, Collect(r))
    ensures OneEach(Next(o, w, Collect(r)).sys.host)
  {
    CollectShape(o, w, r);
    forall k | 0 <= k < |w.sys.host|
      ensures w.sys.host[k].id != r.id
    {
      FaithfulStays(o, w, r, w.sys.host[k]);
    }
    if IsLast(w, r) { LastIsFaithful(o, w, r); }
  }

  lemma CollectQueuesWhole(o: Options, w: World, r: Response, id: nat)
    requires RequestsOk(w) && QueueOk(o, w) && Possible(o, w, Collect(r)) && Whole(Next(o, w, Collect(r)), id)
    ensures Queued(Next(o, w, Collect(r)), id)
  {
    var t := Next(o, w, Collect(r));
    CollectShape(o, w, r);
    var s := w.sys.submissions[r.id];
    if id == r.id {
      assert RequestOk(w, id);
      CollectTally(o, w, r);
      CollectFits(o, w, r);
      AllCounted(DoneBits(t.collected, id, s.count), s.count);
      LastIsFaithful(o, w, r);
    } else {
      assert Whole(w, id);
      var k :| 0 <= k < |w.sys.host| && w.sys.host[k].id == id;
      assert t.sys.host[k].id == id;
    }
  }

  lemma CollectKeepsQueue(o: Options, w: World, r: Response)
    requires RequestsOk(w) && QueueOk(o, w) && Possible(o, w, Collect(r))
    ensures QueueOk(o, Next(o, w, Collect(r)))
  {
    var t := Next(o, w, Collect(r));
    CollectShape(o, w, r);
    CollectKeepsFaithful(o, w, r);
    CollectKeepsOneEach(o, w, r);
    forall id | Whole(t, id)
      ensures Queued(t, id)
    {
      CollectQueuesWhole(o, w, r, id);
    }
  }

  lemma FaithfulStays(o: Options, w: World, r: Response, h: HostResponse)
    requires RequestsOk(w) && Possible(o, w, Collect(r)) && Faithful(w, h)
    ensures Faithful(Next(o, w, Collect(r)), h) && h.id != r.id
  {
    CollectShape(o, w, r);
    CollectFits(o, w, r);
    if h.id != r.id {
      var t := Next(o, w, Collect(r));
      assert Parts(t, h.id) == Parts(w, h.id);
    }
  }

  // ---------------------------------------------------------------- popping

  /** Taking the front response frees its request, and forgets its transactions. */
  lemma PopShape(o: Options, w: World)
    requires QueueOk(o, w) && w.sys.host != []
    ensures
      var t, id := Next(o, w, PopHost), w.sys.host[0].id;
      && id in w.sys.submissions && t.sys.submissions == w.sys.submissions - {id} && t.sys.host == w.sys.host[1..]
      && t.sys.assemblies == w.sys.assemblies && t.flying == w.flying && t.collected == Forget(w.collected, id)
  {
    assert Faithful(w, w.sys.host[0]);
  }

  lemma PopKeepsRequest(o: Options, w: World, id: nat)
    requires RequestsOk(w) && QueueOk(o, w) && w.sys.host != []
    ensures RequestOk(Next(o, w, PopHost), id)
  {
    PopShape(o, w);
    assert RequestOk(w, id) && Faithful(w, w.sys.host[0]);
    var t := Next(o, w, PopHost);
    if id == w.sys.host[0].id {
      forall x: Tag | x.id == id
        ensures x !in t.flying && x !in t.collected
      {
        assert x == Tag(id, x.index);
      }
    } else if id in w.sys.submissions {
      var n := w.sys.submissions[id].count;
      assert DoneBits(t.collected, id, n) == DoneBits(w.collected, id, n);
    }
  }

  lemma PopKeepsQueue(o: Options, w: World)
    requires RequestsOk(w) && QueueOk(o, w) && w.sys.host != []
    ensures QueueOk(o, Next(o, w, PopHost))
  {
    PopShape(o, w);
    var t := Next(o, w, PopHost);
    forall k | 0 <= k < |t.sys.host|
      ensures Faithful(t, t.sys.host[k])
    {
      PopKeepsFaithful(o, w, k);
    }
    forall id | Whole(t, id)
      ensures Queued(t, id)
    {
      assert Whole(w, id);
      var k :| 0 <= k < |w.sys.host| && w.sys.host[k].id == id;
      assert t.sys.host[k - 1].id == id;
    }
  }

  lemma PopKeepsFaithful(o: Options, w: World, k: nat)
    requires RequestsOk(w) && QueueOk(o, w) && k + 1 < |w.sys.host|
    ensures Faithful(Next(o, w, PopHost), w.sys.host[k + 1])
  {
    PopShape(o, w);
    var h := w.sys.host[k + 1];
    assert Faithful(w, h) && h.id != w.sys.host[0].id;
    FaithfulCarries(w, Next(o, w, PopHost), h);
  }

  /** A response stays faithful as long as its own request and parts stay as they are. */
  lemma FaithfulCarries(w: World, t: World, h: HostResponse)
    requires Faithful(w, h) && h.id in t.sys.submissions && t.sys.submissions[h.id] == w.sys.submissions[h.id]
    requires forall i: nat | Tag(h.id, i) in w.collected ::
               Tag(h.id, i) in t.collected && t.collected[Tag(h.id, i)] == w.collected[Tag(h.id, i)]
    ensures Faithful(t, h)
  {
    assert Parts(t, h.id) == Parts(w, h.id);
  }

  lemma PopTransactionKeeps(o: Options, w: World)
    requires RequestsOk(w) && QueueOk(o, w) && w.sys.transactions != []
    ensures RequestsOk(Next(o, w, PopTransaction)) && QueueOk(o, Next(o, w, PopTransaction))
  {
    var t := Next(o, w, PopTransaction);
    forall id
      ensures RequestOk(t, id)
    {
      assert RequestOk(w, id);
    }
    forall k | 0 <= k < |t.sys.host|
      ensures Faithful(t, t.sys.host[k])
    {
      assert Faithful(w, w.sys.host[k]);
      assert Parts(t, t.sys.host[k].id) == Parts(w, t.sys.host[k].id);
    }
    forall id | Whole(t, id)
      ensures Queued(t, id)
    {
      assert Whole(w, id);
    }
  }

  // ---------------------------------------------------------------- runs

  ghost predicate Sound(o: Options, w: World) { RequestsOk(w) && QueueOk(o, w) }

  lemma StepKeeps(o: Options, w: World, step: Step)
    requires Sound(o, w) && Possible(o, w, step)
    ensures Sound(o, Next(o, w, step))
  {
    match step
    case Submit(q, room) =>
      if !Misuse(w.sys, q) && room {
        forall id ensures RequestOk(Next(o, w, step), id) { SubmitKeepsRequest(o, w, q, id); }
        SubmitKeepsQueue(o, w, q);
      }
    case Collect(r) =>
      forall id ensures RequestOk(Next(o, w, step), id) { CollectKeepsRequest(o, w, r, id); }
      CollectKeepsQueue(o, w, r);
    case PopHost =>
      forall id ensures RequestOk(Next(o, w, step), id) { PopKeepsRequest(o, w, id); }
      PopKeepsQueue(o, w);
    case PopTransaction => PopTransactionKeeps(o, w);
  }

  function Empty(): World { World(System(map[], map[], [], []), {}, map[]) }

  function After(o: Options, steps: seq<Step>): World {
    if steps == [] then Empty() else Next(o, After(o, steps[..|steps| - 1]), steps[|steps| - 1])
  }

  ghost predicate IsRun(o: Options, steps: seq<Step>) {
    steps == [] || (IsRun(o, steps[..|steps| - 1]) && Possible(o, After(o, steps[..|steps| - 1]), steps[|steps| - 1]))
  }

  lemma {:induction false} RunSound(o: Options, steps: seq<Step>)
    requires IsRun(o, steps)
    ensures Sound(o, After(o, steps))
  {
    if steps != [] {
      RunSound(o, steps[..|steps| - 1]);
      StepKeeps(o, After(o, steps[..|steps| - 1]), steps[|steps| - 1]);
    }
  }

  /** The step registers a new host request. */
  predicate Opens(w: World, step: Step, id: nat) {
    step.Submit? && step.room && step.request.id == id && !Misuse(w.sys, step.request) && id !in w.sys.submissions
  }

  /** The step hands out a response of the request. */
  predicate Answers(w: World, step: Step, id: nat) { step.PopHost? && w.sys.host != [] && w.sys.host[0].id == id }

  function Opened(o: Options, steps: seq<Step>, id: nat): nat {
    if steps == [] then 0
    else
      var n := |steps| - 1;
      Opened(o, steps[..n], id) + if Opens(After(o, steps[..n]), steps[n], id) then 1 else 0
  }

  function Answered(o: Options, steps: seq<Step>, id: nat): nat {
    if steps == [] then 0
    else
      var n := |steps| - 1;
      Answered(o, steps[..n], id) + if Answers(After(o, steps[..n]), steps[n], id) then 1 else 0
  }

  /**
    Under every completion order and every queue capacity, each host request gets exactly one response: those opened
    are those answered and the one still registered, whose response waits in the queue exactly if all its transactions
    are in. An identifier is free again only once its response was handed out.
   */
  lemma {:induction false} OneResponseEach(o: Options, steps: seq<Step>, id: nat)
    requires IsRun(o, steps)
    ensures
      var w := After(o, steps);
      && Opened(o, steps, id) == Answered(o, steps, id) + (if id in w.sys.submissions then 1 else 0)
      && (Queued(w, id) <==> Whole(w, id))
      && OneEach(w.sys.host) && Bounded(o, w)
  {
    RunSound(o, steps);
    var w := After(o, steps);
    if Queued(w, id) {
      var k :| 0 <= k < |w.sys.host| && w.sys.host[k].id == id;
      assert Faithful(w, w.sys.host[k]);
    }
    if steps != [] {
      var n := |steps| - 1;
      RunSound(o, steps[..n]);
      OneResponseEach(o, steps[..n], id);
      OpenedStep(o, After(o, steps[..n]), steps[n], id);
    }
  }

  lemma OpenedStep(o: Options, w: World, step: Step, id: nat)
    requires Sound(o, w) && Possible(o, w, step)
    ensures
      var t := Next(o, w, step);
      (if id in t.sys.submissions then 1 else 0) ==
      (if id in w.sys.submissions then 1 else 0)
      + (if Opens(w, step, id) then 1 else 0) - (if Answers(w, step, id) then 1 else 0)
  {
    match step
    case Submit(_, _) =>
    case Collect(r) => CollectShape(o, w, r);
    case PopHost => PopShape(o, w);
    case PopTransaction =>
  }

  /** A response handed out is made of the responses of all its request's transactions, in index order. */
  lemma AnswersAreWhole(o: Options, steps: seq<Step>)
    requires IsRun(o, steps) && After(o, steps).sys.host != []
    ensures
      var w := After(o, steps);
      var h := w.sys.host[0];
      && h.id in w.sys.submissions && w.sys.submissions[h.id].count > 0
      && (forall i: nat | i < w.sys.submissions[h.id].count :: Tag(h.id, i) in w.collected)
      && h == HostOf(Parts(w, h.id)) && h.transactions == Parts(w, h.id)
      && h.data == JoinedData(Parts(w, h.id)) && h.mask == JoinedMask(Parts(w, h.id))
  {
    RunSound(o, steps);
    assert Faithful(After(o, steps), After(o, steps).sys.host[0]);
  }

  /** Whatever is collected, the response queue had room for it. */
  lemma PublishingFits(o: Options, steps: seq<Step>, r: Response)
    requires IsRun(o, steps) && Possible(o, After(o, steps), Collect(r))
    ensures |Collected(o, After(o, steps).sys, r).host| <= |After(o, steps).sys.host| + 1
    ensures o.hostCapacity != 0 ==> |Collected(o, After(o, steps).sys, r).host| <= o.hostCapacity
  {
    RunSound(o, steps);
    CollectShape(o, After(o, steps), r);
  }
}

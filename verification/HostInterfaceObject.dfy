/** The host side of the memory system: registered requests, assemblies and response queues updated in place. */
module HostInterfaceObject {
  import opened HostProtocol
  import opened HostRuns
  import opened Wrappers

  datatype Outcome = Accepted | Stalled | Rejected

  /** Taking the responses of the controllers, one controller after the other, while every view has room. */
  function Drained(o: Options, s: System, queues: seq<seq<Response>>, c: nat): (System, seq<seq<Response>>)
    requires c <= |queues|
    decreases |queues| - c, if c < |queues| then |queues[c]| else 0
  {
    if c == |queues| then (s, queues)
    else if queues[c] == [] then Drained(o, s, queues, c + 1)
    else if !CanCollect(o, s) then (s, queues)
    else Drained(o, Collected(o, s, queues[c][0]), queues[c := queues[c][1..]], c)
  }

  function CollectedAll(o: Options, s: System, taken: seq<Response>): System
    decreases |taken|
  {
    if taken == [] then s else CollectedAll(o, Collected(o, s, taken[0]), taken[1..])
  }

  /** Each response was taken while every view had room. */
  ghost predicate AllFit(o: Options, s: System, taken: seq<Response>)
    decreases |taken|
  {
    taken == [] || (CanCollect(o, s) && AllFit(o, Collected(o, s, taken[0]), taken[1..]))
  }

  function Total(queues: seq<seq<Response>>): multiset<Response> {
    if queues == [] then multiset{} else Total(queues[..|queues| - 1]) + multiset(queues[|queues| - 1])
  }

  lemma {:induction false} TakeOne(queues: seq<seq<Response>>, c: nat)
    requires c < |queues| && queues[c] != []
    ensures Total(queues) == Total(queues[c := queues[c][1..]]) + multiset{queues[c][0]}
  {
    var n := |queues| - 1;
    var after := queues[c := queues[c][1..]];
    if c < n {
      TakeOne(queues[..n], c);
      assert after[..n] == queues[..n][c := queues[c][1..]];
    } else {
      assert after[..n] == queues[..n];
      assert queues[c] == [queues[c][0]] + queues[c][1..];
    }
  }

  /** Draining is collecting some of the waiting responses one by one, none lost and none twice. */
  lemma {:induction false} DrainedIsCollecting(o: Options, s: System, queues: seq<seq<Response>>, c: nat) returns (taken: seq<Response>)
    requires c <= |queues|
    ensures Drained(o, s, queues, c).0 == CollectedAll(o, s, taken) && AllFit(o, s, taken)
    ensures Total(queues) == Total(Drained(o, s, queues, c).1) + multiset(taken)
    decreases |queues| - c, if c < |queues| then |queues[c]| else 0
  {
    if c == |queues| {
      taken := [];
    } else if queues[c] == [] {
      taken := DrainedIsCollecting(o, s, queues, c + 1);
    } else if !CanCollect(o, s) {
      taken := [];
    } else {
      var rest := DrainedIsCollecting(o, Collected(o, s, queues[c][0]), queues[c := queues[c][1..]], c);
      TakeOne(queues, c);
      taken := [queues[c][0]] + rest;
      assert taken[1..] == rest;
    }
  }

  // ---------------------------------------------------------------- honest controllers

  /** The response answers a transaction that is on its way, as it was submitted. */
  ghost predicate Genuine(w: World, r: Response) {
    && TagOf(r) in w.flying && r.status != INVALID && r.id in w.sys.submissions
    && r.count == w.sys.submissions[r.id].count && r.kind == w.sys.submissions[r.id].kind
  }

  /** Every waiting response is genuine and no two answer one transaction. */
  ghost predicate Honest(w: World, queues: seq<seq<Response>>) {
    && (forall c, k | 0 <= c < |queues| && 0 <= k < |queues[c]| :: Genuine(w, queues[c][k]))
    && forall c, k, d, l | 0 <= c < |queues| && 0 <= k < |queues[c]| && 0 <= d < |queues| && 0 <= l < |queues[d]| ::
         TagOf(queues[c][k]) == TagOf(queues[d][l]) ==> c == d && k == l
  }

  lemma GenuineStays(o: Options, w: World, r: Response, q: Response)
    requires Genuine(w, r) && Genuine(w, q) && TagOf(q) != TagOf(r)
    ensures Genuine(Next(o, w, Collect(r)), q)
  {
  }

  lemma HonestStays(o: Options, w: World, queues: seq<seq<Response>>, c: nat)
    requires Honest(w, queues) && c < |queues| && queues[c] != []
    ensures Honest(Next(o, w, Collect(queues[c][0])), queues[c := queues[c][1..]])
  {
    var r, left := queues[c][0], queues[c := queues[c][1..]];
    forall d, k | 0 <= d < |left| && 0 <= k < |left[d]|
      ensures Genuine(Next(o, w, Collect(r)), left[d][k])
    {
      assert left[d][k] == queues[d][if d == c then k + 1 else k];
      GenuineStays(o, w, r, left[d][k]);
    }
    forall d, k, e, l | 0 <= d < |left| && 0 <= k < |left[d]| && 0 <= e < |left| && 0 <= l < |left[e]|
      ensures TagOf(left[d][k]) == TagOf(left[e][l]) ==> d == e && k == l
    {
      assert left[d][k] == queues[d][if d == c then k + 1 else k];
      assert left[e][l] == queues[e][if e == c then l + 1 else l];
    }
  }

  class HostInterface {
    const o: Options
    var submissions: map<nat, Submission>
    var assemblies: map<nat, Assembly>
    var host: seq<HostResponse>
    var transactions: seq<Response>
    /** What is on its way and what was collected so far. */
    ghost var world: World

    /** The object stands where honest controllers leave it: the invariant of all runs holds. */
    ghost predicate Valid()
      reads this
    {
      Sound(o, world) && world.sys == Now()
    }

    ghost function Now(): System
      reads this
    {
      System(submissions, assemblies, host, transactions)
    }

    constructor (o: Options)
      ensures Valid() && Now() == System(map[], map[], [], []) && this.o == o
    {
      this.o := o;
      submissions, assemblies, host, transactions := map[], map[], [], [];
      world := Empty();
      new;
      RunSound(o, []);
    }

    /** Registers a transaction if it is properly formed and the ingress queue has room. */
    method TrySubmit(q: Request, room: bool) returns (outcome: Outcome)
      modifies this`submissions, this`world
      ensures old(Valid()) ==> Valid()
      ensures outcome == if Misuse(old(Now()), q) then Rejected else if room then Accepted else Stalled
      ensures Now() == if outcome.Accepted? then Recorded(old(Now()), q) else old(Now())
    {
      if q.kind.Maintenance? || q.count == 0 || q.index >= q.count { return Rejected; }
      if q.id !in submissions {
        if q.index != 0 { return Rejected; }
      } else {
        var h := submissions[q.id];
        if h.count != q.count || h.kind != q.kind || q.index >= |h.accepted| || h.accepted[q.index] { return Rejected; }
      }
      if !room { return Stalled; }
      if Valid() { StepKeeps(o, world, Submit(q, true)); }
      RecordSubmitted(q);
      world := Next(o, world, Submit(q, true));
      return Accepted;
    }

    method RecordSubmitted(q: Request)
      requires !Misuse(Now(), q)
      modifies this`submissions
      ensures Now() == Recorded(old(Now()), q)
    {
      if q.id !in submissions {
        submissions := submissions[q.id := Submission(q.count, q.kind, seq(q.count, _ => false), 0)];
      }
      var h := submissions[q.id];
      submissions := submissions[q.id := h.(accepted := h.accepted[q.index := true])];
    }

    method RecordCompleted(r: Response)
      modifies this`submissions
      ensures Now() == Completed(old(Now()), r.id)
    {
      if r.id !in submissions { return; }
      var h := submissions[r.id];
      submissions := submissions[r.id := h.(completed := h.completed + 1)];
    }

    /** Fills a transaction's place in an assembly, publishing the whole once it is complete. */
    method FillAssembly(r: Response, begun: Assembly)
      requires begun == OpenAssembly(Now(), r) && !Unfit(begun, r) && r.status != INVALID && r.index < CountOf(r)
      modifies this`assemblies, this`host
      ensures Now() == Aggregated(old(Now()), r)
    {
      var a := begun.(parts := begun.parts[r.index := Some(r)], received := begun.received + 1);
      ValuesHold(a.parts, r.index);
      if a.received == a.count { PublishWhole(r.id, a.parts); } else { assemblies := assemblies[r.id := a]; }
    }

    /** The whole response is queued and its assembly ends. */
    method PublishWhole(id: nat, parts: seq<Option<Response>>)
      requires Values(parts) != []
      modifies this`assemblies, this`host
      ensures Now() == Published(old(Now()), Assembled(parts)).(assemblies := old(assemblies) - {id})
    {
      var h := BuildHostResponse(parts);
      host := host + [h];
      assemblies := assemblies - {id};
    }

    /** Adds a transaction's response to its request's assembly; one that does not fit is reported by itself. */
    method AggregateResponse(r: Response)
      modifies this`assemblies, this`host
      ensures Now() == Aggregated(old(Now()), r)
    {
      var count := if r.count >= 1 then r.count else 1;
      if r.status == INVALID || r.index >= count {
        host := host + [Misfit(r)];
        return;
      }
      var a := if r.id in assemblies then assemblies[r.id] else Assembly(count, seq(count, _ => None), 0);
      if a.count != count || r.index >= |a.parts| || a.parts[r.index].Some? {
        host := host + [Clash(r)];
        assemblies := assemblies - {r.id};
        return;
      }
      FillAssembly(r, a);
    }

    method CollectOne(r: Response)
      modifies this
      ensures Now() == Collected(o, old(Now()), r) && world == Next(o, old(world), Collect(r))
      ensures old(Valid()) && Possible(o, old(world), Collect(r)) ==> Valid()
    {
      if Valid() && Possible(o, world, Collect(r)) { StepKeeps(o, world, Collect(r)); }
      TakeIn(r);
      world := Next(o, world, Collect(r));
    }

    method TakeIn(r: Response)
      modifies this`submissions, this`assemblies, this`host, this`transactions
      ensures Now() == Collected(o, old(Now()), r)
    {
      RecordCompleted(r);
      if o.both { transactions := transactions + [r]; }
      AggregateResponse(r);
    }

    /** Takes the oldest response of one controller. */
    method CollectNext(queues: seq<seq<Response>>, c: nat) returns (left: seq<seq<Response>>)
      requires c < |queues| && queues[c] != [] && CanCollect(o, Now())
      modifies this
      ensures left == queues[c := queues[c][1..]] && Now() == Collected(o, old(Now()), queues[c][0])
      ensures old(Valid()) && Honest(old(world), queues) ==> Valid() && Honest(world, left)
    {
      if Honest(world, queues) { HonestStays(o, world, queues, c); }
      left := queues[c := queues[c][1..]];
      CollectOne(queues[c][0]);
    }

    /** Takes responses from each controller in turn until one of the views is full. */
    method CollectResponses(controllers: seq<seq<Response>>) returns (left: seq<seq<Response>>)
      modifies this
      ensures (Now(), left) == Drained(o, old(Now()), controllers, 0)
      ensures old(Valid()) && Honest(old(world), controllers) ==> Valid() && Honest(world, left)
    {
      left := controllers;
      ghost var honest := Valid() && Honest(world, controllers);
      for c := 0 to |controllers|
        invariant |left| == |controllers|
        invariant Drained(o, Now(), left, c) == Drained(o, old(Now()), controllers, 0)
        invariant honest ==> Valid() && Honest(world, left)
      {
        while left[c] != []
          invariant |left| == |controllers|
          invariant Drained(o, Now(), left, c) == Drained(o, old(Now()), controllers, 0)
          invariant honest ==> Valid() && Honest(world, left)
          decreases |left[c]|
        {
          var full := o.transactionCapacity != 0 && |transactions| >= o.transactionCapacity;
          var hostFull := o.hostCapacity != 0 && |host| >= o.hostCapacity;
          if (o.both && full) || hostFull { return; }
          left := CollectNext(left, c);
        }
      }
    }

    /** Hands out the oldest response, if any; its identifier is free again if all its transactions have completed. */
    method PopResponse() returns (r: Option<HostResponse>)
      modifies this`host, this`submissions, this`world
      ensures old(Valid()) ==> Valid() && (r.Some? ==> Faithful(old(world), r.value))
      ensures
        if old(host) == [] then r.None? && Now() == old(Now())
        else r == Some(old(host)[0]) && Now() == Popped(old(Now()))
    {
      if host == [] { return None; }
      if Valid() { StepKeeps(o, world, PopHost); }
      world := Next(o, world, PopHost);
      var h := host[0];
      host := host[1..];
      if h.id in submissions && submissions[h.id].completed >= submissions[h.id].count {
        submissions := submissions - {h.id};
      }
      return Some(h);
    }
  }
}

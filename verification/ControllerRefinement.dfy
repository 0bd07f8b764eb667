/** The controller's queues carry out the store-buffer machine, so its theorems hold of them. */
module ControllerRefinement {
  import opened Lines
  import opened StoreBuffer
  import opened StoreBufferProofs
  import opened ControllerQueues

  ghost predicate SameStores(c: Core, s: State) {
    c.next == s.next && c.buffered == s.buffered && c.image == s.image && c.completions == s.captured
  }

  ghost predicate SameFifo(c: Core, s: State) {
    && |c.writeFifo| == |s.fifo|
    && forall i | 0 <= i < |c.writeFifo| :: c.writeFifo[i].request == s.fifo[i]
  }

  ghost predicate ReadsInPhy(c: Core, s: State) {
    && (forall i | 0 <= i < |c.readFifo| ::
          MayCapture(c.cfg, s, c.readFifo[i].request.sequence)
          && s.held[c.readFifo[i].request.sequence].request.address == c.readFifo[i].request.address)
    && (forall i, j | 0 <= i < j < |c.readFifo| :: c.readFifo[i].request.sequence != c.readFifo[j].request.sequence)
  }

  /** Every response so far: those taken, then those still queued. */
  function AllResponses(c: Core): seq<Response> { c.delivered + c.responses }

  ghost predicate Responded(rs: seq<Response>, k: nat) {
    exists i | 0 <= i < |rs| :: rs[i].sequence == k
  }

  ghost predicate ListsResponses(rs: seq<Response>, emitted: map<nat, Response>) {
    && (forall i | 0 <= i < |rs| :: rs[i].sequence in emitted && emitted[rs[i].sequence] == rs[i])
    && (forall i, j | 0 <= i < j < |rs| :: rs[i].sequence != rs[j].sequence)
    && (forall k | k in emitted :: Responded(rs, k))
  }

  ghost predicate Answers(c: Core, s: State) {
    && ListsResponses(AllResponses(c), s.emitted)
    && (c.limits.response != 0 ==> |c.responses| <= c.limits.response)
  }

  lemma ListsResponsesAppend(rs: seq<Response>, emitted: map<nat, Response>, r: Response)
    requires ListsResponses(rs, emitted) && r.sequence !in emitted
    ensures ListsResponses(rs + [r], emitted[r.sequence := r])
  {
    var longer := rs + [r];
    assert forall i | 0 <= i < |rs| :: longer[i] == rs[i];
    forall k | k in emitted[r.sequence := r]
      ensures Responded(longer, k)
    {
      if k == r.sequence {
        assert longer[|rs|].sequence == k;
      } else {
        assert Responded(rs, k);
        var i :| 0 <= i < |rs| && rs[i].sequence == k;
        assert longer[i].sequence == k;
      }
    }
  }

  ghost predicate Refined(c: Core, s: State) {
    && SameStores(c, s) && AllListed(s.held, c.queues) && SameFifo(c, s) && ReadsInPhy(c, s) && Answers(c, s)
    && Reachable(c.cfg, s)
  }

  // ---------------------------------------------------------------- hazard scans

  lemma UnresolvedReadIsListed(c: Core, s: State, a: nat, bound: nat)
    requires AllListed(s.held, c.queues) && WellPlaced(c.cfg, s)
    ensures HasUnresolvedRead(s, a, bound) <==> AnyListedRead(c.queues, a, bound)
  {
    assert forall p: Place :: Lists(s.held, At(c.queues, p), p);
    assert At(c.queues, InRead) == c.queues.read && At(c.queues, InActive) == c.queues.active;
    assert At(c.queues, InPending) == c.queues.pending;
    if HasUnresolvedRead(s, a, bound) {
      var k :| k in s.held && k < bound && ReadAt(s.held[k], a);
      assert Lists(s.held, At(c.queues, s.held[k].place), s.held[k].place);
      assert Contains(c.queues.read, k) || Contains(c.queues.active, k) || Contains(c.queues.pending, k);
    }
  }

  lemma UnresolvedWriteIsListed(c: Core, s: State, a: nat)
    requires AllListed(s.held, c.queues)
    ensures HasUnresolvedWrite(s, a) <==> ListedWrite(c.queues.pending, a)
  {
    assert Lists(s.held, At(c.queues, InPending), InPending);
    if HasUnresolvedWrite(s, a) {
      var k :| k in s.held && s.held[k].place.InPending? && s.held[k].request.kind.Write? && s.held[k].request.address == a;
      assert Contains(c.queues.pending, k);
    }
  }

  // ---------------------------------------------------------------- accepting requests

  /** Accepting a request disturbs neither the PHY nor the responses. */
  lemma AcceptedRest(c: Core, s: State, d: Core, t: State)
    requires ReadsInPhy(c, s) && Answers(c, s) && s.next !in s.held
    requires d.cfg == c.cfg && d.limits == c.limits && d.readFifo == c.readFifo && d.responses == c.responses && d.delivered == c.delivered
    requires t.captured == s.captured && t.emitted == s.emitted
    requires forall k | k in s.held :: k in t.held && t.held[k] == s.held[k]
    ensures ReadsInPhy(d, t) && Answers(d, t)
  {
    forall i | 0 <= i < |d.readFifo|
      ensures MayCapture(d.cfg, t, d.readFifo[i].request.sequence)
    {
      assert MayCapture(c.cfg, s, c.readFifo[i].request.sequence);
    }
  }

  lemma AcceptReadListed(c: Core, s: State, id: nat, a: nat)
    requires SameStores(c, s) && AllListed(s.held, c.queues) && s.next !in s.held && ReadAccepted(c, a)
    ensures AllListed(AcceptRead(c.cfg, s, id, a, c.clk + 1).held, EnqueueRead(c, id, a).queues)
  {
    var e := AcceptRead(c.cfg, s, id, a, c.clk + 1).held[s.next];
    PutListed(s.held, c.queues, e.place, e.request);
  }

  lemma EnqueueReadRefines(c: Core, s: State, id: nat, a: nat) returns (t: State)
    requires Refined(c, s)
    ensures t.log == s.log
    ensures Refined(EnqueueRead(c, id, a), t)
    ensures t == if ReadAccepted(c, a) then AcceptRead(c.cfg, s, id, a, c.clk + 1) else s
  {
    t := s;
    if ReadAccepted(c, a) {
      t := AcceptRead(c.cfg, s, id, a, c.clk + 1);
      AcceptReadReaches(c.cfg, s, id, a, c.clk + 1);
      AcceptReadListed(c, s, id, a);
      AcceptedRest(c, s, EnqueueRead(c, id, a), t);
    }
  }

  lemma AcceptReadReaches(cfg: Config, s: State, id: nat, a: nat, completion: nat)
    requires Reachable(cfg, s)
    ensures s.next !in s.held && Reachable(cfg, AcceptRead(cfg, s, id, a, completion))
  {
    ReachableFacts(cfg, s);
    ReachableStep(cfg, s, DoAcceptRead(id, a, completion));
  }

  lemma AcceptWriteListed(c: Core, s: State, id: nat, a: nat, data: Bytes, mask: Mask)
    requires SameStores(c, s) && AllListed(s.held, c.queues) && s.next !in s.held && WriteAccepted(c, a)
    ensures AllListed(AcceptWrite(s, id, a, data, mask, c.clk + 1).held, EnqueueWrite(c, id, a, data, mask).queues)
  {
    var e := AcceptWrite(s, id, a, data, mask, c.clk + 1).held[s.next];
    PutListed(s.held, c.queues, e.place, e.request);
  }

  lemma AcceptWriteReaches(c: Core, s: State, id: nat, a: nat, data: Bytes, mask: Mask)
    requires SameStores(c, s) && AllListed(s.held, c.queues) && Reachable(c.cfg, s)
    requires WriteAccepted(c, a) && SizedBy(c.cfg, data, mask)
    ensures s.next !in s.held && Reachable(c.cfg, AcceptWrite(s, id, a, data, mask, c.clk + 1))
  {
    ReachableFacts(c.cfg, s);
    UnresolvedReadIsListed(c, s, a, s.next);
    ReachableStep(c.cfg, s, DoAcceptWrite(id, a, data, mask, c.clk + 1));
  }

  lemma EnqueueWriteRefines(c: Core, s: State, id: nat, a: nat, data: Bytes, mask: Mask) returns (t: State)
    requires Refined(c, s) && SizedBy(c.cfg, data, mask)
    ensures Refined(EnqueueWrite(c, id, a, data, mask), t)
    ensures t == if WriteAccepted(c, a) then AcceptWrite(s, id, a, data, mask, c.clk + 1) else s
  {
    t := s;
    if WriteAccepted(c, a) {
      t := AcceptWrite(s, id, a, data, mask, c.clk + 1);
      AcceptWriteReaches(c, s, id, a, data, mask);
      AcceptWriteListed(c, s, id, a, data, mask);
      AcceptedRest(c, s, EnqueueWrite(c, id, a, data, mask), t);
    }
  }

  // ---------------------------------------------------------------- moving and issuing

  /** A queued request changes place: the reads already in the PHY and the responses stay. */
  lemma MovedRest(c: Core, s: State, d: Core, t: State, k: nat)
    requires ReadsInPhy(c, s) && Answers(c, s) && k in s.held && !s.held[k].place.InPending?
    requires d.cfg == c.cfg && d.limits == c.limits && d.readFifo == c.readFifo && d.responses == c.responses && d.delivered == c.delivered
    requires t.captured == s.captured && t.emitted == s.emitted
    requires forall j | j in s.held && j != k :: j in t.held && t.held[j] == s.held[j]
    ensures ReadsInPhy(d, t) && Answers(d, t)
  {
    forall i | 0 <= i < |d.readFifo|
      ensures d.readFifo[i].request.sequence != k && MayCapture(d.cfg, t, d.readFifo[i].request.sequence)
    {
      assert MayCapture(c.cfg, s, c.readFifo[i].request.sequence);
    }
  }

  lemma ListedEntry(c: Core, s: State, from: Place, i: nat)
    requires AllListed(s.held, c.queues) && i < |At(c.queues, from)|
    ensures
      var r := At(c.queues, from)[i];
      r.sequence in s.held && s.held[r.sequence] == Entry(r, from)
  {
    assert Lists(s.held, At(c.queues, from), from);
  }

  lemma PromoteRefines(c: Core, s: State, from: Place, i: nat) returns (t: State)
    requires Refined(c, s) && Promotable(c, from, i)
    ensures t.log == s.log
    ensures Refined(PromoteToActive(c, from, i), t)
  {
    var r := At(c.queues, from)[i];
    ListedEntry(c, s, from, i);
    t := Promote(s, r.sequence);
    ReachableStep(c.cfg, s, DoPromote(r.sequence));
    MoveListed(s.held, c.queues, from, i, InActive, r);
    MovedRest(c, s, PromoteToActive(c, from, i), t, r.sequence);
  }

  lemma IssuedReadEnters(c: Core, s: State, d: Core, t: State, k: nat, slot: Slot)
    requires ReadsInPhy(c, s) && d.cfg == c.cfg && d.readFifo == c.readFifo + [slot]
    requires k in s.held && !s.held[k].place.InPending? && slot.request.sequence == k
    requires MayCapture(d.cfg, t, k) && t.held[k].request.address == slot.request.address
    requires t.captured == s.captured && forall j | j in s.held && j != k :: j in t.held && t.held[j] == s.held[j]
    ensures ReadsInPhy(d, t)
  {
    forall i | 0 <= i < |c.readFifo|
      ensures d.readFifo[i].request.sequence != k && MayCapture(d.cfg, t, d.readFifo[i].request.sequence)
    {
      assert MayCapture(c.cfg, s, c.readFifo[i].request.sequence);
    }
  }

  lemma IssueReadReaches(c: Core, s: State, from: Place, i: nat, latency: nat)
    requires AllListed(s.held, c.queues) && Reachable(c.cfg, s) && ReadEligible(c, from, i)
    ensures
      var r := At(c.queues, from)[i];
      && r.sequence in s.held && s.held[r.sequence] == Entry(r, from) && r.sequence !in s.captured && !r.bypass
      && Reachable(c.cfg, IssueRead(s, r.sequence, c.clk + latency))
  {
    var r := At(c.queues, from)[i];
    ListedEntry(c, s, from, i);
    UnresolvedWriteIsListed(c, s, r.address);
    ReachableFacts(c.cfg, s);
    ReachableStep(c.cfg, s, DoIssueRead(r.sequence, c.clk + latency));
  }

  /** The same of the maps and queues that a step leaves. */
  lemma MovedListed(held: map<nat, Entry>, qs: Queues, from: Place, i: nat, r: Request, held': map<nat, Entry>, qs': Queues)
    requires AllListed(held, qs) && !from.InPending? && i < |At(qs, from)| && r.sequence == At(qs, from)[i].sequence
    requires held' == held[r.sequence := Entry(r, InPending)] && qs' == MoveTo(qs, from, i, InPending, r)
    ensures AllListed(held', qs')
  {
    MoveListed(held, qs, from, i, InPending, r);
  }

  lemma IssueReadMoves(c: Core, s: State, from: Place, i: nat, latency: nat)
    requires ReadEligible(c, from, i)
    requires
      var r := At(c.queues, from)[i];
      r.sequence in s.held && s.held[r.sequence].request == r
    ensures
      var r := At(c.queues, from)[i].(completion := c.clk + latency);
      && IssueRead(s, r.sequence, c.clk + latency).held == s.held[r.sequence := Entry(r, InPending)]
      && IssueReadAt(c, from, i, latency).queues == MoveTo(c.queues, from, i, InPending, r)
  {
  }

  lemma IssueReadListed(c: Core, s: State, from: Place, i: nat, latency: nat)
    requires AllListed(s.held, c.queues) && ReadEligible(c, from, i)
    ensures
      var k := At(c.queues, from)[i].sequence;
      k in s.held && AllListed(IssueRead(s, k, c.clk + latency).held, IssueReadAt(c, from, i, latency).queues)
  {
    ListedEntry(c, s, from, i);
    IssueReadMoves(c, s, from, i, latency);
    var r := At(c.queues, from)[i].(completion := c.clk + latency);
    MovedListed(s.held, c.queues, from, i, r, IssueRead(s, r.sequence, c.clk + latency).held,
                IssueReadAt(c, from, i, latency).queues);
  }

  lemma IssueReadRest(c: Core, s: State, from: Place, i: nat, latency: nat)
    requires ReadsInPhy(c, s) && Answers(c, s) && ReadEligible(c, from, i)
    requires
      var r := At(c.queues, from)[i];
      r.sequence in s.held && s.held[r.sequence] == Entry(r, from) && r.sequence !in s.captured && !r.bypass
    ensures
      var t := IssueRead(s, At(c.queues, from)[i].sequence, c.clk + latency);
      ReadsInPhy(IssueReadAt(c, from, i, latency), t) && Answers(IssueReadAt(c, from, i, latency), t)
  {
    var k := At(c.queues, from)[i].sequence;
    var t := IssueRead(s, k, c.clk + latency);
    var d := IssueReadAt(c, from, i, latency);
    if c.cfg.behavioral {
      MovedRest(c, s, d.(readFifo := c.readFifo), t, k);
      IssuedReadEnters(c, s, d, t, k, Slot(t.held[k].request, c.clk + latency));
    } else {
      MovedRest(c, s, d, t, k);
    }
  }

  lemma IssueReadRefines(c: Core, s: State, from: Place, i: nat, latency: nat) returns (t: State)
    requires Refined(c, s) && ReadEligible(c, from, i)
    ensures t.log == s.log
    ensures Refined(IssueReadAt(c, from, i, latency), t)
  {
    IssueReadReaches(c, s, from, i, latency);
    IssueReadListed(c, s, from, i, latency);
    IssueReadRest(c, s, from, i, latency);
    t := IssueRead(s, At(c.queues, from)[i].sequence, c.clk + latency);
  }

  lemma IssueWriteReaches(c: Core, s: State, from: Place, i: nat, latency: nat)
    requires SameStores(c, s) && AllListed(s.held, c.queues) && Reachable(c.cfg, s) && WriteEligible(c, from, i)
    ensures
      var r := At(c.queues, from)[i];
      && r.sequence in s.held && s.held[r.sequence] == Entry(r, from)
      && Reachable(c.cfg, IssueWrite(c.cfg, s, r.sequence, c.clk + latency))
  {
    var r := At(c.queues, from)[i];
    ListedEntry(c, s, from, i);
    ReachableFacts(c.cfg, s);
    UnresolvedReadIsListed(c, s, r.address, r.sequence);
    ReachableStep(c.cfg, s, DoIssueWrite(r.sequence, c.clk + latency));
  }

  /** The issued write with its merged data. */
  function Merged(c: Core, r: Request, completion: nat): Request
    requires r.address in c.buffered
  {
    r.(data := c.buffered[r.address].data, mask := c.buffered[r.address].mask, completion := completion)
  }

  lemma IssueWriteMoves(c: Core, s: State, from: Place, i: nat, latency: nat)
    requires SameStores(c, s) && WriteEligible(c, from, i)
    requires
      var r := At(c.queues, from)[i];
      r.sequence in s.held && s.held[r.sequence].request == r
    ensures
      var r := At(c.queues, from)[i];
      var w := Merged(c, r, c.clk + latency);
      && IssueWrite(c.cfg, s, r.sequence, c.clk + latency).held == s.held[r.sequence := Entry(w, InPending)]
      && IssueWriteAt(c, from, i, latency).queues == MoveTo(c.queues, from, i, InPending, w)
  {
  }

  lemma IssueWriteListed(c: Core, s: State, from: Place, i: nat, latency: nat)
    requires SameStores(c, s) && AllListed(s.held, c.queues) && WriteEligible(c, from, i)
    ensures
      var r := At(c.queues, from)[i];
      && r.sequence in s.held && s.held[r.sequence].request == r
      && AllListed(IssueWrite(c.cfg, s, r.sequence, c.clk + latency).held, IssueWriteAt(c, from, i, latency).queues)
  {
    ListedEntry(c, s, from, i);
    IssueWriteMoves(c, s, from, i, latency);
    var r := At(c.queues, from)[i];
    MovedListed(s.held, c.queues, from, i, Merged(c, r, c.clk + latency),
                IssueWrite(c.cfg, s, r.sequence, c.clk + latency).held, IssueWriteAt(c, from, i, latency).queues);
  }

  lemma IssueWriteRest(c: Core, s: State, from: Place, i: nat, latency: nat)
    requires SameStores(c, s) && SameFifo(c, s) && ReadsInPhy(c, s) && Answers(c, s) && WriteEligible(c, from, i)
    requires
      var r := At(c.queues, from)[i];
      r.sequence in s.held && s.held[r.sequence] == Entry(r, from)
    ensures
      var d := IssueWriteAt(c, from, i, latency);
      var t := IssueWrite(c.cfg, s, At(c.queues, from)[i].sequence, c.clk + latency);
      SameStores(d, t) && SameFifo(d, t) && ReadsInPhy(d, t) && Answers(d, t)
  {
    var k := At(c.queues, from)[i].sequence;
    MovedRest(c, s, IssueWriteAt(c, from, i, latency), IssueWrite(c.cfg, s, k, c.clk + latency), k);
  }

  lemma IssueWriteRefines(c: Core, s: State, from: Place, i: nat, latency: nat) returns (t: State)
    requires Refined(c, s) && WriteEligible(c, from, i)
    ensures t.log == s.log
    ensures Refined(IssueWriteAt(c, from, i, latency), t)
  {
    IssueWriteReaches(c, s, from, i, latency);
    IssueWriteListed(c, s, from, i, latency);
    IssueWriteRest(c, s, from, i, latency);
    t := IssueWrite(c.cfg, s, At(c.queues, from)[i].sequence, c.clk + latency);
  }

  /** A queued write always finds its buffered data: the hazard check never meets a missing entry. */
  lemma QueuedWriteIsBuffered(c: Core, s: State, from: Place, i: nat)
    requires Refined(c, s) && !from.InPending? && i < |At(c.queues, from)| && At(c.queues, from)[i].kind.Write?
    ensures At(c.queues, from)[i].address in c.buffered
  {
    ListedEntry(c, s, from, i);
    ReachableFacts(c.cfg, s);
    assert Queued(s, At(c.queues, from)[i].sequence, Write);
  }

  // ---------------------------------------------------------------- the PHY and the response path

  lemma CaptureHeadRefines(c: Core, s: State) returns (t: State)
    requires Refined(c, s) && c.readFifo != []
    ensures t.log == s.log
    ensures
      var r := c.readFifo[0].request;
      Refined(c.(readFifo := c.readFifo[1..], completions := c.completions[r.sequence := Lookup(c.cfg, c.image, r.address)]), t)
  {
    var k := c.readFifo[0].request.sequence;
    assert MayCapture(c.cfg, s, k);
    t := Capture(c.cfg, s, k);
    ReachableStep(c.cfg, s, DoCapture(k));
    CaptureRest(c, s);
  }

  lemma CaptureRest(c: Core, s: State)
    requires ReadsInPhy(c, s) && c.readFifo != [] && c.readFifo[0].request.sequence in s.held
    ensures
      var d := c.(readFifo := c.readFifo[1..]);
      forall e: map<nat, Line> :: ReadsInPhy(d.(completions := e), Capture(c.cfg, s, c.readFifo[0].request.sequence))
  {
    var rest := c.readFifo[1..];
    var t := Capture(c.cfg, s, c.readFifo[0].request.sequence);
    forall i | 0 <= i < |rest|
      ensures rest[i] == c.readFifo[i + 1] && MayCapture(c.cfg, t, rest[i].request.sequence)
    {
      assert MayCapture(c.cfg, s, c.readFifo[i + 1].request.sequence);
      assert c.readFifo[0].request.sequence != c.readFifo[i + 1].request.sequence;
    }
  }

  lemma DrainHeadRefines(c: Core, s: State) returns (t: State)
    requires Refined(c, s) && c.writeFifo != []
    ensures t.log == s.log
    ensures
      var w := c.writeFifo[0].request;
      Refined(c.(writeFifo := c.writeFifo[1..],
                 image := c.image[w.address := ApplyAt(Lookup(c.cfg, c.image, w.address), w, w.address)],
                 completions := c.completions[w.sequence := Line([], [])]), t)
  {
    ReachableFacts(c.cfg, s);
    t := DrainOne(c.cfg, s);
    ReachableStep(c.cfg, s, DoDrain);
    DrainRest(c, s);
  }

  lemma DrainRest(c: Core, s: State)
    requires ReadsInPhy(c, s) && s.fifo != [] && s.fifo[0].sequence in s.held && s.held[s.fifo[0].sequence].request.kind.Write?
    ensures forall i: map<nat, Line>, w: seq<Slot>, e: map<nat, Line> ::
              ReadsInPhy(c.(writeFifo := w, image := i, completions := e), DrainOne(c.cfg, s))
  {
    forall i | 0 <= i < |c.readFifo|
      ensures MayCapture(c.cfg, DrainOne(c.cfg, s), c.readFifo[i].request.sequence)
    {
      assert MayCapture(c.cfg, s, c.readFifo[i].request.sequence);
    }
  }

  lemma {:induction false} PhyReadsRefines(c: Core, s: State) returns (t: State)
    requires Refined(c, s)
    ensures t.log == s.log
    ensures Refined(PhyReads(c), t)
    decreases |c.readFifo|
  {
    t := s;
    if c.readFifo != [] && c.readFifo[0].ready <= c.clk {
      var r := c.readFifo[0].request;
      t := CaptureHeadRefines(c, s);
      t := PhyReadsRefines(c.(readFifo := c.readFifo[1..], completions := c.completions[r.sequence := Lookup(c.cfg, c.image, r.address)]), t);
    }
  }

  lemma {:induction false} PhyWritesRefines(c: Core, s: State) returns (t: State)
    requires Refined(c, s)
    ensures t.log == s.log
    ensures Refined(PhyWrites(c), t)
    decreases |c.writeFifo|
  {
    t := s;
    if c.writeFifo != [] && c.writeFifo[0].ready <= c.clk {
      var w := c.writeFifo[0].request;
      t := DrainHeadRefines(c, s);
      t := PhyWritesRefines(c.(writeFifo := c.writeFifo[1..],
                               image := c.image[w.address := ApplyAt(Lookup(c.cfg, c.image, w.address), w, w.address)],
                               completions := c.completions[w.sequence := Line([], [])]), t);
    }
  }

  lemma AnswerReaches(c: Core, s: State, i: nat)
    requires SameStores(c, s) && AllListed(s.held, c.queues) && Reachable(c.cfg, s) && i < |c.queues.pending|
    requires !Blocked(c.cfg, c.clk, c.limits.response, c.completions, c.queues.pending[i], |c.responses|)
    ensures
      var r := c.queues.pending[i];
      && MayComplete(c.cfg, s, r.sequence) && s.held[r.sequence] == Entry(r, InPending)
      && ResponseOf(c.cfg, s, r.sequence) == Answer(c.cfg, c.image, c.completions, r)
      && Reachable(c.cfg, Complete(c.cfg, s, r.sequence))
      && AllListed(Complete(c.cfg, s, r.sequence).held, AnswerOne(c, i).queues)
  {
    var r := c.queues.pending[i];
    assert Lists(s.held, At(c.queues, InPending), InPending);
    ReachableStep(c.cfg, s, DoComplete(r.sequence));
    DropListed(s.held, c.queues, i);
  }

  lemma AnswerRest(c: Core, s: State, i: nat)
    requires ReadsInPhy(c, s) && Answers(c, s) && i < |c.queues.pending| && SameStores(c, s)
    requires !Blocked(c.cfg, c.clk, c.limits.response, c.completions, c.queues.pending[i], |c.responses|)
    requires
      var r := c.queues.pending[i];
      && MayComplete(c.cfg, s, r.sequence) && s.held[r.sequence] == Entry(r, InPending) && r.sequence !in s.emitted
      && ResponseOf(c.cfg, s, r.sequence) == Answer(c.cfg, c.image, c.completions, r)
    ensures
      var t := Complete(c.cfg, s, c.queues.pending[i].sequence);
      ReadsInPhy(AnswerOne(c, i), t) && Answers(AnswerOne(c, i), t)
  {
    var k := c.queues.pending[i].sequence;
    forall j | 0 <= j < |c.readFifo|
      ensures c.readFifo[j].request.sequence != k && MayCapture(c.cfg, Complete(c.cfg, s, k), c.readFifo[j].request.sequence)
    {
      assert MayCapture(c.cfg, s, c.readFifo[j].request.sequence);
    }
    ListsResponsesAppend(AllResponses(c), s.emitted, Answer(c.cfg, c.image, c.completions, c.queues.pending[i]));
    assert AllResponses(AnswerOne(c, i)) == AllResponses(c) + [Answer(c.cfg, c.image, c.completions, c.queues.pending[i])];
  }

  lemma AnswerOneRefines(c: Core, s: State, i: nat) returns (t: State)
    requires Refined(c, s) && i < |c.queues.pending|
    requires !Blocked(c.cfg, c.clk, c.limits.response, c.completions, c.queues.pending[i], |c.responses|)
    ensures t.log == s.log
    ensures Refined(AnswerOne(c, i), t)
  {
    ReachableFacts(c.cfg, s);
    AnswerReaches(c, s, i);
    AnswerRest(c, s, i);
    t := Complete(c.cfg, s, c.queues.pending[i].sequence);
  }

  lemma {:induction false} CompleteFromRefines(c: Core, s: State, i: nat) returns (t: State)
    requires Refined(c, s) && i <= |c.queues.pending|
    ensures t.log == s.log
    ensures Refined(CompleteFrom(c, i), t)
    decreases |c.queues.pending| - i
  {
    t := s;
    if i < |c.queues.pending| {
      if Blocked(c.cfg, c.clk, c.limits.response, c.completions, c.queues.pending[i], |c.responses|) {
        t := CompleteFromRefines(c, s, i + 1);
      } else {
        t := AnswerOneRefines(c, s, i);
        t := CompleteFromRefines(AnswerOne(c, i), t, i);
      }
    }
  }

  lemma PhyRefines(c: Core, s: State) returns (t: State)
    requires Refined(c, s)
    ensures t.log == s.log
    ensures Refined(PhyWrites(PhyReads(c)), t)
  {
    var captured := PhyReadsRefines(c, s);
    t := PhyWritesRefines(PhyReads(c), captured);
  }

  lemma ClockRefines(c: Core, s: State)
    requires Refined(c, s)
    ensures Refined(c.(clk := c.clk + 1), s)
  {
  }

  lemma TickRefines(c: Core, s: State) returns (t: State)
    requires Refined(c, s)
    ensures t.log == s.log
    ensures Refined(Tick(c), t)
  {
    var started := c.(clk := c.clk + 1);
    ClockRefines(c, s);
    var drained := PhyRefines(started, s);
    t := CompleteFromRefines(PhyWrites(PhyReads(started)), drained, 0);
  }

  // ---------------------------------------------------------------- runs of the controller

  datatype Call =
    | CallRead(id: nat, address: nat)
    | CallWrite(id: nat, address: nat, data: Bytes, mask: Mask)
    | CallPromote(from: Place, index: nat)
    | CallIssueRead(from: Place, index: nat, latency: nat)
    | CallIssueWrite(from: Place, index: nat, latency: nat)
    | CallTick
    | CallPop

  predicate Callable(c: Core, e: Call) {
    match e
    case CallRead(_, _) => true
    case CallWrite(_, _, data, mask) => SizedBy(c.cfg, data, mask)
    case CallPromote(from, i) => Promotable(c, from, i)
    case CallIssueRead(from, i, _) => ReadEligible(c, from, i)
    case CallIssueWrite(from, i, _) => WriteEligible(c, from, i)
    case CallTick => true
    case CallPop => true
  }

  function Perform(c: Core, e: Call): Core
    requires Callable(c, e)
  {
    match e
    case CallRead(id, a) => EnqueueRead(c, id, a)
    case CallWrite(id, a, data, mask) => EnqueueWrite(c, id, a, data, mask)
    case CallPromote(from, i) => PromoteToActive(c, from, i)
    case CallIssueRead(from, i, latency) => IssueReadAt(c, from, i, latency)
    case CallIssueWrite(from, i, latency) => IssueWriteAt(c, from, i, latency)
    case CallTick => Tick(c)
    case CallPop => PopResponse(c)
  }

  /** The write that a call adds to those the controller has accepted, if any. */
  function NewWrites(c: Core, e: Call): seq<Request> {
    if e.CallWrite? && WriteAccepted(c, e.address) then
      if e.address in c.buffered then [Request(e.id, Write, e.address, c.next, e.data, e.mask, true, c.clk + 1)]
      else [Request(e.id, Write, e.address, c.next, e.data, e.mask, false, 0)]
    else []
  }

  lemma PerformRefines(c: Core, s: State, e: Call) returns (t: State)
    requires Refined(c, s) && Callable(c, e)
    ensures Refined(Perform(c, e), t)
    ensures t.log == s.log + NewWrites(c, e)
  {
    match e
    case CallRead(id, a) => t := EnqueueReadRefines(c, s, id, a);
    case CallWrite(id, a, data, mask) => t := EnqueueWriteRefines(c, s, id, a, data, mask);
    case _ => t := MoveRefines(c, s, e);
  }

  /** The calls that accept nothing. */
  lemma MoveRefines(c: Core, s: State, e: Call) returns (t: State)
    requires Refined(c, s) && Callable(c, e) && !e.CallRead? && !e.CallWrite?
    ensures Refined(Perform(c, e), t)
    ensures t.log == s.log
  {
    match e
    case CallPromote(from, i) => t := PromoteRefines(c, s, from, i);
    case CallIssueRead(from, i, latency) => t := IssueReadRefines(c, s, from, i, latency);
    case CallIssueWrite(from, i, latency) => t := IssueWriteRefines(c, s, from, i, latency);
    case CallTick => t := TickRefines(c, s);
    case CallPop => t := PopRefines(c, s);
  }

  lemma PopRefines(c: Core, s: State) returns (t: State)
    requires Refined(c, s)
    ensures Refined(Perform(c, CallPop), t) && t.log == s.log
  {
    t := s;
    assert c.responses != [] ==> AllResponses(Perform(c, CallPop)) == AllResponses(c);
  }

  /** The controller stands where some run that accepted the writes of `log`, in order, leaves it. */
  ghost predicate Serves(c: Core, log: seq<Request>) {
    exists s: State :: Refined(c, s) && s.log == log
  }

  lemma ResetServes(cfg: Config, limits: Limits)
    ensures Serves(Reset(cfg, limits), [])
  {
    ReachableInitial(cfg);
    assert Refined(Reset(cfg, limits), Initial);
  }

  lemma PerformServes(c: Core, log: seq<Request>, e: Call, d: Core, log': seq<Request>)
    requires Serves(c, log) && Callable(c, e) && d == Perform(c, e) && log' == log + NewWrites(c, e)
    ensures Serves(d, log')
  {
    var s: State :| Refined(c, s) && s.log == log;
    var t := PerformRefines(c, s, e);
  }

  /** A read's answer is what the accepted writes make it: with the delaying PHY, if they are all unmasked. */
  lemma AnswerIsSequential(c: Core, log: seq<Request>, i: nat)
    requires Serves(c, log) && i < |AllResponses(c)| && AllResponses(c)[i].kind.Read?
    requires !c.cfg.behavioral || forall j | 0 <= j < |log| :: Full(log[j].mask)
    ensures
      var r := AllResponses(c)[i];
      r.line == Sequential(c.cfg, log, r.address, r.sequence)
  {
    var s: State :| Refined(c, s) && s.log == log;
    ReachableKeeps(c.cfg, s);
    assert Unmasked(s) || !c.cfg.behavioral;
  }

  lemma QueuedIsBuffered(c: Core, log: seq<Request>, from: Place, i: nat)
    requires Serves(c, log) && !from.InPending? && i < |At(c.queues, from)| && At(c.queues, from)[i].kind.Write?
    ensures At(c.queues, from)[i].address in c.buffered
  {
    var s: State :| Refined(c, s) && s.log == log;
    QueuedWriteIsBuffered(c, s, from, i);
  }

  /** The cores a controller goes through from reset, under any sequence of calls it permits. */
  ghost predicate CoreRun(cores: seq<Core>, calls: seq<Call>) {
    && |cores| == |calls| + 1
    && cores[0] == Reset(cores[0].cfg, cores[0].limits)
    && forall i | 0 <= i < |calls| :: Callable(cores[i], calls[i]) && cores[i + 1] == Perform(cores[i], calls[i])
  }

  /** The writes accepted during the first `n` calls, in order. */
  ghost function History(cores: seq<Core>, calls: seq<Call>, n: nat): seq<Request>
    requires CoreRun(cores, calls) && n < |cores|
  {
    if n == 0 then [] else History(cores, calls, n - 1) + NewWrites(cores[n - 1], calls[n - 1])
  }

  lemma {:induction false} CoreRunRefines(cores: seq<Core>, calls: seq<Call>, n: nat) returns (s: State)
    requires CoreRun(cores, calls) && n < |cores|
    ensures Refined(cores[n], s) && s.log == History(cores, calls, n)
  {
    if n == 0 {
      s := Initial;
      ReachableInitial(cores[0].cfg);
    } else {
      s := CoreRunRefines(cores, calls, n - 1);
      s := PerformRefines(cores[n - 1], s, calls[n - 1]);
    }
  }

  /**
    In every run of the controller, under any scheduling, latency and consumer, each read response
    carries the bytes and initialized mask of a memory that performed, in order, exactly the writes
    accepted before that read. With the delaying PHY this is claimed for unmasked writes.
   */
  lemma EveryReadIsSequential(cores: seq<Core>, calls: seq<Call>, n: nat, i: nat)
    requires CoreRun(cores, calls) && n < |cores| && i < |AllResponses(cores[n])|
    requires AllResponses(cores[n])[i].kind.Read?
    requires !cores[n].cfg.behavioral || forall j | 0 <= j < |History(cores, calls, n)| :: Full(History(cores, calls, n)[j].mask)
    ensures
      var r := AllResponses(cores[n])[i];
      r.line == Sequential(cores[n].cfg, History(cores, calls, n), r.address, r.sequence)
  {
    var s := CoreRunRefines(cores, calls, n);
    AnswerIsSequential(cores[n], History(cores, calls, n), i);
  }

  ghost predicate InQueue(c: Core, place: Place, k: nat) {
    Contains(At(c.queues, place), k)
  }

  /**
    No request is lost or duplicated: every accepted sequence number is in exactly one queue or
    has exactly one response, and no queue or response list mentions one twice.
   */
  lemma EveryRequestIsAccountedFor(cores: seq<Core>, calls: seq<Call>, n: nat, k: nat)
    requires CoreRun(cores, calls) && n < |cores|
    ensures 0 < k < cores[n].next <==> (exists p: Place :: InQueue(cores[n], p, k)) || Responded(AllResponses(cores[n]), k)
    ensures forall p: Place :: InQueue(cores[n], p, k) ==>
              !Responded(AllResponses(cores[n]), k) && forall q: Place :: InQueue(cores[n], q, k) ==> q == p
    ensures forall p: Place, i: nat, j: nat | i < j < |At(cores[n].queues, p)| ::
              At(cores[n].queues, p)[i].sequence != At(cores[n].queues, p)[j].sequence
    ensures forall i: nat, j: nat | i < j < |AllResponses(cores[n])| ::
              AllResponses(cores[n])[i].sequence != AllResponses(cores[n])[j].sequence
  {
    var c := cores[n];
    var s := CoreRunRefines(cores, calls, n);
    ReachableKeeps(c.cfg, s);
    assert forall p: Place :: Lists(s.held, At(c.queues, p), p);
    forall p: Place
      ensures InQueue(c, p, k) <==> k in s.held && s.held[k].place == p
    {
      assert Lists(s.held, At(c.queues, p), p);
    }
    assert Responded(AllResponses(c), k) <==> k in s.emitted;
    if k in s.held { assert InQueue(c, s.held[k].place, k); }
  }
}

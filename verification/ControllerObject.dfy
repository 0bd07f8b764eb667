/** The controller object: queues, write buffer, PHY FIFOs and pending completions changed in place. */
module ControllerObject {
  import opened Lines
  import opened StoreBuffer
  import opened ControllerQueues
  import opened ControllerRefinement

  class Controller {
    const cfg: Config
    const limits: Limits
    var clk: nat
    var nextSequence: nat
    var readQueue: seq<Request>
    var writeQueue: seq<Request>
    var activeQueue: seq<Request>
    var pending: seq<Request>
    var buffered: map<nat, Buffered>
    var image: map<nat, Line>
    var readFifo: seq<Slot>
    var writeFifo: seq<Slot>
    var completions: map<nat, Line>
    var responses: seq<Response>
    ghost var delivered: seq<Response>
    /** The writes accepted so far, in order. */
    ghost var log: seq<Request>

    ghost function Now(): Core
      reads this
    {
      Core(cfg, limits, clk, nextSequence, Queues(readQueue, writeQueue, activeQueue, pending),
           buffered, image, readFifo, writeFifo, completions, responses, delivered)
    }

    /** The object stands where some run that accepted these writes leaves it. */
    ghost predicate Valid()
      reads this
    {
      Serves(Now(), log)
    }

    constructor (cfg: Config, limits: Limits)
      ensures Valid() && Now() == Reset(cfg, limits) && log == []
    {
      this.cfg, this.limits := cfg, limits;
      clk, nextSequence := 0, 1;
      readQueue, writeQueue, activeQueue, pending := [], [], [], [];
      buffered, image, completions := map[], map[], map[];
      readFifo, writeFifo, responses, delivered, log := [], [], [], [], [];
      new;
      ResetServes(cfg, limits);
    }

    /** Scans one queue for a read of `address` accepted before `bound`. */
    static method QueueHasRead(q: seq<Request>, address: nat, bound: nat) returns (found: bool)
      ensures found <==> ListedRead(q, address, bound)
    {
      for i := 0 to |q|
        invariant forall j | 0 <= j < i :: !(q[j].kind.Read? && q[j].address == address && q[j].sequence < bound)
      {
        if q[i].kind.Read? && q[i].address == address && q[i].sequence < bound {
          return true;
        }
      }
      return false;
    }

    method HasUnresolvedOverlappingRead(address: nat, bound: nat) returns (found: bool)
      ensures found <==> AnyListedRead(Now().queues, address, bound)
    {
      found := QueueHasRead(readQueue, address, bound);
      if !found { found := QueueHasRead(activeQueue, address, bound); }
      if !found { found := QueueHasRead(pending, address, bound); }
    }

    method HasUnresolvedOverlappingWrite(address: nat) returns (found: bool)
      ensures found <==> ListedWrite(pending, address)
    {
      for i := 0 to |pending|
        invariant forall j | 0 <= j < i :: !(pending[j].kind.Write? && pending[j].address == address)
      {
        if pending[i].kind.Write? && pending[i].address == address {
          return true;
        }
      }
      return false;
    }

    /** Whether a buffered write of `address` selects any byte. */
    method ReadHitsBufferedWrite(address: nat) returns (hit: bool)
      ensures hit <==> Hit(buffered, address)
    {
      if address in buffered {
        var mask := buffered[address].mask;
        for i := 0 to |mask|
          invariant forall j | 0 <= j < i :: !mask[j]
        {
          if mask[i] { return true; }
        }
      }
      return false;
    }

    /** Byte by byte, `data` replaces `bytes` where `mask` selects, and selected bytes become set. */
    static method Merge(bytes: Bytes, init: Mask, data: Bytes, mask: Mask) returns (b: Bytes, m: Mask)
      ensures b == MergeBytes(bytes, data, mask) && m == MergeMask(init, mask)
    {
      b, m := bytes, init;
      for i := 0 to |bytes|
        invariant |b| == |bytes|
        invariant forall j | 0 <= j < i :: b[j] == MergeBytes(bytes, data, mask)[j]
        invariant forall j | i <= j < |bytes| :: b[j] == bytes[j]
      {
        if i < |mask| && mask[i] && i < |data| { b := b[i := data[i]]; }
      }
      for i := 0 to |init|
        invariant |m| == |init|
        invariant forall j | 0 <= j < i :: m[j] == MergeMask(init, mask)[j]
        invariant forall j | i <= j < |init| :: m[j] == init[j]
      {
        if i < |mask| && mask[i] { m := m[i := true]; }
      }
    }

    method EnqueueReadRequest(id: nat, address: nat) returns (accepted: bool)
      requires Valid()
      modifies this
      ensures Valid() && log == old(log)
      ensures accepted <==> ReadAccepted(old(Now()), address)
      ensures Now() == EnqueueRead(old(Now()), id, address)
    {
      ghost var before := Now();
      accepted := TakeRead(id, address);
      PerformServes(before, log, CallRead(id, address), Now(), log);
    }

    /** Forwards a read from the write buffer, or queues it. */
    method TakeRead(id: nat, address: nat) returns (accepted: bool)
      modifies this`readQueue, this`pending, this`nextSequence
      ensures accepted <==> ReadAccepted(old(Now()), address)
      ensures Now() == EnqueueRead(old(Now()), id, address)
    {
      var hit := ReadHitsBufferedWrite(address);
      if hit {
        var line := Lookup(cfg, image, address);
        var bytes, init := Merge(line.bytes, line.init, buffered[address].data, buffered[address].mask);
        pending := pending + [Request(id, Read, address, nextSequence, bytes, init, true, clk + 1)];
        nextSequence := nextSequence + 1;
        return true;
      }
      if |readQueue| >= limits.read { return false; }
      readQueue := readQueue + [Request(id, Read, address, nextSequence, [], [], false, 0)];
      nextSequence := nextSequence + 1;
      return true;
    }

    method EnqueueWriteRequest(id: nat, address: nat, data: Bytes, mask: Mask) returns (accepted: bool)
      requires Valid()
      modifies this
      ensures SizedBy(cfg, data, mask) ==> Valid()
      ensures accepted <==> WriteAccepted(old(Now()), address)
      ensures log == old(log) + NewWrites(old(Now()), CallWrite(id, address, data, mask))
      ensures Now() == EnqueueWrite(old(Now()), id, address, data, mask)
    {
      ghost var before, e := Now(), CallWrite(id, address, data, mask);
      accepted := TakeWrite(id, address, data, mask);
      log := log + NewWrites(before, e);
      if SizedBy(cfg, data, mask) { PerformServes(before, old(log), e, Now(), log); }
    }

    /** Merges a write into the buffered one, or queues it. */
    method TakeWrite(id: nat, address: nat, data: Bytes, mask: Mask) returns (accepted: bool)
      modifies this`writeQueue, this`buffered, this`pending, this`nextSequence
      ensures accepted <==> WriteAccepted(old(Now()), address)
      ensures Now() == EnqueueWrite(old(Now()), id, address, data, mask)
    {
      if address in buffered {
        var blocked := HasUnresolvedOverlappingRead(address, nextSequence);
        if blocked { return false; }
        var b := buffered[address];
        var d, m := Merge(b.data, b.mask, data, mask);
        buffered := buffered[address := Buffered(d, m, b.owner)];
        pending := pending + [Request(id, Write, address, nextSequence, data, mask, true, clk + 1)];
        nextSequence := nextSequence + 1;
        return true;
      }
      if |writeQueue| >= limits.write { return false; }
      buffered := buffered[address := Buffered(data, mask, nextSequence)];
      writeQueue := writeQueue + [Request(id, Write, address, nextSequence, data, mask, false, 0)];
      nextSequence := nextSequence + 1;
      return true;
    }

    method PutAt(place: Place, q: seq<Request>)
      modifies this`readQueue, this`writeQueue, this`activeQueue, this`pending
      ensures Now() == old(Now()).(queues := WithAt(old(Now()).queues, place, q))
    {
      match place
      case InRead => readQueue := q;
      case InWrite => writeQueue := q;
      case InActive => activeQueue := q;
      case InPending => pending := q;
    }

    method QueueAt(place: Place) returns (q: seq<Request>)
      ensures q == At(Now().queues, place)
    {
      match place
      case InRead => q := readQueue;
      case InWrite => q := writeQueue;
      case InActive => q := activeQueue;
      case InPending => q := pending;
    }

    /** A request whose opening command issued moves to the active queue. */
    method Promote(from: Place, i: nat)
      requires Valid() && Promotable(Now(), from, i)
      modifies this
      ensures Valid() && log == old(log)
      ensures Now() == PromoteToActive(old(Now()), from, i)
    {
      ghost var before := Now();
      var q := QueueAt(from);
      PutAt(from, RemoveAt(q, i));
      activeQueue := activeQueue + [q[i]];
      PerformServes(before, log, CallPromote(from, i), Now(), log);
    }

    /** The hazard part of eligibility for a data command of the request at `from[i]`. */
    method DataEligible(from: Place, i: nat) returns (ok: bool)
      requires Valid() && !from.InPending? && i < |At(Now().queues, from)|
      ensures At(Now().queues, from)[i].kind.Read? ==> (ok <==> ReadEligible(Now(), from, i))
      ensures At(Now().queues, from)[i].kind.Write? ==> (ok <==> WriteEligible(Now(), from, i))
    {
      var q := QueueAt(from);
      if q[i].kind.Read? {
        if !cfg.behavioral { return true; }
        var blocked := HasUnresolvedOverlappingWrite(q[i].address);
        return !blocked;
      }
      QueuedIsBuffered(Now(), log, from, i);
      var older := HasUnresolvedOverlappingRead(q[i].address, q[i].sequence);
      return !older;
    }

    /** RD or RDA: the request waits in `pending`; with the delaying PHY it also enters the read FIFO. */
    method IssueRead(from: Place, i: nat, latency: nat)
      requires Valid() && ReadEligible(Now(), from, i)
      modifies this
      ensures Valid() && log == old(log)
      ensures Now() == IssueReadAt(old(Now()), from, i, latency)
    {
      ghost var before := Now();
      MoveRead(from, i, latency);
      PerformServes(before, log, CallIssueRead(from, i, latency), Now(), log);
    }

    method MoveRead(from: Place, i: nat, latency: nat)
      requires ReadEligible(Now(), from, i)
      modifies this`readQueue, this`writeQueue, this`activeQueue, this`pending, this`readFifo
      ensures Now() == IssueReadAt(old(Now()), from, i, latency)
    {
      var q := QueueAt(from);
      var done := q[i].(completion := clk + latency);
      if cfg.behavioral {
        readFifo := readFifo + [Slot(done, clk + latency)];
      }
      PutAt(from, RemoveAt(q, i));
      pending := pending + [done];
    }

    /** WR or WRA: the merged data leaves the write buffer for the image or for the PHY. */
    method IssueWrite(from: Place, i: nat, latency: nat)
      requires Valid() && WriteEligible(Now(), from, i)
      modifies this
      ensures Valid() && log == old(log)
      ensures Now() == IssueWriteAt(old(Now()), from, i, latency)
    {
      ghost var before := Now();
      MoveWrite(from, i, latency);
      PerformServes(before, log, CallIssueWrite(from, i, latency), Now(), log);
    }

    method MoveWrite(from: Place, i: nat, latency: nat)
      requires WriteEligible(Now(), from, i)
      modifies this`readQueue, this`writeQueue, this`activeQueue, this`pending, this`buffered, this`writeFifo, this`image
      ensures Now() == IssueWriteAt(old(Now()), from, i, latency)
    {
      var q := QueueAt(from);
      var a := q[i].address;
      var done := q[i].(data := buffered[a].data, mask := buffered[a].mask, completion := clk + latency);
      buffered := buffered - {a};
      SendWrite(done, clk + latency);
      PutAt(from, RemoveAt(q, i));
      pending := pending + [done];
    }

    /** An issued write enters the delaying PHY, or reaches the image at once. */
    method SendWrite(w: Request, ready: nat)
      modifies this`writeFifo, this`image
      ensures Now() == if cfg.behavioral then old(Now()).(writeFifo := old(writeFifo) + [Slot(w, ready)])
                       else old(Now()).(image := old(image)[w.address := Overlay(Lookup(cfg, old(image), w.address), w.data, w.mask)])
    {
      if cfg.behavioral {
        writeFifo := writeFifo + [Slot(w, ready)];
      } else {
        image := image[w.address := Overlay(Lookup(cfg, image, w.address), w.data, w.mask)];
      }
    }

    method TickPhy()
      modifies this`readFifo, this`writeFifo, this`completions, this`image
      ensures Now() == PhyWrites(PhyReads(old(Now())))
    {
      CaptureReads();
      DrainWrites();
    }

    method CaptureReads()
      modifies this`readFifo, this`completions
      ensures Now() == PhyReads(old(Now()))
    {
      ghost var start := Now();
      while readFifo != [] && readFifo[0].ready <= clk
        invariant PhyReads(Now()) == PhyReads(start)
        decreases |readFifo|
      {
        var r := readFifo[0].request;
        completions := completions[r.sequence := Lookup(cfg, image, r.address)];
        readFifo := readFifo[1..];
      }
    }

    method DrainWrites()
      modifies this`writeFifo, this`completions, this`image
      ensures Now() == PhyWrites(old(Now()))
    {
      ghost var start := Now();
      while writeFifo != [] && writeFifo[0].ready <= clk
        invariant PhyWrites(Now()) == PhyWrites(start)
        decreases |writeFifo|
      {
        var w := writeFifo[0].request;
        image := image[w.address := Overlay(Lookup(cfg, image, w.address), w.data, w.mask)];
        completions := completions[w.sequence := Line([], [])];
        writeFifo := writeFifo[1..];
      }
    }

    /** Sweeps `pending` once, answering what is complete while the response queue has room. */
    method CompletePending()
      modifies this`responses, this`completions, this`pending
      ensures Now() == CompleteFrom(old(Now()), 0)
    {
      ghost var start := Now();
      var i := 0;
      while i < |pending|
        invariant i <= |pending|
        invariant CompleteFrom(Now(), i) == CompleteFrom(start, 0)
        decreases |pending| - i
      {
        var r := pending[i];
        if r.completion > clk {
          i := i + 1;
        } else if limits.response != 0 && |responses| >= limits.response {
          i := i + 1;
        } else if cfg.behavioral && !r.bypass && r.sequence !in completions {
          i := i + 1;
        } else {
          responses := responses + [Answer(cfg, image, completions, r)];
          completions := completions - {r.sequence};
          pending := RemoveAt(pending, i);
        }
      }
    }

    method TickOnce()
      requires Valid()
      modifies this
      ensures Valid() && log == old(log)
      ensures Now() == Tick(old(Now()))
    {
      ghost var before := Now();
      Advance();
      PerformServes(before, log, CallTick, Now(), log);
    }

    /** One cycle: the PHY moves on, and what is complete is answered. */
    method Advance()
      modifies this`clk, this`readFifo, this`writeFifo, this`completions, this`image, this`responses, this`pending
      ensures Now() == Tick(old(Now()))
    {
      Count();
      TickPhy();
      CompletePending();
    }

    /** The clock moves on. */
    method Count()
      modifies this`clk
      ensures Now() == old(Now()).(clk := old(clk) + 1)
    {
      clk := clk + 1;
    }

    /**
      The consumer takes the oldest response. A read's carries what a memory holds that performed the writes
      accepted before it, in order; with the delaying PHY this is claimed while every write was unmasked.
     */
    method TakeResponse() returns (r: Response)
      requires Valid() && responses != []
      modifies this
      ensures Valid() && log == old(log)
      ensures r == old(responses)[0] && Now() == PopResponse(old(Now()))
      ensures r.kind.Read? && (!cfg.behavioral || forall i | 0 <= i < |log| :: Full(log[i].mask)) ==>
                r.line == Sequential(cfg, log, r.address, r.sequence)
    {
      ghost var before := Now();
      r := responses[0];
      if r.kind.Read? && (!cfg.behavioral || forall i | 0 <= i < |log| :: Full(log[i].mask)) {
        assert AllResponses(Now())[|delivered|] == r;
        AnswerIsSequential(Now(), log, |delivered|);
      }
      delivered := delivered + [r];
      responses := responses[1..];
      PerformServes(before, log, CallPop, Now(), log);
    }
  }
}

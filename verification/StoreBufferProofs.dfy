/** Each step of the store buffer keeps its invariant; hence every read sees a sequential memory. */
module StoreBufferProofs {
  import opened Lines
  import opened StoreBuffer

  lemma AppendKeepsOld(cfg: Config, s: State, w: Request, a: nat, k: nat)
    requires LogBounded(s) && w.sequence == s.next
    ensures k <= s.next ==> Sequential(cfg, s.log + [w], a, k) == Sequential(cfg, s.log, a, k)
    ensures Sequential(cfg, s.log + [w], a, s.next + 1) == ApplyAt(Sequential(cfg, s.log, a, s.next), w, a)
  {
    SequentialAppend(cfg, s.log, w, a, k);
    SequentialAppend(cfg, s.log, w, a, s.next + 1);
    SequentialSettled(cfg, s.log, a, s.next, s.next + 1);
  }

  // ---------------------------------------------------------------- frames

  /** The step may change `held` only in ways that keep every queued write as it was. */
  lemma MatchedFrame(cfg: Config, s: State, t: State)
    requires Matched(cfg, s) && t.buffered == s.buffered
    requires forall k: nat :: Queued(s, k, Write) <==> Queued(t, k, Write)
    requires forall k: nat | Queued(s, k, Write) :: k in t.held && t.held[k].request == s.held[k].request
    ensures Matched(cfg, t)
  {
    forall a | a in t.buffered
      ensures Queued(t, t.buffered[a].owner, Write)
    {
      assert Queued(s, s.buffered[a].owner, Write);
    }
  }

  lemma PhyFrame(cfg: Config, s: State, t: State)
    requires PhyHolds(cfg, s) && t.fifo == s.fifo && t.captured == s.captured
    requires forall k | k in s.held && s.held[k].place.InPending? :: k in t.held && t.held[k] == s.held[k]
    ensures PhyHolds(cfg, t)
  {
  }

  // ---------------------------------------------------------------- accepting a read

  lemma AcceptReadConserved(cfg: Config, s: State, id: nat, a: nat, completion: nat)
    requires Conserved(s) && LogBounded(s)
    ensures Conserved(AcceptRead(cfg, s, id, a, completion)) && LogBounded(AcceptRead(cfg, s, id, a, completion))
  {
  }

  lemma AcceptReadPlaced(cfg: Config, s: State, id: nat, a: nat, completion: nat)
    requires WellPlaced(cfg, s)
    ensures WellPlaced(cfg, AcceptRead(cfg, s, id, a, completion))
  {
  }

  lemma AcceptReadMatched(cfg: Config, s: State, id: nat, a: nat, completion: nat)
    requires Matched(cfg, s) && s.next !in s.held
    ensures Matched(cfg, AcceptRead(cfg, s, id, a, completion))
  {
    MatchedFrame(cfg, s, AcceptRead(cfg, s, id, a, completion));
  }

  lemma AcceptReadPhy(cfg: Config, s: State, id: nat, a: nat, completion: nat)
    requires PhyHolds(cfg, s) && s.next !in s.held
    ensures PhyHolds(cfg, AcceptRead(cfg, s, id, a, completion))
  {
    PhyFrame(cfg, s, AcceptRead(cfg, s, id, a, completion));
  }

  lemma AcceptReadStructure(cfg: Config, s: State, id: nat, a: nat, completion: nat)
    requires Structure(cfg, s)
    ensures Structure(cfg, AcceptRead(cfg, s, id, a, completion))
  {
    AcceptReadConserved(cfg, s, id, a, completion);
    AcceptReadPlaced(cfg, s, id, a, completion);
    assert s.next !in s.held;
    AcceptReadClean(cfg, s, id, a, completion);
    AcceptReadMatched(cfg, s, id, a, completion);
    AcceptReadPhy(cfg, s, id, a, completion);
  }

  lemma AcceptReadClean(cfg: Config, s: State, id: nat, a: nat, completion: nat)
    requires PhyHolds(cfg, s) && Clean(cfg, s) && Matched(cfg, s)
    ensures Clean(cfg, AcceptRead(cfg, s, id, a, completion))
  {
    var t := AcceptRead(cfg, s, id, a, completion);
    assert Unmasked(t) ==> Unmasked(s);
    if Hit(s.buffered, a) && Full(s.buffered[a].mask) {
      assert ForwardSafe(s.fifo, a, s.buffered[a].mask);
    }
  }

  /** What a read accepted now must return is what the buffers hold now. */
  lemma ReadValue(cfg: Config, s: State, a: nat)
    requires Matched(cfg, s) && Current(cfg, s)
    ensures !Hit(s.buffered, a) ==> Settled(cfg, s, a) == Sequential(cfg, s.log, a, s.next)
    ensures Hit(s.buffered, a) && ForwardSafe(s.fifo, a, s.buffered[a].mask) ==>
              Cover(Lookup(cfg, s.image, a), s.buffered, a) == Sequential(cfg, s.log, a, s.next)
  {
    assert Cover(Settled(cfg, s, a), s.buffered, a) == Sequential(cfg, s.log, a, s.next);
    if Hit(s.buffered, a) {
      if ForwardSafe(s.fifo, a, s.buffered[a].mask) {
        DrainHidden(Lookup(cfg, s.image, a), s.fifo, a, s.buffered[a].data, s.buffered[a].mask);
      }
    } else if a in s.buffered {
      OverlaySilent(Settled(cfg, s, a), s.buffered[a].data, s.buffered[a].mask);
    }
  }

  lemma CurrentNext(cfg: Config, s: State, t: State)
    requires Current(cfg, s) && LogBounded(s)
    requires t.log == s.log && t.image == s.image && t.fifo == s.fifo && t.buffered == s.buffered && s.next <= t.next
    ensures Current(cfg, t)
  {
    forall b: nat
      ensures Cover(Settled(cfg, t, b), t.buffered, b) == Sequential(cfg, t.log, b, t.next)
    {
      assert Cover(Settled(cfg, s, b), s.buffered, b) == Sequential(cfg, s.log, b, s.next);
      SequentialSettled(cfg, s.log, b, s.next, t.next);
    }
  }

  lemma AcceptReadGuarded(cfg: Config, s: State, id: nat, a: nat, completion: nat)
    requires Guarded(cfg, s) && Matched(cfg, s) && Current(cfg, s) && PhyHolds(cfg, s) && s.next !in s.held
    ensures Guarded(cfg, AcceptRead(cfg, s, id, a, completion))
  {
    var t := AcceptRead(cfg, s, id, a, completion);
    ReadValue(cfg, s, a);
    forall k: nat | OpenRead(t, k)
      ensures GuardedRead(cfg, t, k)
    {
      if k != s.next { AcceptReadLeaves(cfg, s, id, a, completion, k); }
    }
  }

  /** A read waiting before is as well guarded as it was. */
  lemma AcceptReadLeaves(cfg: Config, s: State, id: nat, a: nat, completion: nat, k: nat)
    requires Guarded(cfg, s) && k != s.next && OpenRead(AcceptRead(cfg, s, id, a, completion), k)
    ensures GuardedRead(cfg, AcceptRead(cfg, s, id, a, completion), k)
  {
    assert OpenRead(s, k) && GuardedRead(cfg, s, k);
  }

  lemma AcceptReadAnswers(cfg: Config, s: State, id: nat, a: nat, completion: nat)
    requires Matched(cfg, s) && Current(cfg, s) && Forwarded(cfg, s) && Answered(cfg, s)
    ensures
      var t := AcceptRead(cfg, s, id, a, completion);
      Forwarded(cfg, t) && Answered(cfg, t)
  {
    ReadValue(cfg, s, a);
  }

  lemma AcceptReadValues(cfg: Config, s: State, id: nat, a: nat, completion: nat)
    requires Values(cfg, s) && Matched(cfg, s) && PhyHolds(cfg, s) && LogBounded(s) && s.next !in s.held
    ensures Values(cfg, AcceptRead(cfg, s, id, a, completion))
  {
    AcceptReadGuarded(cfg, s, id, a, completion);
    CurrentNext(cfg, s, AcceptRead(cfg, s, id, a, completion));
    AcceptReadAnswers(cfg, s, id, a, completion);
  }

  // ---------------------------------------------------------------- accepting a write

  lemma CoalescePlaced(cfg: Config, s: State, id: nat, a: nat, data: Bytes, mask: Mask, completion: nat)
    requires Conserved(s) && WellPlaced(cfg, s) && LogBounded(s) && MayAcceptWrite(cfg, s, a, data, mask) && a in s.buffered
    ensures
      var t := CoalesceWrite(s, id, a, data, mask, completion);
      Conserved(t) && WellPlaced(cfg, t) && LogBounded(t)
  {
  }

  lemma CoalesceMatched(cfg: Config, s: State, id: nat, a: nat, data: Bytes, mask: Mask, completion: nat)
    requires Matched(cfg, s) && s.next !in s.held && a in s.buffered
    ensures Matched(cfg, CoalesceWrite(s, id, a, data, mask, completion))
  {
    var t := CoalesceWrite(s, id, a, data, mask, completion);
    assert forall k: nat :: Queued(s, k, Write) <==> Queued(t, k, Write);
    forall b | b in t.buffered
      ensures Queued(t, t.buffered[b].owner, Write)
    {
      assert Queued(s, s.buffered[b].owner, Write);
    }
  }

  lemma CoalesceClean(cfg: Config, s: State, id: nat, a: nat, data: Bytes, mask: Mask, completion: nat)
    requires Clean(cfg, s) && a in s.buffered
    ensures Clean(cfg, CoalesceWrite(s, id, a, data, mask, completion))
  {
    var t := CoalesceWrite(s, id, a, data, mask, completion);
    if Unmasked(t) {
      assert forall i | 0 <= i < |s.log| :: s.log[i] == t.log[i];
      assert Full(s.buffered[a].mask);
    }
  }

  lemma CoalesceCurrent(cfg: Config, s: State, id: nat, a: nat, data: Bytes, mask: Mask, completion: nat)
    requires Current(cfg, s) && LogBounded(s) && Matched(cfg, s) && MayAcceptWrite(cfg, s, a, data, mask) && a in s.buffered
    ensures Current(cfg, CoalesceWrite(s, id, a, data, mask, completion))
  {
    var t := CoalesceWrite(s, id, a, data, mask, completion);
    var w := Request(id, Write, a, s.next, data, mask, true, completion);
    forall b: nat
      ensures Cover(Settled(cfg, t, b), t.buffered, b) == Sequential(cfg, t.log, b, t.next)
    {
      assert Cover(Settled(cfg, s, b), s.buffered, b) == Sequential(cfg, s.log, b, s.next);
      AppendKeepsOld(cfg, s, w, b, 0);
      if b == a {
        OverlayMerge(Settled(cfg, s, a), s.buffered[a].data, s.buffered[a].mask, data, mask);
      }
    }
  }

  lemma CoalesceGuarded(cfg: Config, s: State, id: nat, a: nat, data: Bytes, mask: Mask, completion: nat)
    requires Guarded(cfg, s) && LogBounded(s) && Conserved(s) && MayAcceptWrite(cfg, s, a, data, mask) && a in s.buffered
    ensures Guarded(cfg, CoalesceWrite(s, id, a, data, mask, completion))
  {
    var t := CoalesceWrite(s, id, a, data, mask, completion);
    forall k: nat | OpenRead(t, k)
      ensures GuardedRead(cfg, t, k)
    {
      assert OpenRead(s, k) && GuardedRead(cfg, s, k) && ReadAt(s.held[k], s.held[k].request.address);
      AppendKeepsOld(cfg, s, t.log[|s.log|], s.held[k].request.address, k);
    }
  }

  /** Appending to the log changes nothing that older reads were or will be answered with. */
  lemma AnswersAppend(cfg: Config, s: State, t: State, w: Request)
    requires Forwarded(cfg, s) && Answered(cfg, s) && LogBounded(s) && Conserved(s)
    requires w.sequence == s.next && w.kind.Write? && t.log == s.log + [w] && t.emitted == s.emitted && t.tainted == s.tainted
    requires forall k | k in t.held :: (k in s.held && t.held[k] == s.held[k]) || t.held[k].request.kind.Write?
    ensures Forwarded(cfg, t) && Answered(cfg, t)
  {
    forall a: nat, k: nat | k <= s.next
      ensures Sequential(cfg, t.log, a, k) == Sequential(cfg, s.log, a, k)
    {
      AppendKeepsOld(cfg, s, w, a, k);
    }
  }

  lemma CoalesceKeeps(cfg: Config, s: State, id: nat, a: nat, data: Bytes, mask: Mask, completion: nat)
    requires Inv(cfg, s) && MayAcceptWrite(cfg, s, a, data, mask) && a in s.buffered
    ensures Inv(cfg, CoalesceWrite(s, id, a, data, mask, completion))
  {
    var t := CoalesceWrite(s, id, a, data, mask, completion);
    assert s.next !in s.held;
    CoalescePlaced(cfg, s, id, a, data, mask, completion);
    CoalesceMatched(cfg, s, id, a, data, mask, completion);
    CoalesceClean(cfg, s, id, a, data, mask, completion);
    PhyFrame(cfg, s, t);
    CoalesceCurrent(cfg, s, id, a, data, mask, completion);
    CoalesceGuarded(cfg, s, id, a, data, mask, completion);
    AnswersAppend(cfg, s, t, t.log[|s.log|]);
  }

  lemma QueueWritePlaced(cfg: Config, s: State, id: nat, a: nat, data: Bytes, mask: Mask)
    requires Conserved(s) && WellPlaced(cfg, s) && LogBounded(s) && SizedBy(cfg, data, mask)
    ensures
      var t := QueueWrite(s, id, a, data, mask);
      Conserved(t) && WellPlaced(cfg, t) && LogBounded(t)
  {
  }

  lemma QueueWriteMatched(cfg: Config, s: State, id: nat, a: nat, data: Bytes, mask: Mask)
    requires Matched(cfg, s) && s.next !in s.held && a !in s.buffered && SizedBy(cfg, data, mask)
    ensures Matched(cfg, QueueWrite(s, id, a, data, mask))
  {
    var t := QueueWrite(s, id, a, data, mask);
    assert forall k: nat | k != s.next :: Queued(s, k, Write) <==> Queued(t, k, Write);
    forall b | b in t.buffered && b != a
      ensures Queued(t, t.buffered[b].owner, Write) && t.held[t.buffered[b].owner].request.address == b
    {
      assert Queued(s, s.buffered[b].owner, Write);
    }
  }

  lemma QueueWriteClean(cfg: Config, s: State, id: nat, a: nat, data: Bytes, mask: Mask)
    requires Clean(cfg, s)
    ensures Clean(cfg, QueueWrite(s, id, a, data, mask))
  {
    var t := QueueWrite(s, id, a, data, mask);
    if Unmasked(t) {
      assert forall i | 0 <= i < |s.log| :: s.log[i] == t.log[i];
      assert Full(t.log[|s.log|].mask);
    }
  }

  lemma QueueWriteCurrent(cfg: Config, s: State, id: nat, a: nat, data: Bytes, mask: Mask)
    requires Current(cfg, s) && LogBounded(s) && a !in s.buffered
    ensures Current(cfg, QueueWrite(s, id, a, data, mask))
  {
    var t := QueueWrite(s, id, a, data, mask);
    forall b: nat
      ensures Cover(Settled(cfg, t, b), t.buffered, b) == Sequential(cfg, t.log, b, t.next)
    {
      assert Cover(Settled(cfg, s, b), s.buffered, b) == Sequential(cfg, s.log, b, s.next);
      AppendKeepsOld(cfg, s, t.log[|s.log|], b, 0);
    }
  }

  lemma QueueWriteGuarded(cfg: Config, s: State, id: nat, a: nat, data: Bytes, mask: Mask)
    requires Guarded(cfg, s) && LogBounded(s) && Conserved(s) && a !in s.buffered
    ensures Guarded(cfg, QueueWrite(s, id, a, data, mask))
  {
    var t := QueueWrite(s, id, a, data, mask);
    forall k: nat | OpenRead(t, k)
      ensures GuardedRead(cfg, t, k)
    {
      assert OpenRead(s, k) && GuardedRead(cfg, s, k);
      AppendKeepsOld(cfg, s, t.log[|s.log|], s.held[k].request.address, k);
    }
  }

  lemma QueueWriteKeeps(cfg: Config, s: State, id: nat, a: nat, data: Bytes, mask: Mask)
    requires Inv(cfg, s) && SizedBy(cfg, data, mask) && a !in s.buffered
    ensures Inv(cfg, QueueWrite(s, id, a, data, mask))
  {
    var t := QueueWrite(s, id, a, data, mask);
    assert s.next !in s.held;
    QueueWritePlaced(cfg, s, id, a, data, mask);
    QueueWriteMatched(cfg, s, id, a, data, mask);
    QueueWriteClean(cfg, s, id, a, data, mask);
    PhyFrame(cfg, s, t);
    QueueWriteCurrent(cfg, s, id, a, data, mask);
    QueueWriteGuarded(cfg, s, id, a, data, mask);
    AnswersAppend(cfg, s, t, t.log[|s.log|]);
  }

  // ---------------------------------------------------------------- promotion and read issue

  /** Only places and completion times differ, and nothing issued moves back. */
  ghost predicate Moved(s: State, t: State, k: nat) {
    && k in s.held && k in t.held && t == s.(held := s.held[k := t.held[k]])
    && t.held[k].request == s.held[k].request.(completion := t.held[k].request.completion)
    && !s.held[k].place.InPending? && !s.held[k].request.bypass
  }

  lemma MovedStructure(cfg: Config, s: State, t: State, k: nat)
    requires Structure(cfg, s) && Moved(s, t, k)
    requires !t.held[k].place.InRead? && !t.held[k].place.InWrite?
    requires t.held[k].request.kind.Write? ==> !t.held[k].place.InPending? && t.held[k].request == s.held[k].request
    ensures Structure(cfg, t)
  {
    MatchedFrame(cfg, s, t);
    PhyFrame(cfg, s, t);
  }

  lemma MovedValues(cfg: Config, s: State, t: State, k: nat)
    requires PhyHolds(cfg, s) && Values(cfg, s) && LogBounded(s) && Moved(s, t, k)
    requires t.held[k].request.kind.Read? && t.held[k].place.InPending? ==> Quiet(s.fifo, t.held[k].request.address)
    ensures Values(cfg, t)
  {
    CurrentNext(cfg, s, t);
    forall j: nat | OpenRead(t, j)
      ensures GuardedRead(cfg, t, j)
    {
      assert OpenRead(s, j) && GuardedRead(cfg, s, j);
    }
  }

  lemma PromoteKeeps(cfg: Config, s: State, k: nat)
    requires Inv(cfg, s) && MayPromote(s, k)
    ensures Inv(cfg, Promote(s, k))
  {
    MovedStructure(cfg, s, Promote(s, k), k);
    MovedValues(cfg, s, Promote(s, k), k);
  }

  /** A read may only issue once no write of its address is left inside the PHY. */
  lemma IssuedQuietly(cfg: Config, s: State, k: nat)
    requires PhyHolds(cfg, s) && MayIssueRead(cfg, s, k)
    ensures Quiet(s.fifo, s.held[k].request.address)
  {
    forall i | 0 <= i < |s.fifo|
      ensures s.fifo[i].address != s.held[k].request.address
    {
      assert s.held[s.fifo[i].sequence] == Entry(s.fifo[i], InPending);
    }
  }

  lemma IssueReadKeeps(cfg: Config, s: State, k: nat, completion: nat)
    requires Inv(cfg, s) && MayIssueRead(cfg, s, k)
    ensures Inv(cfg, IssueRead(s, k, completion))
  {
    IssuedQuietly(cfg, s, k);
    MovedStructure(cfg, s, IssueRead(s, k, completion), k);
    MovedValues(cfg, s, IssueRead(s, k, completion), k);
  }

  // ---------------------------------------------------------------- write issue

  lemma IssueWritePlaced(cfg: Config, s: State, k: nat, completion: nat)
    requires Conserved(s) && WellPlaced(cfg, s) && LogBounded(s) && Matched(cfg, s) && MayIssueWrite(s, k)
    ensures
      var t := IssueWrite(cfg, s, k, completion);
      Conserved(t) && WellPlaced(cfg, t) && LogBounded(t)
  {
  }

  lemma IssueWriteClean(cfg: Config, s: State, k: nat, completion: nat)
    requires Matched(cfg, s) && Clean(cfg, s) && MayIssueWrite(s, k)
    ensures Clean(cfg, IssueWrite(cfg, s, k, completion))
  {
    var t := IssueWrite(cfg, s, k, completion);
    assert Unmasked(t) <==> Unmasked(s);
  }

  lemma IssueWriteMatched(cfg: Config, s: State, k: nat, completion: nat)
    requires Matched(cfg, s) && MayIssueWrite(s, k)
    ensures Matched(cfg, IssueWrite(cfg, s, k, completion))
  {
    var t := IssueWrite(cfg, s, k, completion);
    forall j: nat | Queued(t, j, Write)
      ensures t.held[j].request.address in t.buffered && t.buffered[t.held[j].request.address].owner == j
    {
      IssueWriteLeaves(cfg, s, k, completion, j);
    }
    forall b | b in t.buffered
      ensures Queued(t, t.buffered[b].owner, Write) && t.held[t.buffered[b].owner].request.address == b
    {
      assert Queued(s, s.buffered[b].owner, Write);
    }
  }

  /** Another queued write is still queued and still buffered. */
  lemma IssueWriteLeaves(cfg: Config, s: State, k: nat, completion: nat, j: nat)
    requires Matched(cfg, s) && MayIssueWrite(s, k) && Queued(IssueWrite(cfg, s, k, completion), j, Write)
    ensures
      var t := IssueWrite(cfg, s, k, completion);
      t.held[j].request.address in t.buffered && t.buffered[t.held[j].request.address].owner == j
  {
    assert s.buffered[s.held[k].request.address].owner == k;
    assert Queued(s, j, Write);
  }

  lemma IssueWritePhy(cfg: Config, s: State, k: nat, completion: nat)
    requires PhyHolds(cfg, s) && WellPlaced(cfg, s) && Matched(cfg, s) && MayIssueWrite(s, k)
    ensures PhyHolds(cfg, IssueWrite(cfg, s, k, completion))
  {
    var t := IssueWrite(cfg, s, k, completion);
    forall i | 0 <= i < |s.fifo|
      ensures s.fifo[i].sequence != k
    {
      assert s.held[s.fifo[i].sequence].place.InPending?;
    }
    assert !s.held[k].request.bypass;
    assert k !in s.captured;
  }

  /** Moving the merged write on changes what is settled at its own address, by exactly that write. */
  lemma IssueWriteSettled(cfg: Config, s: State, k: nat, completion: nat, b: nat)
    requires PhyHolds(cfg, s) && MayIssueWrite(s, k)
    ensures
      var t := IssueWrite(cfg, s, k, completion);
      Settled(cfg, t, b) == if b == s.held[k].request.address then Cover(Settled(cfg, s, b), s.buffered, b) else Settled(cfg, s, b)
  {
    var t := IssueWrite(cfg, s, k, completion);
    if cfg.behavioral {
      DrainAppend(Lookup(cfg, s.image, b), s.fifo, t.held[k].request, b);
    } else {
      assert s.fifo == [];
    }
  }

  lemma IssueWriteCurrent(cfg: Config, s: State, k: nat, completion: nat)
    requires Current(cfg, s) && PhyHolds(cfg, s) && MayIssueWrite(s, k)
    ensures Current(cfg, IssueWrite(cfg, s, k, completion))
  {
    var t := IssueWrite(cfg, s, k, completion);
    forall b: nat
      ensures Cover(Settled(cfg, t, b), t.buffered, b) == Sequential(cfg, t.log, b, t.next)
    {
      assert Cover(Settled(cfg, s, b), s.buffered, b) == Sequential(cfg, s.log, b, s.next);
      IssueWriteSettled(cfg, s, k, completion, b);
    }
  }

  /** A write that is allowed to issue past a waiting read of its address carries no byte at all. */
  lemma IssueWriteHarmless(cfg: Config, s: State, k: nat, j: nat)
    requires Guarded(cfg, s) && Matched(cfg, s) && MayIssueWrite(s, k)
    requires OpenRead(s, j) && s.held[j].request.address == s.held[k].request.address
    ensures Silent(s.buffered[s.held[k].request.address].mask)
  {
    assert ReadAt(s.held[j], s.held[k].request.address);
    assert GuardedRead(cfg, s, j);
  }

  lemma IssueWriteGuarded(cfg: Config, s: State, k: nat, completion: nat)
    requires Guarded(cfg, s) && PhyHolds(cfg, s) && Matched(cfg, s) && MayIssueWrite(s, k)
    ensures Guarded(cfg, IssueWrite(cfg, s, k, completion))
  {
    var t := IssueWrite(cfg, s, k, completion);
    forall j: nat | OpenRead(t, j)
      ensures GuardedRead(cfg, t, j)
    {
      var b := s.held[j].request.address;
      assert OpenRead(s, j) && GuardedRead(cfg, s, j);
      IssueWriteSettled(cfg, s, k, completion, b);
      if b == s.held[k].request.address {
        IssueWriteHarmless(cfg, s, k, j);
        OverlaySilent(Settled(cfg, s, b), s.buffered[b].data, s.buffered[b].mask);
      }
    }
  }

  lemma IssueWriteKeeps(cfg: Config, s: State, k: nat, completion: nat)
    requires Inv(cfg, s) && MayIssueWrite(s, k)
    ensures Inv(cfg, IssueWrite(cfg, s, k, completion))
  {
    IssueWritePlaced(cfg, s, k, completion);
    IssueWriteClean(cfg, s, k, completion);
    IssueWriteMatched(cfg, s, k, completion);
    IssueWritePhy(cfg, s, k, completion);
    IssueWriteCurrent(cfg, s, k, completion);
    IssueWriteGuarded(cfg, s, k, completion);
  }

  // ---------------------------------------------------------------- the PHY and completion

  lemma CaptureKeeps(cfg: Config, s: State, k: nat)
    requires Inv(cfg, s) && MayCapture(cfg, s, k)
    ensures Inv(cfg, Capture(cfg, s, k))
  {
    var t := Capture(cfg, s, k);
    assert OpenRead(s, k) && GuardedRead(cfg, s, k);
    DrainQuiet(Lookup(cfg, s.image, s.held[k].request.address), s.fifo, s.held[k].request.address);
    CaptureStructure(cfg, s, k);
    CurrentNext(cfg, s, t);
    CaptureGuarded(cfg, s, k);
  }

  lemma CaptureStructure(cfg: Config, s: State, k: nat)
    requires Structure(cfg, s) && MayCapture(cfg, s, k)
    ensures Structure(cfg, Capture(cfg, s, k))
  {
    MatchedFrame(cfg, s, Capture(cfg, s, k));
    CapturePhy(cfg, s, k);
  }

  lemma CapturePhy(cfg: Config, s: State, k: nat)
    requires PhyHolds(cfg, s) && MayCapture(cfg, s, k)
    ensures PhyHolds(cfg, Capture(cfg, s, k))
  {
    forall i | 0 <= i < |s.fifo|
      ensures s.fifo[i].sequence != k
    {
      assert s.held[s.fifo[i].sequence] == Entry(s.fifo[i], InPending);
    }
  }

  lemma CaptureGuarded(cfg: Config, s: State, k: nat)
    requires Guarded(cfg, s) && MayCapture(cfg, s, k)
    requires Lookup(cfg, s.image, s.held[k].request.address) == Settled(cfg, s, s.held[k].request.address)
    ensures Guarded(cfg, Capture(cfg, s, k))
  {
    var t := Capture(cfg, s, k);
    forall j: nat | OpenRead(t, j)
      ensures GuardedRead(cfg, t, j)
    {
      assert OpenRead(s, j) && GuardedRead(cfg, s, j);
    }
  }

  lemma DrainOneSettled(cfg: Config, s: State, b: nat)
    requires s.fifo != []
    ensures Settled(cfg, DrainOne(cfg, s), b) == Settled(cfg, s, b)
  {
  }

  lemma DrainOneStructure(cfg: Config, s: State)
    requires Structure(cfg, s) && s.fifo != []
    ensures Structure(cfg, DrainOne(cfg, s))
  {
    MatchedFrame(cfg, s, DrainOne(cfg, s));
    DrainOnePhy(cfg, s);
  }

  lemma DrainOnePhy(cfg: Config, s: State)
    requires PhyHolds(cfg, s) && s.fifo != []
    ensures PhyHolds(cfg, DrainOne(cfg, s))
  {
    var t := DrainOne(cfg, s);
    assert forall i | 0 <= i < |t.fifo| :: t.fifo[i] == s.fifo[i + 1];
  }

  lemma DrainOneValues(cfg: Config, s: State)
    requires Values(cfg, s) && PhyHolds(cfg, s) && s.fifo != []
    ensures Values(cfg, DrainOne(cfg, s))
  {
    var t := DrainOne(cfg, s);
    forall b: nat
      ensures Cover(Settled(cfg, t, b), t.buffered, b) == Sequential(cfg, t.log, b, t.next)
    {
      assert Cover(Settled(cfg, s, b), s.buffered, b) == Sequential(cfg, s.log, b, s.next);
      DrainOneSettled(cfg, s, b);
    }
    assert forall i | 0 <= i < |t.fifo| :: t.fifo[i] == s.fifo[i + 1];
    forall j: nat | OpenRead(t, j)
      ensures GuardedRead(cfg, t, j)
    {
      assert OpenRead(s, j) && GuardedRead(cfg, s, j);
      DrainOneSettled(cfg, s, s.held[j].request.address);
    }
  }

  lemma CompleteStructure(cfg: Config, s: State, k: nat)
    requires Structure(cfg, s) && MayComplete(cfg, s, k)
    ensures Structure(cfg, Complete(cfg, s, k))
  {
    MatchedFrame(cfg, s, Complete(cfg, s, k));
    CompletePhy(cfg, s, k);
    assert Unmasked(Complete(cfg, s, k)) <==> Unmasked(s);
  }

  lemma CompletePhy(cfg: Config, s: State, k: nat)
    requires PhyHolds(cfg, s) && MayComplete(cfg, s, k)
    ensures PhyHolds(cfg, Complete(cfg, s, k))
  {
    forall i | 0 <= i < |s.fifo|
      ensures s.fifo[i].sequence != k
    {
      assert s.held[s.fifo[i].sequence] == Entry(s.fifo[i], InPending);
    }
  }

  /** The line put in a read's response is the reference memory's line. */
  lemma ResponseIsSequential(cfg: Config, s: State, k: nat)
    requires Guarded(cfg, s) && Forwarded(cfg, s) && PhyHolds(cfg, s) && MayComplete(cfg, s, k)
    requires s.held[k].request.kind.Read? && k !in s.tainted
    ensures ResponseOf(cfg, s, k).line == Sequential(cfg, s.log, s.held[k].request.address, k)
  {
    if !s.held[k].request.bypass {
      assert OpenRead(s, k) && GuardedRead(cfg, s, k);
    }
  }

  lemma CompleteValues(cfg: Config, s: State, k: nat)
    requires Values(cfg, s) && PhyHolds(cfg, s) && LogBounded(s) && MayComplete(cfg, s, k)
    ensures Values(cfg, Complete(cfg, s, k))
  {
    var t := Complete(cfg, s, k);
    CurrentNext(cfg, s, t);
    if s.held[k].request.kind.Read? && k !in s.tainted { ResponseIsSequential(cfg, s, k); }
    forall j: nat | OpenRead(t, j)
      ensures GuardedRead(cfg, t, j)
    {
      assert OpenRead(s, j) && GuardedRead(cfg, s, j);
    }
  }

  // ---------------------------------------------------------------- runs

  /** One step of the controller or its PHY. */
  datatype Event =
    | DoAcceptRead(id: nat, address: nat, completion: nat)
    | DoAcceptWrite(id: nat, address: nat, data: Bytes, mask: Mask, completion: nat)
    | DoPromote(k: nat)
    | DoIssueRead(k: nat, completion: nat)
    | DoIssueWrite(k: nat, completion: nat)
    | DoCapture(k: nat)
    | DoDrain
    | DoComplete(k: nat)

  predicate Allowed(cfg: Config, s: State, e: Event) {
    match e
    case DoAcceptRead(_, _, _) => true
    case DoAcceptWrite(_, a, data, mask, _) => MayAcceptWrite(cfg, s, a, data, mask)
    case DoPromote(k) => MayPromote(s, k)
    case DoIssueRead(k, _) => MayIssueRead(cfg, s, k)
    case DoIssueWrite(k, _) => MayIssueWrite(s, k)
    case DoCapture(k) => MayCapture(cfg, s, k)
    case DoDrain => s.fifo != []
    case DoComplete(k) => MayComplete(cfg, s, k)
  }

  function Step(cfg: Config, s: State, e: Event): State
    requires Allowed(cfg, s, e)
  {
    match e
    case DoAcceptRead(id, a, completion) => AcceptRead(cfg, s, id, a, completion)
    case DoAcceptWrite(id, a, data, mask, completion) => AcceptWrite(s, id, a, data, mask, completion)
    case DoPromote(k) => Promote(s, k)
    case DoIssueRead(k, completion) => IssueRead(s, k, completion)
    case DoIssueWrite(k, completion) => IssueWrite(cfg, s, k, completion)
    case DoCapture(k) => Capture(cfg, s, k)
    case DoDrain => DrainOne(cfg, s)
    case DoComplete(k) => Complete(cfg, s, k)
  }

  lemma StepKeeps(cfg: Config, s: State, e: Event)
    requires Inv(cfg, s) && Allowed(cfg, s, e)
    ensures Inv(cfg, Step(cfg, s, e))
  {
    match e
    case DoAcceptRead(id, a, completion) =>
      AcceptReadStructure(cfg, s, id, a, completion);
      assert s.next !in s.held;
      AcceptReadValues(cfg, s, id, a, completion);
    case DoAcceptWrite(id, a, data, mask, completion) =>
      if a in s.buffered { CoalesceKeeps(cfg, s, id, a, data, mask, completion); }
      else { QueueWriteKeeps(cfg, s, id, a, data, mask); }
    case DoPromote(k) => PromoteKeeps(cfg, s, k);
    case DoIssueRead(k, completion) => IssueReadKeeps(cfg, s, k, completion);
    case DoIssueWrite(k, completion) => IssueWriteKeeps(cfg, s, k, completion);
    case DoCapture(k) => CaptureKeeps(cfg, s, k);
    case DoDrain => DrainOneStructure(cfg, s); DrainOneValues(cfg, s);
    case DoComplete(k) => CompleteStructure(cfg, s, k); CompleteValues(cfg, s, k);
  }

  /** The states a controller goes through from reset, under some sequence of events. */
  ghost predicate Run(cfg: Config, states: seq<State>, events: seq<Event>) {
    && |states| == |events| + 1 && states[0] == Initial
    && forall i | 0 <= i < |events| :: Allowed(cfg, states[i], events[i]) && states[i + 1] == Step(cfg, states[i], events[i])
  }

  lemma {:induction false} RunKeeps(cfg: Config, states: seq<State>, events: seq<Event>, n: nat)
    requires Run(cfg, states, events) && n < |states|
    ensures Inv(cfg, states[n])
  {
    if n == 0 {
      InitialHolds(cfg);
    } else {
      RunKeeps(cfg, states, events, n - 1);
      StepKeeps(cfg, states[n - 1], events[n - 1]);
    }
  }

  lemma InitialHolds(cfg: Config)
    ensures Inv(cfg, Initial)
  {
  }

  /**
    The main theorem. In every run, every read response carries exactly the bytes and the
    initialized mask of a memory that performed, in order, the writes accepted before the read.
    With the direct path this holds of all requests; with the delaying PHY it holds whenever the
    accepted writes are unmasked.
   */
  lemma ReadsSeeSequentialMemory(cfg: Config, states: seq<State>, events: seq<Event>, n: nat, k: nat)
    requires Run(cfg, states, events) && n < |states|
    requires !cfg.behavioral || Unmasked(states[n])
    requires k in states[n].emitted && states[n].emitted[k].kind.Read?
    ensures states[n].emitted[k].line == Sequential(cfg, states[n].log, states[n].emitted[k].address, k)
  {
    RunKeeps(cfg, states, events, n);
  }

  /** Event `m` forwarded read `k` although a write inside the PHY selects a byte that the buffered write does not. */
  ghost predicate UnsafeForward(states: seq<State>, events: seq<Event>, m: nat, k: nat) {
    && m < |events| && m < |states| && events[m].DoAcceptRead? && states[m].next == k
    && Hit(states[m].buffered, events[m].address)
    && !ForwardSafe(states[m].fifo, events[m].address, states[m].buffered[events[m].address].mask)
  }

  lemma {:induction false} TaintedWasUnsafe(cfg: Config, states: seq<State>, events: seq<Event>, n: nat, k: nat)
    requires Run(cfg, states, events) && n < |states| && k in states[n].tainted
    ensures exists m: nat :: m < n && UnsafeForward(states, events, m, k)
  {
    if n > 0 {
      var s, e := states[n - 1], events[n - 1];
      assert Allowed(cfg, s, e) && states[n] == Step(cfg, s, e);
      if k in s.tainted {
        TaintedWasUnsafe(cfg, states, events, n - 1, k);
      } else {
        assert UnsafeForward(states, events, n - 1, k);
      }
    }
  }

  /**
    With any byte masks and either PHY, only a read forwarded past an uncovered write of the PHY can
    return something else than the sequential memory's line.
   */
  lemma OnlyUnsafeForwardsDiffer(cfg: Config, states: seq<State>, events: seq<Event>, n: nat, k: nat)
    requires Run(cfg, states, events) && n < |states|
    requires k in states[n].emitted && states[n].emitted[k].kind.Read?
    requires forall m: nat | m < n :: !UnsafeForward(states, events, m, k)
    ensures states[n].emitted[k].line == Sequential(cfg, states[n].log, states[n].emitted[k].address, k)
  {
    RunKeeps(cfg, states, events, n);
    if k in states[n].tainted { TaintedWasUnsafe(cfg, states, events, n, k); }
  }

  /** In every run each accepted request is waiting in one place or has been answered, never both. */
  lemma NothingLostNothingDuplicated(cfg: Config, states: seq<State>, events: seq<Event>, n: nat, k: nat)
    requires Run(cfg, states, events) && n < |states|
    ensures 0 < k < states[n].next <==> (k in states[n].held) != (k in states[n].emitted)
  {
    RunKeeps(cfg, states, events, n);
  }

  /** The write buffer maps exactly the addresses of the writes still queued, each to its own write. */
  lemma BufferMatchesQueue(cfg: Config, states: seq<State>, events: seq<Event>, n: nat, a: nat)
    requires Run(cfg, states, events) && n < |states|
    ensures a in states[n].buffered <==> exists k :: Queued(states[n], k, Write) && states[n].held[k].request.address == a
    ensures forall j: nat, k: nat | Queued(states[n], j, Write) && Queued(states[n], k, Write) ::
              states[n].held[j].request.address == states[n].held[k].request.address ==> j == k
  {
    RunKeeps(cfg, states, events, n);
    if a in states[n].buffered {
      assert Queued(states[n], states[n].buffered[a].owner, Write);
    }
  }

  /** Some run from reset ends in `s`. */
  ghost predicate Reachable(cfg: Config, s: State) {
    exists states: seq<State>, events: seq<Event> :: Run(cfg, states, events) && states[|events|] == s
  }

  lemma ReachableInitial(cfg: Config)
    ensures Reachable(cfg, Initial)
  {
    assert Run(cfg, [Initial], []);
  }

  lemma ReachableStep(cfg: Config, s: State, e: Event)
    requires Reachable(cfg, s) && Allowed(cfg, s, e)
    ensures Reachable(cfg, Step(cfg, s, e))
  {
    var states: seq<State>, events: seq<Event> :| Run(cfg, states, events) && states[|events|] == s;
    assert Run(cfg, states + [Step(cfg, s, e)], events + [e]);
  }

  lemma ReachableKeeps(cfg: Config, s: State)
    requires Reachable(cfg, s)
    ensures Inv(cfg, s)
  {
    var states: seq<State>, events: seq<Event> :| Run(cfg, states, events) && states[|events|] == s;
    RunKeeps(cfg, states, events, |events|);
  }

  /** The few facts about a reachable state that the queues rely on. */
  lemma ReachableFacts(cfg: Config, s: State)
    requires Reachable(cfg, s)
    ensures s.next !in s.held && s.next !in s.emitted
    ensures forall k | k in s.held :: k !in s.emitted && k < s.next
    ensures WellPlaced(cfg, s)
    ensures forall i | 0 <= i < |s.fifo| :: s.fifo[i].sequence in s.held && s.held[s.fifo[i].sequence].request.kind.Write?
    ensures forall k: nat | Queued(s, k, Write) :: s.held[k].request.address in s.buffered
    ensures forall k | k in s.captured :: k in s.held && s.held[k].place.InPending?
    ensures s.fifo != [] ==> cfg.behavioral
  {
    ReachableKeeps(cfg, s);
  }
}

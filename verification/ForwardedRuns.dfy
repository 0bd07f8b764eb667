/**
  Which runs answer a read right whatever bytes the writes carry: those in which it was not forwarded past an
  uncovered write of the PHY, and no others.
 */
module ForwardedRuns {
  import opened Lines
  import opened StoreBuffer
  import opened StoreBufferProofs

  // ---------------------------------------------------------------- alike but for the bytes

  predicate AlikeLines(l: Line, m: Line) { |l.bytes| == |m.bytes| && l.init == m.init }

  predicate AlikeRequests(r: Request, q: Request) { q == r.(data := q.data) && |q.data| == |r.data| }

  predicate AlikeBuffered(b: Buffered, c: Buffered) { c == b.(data := c.data) && |c.data| == |b.data| }

  predicate AlikeResponses(r: Response, q: Response) { q == r.(line := q.line) && AlikeLines(r.line, q.line) }

  ghost predicate AlikeImages(l: map<nat, Line>, m: map<nat, Line>) {
    l.Keys == m.Keys && forall a | a in l :: AlikeLines(l[a], m[a])
  }

  ghost predicate AlikeQueues(q: seq<Request>, r: seq<Request>) {
    |q| == |r| && forall i | 0 <= i < |q| :: AlikeRequests(q[i], r[i])
  }

  ghost predicate AlikeHeld(h: map<nat, Entry>, g: map<nat, Entry>) {
    h.Keys == g.Keys && forall k | k in h :: h[k].place == g[k].place && AlikeRequests(h[k].request, g[k].request)
  }

  ghost predicate AlikeBuffers(b: map<nat, Buffered>, c: map<nat, Buffered>) {
    b.Keys == c.Keys && forall a | a in b :: AlikeBuffered(b[a], c[a])
  }

  ghost predicate AlikeAnswers(e: map<nat, Response>, f: map<nat, Response>) {
    e.Keys == f.Keys && forall k | k in e :: AlikeResponses(e[k], f[k])
  }

  ghost predicate Alike(s: State, t: State) {
    && s.next == t.next && AlikeHeld(s.held, t.held) && AlikeBuffers(s.buffered, t.buffered) && AlikeImages(s.image, t.image)
    && AlikeQueues(s.fifo, t.fifo) && AlikeImages(s.captured, t.captured) && AlikeQueues(s.log, t.log)
    && AlikeAnswers(s.emitted, t.emitted) && s.tainted == t.tainted
  }

  /** The same event, a write carrying other bytes perhaps. */
  predicate AlikeEvents(e: Event, f: Event) {
    if e.DoAcceptWrite? then f.DoAcceptWrite? && f == e.(data := f.data) && |f.data| == |e.data| else f == e
  }

  ghost predicate SameShape(events: seq<Event>, other: seq<Event>) {
    |events| == |other| && forall i | 0 <= i < |events| :: AlikeEvents(events[i], other[i])
  }

  lemma LookupAlike(cfg: Config, l: map<nat, Line>, m: map<nat, Line>, a: nat)
    requires AlikeImages(l, m)
    ensures AlikeLines(Lookup(cfg, l, a), Lookup(cfg, m, a))
  {
  }

  lemma CoverAlike(cfg: Config, s: State, t: State, a: nat)
    requires Alike(s, t)
    ensures AlikeLines(Cover(Lookup(cfg, s.image, a), s.buffered, a), Cover(Lookup(cfg, t.image, a), t.buffered, a))
  {
    LookupAlike(cfg, s.image, t.image, a);
  }

  lemma SafetyAlike(s: State, t: State, a: nat)
    requires Alike(s, t)
    ensures Hit(s.buffered, a) <==> Hit(t.buffered, a)
    ensures a in s.buffered ==> (ForwardSafe(s.fifo, a, s.buffered[a].mask) <==> ForwardSafe(t.fifo, a, t.buffered[a].mask))
  {
  }

  /** A new held read, alike in both. */
  lemma HeldAlike(s: State, t: State, x: Entry, y: Entry, tainted: set<nat>)
    requires Alike(s, t) && x.place == y.place && AlikeRequests(x.request, y.request)
    ensures Alike(s.(next := s.next + 1, held := s.held[s.next := x], tainted := tainted),
                  t.(next := t.next + 1, held := t.held[t.next := y], tainted := tainted))
  {
  }

  lemma ForwardAlike(cfg: Config, s: State, t: State, id: nat, a: nat, completion: nat)
    requires Alike(s, t) && Hit(s.buffered, a) && Hit(t.buffered, a)
    requires ForwardSafe(s.fifo, a, s.buffered[a].mask) <==> ForwardSafe(t.fifo, a, t.buffered[a].mask)
    ensures Alike(AcceptRead(cfg, s, id, a, completion), AcceptRead(cfg, t, id, a, completion))
  {
    CoverAlike(cfg, s, t, a);
    var l, m := Cover(Lookup(cfg, s.image, a), s.buffered, a), Cover(Lookup(cfg, t.image, a), t.buffered, a);
    HeldAlike(s, t, Entry(Request(id, Read, a, s.next, l.bytes, l.init, true, completion), InPending),
              Entry(Request(id, Read, a, t.next, m.bytes, m.init, true, completion), InPending),
              AcceptRead(cfg, s, id, a, completion).tainted);
  }

  lemma QueueAlike(cfg: Config, s: State, t: State, id: nat, a: nat, completion: nat)
    requires Alike(s, t) && !Hit(s.buffered, a) && !Hit(t.buffered, a)
    ensures Alike(AcceptRead(cfg, s, id, a, completion), AcceptRead(cfg, t, id, a, completion))
  {
    var x := Entry(Request(id, Read, a, s.next, [], [], false, 0), InRead);
    HeldAlike(s, t, x, x, s.tainted);
  }

  lemma ReadAlike(cfg: Config, s: State, t: State, id: nat, a: nat, completion: nat)
    requires Alike(s, t)
    ensures Alike(AcceptRead(cfg, s, id, a, completion), AcceptRead(cfg, t, id, a, completion))
  {
    SafetyAlike(s, t, a);
    if Hit(s.buffered, a) { ForwardAlike(cfg, s, t, id, a, completion); } else { QueueAlike(cfg, s, t, id, a, completion); }
  }

  lemma WaitingAlike(s: State, t: State, a: nat, bound: nat)
    requires Alike(s, t)
    ensures HasUnresolvedRead(s, a, bound) <==> HasUnresolvedRead(t, a, bound)
    ensures HasUnresolvedWrite(s, a) <==> HasUnresolvedWrite(t, a)
  {
    forall k | k in s.held
      ensures k in t.held && s.held[k].place == t.held[k].place
      ensures s.held[k].request.kind == t.held[k].request.kind && s.held[k].request.address == t.held[k].request.address
    {
      assert k in s.held.Keys;
    }
    assert forall k :: k in t.held <==> k in s.held;
  }

  lemma WriteAlike(s: State, t: State, id: nat, a: nat, data: Bytes, other: Bytes, mask: Mask, completion: nat)
    requires Alike(s, t) && |data| == |other|
    ensures Alike(AcceptWrite(s, id, a, data, mask, completion), AcceptWrite(t, id, a, other, mask, completion))
  {
    if a in s.buffered { assert a in t.buffered; } else { assert a !in t.buffered.Keys; }
  }

  lemma IssueAlike(cfg: Config, s: State, t: State, k: nat, completion: nat)
    requires Alike(s, t) && k in s.held && s.held[k].request.address in s.buffered
    ensures k in t.held && t.held[k].request.address in t.buffered
    ensures Alike(IssueWrite(cfg, s, k, completion), IssueWrite(cfg, t, k, completion))
  {
    LookupAlike(cfg, s.image, t.image, s.held[k].request.address);
  }

  lemma PromoteAlike(s: State, t: State, k: nat)
    requires Alike(s, t) && k in s.held
    ensures k in t.held && Alike(Promote(s, k), Promote(t, k))
  {
    assert k in s.held.Keys;
  }

  lemma IssueReadAlike(s: State, t: State, k: nat, completion: nat)
    requires Alike(s, t) && k in s.held
    ensures k in t.held && Alike(IssueRead(s, k, completion), IssueRead(t, k, completion))
  {
    assert k in s.held.Keys;
  }

  lemma CaptureAlike(cfg: Config, s: State, t: State, k: nat)
    requires Alike(s, t) && k in s.held
    ensures k in t.held && Alike(Capture(cfg, s, k), Capture(cfg, t, k))
  {
    LookupAlike(cfg, s.image, t.image, s.held[k].request.address);
  }

  lemma DrainAlike(cfg: Config, s: State, t: State)
    requires Alike(s, t) && s.fifo != []
    ensures t.fifo != [] && Alike(DrainOne(cfg, s), DrainOne(cfg, t))
  {
    LookupAlike(cfg, s.image, t.image, s.fifo[0].address);
  }

  lemma CompleteAlike(cfg: Config, s: State, t: State, k: nat)
    requires Alike(s, t) && MayComplete(cfg, s, k)
    ensures MayComplete(cfg, t, k) && Alike(Complete(cfg, s, k), Complete(cfg, t, k))
  {
    LookupAlike(cfg, s.image, t.image, s.held[k].request.address);
    assert k in s.captured.Keys <==> k in t.captured.Keys;
  }

  lemma AllowedAlike(cfg: Config, s: State, t: State, e: Event, f: Event)
    requires Alike(s, t) && AlikeEvents(e, f) && Allowed(cfg, s, e)
    ensures Allowed(cfg, t, f)
  {
    match e
    case DoAcceptWrite(_, a, _, _, _) => WaitingAlike(s, t, a, s.next);
    case DoIssueRead(k, _) => WaitingAlike(s, t, s.held[k].request.address, 0);
    case DoIssueWrite(k, _) => WaitingAlike(s, t, s.held[k].request.address, k);
    case DoCapture(k) => assert k in s.captured.Keys <==> k in t.captured.Keys;
    case DoComplete(k) => assert k in s.captured.Keys <==> k in t.captured.Keys;
    case _ =>
  }

  lemma StepAlike(cfg: Config, s: State, t: State, e: Event, f: Event)
    requires Alike(s, t) && AlikeEvents(e, f) && Allowed(cfg, s, e)
    ensures Allowed(cfg, t, f) && Alike(Step(cfg, s, e), Step(cfg, t, f))
  {
    AllowedAlike(cfg, s, t, e, f);
    match e
    case DoAcceptRead(id, a, completion) => ReadAlike(cfg, s, t, id, a, completion);
    case DoAcceptWrite(id, a, data, mask, completion) => WriteAlike(s, t, id, a, data, f.data, mask, completion);
    case DoPromote(k) => PromoteAlike(s, t, k);
    case DoIssueRead(k, completion) => IssueReadAlike(s, t, k, completion);
    case DoIssueWrite(k, completion) => IssueAlike(cfg, s, t, k, completion);
    case DoCapture(k) => CaptureAlike(cfg, s, t, k);
    case DoDrain => DrainAlike(cfg, s, t);
    case DoComplete(k) => CompleteAlike(cfg, s, t, k);
  }

  lemma {:induction false} RunsAlike(cfg: Config, states: seq<State>, events: seq<Event>, os: seq<State>, oe: seq<Event>, n: nat)
    requires Run(cfg, states, events) && Run(cfg, os, oe) && SameShape(events, oe) && n < |states|
    ensures Alike(states[n], os[n])
  {
    if n > 0 {
      RunsAlike(cfg, states, events, os, oe, n - 1);
      StepAlike(cfg, states[n - 1], os[n - 1], events[n - 1], oe[n - 1]);
    }
  }

  /** The same shape can be run with any bytes. */
  lemma {:induction false} OtherRun(cfg: Config, states: seq<State>, events: seq<Event>, oe: seq<Event>) returns (os: seq<State>)
    requires Run(cfg, states, events) && SameShape(events, oe)
    ensures Run(cfg, os, oe)
    decreases |events|
  {
    if events == [] {
      os := [Initial];
    } else {
      var n := |events| - 1;
      var before := OtherRun(cfg, states[..n + 1], events[..n], oe[..n]);
      RunsAlike(cfg, states[..n + 1], events[..n], before, oe[..n], n);
      StepAlike(cfg, states[n], before[n], events[n], oe[n]);
      os := before + [Step(cfg, before[n], oe[n])];
    }
  }

  // ---------------------------------------------------------------- one marked byte

  /** The byte with which one write is marked; all others carry the fill byte. */
  function Mark(cfg: Config): byte { if cfg.fill == 0 then 1 else 0 }

  predicate Carried(cfg: Config, data: Bytes, mask: Mask, j: nat) { Selected(mask, j) && j < |data| && data[j] == Mark(cfg) }

  predicate InImage(cfg: Config, s: State, a: nat, j: nat) {
    var l := Lookup(cfg, s.image, a);
    j < |l.bytes| && l.bytes[j] == Mark(cfg)
  }

  predicate InBuffer(cfg: Config, s: State, a: nat, j: nat) {
    a in s.buffered && Carried(cfg, s.buffered[a].data, s.buffered[a].mask, j)
  }

  predicate InFifo(cfg: Config, fifo: seq<Request>, i: int, a: nat, j: nat) {
    0 <= i < |fifo| && fifo[i].address == a && Carried(cfg, fifo[i].data, fifo[i].mask, j)
  }

  ghost predicate Absent(cfg: Config, s: State, a: nat, j: nat) {
    !InImage(cfg, s, a, j) && !InBuffer(cfg, s, a, j) && forall i :: !InFifo(cfg, s.fifo, i, a, j)
  }

  /** The mark is in at most one place. */
  ghost predicate Single(cfg: Config, s: State, a: nat, j: nat) {
    && (InImage(cfg, s, a, j) ==> !InBuffer(cfg, s, a, j) && forall i :: !InFifo(cfg, s.fifo, i, a, j))
    && (InBuffer(cfg, s, a, j) ==> forall i :: !InFifo(cfg, s.fifo, i, a, j))
    && forall i, k | InFifo(cfg, s.fifo, i, a, j) && InFifo(cfg, s.fifo, k, a, j) :: i == k
  }

  /** A write without the mark. */
  predicate Plain(cfg: Config, e: Event, j: nat) { e.DoAcceptWrite? ==> !Carried(cfg, e.data, e.mask, j) }

  lemma WriteMark(cfg: Config, s: State, e: Event, a: nat, j: nat)
    requires e.DoAcceptWrite? && Allowed(cfg, s, e) && Structure(cfg, s) && j < cfg.size
    ensures
      var t := Step(cfg, s, e);
      && t.image == s.image && t.fifo == s.fifo
      && (InBuffer(cfg, t, a, j) ==> InBuffer(cfg, s, a, j) || (e.address == a && Carried(cfg, e.data, e.mask, j)))
  {
    if e.address in s.buffered {
      var b := s.buffered[e.address];
      assert SizedBy(cfg, b.data, b.mask);
    }
  }

  lemma IssueMark(cfg: Config, s: State, k: nat, completion: nat, a: nat, j: nat)
    requires MayIssueWrite(s, k) && Structure(cfg, s) && j < cfg.size && Single(cfg, s, a, j)
    ensures Single(cfg, IssueWrite(cfg, s, k, completion), a, j)
    ensures Absent(cfg, s, a, j) ==> Absent(cfg, IssueWrite(cfg, s, k, completion), a, j)
  {
    var t, b := IssueWrite(cfg, s, k, completion), s.held[k].request.address;
    assert SizedBy(cfg, s.buffered[b].data, s.buffered[b].mask);
    if cfg.behavioral {
      forall i
        ensures InFifo(cfg, t.fifo, i, a, j) <==>
                InFifo(cfg, s.fifo, i, a, j) || (i == |s.fifo| && b == a && InBuffer(cfg, s, a, j))
      {
      }
      assert !InBuffer(cfg, t, a, j) || (b != a && InBuffer(cfg, s, a, j));
    } else {
      if j < |Lookup(cfg, s.image, b).bytes| {
        ApplyMark(cfg, Lookup(cfg, s.image, b), s.buffered[b].data, s.buffered[b].mask, j);
      }
    }
  }

  lemma ApplyMark(cfg: Config, l: Line, data: Bytes, mask: Mask, j: nat)
    requires j < |l.bytes|
    ensures Overlay(l, data, mask).bytes[j] == Mark(cfg) ==> l.bytes[j] == Mark(cfg) || Carried(cfg, data, mask, j)
    ensures Selected(mask, j) && j < |data| ==> Overlay(l, data, mask).bytes[j] == data[j]
    ensures !Selected(mask, j) ==> Overlay(l, data, mask).bytes[j] == l.bytes[j]
  {
  }

  lemma DrainMark(cfg: Config, s: State, a: nat, j: nat)
    requires s.fifo != [] && Single(cfg, s, a, j)
    ensures Single(cfg, DrainOne(cfg, s), a, j)
    ensures Absent(cfg, s, a, j) ==> Absent(cfg, DrainOne(cfg, s), a, j)
  {
    var t, w := DrainOne(cfg, s), s.fifo[0];
    forall i
      ensures InFifo(cfg, t.fifo, i, a, j) ==> InFifo(cfg, s.fifo, i + 1, a, j)
    {
    }
    if InImage(cfg, t, a, j) && w.address == a {
      ApplyMark(cfg, Lookup(cfg, s.image, a), w.data, w.mask, j);
      assert InImage(cfg, s, a, j) || InFifo(cfg, s.fifo, 0, a, j);
    }
  }

  /** Whether a step keeps what is known of the mark. */
  ghost predicate KeepsMark(cfg: Config, s: State, e: Event, t: State, a: nat, j: nat) {
    && (Single(cfg, s, a, j) && Plain(cfg, e, j) ==> Single(cfg, t, a, j))
    && (Absent(cfg, s, a, j) && Plain(cfg, e, j) ==> Absent(cfg, t, a, j))
    && (Absent(cfg, s, a, j) ==> Single(cfg, t, a, j))
  }

  lemma SameMark(cfg: Config, s: State, e: Event, t: State, a: nat, j: nat)
    requires t.image == s.image && t.buffered == s.buffered && t.fifo == s.fifo
    ensures KeepsMark(cfg, s, e, t, a, j)
  {
  }

  lemma AcceptMark(cfg: Config, s: State, e: Event, a: nat, j: nat)
    requires e.DoAcceptWrite? && Allowed(cfg, s, e) && Structure(cfg, s) && j < cfg.size
    ensures KeepsMark(cfg, s, e, Step(cfg, s, e), a, j)
  {
    WriteMark(cfg, s, e, a, j);
  }

  lemma StepMark(cfg: Config, s: State, e: Event, a: nat, j: nat)
    requires Allowed(cfg, s, e) && Structure(cfg, s) && j < cfg.size
    ensures KeepsMark(cfg, s, e, Step(cfg, s, e), a, j)
  {
    match e
    case DoAcceptWrite(_, _, _, _, _) => AcceptMark(cfg, s, e, a, j);
    case DoIssueWrite(k, completion) => if Single(cfg, s, a, j) { IssueMark(cfg, s, k, completion, a, j); }
    case DoDrain => if Single(cfg, s, a, j) { DrainMark(cfg, s, a, j); }
    case _ => SameMark(cfg, s, e, Step(cfg, s, e), a, j);
  }

  // ---------------------------------------------------------------- marking one accepted write

  /** Write number `w` of the run carries the mark in every byte, every other the fill byte. */
  function Painted(cfg: Config, e: Event, number: nat, w: nat): Event {
    if e.DoAcceptWrite? then e.(data := seq(|e.data|, _ => if number == w then Mark(cfg) else cfg.fill)) else e
  }

  function PaintedRun(cfg: Config, states: seq<State>, events: seq<Event>, w: nat): (oe: seq<Event>)
    requires |states| == |events| + 1
    ensures |oe| == |events|
  {
    seq(|events|, i requires 0 <= i < |events| => Painted(cfg, events[i], |states[i].log|, w))
  }

  ghost predicate LogPainted(cfg: Config, log: seq<Request>, w: nat) {
    forall q, j | 0 <= q < |log| && 0 <= j < |log[q].data| :: log[q].data[j] == if q == w then Mark(cfg) else cfg.fill
  }

  lemma LogGrows(cfg: Config, s: State, e: Event)
    requires Allowed(cfg, s, e)
    ensures
      var t := Step(cfg, s, e);
      if e.DoAcceptWrite? then
        |t.log| == |s.log| + 1 && t.log[..|s.log|] == s.log && t.log[|s.log|].data == e.data
      else t.log == s.log
  {
  }

  /** The marked write is logged with its mark, the others without. */
  ghost predicate Marked(cfg: Config, s: State, w: nat, a: nat, j: nat) {
    LogPainted(cfg, s.log, w) && if |s.log| <= w then Absent(cfg, s, a, j) else Single(cfg, s, a, j)
  }

  lemma MarkedStep(cfg: Config, s: State, e: Event, w: nat, a: nat, j: nat)
    requires Allowed(cfg, s, e) && Structure(cfg, s) && j < cfg.size && Marked(cfg, s, w, a, j)
    requires e == Painted(cfg, e, |s.log|, w)
    ensures Marked(cfg, Step(cfg, s, e), w, a, j)
  {
    StepMark(cfg, s, e, a, j);
    LogGrows(cfg, s, e);
    var t := Step(cfg, s, e);
    forall q, i | 0 <= q < |t.log| && 0 <= i < |t.log[q].data|
      ensures t.log[q].data[i] == if q == w then Mark(cfg) else cfg.fill
    {
      if q < |s.log| { assert t.log[q] == t.log[..|s.log|][q]; }
    }
  }

  lemma RunStructure(cfg: Config, states: seq<State>, events: seq<Event>, n: nat)
    requires Run(cfg, states, events) && n < |states|
    ensures Structure(cfg, states[n])
  {
    RunKeeps(cfg, states, events, n);
  }

  lemma SameLogLength(cfg: Config, states: seq<State>, events: seq<Event>, os: seq<State>, oe: seq<Event>, n: nat)
    requires Run(cfg, states, events) && Run(cfg, os, oe) && SameShape(events, oe) && n < |states|
    ensures |os[n].log| == |states[n].log|
  {
    RunsAlike(cfg, states, events, os, oe, n);
  }

  lemma PaintedShape(cfg: Config, states: seq<State>, events: seq<Event>, w: nat)
    requires |states| == |events| + 1
    ensures SameShape(events, PaintedRun(cfg, states, events, w))
  {
  }

  lemma PaintedTwice(cfg: Config, e: Event, number: nat, w: nat)
    ensures Painted(cfg, Painted(cfg, e, number, w), number, w) == Painted(cfg, e, number, w)
  {
  }

  lemma {:induction false} PaintHolds(cfg: Config, states: seq<State>, events: seq<Event>, os: seq<State>, w: nat, a: nat, j: nat, n: nat)
    requires Run(cfg, states, events) && Run(cfg, os, PaintedRun(cfg, states, events, w)) && n < |states| && j < cfg.size
    ensures Marked(cfg, os[n], w, a, j)
  {
    var oe := PaintedRun(cfg, states, events, w);
    if n > 0 {
      PaintHolds(cfg, states, events, os, w, a, j, n - 1);
      RunStructure(cfg, os, oe, n - 1);
      PaintedShape(cfg, states, events, w);
      SameLogLength(cfg, states, events, os, oe, n - 1);
      PaintedTwice(cfg, events[n - 1], |states[n - 1].log|, w);
      MarkedStep(cfg, os[n - 1], oe[n - 1], w, a, j);
    } else {
      InitialMarked(cfg, w, a, j);
    }
  }

  lemma InitialMarked(cfg: Config, w: nat, a: nat, j: nat)
    ensures Marked(cfg, Initial, w, a, j)
  {
  }

  // ---------------------------------------------------------------- an unsafe forward misses the mark

  lemma {:induction false} SequentialSized(cfg: Config, log: seq<Request>, a: nat, bound: nat)
    ensures Sized(Sequential(cfg, log, a, bound), cfg.size)
  {
    if log != [] { SequentialSized(cfg, log[..|log| - 1], a, bound); }
  }

  /** Write `w` of the log stores a byte, and no later one does. */
  ghost predicate LastWriter(log: seq<Request>, w: nat, a: nat, j: nat) {
    && w < |log| && log[w].address == a && Selected(log[w].mask, j) && j < |log[w].data|
    && forall q | w < q < |log| && log[q].address == a :: !Selected(log[q].mask, j)
  }

  /** An initialized byte has a last writer. */
  lemma {:induction false} WriterExists(cfg: Config, log: seq<Request>, a: nat, j: nat, bound: nat) returns (w: nat)
    requires j < cfg.size
    requires forall q | 0 <= q < |log| :: log[q].sequence < bound && |log[q].data| == cfg.size
    requires j < |Sequential(cfg, log, a, bound).init| && Sequential(cfg, log, a, bound).init[j]
    ensures LastWriter(log, w, a, j)
  {
    var n := |log| - 1;
    if log[n].address == a && Selected(log[n].mask, j) {
      w := n;
    } else {
      w := WriterExists(cfg, log[..n], a, j, bound);
    }
  }

  /** The memory holds the byte of the last writer. */
  lemma {:induction false} WriterWins(cfg: Config, log: seq<Request>, w: nat, a: nat, j: nat, bound: nat)
    requires LastWriter(log, w, a, j) && j < cfg.size && forall q | 0 <= q < |log| :: log[q].sequence < bound
    ensures |Sequential(cfg, log, a, bound).bytes| == cfg.size && Sequential(cfg, log, a, bound).bytes[j] == log[w].data[j]
  {
    SequentialSized(cfg, log, a, bound);
    var n := |log| - 1;
    SequentialSized(cfg, log[..n], a, bound);
    if w < n {
      WriterWins(cfg, log[..n], w, a, j, bound);
    }
  }

  /** Once a write of the PHY stores a byte, draining leaves the byte of one such write there. */
  lemma {:induction false} DrainedByte(cfg: Config, l: Line, fifo: seq<Request>, a: nat, j: nat)
    requires j < |l.bytes| && forall i | 0 <= i < |fifo| :: |fifo[i].data| == cfg.size && j < cfg.size
    ensures |Drain(l, fifo, a).bytes| == |l.bytes|
    ensures Drain(l, fifo, a).bytes[j] == Mark(cfg) && (exists i | 0 <= i < |fifo| :: fifo[i].address == a && Selected(fifo[i].mask, j))
            ==> exists i :: InFifo(cfg, fifo, i, a, j)
    decreases |fifo|
  {
    if fifo != [] {
      var n := |fifo| - 1;
      assert fifo == fifo[..n] + [fifo[n]];
      DrainAppend(l, fifo[..n], fifo[n], a);
      DrainedByte(cfg, l, fifo[..n], a, j);
      var before := Drain(l, fifo[..n], a);
      if fifo[n].address == a && Selected(fifo[n].mask, j) {
        ApplyMark(cfg, before, fifo[n].data, fifo[n].mask, j);
        assert Drain(l, fifo, a).bytes[j] == Mark(cfg) ==> InFifo(cfg, fifo, n, a, j);
      } else {
        if i :| 0 <= i < |fifo| && fifo[i].address == a && Selected(fifo[i].mask, j) { assert fifo[..n][i] == fifo[i]; }
        if k :| InFifo(cfg, fifo[..n], k, a, j) { assert InFifo(cfg, fifo, k, a, j); }
      }
    }
  }

  /** A byte that a write of the PHY stores is initialized once the PHY has drained. */
  lemma {:induction false} DrainedInit(cfg: Config, l: Line, fifo: seq<Request>, a: nat, i: nat, j: nat)
    requires i < |fifo| && fifo[i].address == a && Selected(fifo[i].mask, j) && j < |l.init|
    ensures |Drain(l, fifo, a).init| == |l.init| && Drain(l, fifo, a).init[j]
    decreases |fifo|
  {
    var n := |fifo| - 1;
    assert fifo == fifo[..n] + [fifo[n]];
    DrainAppend(l, fifo[..n], fifo[n], a);
    DrainedSize(l, fifo[..n], a);
    if i < n { DrainedInit(cfg, l, fifo[..n], a, i, j); }
  }

  lemma {:induction false} DrainedSize(l: Line, fifo: seq<Request>, a: nat)
    ensures |Drain(l, fifo, a).init| == |l.init| && |Drain(l, fifo, a).bytes| == |l.bytes|
    decreases |fifo|
  {
    if fifo != [] { DrainedSize(ApplyAt(l, fifo[0], a), fifo[1..], a); }
  }

  ghost predicate LogSized(cfg: Config, log: seq<Request>) {
    forall q | 0 <= q < |log| :: |log[q].data| == |log[q].mask| == cfg.size
  }

  lemma {:induction false} RunLogSized(cfg: Config, states: seq<State>, events: seq<Event>, n: nat)
    requires Run(cfg, states, events) && n < |states|
    ensures LogSized(cfg, states[n].log)
  {
    if n > 0 {
      RunLogSized(cfg, states, events, n - 1);
      LogStaysSized(cfg, states[n - 1], events[n - 1]);
    } else {
      assert states[0] == Initial;
    }
  }

  lemma LogStaysSized(cfg: Config, s: State, e: Event)
    requires Allowed(cfg, s, e) && LogSized(cfg, s.log)
    ensures LogSized(cfg, Step(cfg, s, e).log)
  {
  }

  /** A write of the PHY stores this byte of the line, and the buffered write leaves it alone. */
  ghost predicate Uncovered(s: State, a: nat, i: nat, j: nat) {
    && a in s.buffered && !Selected(s.buffered[a].mask, j)
    && i < |s.fifo| && s.fifo[i].address == a && Selected(s.fifo[i].mask, j)
  }

  lemma CurrentAt(cfg: Config, s: State, a: nat)
    requires Inv(cfg, s)
    ensures Cover(Settled(cfg, s, a), s.buffered, a) == Sequential(cfg, s.log, a, s.next)
    ensures Sized(Lookup(cfg, s.image, a), cfg.size) && Sized(Sequential(cfg, s.log, a, s.next), cfg.size)
  {
    SequentialSized(cfg, s.log, a, s.next);
    DrainedSize(Lookup(cfg, s.image, a), s.fifo, a);
  }

  /** Such a byte was written last by some accepted write. */
  lemma UncoveredWriter(cfg: Config, s: State, a: nat, i: nat, j: nat) returns (w: nat)
    requires Inv(cfg, s) && LogSized(cfg, s.log) && Uncovered(s, a, i, j) && j < cfg.size
    ensures LastWriter(s.log, w, a, j)
  {
    CurrentAt(cfg, s, a);
    DrainedInit(cfg, Lookup(cfg, s.image, a), s.fifo, a, i, j);
    w := WriterExists(cfg, s.log, a, j, s.next);
  }

  /** With that write marked, the memory has the mark and the forwarded line has not. */
  lemma MissesMark(cfg: Config, s: State, a: nat, i: nat, j: nat, w: nat)
    requires Inv(cfg, s) && Uncovered(s, a, i, j) && j < cfg.size
    requires LastWriter(s.log, w, a, j) && Marked(cfg, s, w, a, j)
    ensures Cover(Lookup(cfg, s.image, a), s.buffered, a) != Sequential(cfg, s.log, a, s.next)
  {
    CurrentAt(cfg, s, a);
    WriterWins(cfg, s.log, w, a, j, s.next);
    DrainedByte(cfg, Lookup(cfg, s.image, a), s.fifo, a, j);
    var k :| InFifo(cfg, s.fifo, k, a, j);
    assert !InImage(cfg, s, a, j);
  }

  // ---------------------------------------------------------------- what was forwarded is answered

  /** Read `k` was forwarded this line, and waits with it or was answered with it. */
  ghost predicate Fixed(s: State, k: nat, a: nat, l: Line) {
    && k < s.next
    && (k in s.held ==>
          var e := s.held[k];
          && e.place.InPending? && e.request.kind.Read? && e.request.bypass && e.request.address == a
          && Line(e.request.data, e.request.mask) == l)
    && (k in s.emitted ==> s.emitted[k].kind.Read? && s.emitted[k].address == a && s.emitted[k].line == l)
  }

  lemma FixedBegins(cfg: Config, s: State, e: Event)
    requires e.DoAcceptRead? && Hit(s.buffered, e.address) && s.next !in s.emitted
    ensures Fixed(Step(cfg, s, e), s.next, e.address, Cover(Lookup(cfg, s.image, e.address), s.buffered, e.address))
  {
  }

  lemma FixedStays(cfg: Config, s: State, e: Event, k: nat, a: nat, l: Line)
    requires Allowed(cfg, s, e) && Fixed(s, k, a, l)
    ensures Fixed(Step(cfg, s, e), k, a, l)
  {
  }

  lemma OldWritesStay(cfg: Config, s: State, e: Event, a: nat, k: nat)
    requires Allowed(cfg, s, e) && LogBounded(s) && k <= s.next
    ensures Sequential(cfg, Step(cfg, s, e).log, a, k) == Sequential(cfg, s.log, a, k) && k <= Step(cfg, s, e).next
  {
    if e.DoAcceptWrite? {
      var t := Step(cfg, s, e);
      AppendKeepsOld(cfg, s, t.log[|s.log|], a, k);
    }
  }

  /** In `t` read `k` still has its line, and the writes before it are as they were in `s`. */
  ghost predicate Remembers(cfg: Config, s: State, t: State, k: nat, a: nat, l: Line) {
    Fixed(t, k, a, l) && k <= t.next && LogBounded(t) && Sequential(cfg, t.log, a, k) == Sequential(cfg, s.log, a, k)
  }

  lemma RemembersBegins(cfg: Config, s: State, e: Event)
    requires e.DoAcceptRead? && Hit(s.buffered, e.address) && s.next !in s.emitted && LogBounded(s)
    ensures Remembers(cfg, s, Step(cfg, s, e), s.next, e.address, Cover(Lookup(cfg, s.image, e.address), s.buffered, e.address))
  {
    FixedBegins(cfg, s, e);
  }

  lemma RemembersOn(cfg: Config, s: State, t: State, e: Event, k: nat, a: nat, l: Line)
    requires Allowed(cfg, t, e) && Remembers(cfg, s, t, k, a, l) && LogBounded(Step(cfg, t, e))
    ensures Remembers(cfg, s, Step(cfg, t, e), k, a, l)
  {
    FixedStays(cfg, t, e, k, a, l);
    OldWritesStay(cfg, t, e, a, k);
  }

  lemma RunLogBounded(cfg: Config, states: seq<State>, events: seq<Event>, n: nat)
    requires Run(cfg, states, events) && n < |states|
    ensures LogBounded(states[n]) && states[n].next !in states[n].emitted
  {
    RunKeeps(cfg, states, events, n);
  }

  lemma RemembersFirst(cfg: Config, states: seq<State>, events: seq<Event>, m: nat, l: Line)
    requires Run(cfg, states, events) && m < |events| && events[m].DoAcceptRead? && Hit(states[m].buffered, events[m].address)
    requires l == Cover(Lookup(cfg, states[m].image, events[m].address), states[m].buffered, events[m].address)
    ensures Remembers(cfg, states[m], states[m + 1], states[m].next, events[m].address, l)
  {
    RunLogBounded(cfg, states, events, m);
    RemembersBegins(cfg, states[m], events[m]);
  }

  lemma RemembersNext(cfg: Config, states: seq<State>, events: seq<Event>, s: State, n: nat, k: nat, a: nat, l: Line)
    requires Run(cfg, states, events) && n < |events| && Remembers(cfg, s, states[n], k, a, l)
    ensures Remembers(cfg, s, states[n + 1], k, a, l)
  {
    RunLogBounded(cfg, states, events, n + 1);
    RemembersOn(cfg, s, states[n], events[n], k, a, l);
  }

  lemma {:induction false} AnswerIsFixed(cfg: Config, states: seq<State>, events: seq<Event>, m: nat, n: nat, l: Line)
    requires Run(cfg, states, events) && m < n < |states| && events[m].DoAcceptRead? && Hit(states[m].buffered, events[m].address)
    requires l == Cover(Lookup(cfg, states[m].image, events[m].address), states[m].buffered, events[m].address)
    ensures Remembers(cfg, states[m], states[n], states[m].next, events[m].address, l)
  {
    if n == m + 1 {
      RemembersFirst(cfg, states, events, m, l);
    } else {
      AnswerIsFixed(cfg, states, events, m, n - 1, l);
      RemembersNext(cfg, states, events, states[m], n - 1, states[m].next, events[m].address, l);
    }
  }

  // ---------------------------------------------------------------- exactly

  /** The read was answered with the line of the sequential memory. */
  ghost predicate AnsweredRight(cfg: Config, states: seq<State>, n: nat, k: nat) {
    && n < |states| && k in states[n].emitted
    && states[n].emitted[k].line == Sequential(cfg, states[n].log, states[n].emitted[k].address, k)
  }

  ghost predicate ReadAnswered(states: seq<State>, n: nat, k: nat) {
    n < |states| && k in states[n].emitted && states[n].emitted[k].kind.Read?
  }

  lemma SameForwards(cfg: Config, states: seq<State>, events: seq<Event>, os: seq<State>, oe: seq<Event>, m: nat, k: nat)
    requires Run(cfg, states, events) && Run(cfg, os, oe) && SameShape(events, oe)
    ensures UnsafeForward(states, events, m, k) <==> UnsafeForward(os, oe, m, k)
  {
    if m < |events| {
      RunsAlike(cfg, states, events, os, oe, m);
      assert AlikeEvents(events[m], oe[m]);
      if events[m].DoAcceptRead? { SafetyAlike(states[m], os[m], events[m].address); }
    }
  }

  /** Without an unsafe forward every run of the shape answers the read right. */
  lemma SafeIsRight(cfg: Config, states: seq<State>, events: seq<Event>, os: seq<State>, oe: seq<Event>, k: nat)
    requires Run(cfg, states, events) && ReadAnswered(states, |events|, k) && Run(cfg, os, oe) && SameShape(events, oe)
    requires forall m: nat :: !UnsafeForward(states, events, m, k)
    ensures AnsweredRight(cfg, os, |events|, k)
  {
    var n := |events|;
    RunsAlike(cfg, states, events, os, oe, n);
    assert k in states[n].emitted.Keys;
    forall m: nat
      ensures !UnsafeForward(os, oe, m, k)
    {
      SameForwards(cfg, states, events, os, oe, m, k);
    }
    OnlyUnsafeForwardsDiffer(cfg, os, oe, n, k);
  }

  lemma UnsafeByte(cfg: Config, s: State, a: nat) returns (i: nat, j: nat)
    requires Structure(cfg, s) && a in s.buffered && !ForwardSafe(s.fifo, a, s.buffered[a].mask)
    ensures Uncovered(s, a, i, j) && j < cfg.size
  {
    i :| 0 <= i < |s.fifo| && s.fifo[i].address == a && !Covered(s.fifo[i].mask, s.buffered[a].mask);
    j :| 0 <= j < |s.fifo[i].mask| && s.fifo[i].mask[j] && !Selected(s.buffered[a].mask, j);
  }

  lemma UncoveredAlike(cfg: Config, s: State, t: State, a: nat, i: nat, j: nat, w: nat)
    requires Alike(s, t) && Uncovered(s, a, i, j) && LastWriter(s.log, w, a, j)
    ensures Uncovered(t, a, i, j) && LastWriter(t.log, w, a, j)
  {
    assert a in s.buffered.Keys;
  }

  /** The painted run of an unsafe forward answers the read wrong. */
  lemma PaintedIsWrong(cfg: Config, states: seq<State>, events: seq<Event>, os: seq<State>, m: nat, k: nat, i: nat, j: nat, w: nat)
    requires Run(cfg, states, events) && Run(cfg, os, PaintedRun(cfg, states, events, w)) && UnsafeForward(states, events, m, k)
    requires Uncovered(states[m], events[m].address, i, j) && j < cfg.size && LastWriter(states[m].log, w, events[m].address, j)
    ensures !AnsweredRight(cfg, os, |events|, k)
  {
    var oe, a := PaintedRun(cfg, states, events, w), events[m].address;
    PaintedShape(cfg, states, events, w);
    RunsAlike(cfg, states, events, os, oe, m);
    UncoveredAlike(cfg, states[m], os[m], a, i, j, w);
    PaintHolds(cfg, states, events, os, w, a, j, m);
    RunKeeps(cfg, os, oe, m);
    MissesMark(cfg, os[m], a, i, j, w);
    SameForwards(cfg, states, events, os, oe, m, k);
    AnswerIsFixed(cfg, os, oe, m, |events|, Cover(Lookup(cfg, os[m].image, a), os[m].buffered, a));
  }

  lemma UnsafeIsWrong(cfg: Config, states: seq<State>, events: seq<Event>, m: nat, k: nat) returns (os: seq<State>, oe: seq<Event>)
    requires Run(cfg, states, events) && UnsafeForward(states, events, m, k)
    ensures Run(cfg, os, oe) && SameShape(events, oe) && !AnsweredRight(cfg, os, |events|, k)
  {
    var a := events[m].address;
    RunKeeps(cfg, states, events, m);
    RunLogSized(cfg, states, events, m);
    var i, j := UnsafeByte(cfg, states[m], a);
    var w := UncoveredWriter(cfg, states[m], a, i, j);
    oe := PaintedRun(cfg, states, events, w);
    PaintedShape(cfg, states, events, w);
    os := OtherRun(cfg, states, events, oe);
    PaintedIsWrong(cfg, states, events, os, m, k, i, j, w);
  }

  /**
    A read that a run has answered is answered right whatever bytes the writes of the run carry, exactly if it was
    not forwarded past an uncovered write of the PHY.
   */
  lemma ResponsesExact(cfg: Config, states: seq<State>, events: seq<Event>, k: nat)
    requires Run(cfg, states, events) && ReadAnswered(states, |events|, k)
    ensures (forall os, oe | Run(cfg, os, oe) && SameShape(events, oe) :: AnsweredRight(cfg, os, |events|, k))
            <==> forall m: nat :: !UnsafeForward(states, events, m, k)
  {
    if m: nat :| UnsafeForward(states, events, m, k) {
      var os, oe := UnsafeIsWrong(cfg, states, events, m, k);
    } else {
      forall os, oe | Run(cfg, os, oe) && SameShape(events, oe)
        ensures AnsweredRight(cfg, os, |events|, k)
      {
        SafeIsRight(cfg, states, events, os, oe, k);
      }
    }
  }
}

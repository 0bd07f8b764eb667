/**
  The hazard logic of one channel controller, as a state machine over accepted requests.

  Every request covers one aligned transaction, so two requests overlap exactly when their
  addresses are equal. The scheduler is left open: a queued request may be promoted or issue its
  data command whenever the hazard checks allow it, with any completion time. What is proved
  therefore holds for every scheduling policy, every timing table and every back-pressure pattern.
 */
module StoreBuffer {
  import opened Lines

  /** `behavioral` selects the PHY that delays data; otherwise data moves when its command issues. */
  datatype Config = Config(size: nat, fill: byte, behavioral: bool)

  datatype Kind = Read | Write

  /**
    `sequence` is the controller's order number. For a write, `data` and `mask` are what it
    stores; for a forwarded read (`bypass`) they are the snapshot taken when it was accepted.
   */
  datatype Request = Request(id: nat, kind: Kind, address: nat, sequence: nat,
                             data: Bytes, mask: Mask, bypass: bool, completion: nat)

  datatype Place = InRead | InWrite | InActive | InPending

  datatype Entry = Entry(request: Request, place: Place)

  /** The merged write waiting at an address; `owner` is the queued request that will carry it out. */
  datatype Buffered = Buffered(data: Bytes, mask: Mask, owner: nat)

  datatype Response = Response(id: nat, kind: Kind, address: nat, sequence: nat, line: Line, forwarded: bool)

  /**
    `held` are the accepted requests that still await their response, by sequence number.
    `fifo` are the writes inside the PHY, `captured` the PHY completions not yet collected.
    `log`, `emitted` and `tainted` are history: the accepted writes in order, the responses by
    sequence number, and the reads forwarded while the PHY held bytes the forward could not see.
   */
  datatype State = State(next: nat, held: map<nat, Entry>, buffered: map<nat, Buffered>,
                         image: map<nat, Line>, fifo: seq<Request>, captured: map<nat, Line>,
                         log: seq<Request>, emitted: map<nat, Response>, tainted: set<nat>)

  const Initial := State(1, map[], map[], map[], [], map[], [], map[], {})

  // ---------------------------------------------------------------- the reference memory

  function Lookup(cfg: Config, image: map<nat, Line>, a: nat): Line {
    if a in image then image[a] else Blank(cfg.size, cfg.fill)
  }

  function ApplyAt(l: Line, w: Request, a: nat): Line {
    if w.address == a then Overlay(l, w.data, w.mask) else l
  }

  /** The line at `a` in a memory that performed, in order, every logged write older than `bound`. */
  function Sequential(cfg: Config, log: seq<Request>, a: nat, bound: nat): Line {
    if log == [] then Blank(cfg.size, cfg.fill)
    else
      var before := Sequential(cfg, log[..|log| - 1], a, bound);
      var w := log[|log| - 1];
      if w.sequence < bound then ApplyAt(before, w, a) else before
  }

  lemma SequentialAppend(cfg: Config, log: seq<Request>, w: Request, a: nat, bound: nat)
    ensures Sequential(cfg, log + [w], a, bound) ==
            if w.sequence < bound then ApplyAt(Sequential(cfg, log, a, bound), w, a)
            else Sequential(cfg, log, a, bound)
  {
    assert (log + [w])[..|log|] == log;
  }

  lemma {:induction false} SequentialSettled(cfg: Config, log: seq<Request>, a: nat, b1: nat, b2: nat)
    requires forall i | 0 <= i < |log| :: log[i].sequence < b1 && log[i].sequence < b2
    ensures Sequential(cfg, log, a, b1) == Sequential(cfg, log, a, b2)
  {
    if log != [] {
      SequentialSettled(cfg, log[..|log| - 1], a, b1, b2);
    }
  }

  // ---------------------------------------------------------------- writes inside the PHY

  /** The line at `a` once every write in `fifo` has reached the image. */
  function Drain(l: Line, fifo: seq<Request>, a: nat): Line
    decreases |fifo|
  {
    if fifo == [] then l else Drain(ApplyAt(l, fifo[0], a), fifo[1..], a)
  }

  lemma {:induction false} DrainAppend(l: Line, fifo: seq<Request>, w: Request, a: nat)
    ensures Drain(l, fifo + [w], a) == ApplyAt(Drain(l, fifo, a), w, a)
    decreases |fifo|
  {
    if fifo == [] {
      assert (fifo + [w])[1..] == [];
    } else {
      assert (fifo + [w])[1..] == fifo[1..] + [w];
      DrainAppend(ApplyAt(l, fifo[0], a), fifo[1..], w, a);
    }
  }

  /** No write in `fifo` changes a byte at `a`. */
  predicate Quiet(fifo: seq<Request>, a: nat) {
    forall i | 0 <= i < |fifo| && fifo[i].address == a :: Silent(fifo[i].mask)
  }

  lemma {:induction false} DrainQuiet(l: Line, fifo: seq<Request>, a: nat)
    requires Quiet(fifo, a)
    ensures Drain(l, fifo, a) == l
    decreases |fifo|
  {
    if fifo != [] {
      if fifo[0].address == a { OverlaySilent(l, fifo[0].data, fifo[0].mask); }
      assert forall i | 0 <= i < |fifo[1..]| :: fifo[1..][i] == fifo[i + 1];
      DrainQuiet(l, fifo[1..], a);
    }
  }

  /** Every byte the PHY still has to write at `a` is selected by `mask`. */
  predicate ForwardSafe(fifo: seq<Request>, a: nat, mask: Mask) {
    forall i | 0 <= i < |fifo| && fifo[i].address == a :: Covered(fifo[i].mask, mask)
  }

  lemma {:induction false} DrainHidden(l: Line, fifo: seq<Request>, a: nat, data: Bytes, mask: Mask)
    requires ForwardSafe(fifo, a, mask) && |mask| <= |data|
    ensures Overlay(Drain(l, fifo, a), data, mask) == Overlay(l, data, mask)
    decreases |fifo|
  {
    if fifo != [] {
      assert forall i | 0 <= i < |fifo[1..]| :: fifo[1..][i] == fifo[i + 1];
      DrainHidden(ApplyAt(l, fifo[0], a), fifo[1..], a, data, mask);
      if fifo[0].address == a { OverlayHidden(l, fifo[0].data, fifo[0].mask, data, mask); }
    }
  }

  // ---------------------------------------------------------------- steps

  function Cover(l: Line, buffered: map<nat, Buffered>, a: nat): Line {
    if a in buffered then Overlay(l, buffered[a].data, buffered[a].mask) else l
  }

  /** A buffered write selects at least one byte of the transaction. */
  predicate Hit(buffered: map<nat, Buffered>, a: nat) {
    a in buffered && !Silent(buffered[a].mask)
  }

  predicate ReadAt(e: Entry, a: nat) { e.request.kind.Read? && e.request.address == a }

  /** Some read of `a` older than `bound` has not been answered. */
  predicate HasUnresolvedRead(s: State, a: nat, bound: nat) {
    exists k | k in s.held :: k < bound && ReadAt(s.held[k], a)
  }

  /** Some write of `a` has issued (or was coalesced) and has not been answered. */
  predicate HasUnresolvedWrite(s: State, a: nat) {
    exists k | k in s.held :: s.held[k].place.InPending? && s.held[k].request.kind.Write? && s.held[k].request.address == a
  }

  function AcceptRead(cfg: Config, s: State, id: nat, a: nat, completion: nat): State {
    if Hit(s.buffered, a) then
      var l := Cover(Lookup(cfg, s.image, a), s.buffered, a);
      var r := Request(id, Read, a, s.next, l.bytes, l.init, true, completion);
      s.(next := s.next + 1, held := s.held[s.next := Entry(r, InPending)],
         tainted := if ForwardSafe(s.fifo, a, s.buffered[a].mask) then s.tainted else s.tainted + {s.next})
    else
      var r := Request(id, Read, a, s.next, [], [], false, 0);
      s.(next := s.next + 1, held := s.held[s.next := Entry(r, InRead)])
  }

  predicate MayAcceptWrite(cfg: Config, s: State, a: nat, data: Bytes, mask: Mask) {
    && |data| == |mask| == cfg.size
    && (a in s.buffered ==> !HasUnresolvedRead(s, a, s.next))
  }

  function CoalesceWrite(s: State, id: nat, a: nat, data: Bytes, mask: Mask, completion: nat): State
    requires a in s.buffered
  {
    var w := Request(id, Write, a, s.next, data, mask, true, completion);
    var b := s.buffered[a];
    s.(next := s.next + 1, held := s.held[s.next := Entry(w, InPending)], log := s.log + [w],
       buffered := s.buffered[a := Buffered(MergeBytes(b.data, data, mask), MergeMask(b.mask, mask), b.owner)])
  }

  function QueueWrite(s: State, id: nat, a: nat, data: Bytes, mask: Mask): State {
    var w := Request(id, Write, a, s.next, data, mask, false, 0);
    s.(next := s.next + 1, held := s.held[s.next := Entry(w, InWrite)], log := s.log + [w],
       buffered := s.buffered[a := Buffered(data, mask, s.next)])
  }

  function AcceptWrite(s: State, id: nat, a: nat, data: Bytes, mask: Mask, completion: nat): State {
    if a in s.buffered then CoalesceWrite(s, id, a, data, mask, completion) else QueueWrite(s, id, a, data, mask)
  }

  predicate MayPromote(s: State, k: nat) {
    k in s.held && (s.held[k].place.InRead? || s.held[k].place.InWrite?)
  }

  function Promote(s: State, k: nat): State
    requires k in s.held
  {
    s.(held := s.held[k := s.held[k].(place := InActive)])
  }

  predicate Queued(s: State, k: nat, kind: Kind) {
    k in s.held && s.held[k].request.kind == kind && !s.held[k].place.InPending?
  }

  predicate MayIssueRead(cfg: Config, s: State, k: nat) {
    && Queued(s, k, Read)
    && (cfg.behavioral ==> !HasUnresolvedWrite(s, s.held[k].request.address))
  }

  function IssueRead(s: State, k: nat, completion: nat): State
    requires k in s.held
  {
    s.(held := s.held[k := Entry(s.held[k].request.(completion := completion), InPending)])
  }

  predicate MayIssueWrite(s: State, k: nat) {
    && Queued(s, k, Write)
    && s.held[k].request.address in s.buffered
    && !HasUnresolvedRead(s, s.held[k].request.address, k)
  }

  /** The queued write issues with the merged data; it reaches the image now, or enters the PHY. */
  function IssueWrite(cfg: Config, s: State, k: nat, completion: nat): State
    requires k in s.held && s.held[k].request.address in s.buffered
  {
    var a := s.held[k].request.address;
    var w := s.held[k].request.(data := s.buffered[a].data, mask := s.buffered[a].mask, completion := completion);
    var s1 := s.(held := s.held[k := Entry(w, InPending)], buffered := s.buffered - {a});
    if cfg.behavioral then s1.(fifo := s.fifo + [w])
    else s1.(image := s.image[a := ApplyAt(Lookup(cfg, s.image, a), w, a)])
  }

  /** The PHY reads the image for an issued read. */
  predicate MayCapture(cfg: Config, s: State, k: nat) {
    && cfg.behavioral && k in s.held && s.held[k].place.InPending?
    && s.held[k].request.kind.Read? && !s.held[k].request.bypass && k !in s.captured
  }

  function Capture(cfg: Config, s: State, k: nat): State
    requires k in s.held
  {
    s.(captured := s.captured[k := Lookup(cfg, s.image, s.held[k].request.address)])
  }

  /** The oldest write in the PHY reaches the image. */
  function DrainOne(cfg: Config, s: State): State
    requires s.fifo != []
  {
    var w := s.fifo[0];
    s.(fifo := s.fifo[1..],
       image := s.image[w.address := ApplyAt(Lookup(cfg, s.image, w.address), w, w.address)],
       captured := s.captured[w.sequence := Line([], [])])
  }

  predicate MayComplete(cfg: Config, s: State, k: nat) {
    && k in s.held && s.held[k].place.InPending?
    && (cfg.behavioral && !s.held[k].request.bypass ==> k in s.captured)
  }

  function ResponseOf(cfg: Config, s: State, k: nat): Response
    requires MayComplete(cfg, s, k)
  {
    var r := s.held[k].request;
    var line :=
      if r.kind.Write? then Line([], [])
      else if r.bypass then Line(r.data, r.mask)
      else if cfg.behavioral then s.captured[k]
      else Lookup(cfg, s.image, r.address);
    Response(r.id, r.kind, r.address, k, line, r.kind.Read? && r.bypass)
  }

  function Complete(cfg: Config, s: State, k: nat): State
    requires MayComplete(cfg, s, k)
  {
    s.(held := s.held - {k}, captured := s.captured - {k}, emitted := s.emitted[k := ResponseOf(cfg, s, k)])
  }

  // ---------------------------------------------------------------- the invariant

  predicate SizedBy(cfg: Config, data: Bytes, mask: Mask) { |data| == cfg.size && |mask| == cfg.size }

  /** Every accepted sequence number is held once or answered once, never both. */
  ghost predicate Conserved(s: State) {
    && s.next > 0
    && s.held.Keys !! s.emitted.Keys
    && (forall n: nat :: 0 < n < s.next <==> n in s.held || n in s.emitted)
  }

  ghost predicate WellPlaced(cfg: Config, s: State) {
    forall k | k in s.held ::
      var e := s.held[k];
      && e.request.sequence == k
      && (e.place.InRead? ==> e.request.kind.Read?)
      && (e.place.InWrite? ==> e.request.kind.Write?)
      && (e.request.bypass ==> e.place.InPending?)
      && (e.request.kind.Write? ==> SizedBy(cfg, e.request.data, e.request.mask))
  }

  /** Buffered writes and queued writes correspond one to one. */
  ghost predicate Matched(cfg: Config, s: State) {
    && (forall k: nat | Queued(s, k, Write) ::
          s.held[k].request.address in s.buffered && s.buffered[s.held[k].request.address].owner == k)
    && (forall a | a in s.buffered ::
          && Queued(s, s.buffered[a].owner, Write) && s.held[s.buffered[a].owner].request.address == a
          && SizedBy(cfg, s.buffered[a].data, s.buffered[a].mask))
  }

  ghost predicate PhyHolds(cfg: Config, s: State) {
    && (s.fifo != [] ==> cfg.behavioral)
    && (forall i | 0 <= i < |s.fifo| ::
          && s.fifo[i].kind.Write? && SizedBy(cfg, s.fifo[i].data, s.fifo[i].mask)
          && s.fifo[i].sequence in s.held && s.held[s.fifo[i].sequence] == Entry(s.fifo[i], InPending)
          && !s.fifo[i].bypass && s.fifo[i].sequence !in s.captured)
    && (forall i, j | 0 <= i < j < |s.fifo| :: s.fifo[i].sequence != s.fifo[j].sequence)
    && (forall k | k in s.captured :: cfg.behavioral && k in s.held && s.held[k].place.InPending? && !s.held[k].request.bypass)
  }

  ghost predicate LogBounded(s: State) {
    forall i | 0 <= i < |s.log| :: s.log[i].sequence < s.next
  }

  function Settled(cfg: Config, s: State, a: nat): Line {
    Drain(Lookup(cfg, s.image, a), s.fifo, a)
  }

  /** Image, PHY and write buffer together are the memory that performed every accepted write. */
  ghost predicate Current(cfg: Config, s: State) {
    forall a: nat :: Cover(Settled(cfg, s, a), s.buffered, a) == Sequential(cfg, s.log, a, s.next)
  }

  predicate OpenRead(s: State, k: nat) {
    k in s.held && s.held[k].request.kind.Read? && !s.held[k].request.bypass
  }

  /** What an unanswered, unforwarded read will return is already what it must return. */
  ghost predicate GuardedRead(cfg: Config, s: State, k: nat)
    requires k in s.held
  {
    var a := s.held[k].request.address;
    && (a in s.buffered ==> k < s.buffered[a].owner || Silent(s.buffered[a].mask))
    && (if k in s.captured then s.captured[k] == Sequential(cfg, s.log, a, k)
        else Settled(cfg, s, a) == Sequential(cfg, s.log, a, k))
    && (s.held[k].place.InPending? && k !in s.captured ==> Quiet(s.fifo, a))
  }

  ghost predicate Guarded(cfg: Config, s: State) {
    forall k: nat | OpenRead(s, k) :: GuardedRead(cfg, s, k)
  }

  ghost predicate Forwarded(cfg: Config, s: State) {
    forall k | k in s.held && s.held[k].request.kind.Read? && s.held[k].request.bypass && k !in s.tainted ::
      Line(s.held[k].request.data, s.held[k].request.mask) == Sequential(cfg, s.log, s.held[k].request.address, k)
  }

  /** Every answered read returned the reference memory's line. */
  ghost predicate Answered(cfg: Config, s: State) {
    forall k | k in s.emitted && s.emitted[k].kind.Read? && k !in s.tainted ::
      s.emitted[k].line == Sequential(cfg, s.log, s.emitted[k].address, k)
  }

  ghost predicate Unmasked(s: State) {
    forall i | 0 <= i < |s.log| :: Full(s.log[i].mask)
  }

  /** Nothing is tainted without the delaying PHY, nor with it while every write is unmasked. */
  ghost predicate Clean(cfg: Config, s: State) {
    && (!cfg.behavioral ==> s.tainted == {})
    && (Unmasked(s) ==> s.tainted == {} && forall a | a in s.buffered :: Full(s.buffered[a].mask))
    && (forall k | k in s.tainted :: k < s.next)
  }

  ghost predicate Structure(cfg: Config, s: State) {
    Conserved(s) && WellPlaced(cfg, s) && Matched(cfg, s) && PhyHolds(cfg, s) && LogBounded(s) && Clean(cfg, s)
  }

  ghost predicate Values(cfg: Config, s: State) {
    Current(cfg, s) && Guarded(cfg, s) && Forwarded(cfg, s) && Answered(cfg, s)
  }

  ghost predicate Inv(cfg: Config, s: State) {
    Structure(cfg, s) && Values(cfg, s)
  }
}

/** The channel controller's queues, write buffer, PHY FIFOs and response path, in queue order. */
module ControllerQueues {
  import opened Lines
  import opened StoreBuffer

  /** A data transfer inside the PHY and the cycle at which it is done. */
  datatype Slot = Slot(request: Request, ready: nat)

  function RemoveAt<T>(q: seq<T>, i: nat): (r: seq<T>)
    requires i < |q|
    ensures |r| == |q| - 1
    ensures forall j | 0 <= j < i :: r[j] == q[j]
    ensures forall j | i <= j < |r| :: r[j] == q[j + 1]
  {
    q[..i] + q[i + 1..]
  }

  ghost predicate Contains(q: seq<Request>, k: nat) {
    exists i | 0 <= i < |q| :: q[i].sequence == k
  }

  /** `q` lists, once each, exactly the held requests found at `place`. */
  ghost predicate Lists(held: map<nat, Entry>, q: seq<Request>, place: Place) {
    && (forall i | 0 <= i < |q| :: q[i].sequence in held && held[q[i].sequence] == Entry(q[i], place))
    && (forall i, j | 0 <= i < j < |q| :: q[i].sequence != q[j].sequence)
    && (forall k | k in held && held[k].place == place :: Contains(q, k))
  }

  lemma ListsAppend(held: map<nat, Entry>, q: seq<Request>, place: Place, r: Request)
    requires Lists(held, q, place)
    requires r.sequence in held ==> held[r.sequence].place != place
    ensures Lists(held[r.sequence := Entry(r, place)], q + [r], place)
  {
    var next := held[r.sequence := Entry(r, place)];
    var longer := q + [r];
    assert forall i | 0 <= i < |q| :: longer[i] == q[i];
    forall k | k in next && next[k].place == place
      ensures Contains(longer, k)
    {
      if k == r.sequence {
        assert longer[|q|].sequence == k;
      } else {
        assert Contains(q, k);
        var i :| 0 <= i < |q| && q[i].sequence == k;
        assert longer[i].sequence == k;
      }
    }
  }

  lemma ListsOther(held: map<nat, Entry>, q: seq<Request>, place: Place, k: nat, e: Entry)
    requires Lists(held, q, place) && e.place != place
    requires k in held ==> held[k].place != place
    ensures Lists(held[k := e], q, place)
  {
  }

  lemma RemovedKeys(q: seq<Request>, i: nat, k: nat)
    requires i < |q| && Contains(q, k) && q[i].sequence != k
    ensures Contains(RemoveAt(q, i), k)
  {
    var j :| 0 <= j < |q| && q[j].sequence == k;
    var r := RemoveAt(q, i);
    assert if j < i then r[j].sequence == k else r[j - 1].sequence == k;
  }

  /** Taking the request at `i` out of its queue, whatever its entry becomes elsewhere. */
  lemma ListsRemove(held: map<nat, Entry>, q: seq<Request>, place: Place, i: nat, next: map<nat, Entry>)
    requires Lists(held, q, place) && i < |q|
    requires forall k | k in held && k != q[i].sequence :: k in next && next[k] == held[k]
    requires forall k | k in next && k != q[i].sequence :: k in held
    requires q[i].sequence in next ==> next[q[i].sequence].place != place
    ensures Lists(next, RemoveAt(q, i), place)
  {
    forall k | k in next && next[k].place == place
      ensures Contains(RemoveAt(q, i), k)
    {
      RemovedKeys(q, i, k);
    }
  }

  lemma ListsDrop(held: map<nat, Entry>, q: seq<Request>, place: Place, k: nat)
    requires Lists(held, q, place) && k in held && held[k].place != place
    ensures Lists(held - {k}, q, place)
  {
  }

  /** The four places an accepted request can wait in. */
  datatype Queues = Queues(read: seq<Request>, write: seq<Request>, active: seq<Request>, pending: seq<Request>)

  function At(qs: Queues, place: Place): seq<Request> {
    match place
    case InRead => qs.read
    case InWrite => qs.write
    case InActive => qs.active
    case InPending => qs.pending
  }

  function WithAt(qs: Queues, place: Place, q: seq<Request>): Queues {
    match place
    case InRead => qs.(read := q)
    case InWrite => qs.(write := q)
    case InActive => qs.(active := q)
    case InPending => qs.(pending := q)
  }

  ghost predicate AllListed(held: map<nat, Entry>, qs: Queues) {
    forall p: Place :: Lists(held, At(qs, p), p)
  }

  function Put(qs: Queues, place: Place, r: Request): Queues {
    WithAt(qs, place, At(qs, place) + [r])
  }

  function MoveTo(qs: Queues, from: Place, i: nat, to: Place, r: Request): Queues
    requires i < |At(qs, from)|
  {
    WithAt(WithAt(qs, from, RemoveAt(At(qs, from), i)), to, At(qs, to) + [r])
  }

  lemma PutListed(held: map<nat, Entry>, qs: Queues, place: Place, r: Request)
    requires AllListed(held, qs) && r.sequence !in held
    ensures AllListed(held[r.sequence := Entry(r, place)], Put(qs, place, r))
  {
    forall p: Place
      ensures Lists(held[r.sequence := Entry(r, place)], At(Put(qs, place, r), p), p)
    {
      assert Lists(held, At(qs, p), p);
      if p == place { ListsAppend(held, At(qs, p), p, r); } else { ListsOther(held, At(qs, p), p, r.sequence, Entry(r, place)); }
    }
  }

  lemma MoveListed(held: map<nat, Entry>, qs: Queues, from: Place, i: nat, to: Place, r: Request)
    requires AllListed(held, qs) && from != to && i < |At(qs, from)| && r.sequence == At(qs, from)[i].sequence
    ensures AllListed(held[r.sequence := Entry(r, to)], MoveTo(qs, from, i, to, r))
  {
    var now := MoveTo(qs, from, i, to, r);
    forall p: Place
      ensures Lists(held[r.sequence := Entry(r, to)], At(now, p), p)
    {
      assert Lists(held, At(qs, p), p) && Lists(held, At(qs, from), from);
      if p == from { ListsRemove(held, At(qs, p), p, i, held[r.sequence := Entry(r, to)]); }
      else if p == to { ListsAppend(held, At(qs, p), p, r); }
      else { ListsOther(held, At(qs, p), p, r.sequence, Entry(r, to)); }
    }
  }

  lemma DropListed(held: map<nat, Entry>, qs: Queues, i: nat)
    requires AllListed(held, qs) && i < |qs.pending|
    ensures AllListed(held - {qs.pending[i].sequence}, qs.(pending := RemoveAt(qs.pending, i)))
  {
    var k := qs.pending[i].sequence;
    forall p: Place
      ensures Lists(held - {k}, At(qs.(pending := RemoveAt(qs.pending, i)), p), p)
    {
      assert Lists(held, At(qs, p), p) && Lists(held, At(qs, InPending), InPending);
      if p == InPending { ListsRemove(held, qs.pending, InPending, i, held - {k}); }
      else { ListsDrop(held, At(qs, p), p, k); }
    }
  }

  // ---------------------------------------------------------------- the sweep over pending completions

  /** The completed-but-not-yet-answered test of one pending request. */
  predicate Blocked(cfg: Config, clk: nat, limit: nat, captured: map<nat, Line>, r: Request, waiting: nat) {
    || r.completion > clk
    || (limit != 0 && waiting >= limit)
    || (cfg.behavioral && !r.bypass && r.sequence !in captured)
  }

  function Answer(cfg: Config, image: map<nat, Line>, captured: map<nat, Line>, r: Request): Response {
    var line :=
      if r.kind.Write? then Line([], [])
      else if r.bypass then Line(r.data, r.mask)
      else if cfg.behavioral && r.sequence in captured then captured[r.sequence]
      else Lookup(cfg, image, r.address);
    Response(r.id, r.kind, r.address, r.sequence, line, r.kind.Read? && r.bypass)
  }

  // ---------------------------------------------------------------- the controller's own state

  datatype Limits = Limits(read: nat, write: nat, response: nat)

  /**
    Everything the controller stores; `completions` are the PHY's finished transfers.
    `delivered` is history: the responses already taken by the consumer, in order.
   */
  datatype Core = Core(cfg: Config, limits: Limits, clk: nat, next: nat, queues: Queues,
                       buffered: map<nat, Buffered>, image: map<nat, Line>,
                       readFifo: seq<Slot>, writeFifo: seq<Slot>, completions: map<nat, Line>,
                       responses: seq<Response>, delivered: seq<Response>)

  function Reset(cfg: Config, limits: Limits): Core {
    Core(cfg, limits, 0, 1, Queues([], [], [], []), map[], map[], [], [], map[], [], [])
  }

  predicate ListedRead(q: seq<Request>, address: nat, bound: nat) {
    exists i | 0 <= i < |q| :: q[i].kind.Read? && q[i].address == address && q[i].sequence < bound
  }

  predicate ListedWrite(q: seq<Request>, address: nat) {
    exists i | 0 <= i < |q| :: q[i].kind.Write? && q[i].address == address
  }

  predicate AnyListedRead(qs: Queues, address: nat, bound: nat) {
    ListedRead(qs.read, address, bound) || ListedRead(qs.active, address, bound) || ListedRead(qs.pending, address, bound)
  }

  function Accept(c: Core, place: Place, r: Request): Core {
    c.(next := c.next + 1, queues := Put(c.queues, place, r))
  }

  predicate ReadAccepted(c: Core, a: nat) {
    Hit(c.buffered, a) || |c.queues.read| < c.limits.read
  }

  function EnqueueRead(c: Core, id: nat, a: nat): Core {
    if Hit(c.buffered, a) then
      var l := Cover(Lookup(c.cfg, c.image, a), c.buffered, a);
      Accept(c, InPending, Request(id, Read, a, c.next, l.bytes, l.init, true, c.clk + 1))
    else if |c.queues.read| < c.limits.read then
      Accept(c, InRead, Request(id, Read, a, c.next, [], [], false, 0))
    else c
  }

  predicate WriteAccepted(c: Core, a: nat) {
    if a in c.buffered then !AnyListedRead(c.queues, a, c.next) else |c.queues.write| < c.limits.write
  }

  function EnqueueWrite(c: Core, id: nat, a: nat, data: Bytes, mask: Mask): Core {
    if !WriteAccepted(c, a) then c
    else if a in c.buffered then
      var b := c.buffered[a];
      Accept(c, InPending, Request(id, Write, a, c.next, data, mask, true, c.clk + 1))
        .(buffered := c.buffered[a := Buffered(MergeBytes(b.data, data, mask), MergeMask(b.mask, mask), b.owner)])
    else
      Accept(c, InWrite, Request(id, Write, a, c.next, data, mask, false, 0))
        .(buffered := c.buffered[a := Buffered(data, mask, c.next)])
  }

  predicate Promotable(c: Core, from: Place, i: nat) {
    (from.InRead? || from.InWrite?) && i < |At(c.queues, from)|
  }

  function PromoteToActive(c: Core, from: Place, i: nat): Core
    requires Promotable(c, from, i)
  {
    c.(queues := MoveTo(c.queues, from, i, InActive, At(c.queues, from)[i]))
  }

  predicate ReadEligible(c: Core, from: Place, i: nat) {
    && !from.InPending? && i < |At(c.queues, from)| && At(c.queues, from)[i].kind.Read?
    && (c.cfg.behavioral ==> !ListedWrite(c.queues.pending, At(c.queues, from)[i].address))
  }

  function IssueReadAt(c: Core, from: Place, i: nat, latency: nat): Core
    requires ReadEligible(c, from, i)
  {
    var r := At(c.queues, from)[i].(completion := c.clk + latency);
    var d := c.(queues := MoveTo(c.queues, from, i, InPending, r));
    if c.cfg.behavioral then d.(readFifo := c.readFifo + [Slot(r, c.clk + latency)]) else d
  }

  predicate WriteEligible(c: Core, from: Place, i: nat) {
    && !from.InPending? && i < |At(c.queues, from)| && At(c.queues, from)[i].kind.Write?
    && At(c.queues, from)[i].address in c.buffered
    && !AnyListedRead(c.queues, At(c.queues, from)[i].address, At(c.queues, from)[i].sequence)
  }

  function IssueWriteAt(c: Core, from: Place, i: nat, latency: nat): Core
    requires WriteEligible(c, from, i)
  {
    var r := At(c.queues, from)[i];
    var b := c.buffered[r.address];
    var w := r.(data := b.data, mask := b.mask, completion := c.clk + latency);
    var d := c.(queues := MoveTo(c.queues, from, i, InPending, w), buffered := c.buffered - {r.address});
    if c.cfg.behavioral then d.(writeFifo := c.writeFifo + [Slot(w, c.clk + latency)])
    else d.(image := c.image[r.address := ApplyAt(Lookup(c.cfg, c.image, r.address), w, r.address)])
  }

  function PhyReads(c: Core): Core
    decreases |c.readFifo|
  {
    if c.readFifo != [] && c.readFifo[0].ready <= c.clk then
      var r := c.readFifo[0].request;
      PhyReads(c.(readFifo := c.readFifo[1..], completions := c.completions[r.sequence := Lookup(c.cfg, c.image, r.address)]))
    else c
  }

  function PhyWrites(c: Core): Core
    decreases |c.writeFifo|
  {
    if c.writeFifo != [] && c.writeFifo[0].ready <= c.clk then
      var w := c.writeFifo[0].request;
      PhyWrites(c.(writeFifo := c.writeFifo[1..],
                   image := c.image[w.address := ApplyAt(Lookup(c.cfg, c.image, w.address), w, w.address)],
                   completions := c.completions[w.sequence := Line([], [])]))
    else c
  }

  /** Answers one pending request. */
  function AnswerOne(c: Core, i: nat): Core
    requires i < |c.queues.pending|
  {
    var r := c.queues.pending[i];
    c.(queues := c.queues.(pending := RemoveAt(c.queues.pending, i)),
       completions := c.completions - {r.sequence},
       responses := c.responses + [Answer(c.cfg, c.image, c.completions, r)])
  }

  /** One pass over the pending requests from position `i` on. */
  function CompleteFrom(c: Core, i: nat): Core
    requires i <= |c.queues.pending|
    decreases |c.queues.pending| - i
  {
    if i == |c.queues.pending| then c
    else if Blocked(c.cfg, c.clk, c.limits.response, c.completions, c.queues.pending[i], |c.responses|) then CompleteFrom(c, i + 1)
    else CompleteFrom(AnswerOne(c, i), i)
  }

  function Tick(c: Core): Core {
    CompleteFrom(PhyWrites(PhyReads(c.(clk := c.clk + 1))), 0)
  }

  function PopResponse(c: Core): Core {
    if c.responses == [] then c else c.(responses := c.responses[1..], delivered := c.delivered + [c.responses[0]])
  }
}

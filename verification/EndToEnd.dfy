/**
  The host interface in front of any number of channel controllers. Nothing is assumed of the controllers: they
  are the store-buffer machines, and what they are proved to do makes them honest.
 */
module EndToEnd {
  import opened Lines
  import H = HostProtocol
  import R = HostRuns
  import S = StoreBuffer
  import P = StoreBufferProofs

  /** A transaction of a host request: its place there, the controller and line it goes to, what a write carries. */
  datatype Transaction = Transaction(request: H.Request, controller: nat, line: nat, data: Bytes, mask: Mask)

  /** The number under which a controller accepted a transaction. */
  datatype Ticket = Ticket(controller: nat, number: nat)

  datatype Setup = Setup(controllers: nat, memory: S.Config, host: H.Options)

  /** What a response carries besides its data: times, flags, and the outcome of the data checks. */
  datatype Outcome = Outcome(arrival: nat, completion: nat, initialized: bool, corrected: bool, uncorrectable: bool,
                             status: H.Status)

  /**
    The host's side, the transactions between host and controllers, the controllers, the transaction behind every
    ticket, the tickets whose responses were collected, and the ticket behind each collected transaction.
   */
  datatype World = World(host: R.World, ingress: seq<Transaction>, machines: seq<S.State>,
                         tickets: map<Ticket, Transaction>, taken: set<Ticket>, origin: map<R.Tag, Ticket>)

  datatype Step =
    | Submit(transaction: Transaction, room: bool)
    | Dispatch(i: nat, completion: nat)
    | Work(controller: nat, event: P.Event)
    | Deliver(ticket: Ticket, outcome: Outcome)
    | PopHost
    | PopTransaction

  function TagOf(t: Transaction): R.Tag { R.Tag(t.request.id, t.request.index) }

  function KindOf(k: H.Kind): S.Kind { if k.Read? then S.Read else S.Write }

  /** How the controller accepts the transaction. */
  function Accepting(t: Transaction, completion: nat): P.Event {
    if t.request.kind.Read? then P.DoAcceptRead(t.request.id, t.line, completion)
    else P.DoAcceptWrite(t.request.id, t.line, t.data, t.mask, completion)
  }

  predicate Accepts(e: P.Event) { e.DoAcceptRead? || e.DoAcceptWrite? }

  function MaskBytes(init: Mask): Bytes { seq(|init|, i requires 0 <= i < |init| => if init[i] then 255 else 0) }

  /** The response that a controller makes for a transaction. */
  function Answer(t: Transaction, l: Line, o: Outcome): H.Response {
    var count := if t.request.count >= 1 then t.request.count else 1;
    H.Response(t.request.id, t.request.index, count, t.request.kind, l.bytes, MaskBytes(l.init),
               o.arrival, o.completion, o.initialized, o.corrected, o.uncorrectable,
               if t.request.count == 0 || t.request.index >= count then H.INVALID else o.status)
  }

  function Answered(w: World, k: Ticket, o: Outcome): H.Response
    requires k in w.tickets && k.controller < |w.machines| && k.number in w.machines[k.controller].emitted
  {
    Answer(w.tickets[k], w.machines[k.controller].emitted[k.number].line, o)
  }

  ghost predicate Possible(p: Setup, w: World, step: Step) {
    && |w.machines| == p.controllers
    && match step
       case Submit(t, _) => t.controller < p.controllers
       case Dispatch(i, completion) =>
         && i < |w.ingress| && w.ingress[i].controller < p.controllers
         && P.Allowed(p.memory, w.machines[w.ingress[i].controller], Accepting(w.ingress[i], completion))
       case Work(c, e) => c < p.controllers && !Accepts(e) && P.Allowed(p.memory, w.machines[c], e)
       case Deliver(k, o) =>
         && k in w.tickets && k !in w.taken && k.controller < p.controllers
         && k.number in w.machines[k.controller].emitted && o.status != H.INVALID && H.CanCollect(p.host, w.host.sys)
       case PopHost => w.host.sys.host != []
       case PopTransaction => w.host.sys.transactions != []
  }

  function Without<T>(q: seq<T>, i: nat): seq<T>
    requires i < |q|
  {
    q[..i] + q[i + 1..]
  }

  /** What the step is to the host. */
  ghost function HostStep(p: Setup, w: World, step: Step): seq<R.Step>
    requires Possible(p, w, step)
  {
    match step
    case Submit(t, room) => [R.Submit(t.request, room)]
    case Deliver(k, o) => [R.Collect(Answered(w, k, o))]
    case PopHost => [R.PopHost]
    case PopTransaction => [R.PopTransaction]
    case _ => []
  }

  ghost function Next(p: Setup, w: World, step: Step): World
    requires Possible(p, w, step)
  {
    match step
    case Submit(t, room) =>
      w.(host := R.Next(p.host, w.host, R.Submit(t.request, room)),
         ingress := if H.Misuse(w.host.sys, t.request) || !room then w.ingress else w.ingress + [t])
    case Dispatch(i, completion) =>
      var t := w.ingress[i];
      var m := w.machines[t.controller];
      w.(ingress := Without(w.ingress, i), tickets := w.tickets[Ticket(t.controller, m.next) := t],
         machines := w.machines[t.controller := P.Step(p.memory, m, Accepting(t, completion))])
    case Work(c, e) => w.(machines := w.machines[c := P.Step(p.memory, w.machines[c], e)])
    case Deliver(k, o) =>
      w.(host := R.Next(p.host, w.host, R.Collect(Answered(w, k, o))), taken := w.taken + {k},
         origin := w.origin[TagOf(w.tickets[k]) := k])
    case PopHost => w.(host := R.Next(p.host, w.host, R.PopHost))
    case PopTransaction => w.(host := R.Next(p.host, w.host, R.PopTransaction))
  }

  // ---------------------------------------------------------------- what a controller keeps

  /** Whatever the controller holds or has answered under a number is the given kind of access to the given line. */
  ghost predicate Carries(m: S.State, n: nat, kind: S.Kind, line: nat) {
    && (n in m.held ==> m.held[n].request.kind == kind && m.held[n].request.address == line)
    && (n in m.emitted ==> m.emitted[n].kind == kind && m.emitted[n].address == line)
  }

  lemma CarriesOn(cfg: S.Config, m: S.State, e: P.Event, n: nat, kind: S.Kind, line: nat)
    requires P.Allowed(cfg, m, e) && Carries(m, n, kind, line) && n != m.next
    ensures Carries(P.Step(cfg, m, e), n, kind, line)
  {
  }

  lemma NumbersGrow(cfg: S.Config, m: S.State, e: P.Event)
    requires P.Allowed(cfg, m, e)
    ensures P.Step(cfg, m, e).next == m.next + if Accepts(e) then 1 else 0
  {
  }

  lemma AcceptedCarries(cfg: S.Config, m: S.State, t: Transaction, completion: nat)
    requires P.Allowed(cfg, m, Accepting(t, completion)) && m.next !in m.emitted
    ensures Carries(P.Step(cfg, m, Accepting(t, completion)), m.next, KindOf(t.request.kind), t.line)
  {
  }

  /** An answer given is not taken back. */
  lemma AnswerStays(cfg: S.Config, m: S.State, e: P.Event, n: nat)
    requires P.Allowed(cfg, m, e) && n in m.emitted && (forall k | k in m.held :: k !in m.emitted)
    ensures n in P.Step(cfg, m, e).emitted && P.Step(cfg, m, e).emitted[n] == m.emitted[n]
  {
  }

  // ---------------------------------------------------------------- the invariant

  /** The transaction was registered as it is, and its response is still awaited. */
  ghost predicate Awaited(w: World, t: Transaction) {
    && TagOf(t) in w.host.flying && t.request.id in w.host.sys.submissions
    && t.request.count == w.host.sys.submissions[t.request.id].count > t.request.index
    && t.request.kind == w.host.sys.submissions[t.request.id].kind
  }

  ghost predicate Open(w: World, k: Ticket) { k in w.tickets && k !in w.taken }

  ghost predicate AllAwaited(w: World) {
    && (forall i | 0 <= i < |w.ingress| :: Awaited(w, w.ingress[i]))
    && (forall k | Open(w, k) :: Awaited(w, w.tickets[k]))
  }

  /** No transaction is in two places. */
  ghost predicate Distinct(w: World) {
    && (forall i, j | 0 <= i < j < |w.ingress| :: TagOf(w.ingress[i]) != TagOf(w.ingress[j]))
    && (forall k, l | Open(w, k) && Open(w, l) && k != l :: TagOf(w.tickets[k]) != TagOf(w.tickets[l]))
    && (forall i, k | 0 <= i < |w.ingress| && Open(w, k) :: TagOf(w.ingress[i]) != TagOf(w.tickets[k]))
  }

  /** Every transaction on its way is in the ingress or with a controller. */
  ghost predicate Accounted(w: World) {
    forall tag | tag in w.host.flying ::
      (exists i | 0 <= i < |w.ingress| :: TagOf(w.ingress[i]) == tag) || (exists k | Open(w, k) :: TagOf(w.tickets[k]) == tag)
  }

  ghost predicate TicketOk(p: Setup, w: World, k: Ticket)
    requires |w.machines| == p.controllers && k in w.tickets
  {
    && k.controller < p.controllers && 0 < k.number < w.machines[k.controller].next
    && Carries(w.machines[k.controller], k.number, KindOf(w.tickets[k].request.kind), w.tickets[k].line)
    && (k in w.taken ==> k.number in w.machines[k.controller].emitted)
  }

  ghost predicate TicketsOk(p: Setup, w: World)
    requires |w.machines| == p.controllers
  {
    w.taken <= w.tickets.Keys && forall k | k in w.tickets :: TicketOk(p, w, k)
  }

  /** A collected response is its controller's answer to the transaction. */
  ghost predicate FromTicket(p: Setup, w: World, tag: R.Tag)
    requires |w.machines| == p.controllers && tag in w.host.collected
  {
    && tag in w.origin && w.origin[tag] in w.taken && w.origin[tag] in w.tickets
    && var k := w.origin[tag];
       && k.controller < p.controllers && k.number in w.machines[k.controller].emitted
       && TagOf(w.tickets[k]) == tag && w.tickets[k].request.kind == w.host.collected[tag].kind
       && w.host.collected[tag].data == w.machines[k.controller].emitted[k.number].line.bytes
       && w.host.collected[tag].mask == MaskBytes(w.machines[k.controller].emitted[k.number].line.init)
  }

  ghost predicate AllFromTickets(p: Setup, w: World)
    requires |w.machines| == p.controllers
  {
    forall tag | tag in w.host.collected :: FromTicket(p, w, tag)
  }

  ghost predicate Machines(p: Setup, w: World) {
    |w.machines| == p.controllers && forall c | 0 <= c < p.controllers :: P.Reachable(p.memory, w.machines[c])
  }

  ghost predicate Sound(p: Setup, w: World) {
    && Machines(p, w) && R.Sound(p.host, w.host) && AllAwaited(w) && Distinct(w) && Accounted(w)
    && TicketsOk(p, w) && AllFromTickets(p, w)
  }

  // ---------------------------------------------------------------- submitting

  /** A transaction that the host accepts is not on its way yet. */
  lemma NewTag(p: Setup, w: World, t: Transaction)
    requires R.Sound(p.host, w.host) && !H.Misuse(w.host.sys, t.request)
    ensures TagOf(t) !in w.host.flying
  {
    assert R.RequestOk(w.host, t.request.id);
  }

  lemma SubmitAwaits(p: Setup, w: World, t: Transaction, u: Transaction)
    requires !H.Misuse(w.host.sys, t.request) && (Awaited(w, u) || u == t)
    ensures Awaited(w.(host := R.Next(p.host, w.host, R.Submit(t.request, true))), u)
  {
  }

  lemma SubmitKeeps(p: Setup, w: World, t: Transaction)
    requires Sound(p, w) && t.controller < p.controllers && !H.Misuse(w.host.sys, t.request)
    ensures Sound(p, Next(p, w, Submit(t, true)))
  {
    var after := Next(p, w, Submit(t, true));
    R.StepKeeps(p.host, w.host, R.Submit(t.request, true));
    NewTag(p, w, t);
    SubmitAllAwaited(p, w, t);
    SubmitDistinct(p, w, t);
    SubmitAccounts(p, w, t);
    SameTickets(p, w, after);
  }

  lemma SubmitAllAwaited(p: Setup, w: World, t: Transaction)
    requires AllAwaited(w) && !H.Misuse(w.host.sys, t.request)
    ensures AllAwaited(w.(host := R.Next(p.host, w.host, R.Submit(t.request, true)), ingress := w.ingress + [t]))
  {
    var after := w.(host := R.Next(p.host, w.host, R.Submit(t.request, true)), ingress := w.ingress + [t]);
    forall i | 0 <= i < |after.ingress|
      ensures Awaited(after, after.ingress[i])
    {
      SubmitAwaits(p, w, t, after.ingress[i]);
    }
    forall k | Open(after, k)
      ensures Awaited(after, after.tickets[k])
    {
      SubmitAwaits(p, w, t, w.tickets[k]);
    }
  }

  lemma SubmitDistinct(p: Setup, w: World, t: Transaction)
    requires Distinct(w) && AllAwaited(w) && TagOf(t) !in w.host.flying
    ensures Distinct(w.(ingress := w.ingress + [t]))
  {
    var after := w.(ingress := w.ingress + [t]);
    forall i, j | 0 <= i < j < |after.ingress|
      ensures TagOf(after.ingress[i]) != TagOf(after.ingress[j])
    {
      assert Awaited(w, w.ingress[i]);
    }
    forall k | Open(after, k)
      ensures TagOf(t) != TagOf(w.tickets[k])
    {
      assert Open(w, k) && Awaited(w, w.tickets[k]);
    }
    forall i, k | 0 <= i < |after.ingress| && Open(after, k)
      ensures TagOf(after.ingress[i]) != TagOf(after.tickets[k])
    {
      assert Open(w, k);
    }
    forall k, l | Open(after, k) && Open(after, l) && k != l
      ensures TagOf(after.tickets[k]) != TagOf(after.tickets[l])
    {
      assert Open(w, k) && Open(w, l);
    }
  }

  lemma SubmitAccounts(p: Setup, w: World, t: Transaction)
    requires Accounted(w) && !H.Misuse(w.host.sys, t.request)
    ensures Accounted(w.(host := R.Next(p.host, w.host, R.Submit(t.request, true)), ingress := w.ingress + [t]))
  {
    var after := w.(host := R.Next(p.host, w.host, R.Submit(t.request, true)), ingress := w.ingress + [t]);
    forall tag | tag in after.host.flying
      ensures (exists i | 0 <= i < |after.ingress| :: TagOf(after.ingress[i]) == tag)
              || exists k | Open(after, k) :: TagOf(after.tickets[k]) == tag
    {
      if tag == TagOf(t) {
        assert TagOf(after.ingress[|w.ingress|]) == tag;
      } else {
        StillSomewhere(w, after, tag);
      }
    }
  }

  /** What is somewhere stays there while nothing leaves. */
  lemma StillSomewhere(w: World, after: World, tag: R.Tag)
    requires Accounted(w) && tag in w.host.flying && w.ingress <= after.ingress
    requires after.tickets == w.tickets && after.taken == w.taken
    ensures (exists i | 0 <= i < |after.ingress| :: TagOf(after.ingress[i]) == tag)
            || exists k | Open(after, k) :: TagOf(after.tickets[k]) == tag
  {
    if i :| 0 <= i < |w.ingress| && TagOf(w.ingress[i]) == tag {
      assert TagOf(after.ingress[i]) == tag;
    } else {
      var k :| Open(w, k) && TagOf(w.tickets[k]) == tag;
      assert Open(after, k);
    }
  }

  lemma SameTickets(p: Setup, w: World, after: World)
    requires Machines(p, w) && AllFromTickets(p, w) && after.machines == w.machines && after.tickets == w.tickets
    requires after.taken == w.taken && after.origin == w.origin
    requires forall tag | tag in after.host.collected ::
               tag in w.host.collected && after.host.collected[tag] == w.host.collected[tag]
    ensures AllFromTickets(p, after)
  {
    forall tag | tag in after.host.collected
      ensures FromTicket(p, after, tag)
    {
      assert FromTicket(p, w, tag);
    }
  }

  // ---------------------------------------------------------------- the controllers

  /** Every machine but one is as before, and that one took a step. */
  ghost predicate Moved(p: Setup, w: World, after: World, c: nat, e: P.Event) {
    && Machines(p, w) && c < p.controllers && P.Allowed(p.memory, w.machines[c], e)
    && after.machines == w.machines[c := P.Step(p.memory, w.machines[c], e)]
    && after.taken == w.taken && after.host == w.host && after.origin == w.origin
  }

  lemma MovedMachines(p: Setup, w: World, after: World, c: nat, e: P.Event)
    requires Moved(p, w, after, c, e)
    ensures Machines(p, after)
  {
    P.ReachableStep(p.memory, w.machines[c], e);
  }

  lemma MovedTicket(p: Setup, w: World, after: World, c: nat, e: P.Event, k: Ticket)
    requires Moved(p, w, after, c, e) && k in w.tickets && TicketOk(p, w, k)
    requires k in after.tickets && after.tickets[k] == w.tickets[k]
    ensures TicketOk(p, after, k)
    ensures k.number in w.machines[k.controller].emitted ==>
              && k.number in after.machines[k.controller].emitted
              && after.machines[k.controller].emitted[k.number] == w.machines[k.controller].emitted[k.number]
  {
    if k.controller == c {
      var m := w.machines[c];
      P.ReachableFacts(p.memory, m);
      NumbersGrow(p.memory, m, e);
      CarriesOn(p.memory, m, e, k.number, KindOf(w.tickets[k].request.kind), w.tickets[k].line);
      if k.number in m.emitted { AnswerStays(p.memory, m, e, k.number); }
    }
  }

  lemma MovedFromTickets(p: Setup, w: World, after: World, c: nat, e: P.Event)
    requires Moved(p, w, after, c, e) && TicketsOk(p, w) && AllFromTickets(p, w) && |after.machines| == p.controllers
    requires forall k | k in w.tickets :: k in after.tickets && after.tickets[k] == w.tickets[k]
    ensures AllFromTickets(p, after)
  {
    forall tag | tag in after.host.collected
      ensures FromTicket(p, after, tag)
    {
      assert FromTicket(p, w, tag);
      MovedTicket(p, w, after, c, e, w.origin[tag]);
    }
  }

  lemma WorkKeeps(p: Setup, w: World, c: nat, e: P.Event)
    requires Sound(p, w) && Possible(p, w, Work(c, e))
    ensures Sound(p, Next(p, w, Work(c, e)))
  {
    var after := Next(p, w, Work(c, e));
    MovedMachines(p, w, after, c, e);
    forall k | k in after.tickets
      ensures TicketOk(p, after, k)
    {
      MovedTicket(p, w, after, c, e, k);
    }
    MovedFromTickets(p, w, after, c, e);
    SameAwaited(w, after);
    SameDistinct(w, after);
  }

  lemma SameAccounted(w: World, after: World)
    requires Accounted(w) && after.host.flying == w.host.flying && after.ingress == w.ingress
    requires after.tickets == w.tickets && after.taken == w.taken
    ensures Accounted(after)
  {
    forall tag | tag in after.host.flying
      ensures (exists i | 0 <= i < |after.ingress| :: TagOf(after.ingress[i]) == tag)
              || exists k | Open(after, k) :: TagOf(after.tickets[k]) == tag
    {
      StillSomewhere(w, after, tag);
    }
  }

  lemma SameAwaited(w: World, after: World)
    requires AllAwaited(w) && Accounted(w) && after.host.flying == w.host.flying && after.host.sys.submissions == w.host.sys.submissions
    requires after.ingress == w.ingress && after.tickets == w.tickets && after.taken == w.taken
    ensures AllAwaited(after) && Accounted(after)
  {
    forall i | 0 <= i < |after.ingress| ensures Awaited(after, after.ingress[i]) { assert Awaited(w, w.ingress[i]); }
    forall k | Open(after, k) ensures Awaited(after, after.tickets[k]) { assert Open(w, k); }
    SameAccounted(w, after);
  }

  lemma SameDistinct(w: World, after: World)
    requires Distinct(w) && after.ingress == w.ingress && after.tickets == w.tickets && after.taken == w.taken
    ensures Distinct(after)
  {
    assert forall k :: Open(after, k) <==> Open(w, k);
  }

  // ---------------------------------------------------------------- dispatching

  /** The transaction moves from the ingress to a new ticket. */
  ghost predicate Handed(w: World, after: World, i: nat, k: Ticket) {
    && i < |w.ingress| && k !in w.tickets && k !in w.taken && after.ingress == Without(w.ingress, i)
    && after.tickets == w.tickets[k := w.ingress[i]] && after.taken == w.taken && after.host == w.host
  }

  lemma HandedOpen(w: World, after: World, i: nat, k: Ticket, l: Ticket)
    requires Handed(w, after, i, k)
    ensures Open(after, l) <==> Open(w, l) || l == k
    ensures Open(w, l) ==> l != k && after.tickets[l] == w.tickets[l]
  {
  }

  lemma HandedAwaited(w: World, after: World, i: nat, k: Ticket)
    requires Handed(w, after, i, k) && AllAwaited(w)
    ensures AllAwaited(after)
  {
    forall j | 0 <= j < |after.ingress|
      ensures Awaited(after, after.ingress[j])
    {
      assert after.ingress[j] == w.ingress[if j < i then j else j + 1];
      assert Awaited(w, after.ingress[j]);
    }
    forall l | Open(after, l)
      ensures Awaited(after, after.tickets[l])
    {
      HandedOpen(w, after, i, k, l);
      if l == k { assert Awaited(w, w.ingress[i]); } else { assert Awaited(w, w.tickets[l]); }
    }
  }

  lemma HandedDistinct(w: World, after: World, i: nat, k: Ticket)
    requires Handed(w, after, i, k) && Distinct(w)
    ensures Distinct(after)
  {
    forall j | 0 <= j < |after.ingress|
      ensures after.ingress[j] == w.ingress[if j < i then j else j + 1]
    {
    }
    forall l ensures Open(after, l) <==> Open(w, l) || l == k { HandedOpen(w, after, i, k, l); }
    forall l | Open(w, l) ensures l != k && after.tickets[l] == w.tickets[l] { HandedOpen(w, after, i, k, l); }
  }

  lemma HandedAccounted(w: World, after: World, i: nat, k: Ticket)
    requires Handed(w, after, i, k) && Accounted(w)
    ensures Accounted(after)
  {
    forall tag | tag in after.host.flying
      ensures (exists j | 0 <= j < |after.ingress| :: TagOf(after.ingress[j]) == tag)
              || exists l | Open(after, l) :: TagOf(after.tickets[l]) == tag
    {
      if j :| 0 <= j < |w.ingress| && TagOf(w.ingress[j]) == tag {
        if j == i { assert Open(after, k); }
        else { assert after.ingress[if j < i then j else j - 1] == w.ingress[j]; }
      } else {
        var l :| Open(w, l) && TagOf(w.tickets[l]) == tag;
        HandedOpen(w, after, i, k, l);
      }
    }
  }

  lemma NewTicket(p: Setup, w: World, c: nat)
    requires Machines(p, w) && TicketsOk(p, w) && c < p.controllers
    ensures Ticket(c, w.machines[c].next) !in w.tickets && Ticket(c, w.machines[c].next) !in w.taken
  {
    forall k | k in w.tickets
      ensures k != Ticket(c, w.machines[c].next)
    {
      assert TicketOk(p, w, k);
    }
  }

  lemma NewTicketOk(p: Setup, w: World, after: World, t: Transaction, completion: nat)
    requires Moved(p, w, after, t.controller, Accepting(t, completion)) && |after.machines| == p.controllers
    requires
      var k := Ticket(t.controller, w.machines[t.controller].next);
      k !in w.taken && k in after.tickets && after.tickets[k] == t
    ensures TicketOk(p, after, Ticket(t.controller, w.machines[t.controller].next))
  {
    var m := w.machines[t.controller];
    P.ReachableKeeps(p.memory, m);
    P.ReachableFacts(p.memory, m);
    NumbersGrow(p.memory, m, Accepting(t, completion));
    AcceptedCarries(p.memory, m, t, completion);
  }

  lemma DispatchTickets(p: Setup, w: World, after: World, i: nat, completion: nat, k: Ticket)
    requires i < |w.ingress| && Moved(p, w, after, w.ingress[i].controller, Accepting(w.ingress[i], completion))
    requires TicketsOk(p, w) && Handed(w, after, i, k) && |after.machines| == p.controllers
    requires k == Ticket(w.ingress[i].controller, w.machines[w.ingress[i].controller].next)
    ensures TicketsOk(p, after)
  {
    NewTicketOk(p, w, after, w.ingress[i], completion);
    forall l | l in after.tickets
      ensures TicketOk(p, after, l)
    {
      if l != k { MovedTicket(p, w, after, w.ingress[i].controller, Accepting(w.ingress[i], completion), l); }
    }
  }

  lemma DispatchKeeps(p: Setup, w: World, i: nat, completion: nat)
    requires Sound(p, w) && Possible(p, w, Dispatch(i, completion))
    ensures Sound(p, Next(p, w, Dispatch(i, completion)))
  {
    var after, t := Next(p, w, Dispatch(i, completion)), w.ingress[i];
    var k := Ticket(t.controller, w.machines[t.controller].next);
    NewTicket(p, w, t.controller);
    MovedMachines(p, w, after, t.controller, Accepting(t, completion));
    DispatchTickets(p, w, after, i, completion, k);
    MovedFromTickets(p, w, after, t.controller, Accepting(t, completion));
    HandedAwaited(w, after, i, k);
    HandedDistinct(w, after, i, k);
    HandedAccounted(w, after, i, k);
  }

  // ---------------------------------------------------------------- delivering

  /** The controllers answer honestly: as the host registered the transaction, and once. */
  lemma DeliveryIsHonest(p: Setup, w: World, k: Ticket, o: Outcome)
    requires Sound(p, w) && Possible(p, w, Deliver(k, o))
    ensures R.Possible(p.host, w.host, R.Collect(Answered(w, k, o)))
  {
    assert Open(w, k) && Awaited(w, w.tickets[k]);
  }

  lemma DeliverAwaits(p: Setup, w: World, k: Ticket, o: Outcome, u: Transaction)
    requires Sound(p, w) && Possible(p, w, Deliver(k, o)) && Awaited(w, u) && TagOf(u) != TagOf(w.tickets[k])
    ensures Awaited(Next(p, w, Deliver(k, o)), u)
  {
    DeliveryIsHonest(p, w, k, o);
    R.CollectShape(p.host, w.host, Answered(w, k, o));
  }

  lemma DeliverAllAwaited(p: Setup, w: World, k: Ticket, o: Outcome)
    requires Sound(p, w) && Possible(p, w, Deliver(k, o))
    ensures AllAwaited(Next(p, w, Deliver(k, o)))
  {
    var after := Next(p, w, Deliver(k, o));
    assert Open(w, k);
    forall i | 0 <= i < |after.ingress|
      ensures Awaited(after, after.ingress[i])
    {
      assert Awaited(w, w.ingress[i]);
      DeliverAwaits(p, w, k, o, w.ingress[i]);
    }
    forall l | Open(after, l)
      ensures Awaited(after, after.tickets[l])
    {
      assert Open(w, l) && l != k;
      DeliverAwaits(p, w, k, o, w.tickets[l]);
    }
  }

  lemma DeliverAccounted(p: Setup, w: World, k: Ticket, o: Outcome)
    requires Distinct(w) && Accounted(w) && Possible(p, w, Deliver(k, o))
    ensures Distinct(Next(p, w, Deliver(k, o))) && Accounted(Next(p, w, Deliver(k, o)))
  {
    var after := Next(p, w, Deliver(k, o));
    assert forall l :: Open(after, l) <==> Open(w, l) && l != k;
    forall tag | tag in after.host.flying
      ensures (exists i | 0 <= i < |after.ingress| :: TagOf(after.ingress[i]) == tag)
              || exists l | Open(after, l) :: TagOf(after.tickets[l]) == tag
    {
      assert tag != TagOf(w.tickets[k]);
      if l :| Open(w, l) && TagOf(w.tickets[l]) == tag { assert Open(after, l); }
    }
  }

  lemma DeliverFromTickets(p: Setup, w: World, k: Ticket, o: Outcome)
    requires Sound(p, w) && Possible(p, w, Deliver(k, o))
    ensures TicketsOk(p, Next(p, w, Deliver(k, o))) && AllFromTickets(p, Next(p, w, Deliver(k, o)))
  {
    var after := Next(p, w, Deliver(k, o));
    forall l | l in after.tickets
      ensures TicketOk(p, after, l)
    {
      assert TicketOk(p, w, l);
    }
    forall tag | tag in after.host.collected
      ensures FromTicket(p, after, tag)
    {
      if tag != TagOf(w.tickets[k]) { assert FromTicket(p, w, tag); }
    }
  }

  lemma DeliverKeeps(p: Setup, w: World, k: Ticket, o: Outcome)
    requires Sound(p, w) && Possible(p, w, Deliver(k, o))
    ensures Sound(p, Next(p, w, Deliver(k, o)))
  {
    DeliveryIsHonest(p, w, k, o);
    R.StepKeeps(p.host, w.host, R.Collect(Answered(w, k, o)));
    DeliverAllAwaited(p, w, k, o);
    DeliverAccounted(p, w, k, o);
    DeliverFromTickets(p, w, k, o);
  }

  // ---------------------------------------------------------------- handing out

  /** Requests whose response is handed out have nothing on its way any more. */
  lemma PopAwaits(p: Setup, w: World, u: Transaction)
    requires R.Sound(p.host, w.host) && w.host.sys.host != [] && Awaited(w, u)
    ensures Awaited(w.(host := R.Next(p.host, w.host, R.PopHost)), u)
  {
    R.StepKeeps(p.host, w.host, R.PopHost);
    assert R.RequestOk(R.Next(p.host, w.host, R.PopHost), u.request.id);
  }

  lemma PopAllAwaited(p: Setup, w: World, after: World)
    requires R.Sound(p.host, w.host) && w.host.sys.host != [] && AllAwaited(w)
    requires after == w.(host := R.Next(p.host, w.host, R.PopHost))
    ensures AllAwaited(after)
  {
    forall i | 0 <= i < |after.ingress|
      ensures Awaited(after, after.ingress[i])
    {
      PopAwaits(p, w, w.ingress[i]);
    }
    forall k | Open(after, k)
      ensures Awaited(after, after.tickets[k])
    {
      assert Open(w, k);
      PopAwaits(p, w, w.tickets[k]);
    }
  }

  lemma PopKeeps(p: Setup, w: World)
    requires Sound(p, w) && w.host.sys.host != []
    ensures Sound(p, Next(p, w, PopHost))
  {
    var after := Next(p, w, PopHost);
    R.StepKeeps(p.host, w.host, R.PopHost);
    PopAllAwaited(p, w, after);
    SameDistinct(w, after);
    SameAccounted(w, after);
    SameTickets(p, w, after);
    forall k | k in after.tickets ensures TicketOk(p, after, k) { assert TicketOk(p, w, k); }
  }

  lemma PopTransactionKeeps(p: Setup, w: World)
    requires Sound(p, w) && w.host.sys.transactions != []
    ensures Sound(p, Next(p, w, PopTransaction))
  {
    var after := Next(p, w, PopTransaction);
    R.StepKeeps(p.host, w.host, R.PopTransaction);
    SameAwaited(w, after);
    SameDistinct(w, after);
    SameTickets(p, w, after);
    forall k | k in after.tickets ensures TicketOk(p, after, k) { assert TicketOk(p, w, k); }
  }

  // ---------------------------------------------------------------- runs

  lemma StepKeeps(p: Setup, w: World, step: Step)
    requires Sound(p, w) && Possible(p, w, step)
    ensures Sound(p, Next(p, w, step))
  {
    match step
    case Submit(t, room) => if !H.Misuse(w.host.sys, t.request) && room { SubmitKeeps(p, w, t); }
    case Dispatch(i, completion) => DispatchKeeps(p, w, i, completion);
    case Work(c, e) => WorkKeeps(p, w, c, e);
    case Deliver(k, o) => DeliverKeeps(p, w, k, o);
    case PopHost => PopKeeps(p, w);
    case PopTransaction => PopTransactionKeeps(p, w);
  }

  function First(p: Setup): World {
    World(R.Empty(), [], seq(p.controllers, _ => S.Initial), map[], {}, map[])
  }

  ghost predicate IsRun(p: Setup, steps: seq<Step>)
    decreases |steps|, 0
  {
    steps == []
    || var n := |steps| - 1;
       IsRun(p, steps[..n]) && Possible(p, After(p, steps[..n]), steps[n])
  }

  ghost function After(p: Setup, steps: seq<Step>): World
    requires IsRun(p, steps)
    decreases |steps|, 1
  {
    if steps == [] then First(p)
    else
      var n := |steps| - 1;
      Next(p, After(p, steps[..n]), steps[n])
  }

  lemma FirstSound(p: Setup)
    ensures Sound(p, First(p))
  {
    P.ReachableInitial(p.memory);
    R.RunSound(p.host, []);
  }

  lemma {:induction false} RunSound(p: Setup, steps: seq<Step>)
    requires IsRun(p, steps)
    ensures Sound(p, After(p, steps))
  {
    if steps == [] {
      FirstSound(p);
    } else {
      var n := |steps| - 1;
      RunSound(p, steps[..n]);
      StepKeeps(p, After(p, steps[..n]), steps[n]);
    }
  }

  /** The host's part of a run. */
  ghost function HostSteps(p: Setup, steps: seq<Step>): seq<R.Step>
    requires IsRun(p, steps)
  {
    if steps == [] then []
    else
      var n := |steps| - 1;
      HostSteps(p, steps[..n]) + HostStep(p, After(p, steps[..n]), steps[n])
  }

  lemma HostStepIsPossible(p: Setup, w: World, step: Step)
    requires Sound(p, w) && Possible(p, w, step)
    ensures
      var moves := HostStep(p, w, step);
      if moves == [] then Next(p, w, step).host == w.host
      else |moves| == 1 && R.Possible(p.host, w.host, moves[0]) && Next(p, w, step).host == R.Next(p.host, w.host, moves[0])
  {
    if step.Deliver? { DeliveryIsHonest(p, w, step.ticket, step.outcome); }
  }

  /**
    What the host sees is a run with honest controllers: so every host request is answered exactly once, by a whole
    response, however the controllers schedule and whenever they answer.
   */
  lemma {:induction false} HostSeesHonestRun(p: Setup, steps: seq<Step>)
    requires IsRun(p, steps)
    ensures R.IsRun(p.host, HostSteps(p, steps)) && R.After(p.host, HostSteps(p, steps)) == After(p, steps).host
  {
    if steps != [] {
      var n := |steps| - 1;
      var w := After(p, steps[..n]);
      var before, moves := HostSteps(p, steps[..n]), HostStep(p, w, steps[n]);
      HostSeesHonestRun(p, steps[..n]);
      RunSound(p, steps[..n]);
      HostStepIsPossible(p, w, steps[n]);
      if moves == [] { assert before + moves == before; } else { assert (before + moves)[..|before|] == before; }
    }
  }

  /** The same statement for whole systems: what was opened is answered or still registered. */
  lemma EachRequestAnsweredOnce(p: Setup, steps: seq<Step>, id: nat)
    requires IsRun(p, steps)
    ensures
      var w, moves := After(p, steps), HostSteps(p, steps);
      && R.Opened(p.host, moves, id) == R.Answered(p.host, moves, id) + (if id in w.host.sys.submissions then 1 else 0)
      && (R.Queued(w.host, id) <==> R.Whole(w.host, id))
  {
    HostSeesHonestRun(p, steps);
    R.OneResponseEach(p.host, HostSteps(p, steps), id);
  }

  /** The controller still works on it, or has answered. */
  ghost predicate WithController(w: World, k: Ticket) {
    && k.controller < |w.machines|
    && ((k.number in w.machines[k.controller].held) != (k.number in w.machines[k.controller].emitted))
  }

  /** Everything accepted and not yet collected is between host and controllers, or with exactly one controller. */
  lemma NothingLostOnTheWay(p: Setup, steps: seq<Step>, tag: R.Tag)
    requires IsRun(p, steps)
    ensures
      var w := After(p, steps);
      tag in w.host.flying <==>
        (exists i | 0 <= i < |w.ingress| :: TagOf(w.ingress[i]) == tag)
        || exists k | Open(w, k) :: TagOf(w.tickets[k]) == tag && WithController(w, k)
  {
    RunSound(p, steps);
    var w := After(p, steps);
    forall k | Open(w, k)
      ensures WithController(w, k)
    {
      assert TicketOk(p, w, k);
      P.ReachableKeeps(p.memory, w.machines[k.controller]);
    }
    if i :| 0 <= i < |w.ingress| && TagOf(w.ingress[i]) == tag { assert Awaited(w, w.ingress[i]); }
  }

  /** The bytes that a memory holds which performed, in order, the writes its controller accepted before this access. */
  ghost function Expected(p: Setup, w: World, k: Ticket): Line
    requires k in w.tickets && k.controller < |w.machines|
  {
    S.Sequential(p.memory, w.machines[k.controller].log, w.tickets[k].line, k.number)
  }

  /** Part `i` of the response is the answer to that transaction of its request, and a read's bytes are as expected. */
  ghost predicate PartIsSequential(p: Setup, w: World, h: H.HostResponse, i: nat) {
    && i < |h.transactions| && R.Tag(h.id, i) in w.origin && w.origin[R.Tag(h.id, i)] in w.tickets
    && var k := w.origin[R.Tag(h.id, i)];
       && k.controller < |w.machines| && TagOf(w.tickets[k]) == R.Tag(h.id, i)
       && w.tickets[k].request.kind == h.transactions[i].kind
       && (h.transactions[i].kind.Read? ==>
             && h.transactions[i].data == Expected(p, w, k).bytes
             && h.transactions[i].mask == MaskBytes(Expected(p, w, k).init))
  }

  lemma PartIsExpected(p: Setup, w: World, id: nat, i: nat)
    requires Sound(p, w) && R.Tag(id, i) in w.host.collected
    requires !p.memory.behavioral || forall c | 0 <= c < p.controllers :: S.Unmasked(w.machines[c])
    ensures
      var r := w.host.collected[R.Tag(id, i)];
      FromTicket(p, w, R.Tag(id, i)) && (r.kind.Read? ==>
        && r.data == Expected(p, w, w.origin[R.Tag(id, i)]).bytes
        && r.mask == MaskBytes(Expected(p, w, w.origin[R.Tag(id, i)]).init))
  {
    var tag := R.Tag(id, i);
    assert FromTicket(p, w, tag);
    var k := w.origin[tag];
    assert TicketOk(p, w, k);
    P.ReachableKeeps(p.memory, w.machines[k.controller]);
  }

  lemma PartsAreSequential(p: Setup, w: World)
    requires Sound(p, w) && w.host.sys.host != []
    requires !p.memory.behavioral || forall c | 0 <= c < p.controllers :: S.Unmasked(w.machines[c])
    ensures forall i: nat | i < |w.host.sys.host[0].transactions| :: PartIsSequential(p, w, w.host.sys.host[0], i)
  {
    var h := w.host.sys.host[0];
    assert R.Faithful(w.host, h);
    forall i: nat | i < |h.transactions|
      ensures PartIsSequential(p, w, h, i)
    {
      assert R.Tag(h.id, i) in w.host.collected && h.transactions[i] == w.host.collected[R.Tag(h.id, i)];
      PartIsExpected(p, w, h.id, i);
    }
  }

  /**
    End to end: the data of a host's read is made, in index order, of the bytes that sequential memories hold, one
    line for each of its transactions, for every split over controllers, schedule, completion order and queue size.
   */
  lemma HostReadsAreSequential(p: Setup, steps: seq<Step>)
    requires IsRun(p, steps) && After(p, steps).host.sys.host != []
    requires !p.memory.behavioral || forall c | 0 <= c < |After(p, steps).machines| :: S.Unmasked(After(p, steps).machines[c])
    ensures
      var w := After(p, steps);
      var h := w.host.sys.host[0];
      && h.id in w.host.sys.submissions && |h.transactions| == w.host.sys.submissions[h.id].count > 0
      && h.data == H.JoinedData(h.transactions) && h.mask == H.JoinedMask(h.transactions)
      && forall i: nat | i < |h.transactions| :: PartIsSequential(p, w, h, i)
  {
    RunSound(p, steps);
    HostSeesHonestRun(p, steps);
    R.AnswersAreWhole(p.host, HostSteps(p, steps));
    PartsAreSequential(p, After(p, steps));
  }
}

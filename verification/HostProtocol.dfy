/**
  Host requests split into transactions: submission, completion in any order, reassembly, and bounded
  response queues. Which transaction completes next is left open, as is all it carries.
 */
module HostProtocol {
  import opened Lines
  import opened Wrappers

  datatype Kind = Read | Write | Maintenance

  /** Severities; the highest is an invalid transaction. */
  type Status = x: int | 0 <= x < 8

  const INVALID: Status := 7

  datatype Request = Request(id: nat, index: nat, count: nat, kind: Kind)

  datatype Response = Response(id: nat, index: nat, count: nat, kind: Kind, data: Bytes, mask: Bytes, arrival: nat,
                               completion: nat, initialized: bool, corrected: bool, uncorrectable: bool, status: Status)

  datatype HostResponse = HostResponse(id: nat, kind: Kind, count: nat, data: Bytes, mask: Bytes,
                                       transactions: seq<Response>, arrival: nat, completion: nat, initialized: bool,
                                       corrected: bool, uncorrectable: bool, status: Status)

  datatype Submission = Submission(count: nat, kind: Kind, accepted: seq<bool>, completed: nat)

  datatype Assembly = Assembly(count: nat, parts: seq<Option<Response>>, received: nat)

  /** Queue capacities, zero for none, and whether transactions are delivered as well. */
  datatype Options = Options(hostCapacity: nat, transactionCapacity: nat, both: bool)

  datatype System = System(submissions: map<nat, Submission>, assemblies: map<nat, Assembly>,
                           host: seq<HostResponse>, transactions: seq<Response>)

  // ---------------------------------------------------------------- a whole response

  function ReadData(r: Response): Bytes { if r.kind.Read? then r.data else [] }

  function ReadMask(r: Response): Bytes { if r.kind.Read? then r.mask else [] }

  function JoinedData(parts: seq<Response>): Bytes {
    if parts == [] then [] else JoinedData(parts[..|parts| - 1]) + ReadData(parts[|parts| - 1])
  }

  function JoinedMask(parts: seq<Response>): Bytes {
    if parts == [] then [] else JoinedMask(parts[..|parts| - 1]) + ReadMask(parts[|parts| - 1])
  }

  function Worse(a: Status, b: Status): Status { if a >= b then a else b }

  /** The highest severity, an invalid one if the parts disagree on what kind of request this was. */
  function WorstStatus(parts: seq<Response>): Status {
    if parts == [] then 0
    else
      var last := parts[|parts| - 1];
      var before := WorstStatus(parts[..|parts| - 1]);
      Worse(if last.kind != parts[0].kind then INVALID else before, last.status)
  }

  function Earliest(parts: seq<Response>): nat
    requires parts != []
  {
    var last := parts[|parts| - 1].arrival;
    if |parts| == 1 then last
    else
      var before := Earliest(parts[..|parts| - 1]);
      if before <= last then before else last
  }

  function Latest(parts: seq<Response>): nat {
    if parts == [] then 0
    else
      var before, last := Latest(parts[..|parts| - 1]), parts[|parts| - 1].completion;
      if before >= last then before else last
  }

  /** The host response made of all parts, in index order. */
  function HostOf(parts: seq<Response>): HostResponse
    requires parts != []
  {
    HostResponse(parts[0].id, parts[0].kind, |parts|, JoinedData(parts), JoinedMask(parts), parts, Earliest(parts), Latest(parts),
                 forall r | r in parts :: r.initialized, exists r | r in parts :: r.corrected,
                 exists r | r in parts :: r.uncorrectable, WorstStatus(parts))
  }

  // ---------------------------------------------------------------- operations

  /** Whether a submission is refused as misuse. */
  predicate Misuse(s: System, q: Request) {
    || q.kind.Maintenance? || q.count == 0 || q.index >= q.count
    || if q.id !in s.submissions then q.index != 0
       else
         var h := s.submissions[q.id];
         h.count != q.count || h.kind != q.kind || q.index >= |h.accepted| || h.accepted[q.index]
  }

  function Recorded(s: System, q: Request): System
    requires !Misuse(s, q)
  {
    var h := if q.id in s.submissions then s.submissions[q.id] else Submission(q.count, q.kind, seq(q.count, _ => false), 0);
    s.(submissions := s.submissions[q.id := h.(accepted := h.accepted[q.index := true])])
  }

  predicate HostFull(o: Options, s: System) { o.hostCapacity != 0 && |s.host| >= o.hostCapacity }

  predicate TransactionsFull(o: Options, s: System) {
    o.transactionCapacity != 0 && |s.transactions| >= o.transactionCapacity
  }

  /** A controller's response is taken only if every view it feeds has room. */
  predicate CanCollect(o: Options, s: System) { !(o.both && TransactionsFull(o, s)) && !HostFull(o, s) }

  function Completed(s: System, id: nat): System {
    if id in s.submissions then
      s.(submissions := s.submissions[id := s.submissions[id].(completed := s.submissions[id].completed + 1)])
    else s
  }

  function Published(s: System, h: HostResponse): System { s.(host := s.host + [h]) }

  function CountOf(r: Response): nat { if r.count >= 1 then r.count else 1 }

  /** The single-part response that reports a misfit. */
  function Misfit(r: Response): HostResponse {
    HostResponse(r.id, r.kind, CountOf(r), [], [], [r], r.arrival, r.completion, r.initialized, r.corrected, r.uncorrectable, INVALID)
  }

  /** A response that does not fit its assembly is reported without its times. */
  function Clash(r: Response): HostResponse { Misfit(r).(arrival := 0, completion := 0) }

  function Values(parts: seq<Option<Response>>): seq<Response> {
    if parts == [] then []
    else
      var last := parts[|parts| - 1];
      Values(parts[..|parts| - 1]) + if last.Some? then [last.value] else []
  }

  /** The host response of an assembly: a missing part makes it invalid. */
  function Assembled(parts: seq<Option<Response>>): HostResponse
    requires Values(parts) != []
  {
    var h := HostOf(Values(parts));
    h.(count := |parts|, status := if |Values(parts)| == |parts| then h.status else INVALID)
  }

  function OpenAssembly(s: System, r: Response): Assembly {
    if r.id in s.assemblies then s.assemblies[r.id] else Assembly(CountOf(r), seq(CountOf(r), _ => None), 0)
  }

  predicate Unfit(a: Assembly, r: Response) {
    a.count != CountOf(r) || r.index >= |a.parts| || a.parts[r.index].Some?
  }

  function Filled(a: Assembly, r: Response): Assembly
    requires !Unfit(a, r)
  {
    a.(parts := a.parts[r.index := Some(r)], received := a.received + 1)
  }

  lemma {:induction false} ValuesHold(parts: seq<Option<Response>>, i: nat)
    requires i < |parts| && parts[i].Some?
    ensures parts[i].value in Values(parts)
  {
    if i < |parts| - 1 { ValuesHold(parts[..|parts| - 1], i); }
  }

  function Aggregated(s: System, r: Response): System {
    if r.status == INVALID || r.index >= CountOf(r) then Published(s, Misfit(r))
    else
      var a := OpenAssembly(s, r);
      if Unfit(a, r) then Published(s, Clash(r)).(assemblies := s.assemblies - {r.id})
      else
        var filled := Filled(a, r);
        if filled.received == filled.count then
          ValuesHold(filled.parts, r.index);
          Published(s, Assembled(filled.parts)).(assemblies := s.assemblies - {r.id})
        else s.(assemblies := s.assemblies[r.id := filled])
  }

  function Collected(o: Options, s: System, r: Response): System {
    var t := Completed(s, r.id);
    Aggregated(if o.both then t.(transactions := t.transactions + [r]) else t, r)
  }

  /** Taking the front response frees its identifier once all its transactions have completed. */
  function Popped(s: System): System
    requires s.host != []
  {
    var id := s.host[0].id;
    var done := id in s.submissions && s.submissions[id].completed >= s.submissions[id].count;
    s.(host := s.host[1..], submissions := if done then s.submissions - {id} else s.submissions)
  }

  // ---------------------------------------------------------------- the loop that builds a response

  /** One more part joined to a response. */
  function Merged(h: HostResponse, r: Response): HostResponse {
    HostResponse(h.id, h.kind, h.count + 1, h.data + ReadData(r), h.mask + ReadMask(r), h.transactions + [r],
                 if r.arrival < h.arrival then r.arrival else h.arrival,
                 if h.completion >= r.completion then h.completion else r.completion,
                 h.initialized && r.initialized, h.corrected || r.corrected, h.uncorrectable || r.uncorrectable,
                 Worse(if h.kind != r.kind then INVALID else h.status, r.status))
  }

  /** Joining parts one at a time, in order, gives the response of them all. */
  lemma MergedExact(parts: seq<Response>, r: Response)
    requires parts != []
    ensures Merged(HostOf(parts), r) == HostOf(parts + [r])
  {
    var more := parts + [r];
    assert more[..|parts|] == parts && more[|parts|] == r;
    assert forall x :: x in more <==> x in parts || x == r;
  }

  lemma ValuesStep(parts: seq<Option<Response>>, i: nat)
    requires i < |parts|
    ensures Values(parts[..i + 1]) == Values(parts[..i]) + if parts[i].Some? then [parts[i].value] else []
    ensures |Values(parts[..i])| <= i
    decreases i
  {
    assert parts[..i + 1][..i] == parts[..i];
    if i > 0 { ValuesStep(parts, i - 1); }
  }

  lemma SingleJoins(r: Response)
    ensures JoinedData([r]) == ReadData(r) && JoinedMask([r]) == ReadMask(r)
    ensures Latest([r]) == r.completion && Earliest([r]) == r.arrival && WorstStatus([r]) == r.status
  {
    var one, nothing := [r], [];
    assert one[..|one| - 1] == nothing;
    assert JoinedData(nothing) == [] && JoinedMask(nothing) == [];
  }

  lemma SingleFlags(r: Response)
    ensures (forall x | x in [r] :: x.initialized) == r.initialized
    ensures (exists x | x in [r] :: x.corrected) == r.corrected
    ensures (exists x | x in [r] :: x.uncorrectable) == r.uncorrectable
  {
    var one := [r];
    assert one[0] == r && r in one;
    forall x | x in one ensures x == r {}
  }

  lemma SingleExact(r: Response)
    ensures HostOf([r]) == HostResponse(r.id, r.kind, 1, ReadData(r), ReadMask(r), [r], r.arrival, r.completion,
                                        r.initialized, r.corrected, r.uncorrectable, r.status)
  {
    SingleJoins(r);
    SingleFlags(r);
  }

  /** How far a response is built after the first `i` parts. */
  ghost predicate Building(parts: seq<Option<Response>>, i: nat, started: bool, missing: bool, h: HostResponse)
    requires i <= |parts|
  {
    var done := Values(parts[..i]);
    |done| <= i && (missing <==> |done| < i) && (started <==> done != []) && (started ==> h == HostOf(done))
  }

  lemma BuildingMissing(parts: seq<Option<Response>>, i: nat, started: bool, missing: bool, h: HostResponse)
    requires i < |parts| && parts[i].None? && Building(parts, i, started, missing, h)
    ensures Building(parts, i + 1, started, true, h)
  {
    ValuesStep(parts, i);
    assert Values(parts[..i + 1]) == Values(parts[..i]);
  }

  lemma BuildingFirst(parts: seq<Option<Response>>, i: nat, missing: bool, h: HostResponse)
    requires i < |parts| && parts[i].Some? && Building(parts, i, false, missing, h)
    ensures Building(parts, i + 1, true, missing, HostOf([parts[i].value]))
  {
    ValuesStep(parts, i);
    assert Values(parts[..i + 1]) == [parts[i].value];
  }

  lemma BuildingNext(parts: seq<Option<Response>>, i: nat, missing: bool, h: HostResponse)
    requires i < |parts| && parts[i].Some? && Building(parts, i, true, missing, h)
    ensures Building(parts, i + 1, true, missing, Merged(h, parts[i].value))
  {
    ValuesStep(parts, i);
    MergedExact(Values(parts[..i]), parts[i].value);
  }

  method BuildHostResponse(parts: seq<Option<Response>>) returns (h: HostResponse)
    requires Values(parts) != []
    ensures h == Assembled(parts)
  {
    var started, missing := false, false;
    h := HostResponse(0, Read, 0, [], [], [], 0, 0, true, false, false, 0);
    for i := 0 to |parts|
      invariant Building(parts, i, started, missing, h)
    {
      if parts[i].None? {
        BuildingMissing(parts, i, started, missing, h);
        missing := true;
      } else {
        var r := parts[i].value;
        if started {
          BuildingNext(parts, i, missing, h);
          h := Merged(h, r);
        } else {
          BuildingFirst(parts, i, missing, h);
          SingleExact(r);
          h := HostResponse(r.id, r.kind, 1, ReadData(r), ReadMask(r), [r], r.arrival, r.completion,
                            r.initialized, r.corrected, r.uncorrectable, r.status);
          started := true;
        }
      }
    }
    assert parts[..|parts|] == parts;
    h := h.(count := |parts|, status := if missing then INVALID else h.status);
  }
}

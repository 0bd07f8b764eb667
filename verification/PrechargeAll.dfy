/**
  How soon a precharge of a whole rank may follow earlier commands on its banks. Unlike the precharge of one bank
  it is not held to the bank's precharge gate, only kept away from rows that active requests still need.
 */
module PrechargeAll {
  import opened Dram
  import opened Banks
  import opened CommandBus
  import opened RowOwnership
  import opened RowTrace
  import opened BankTimings
  import opened RunBuilder

  /** Step `j` closes the whole rank of the bank of step `i`, and nothing touched that bank in between. */
  ghost predicate AllAfter(s: Spec, steps: seq<Step>, i: nat, j: nat) {
    && i < j < |steps| && steps[i].Issue? && steps[j].Issue? && steps[j].command.PREAB?
    && InRankOf(s.org, steps[j].request.at, Flat(s.org, steps[i].request.at))
    && Untouched(s, steps[..j], i, Flat(s.org, steps[i].request.at))
  }

  /** With rows left open no cap is counted, so any will do. */
  ghost predicate DataThenAll(s: Spec, steps: seq<Step>, i: nat, j: nat) {
    Run(s, steps, 0) && AllAfter(s, steps, i, j) && IsData(steps[i].command)
  }

  ghost predicate OpeningThenAll(s: Spec, steps: seq<Step>, i: nat, j: nat) {
    Run(s, steps, 0) && AllAfter(s, steps, i, j) && IsOpening(steps[i].command)
  }

  ghost predicate Apart(s: Spec, steps: seq<Step>, i: nat, j: nat, cycles: nat) {
    i < |steps| && j < |steps| && CycleOf(s, steps, i) + cycles <= CycleOf(s, steps, j)
  }

  // ---------------------------------------------------------------- as late as the row is needed

  /** A data command of the bank was issued between the two steps. */
  ghost predicate DataBetween(s: Spec, steps: seq<Step>, i: nat, k: nat, j: nat) {
    && i < k < j <= |steps| && i < |steps| && steps[i].Issue? && steps[k].Issue? && IsData(steps[k].command)
    && Flat(s.org, steps[k].request.at) == Flat(s.org, steps[i].request.at)
  }

  /** The bank of an opening request stays occupied through any step but a data command of the bank. */
  lemma OccupiedStep(s: Spec, steps: seq<Step>, n: nat, b: nat)
    requires s.policy.OpenPage? && IsRun(s, steps) && n < |steps|
    requires steps[n].Issue? && b == Flat(s.org, steps[n].request.at) ==> !IsData(steps[n].command)
    requires Occupied(s, After(s, steps[..n]).active, b)
             || (steps[n].Issue? && b == Flat(s.org, steps[n].request.at) && IsOpening(steps[n].command))
    ensures Occupied(s, After(s, steps[..n + 1]).active, b)
  {
    RunPrefix(s, steps, n);
    OwnershipHolds(s, steps[..n]);
    assert steps[..n + 1][..n] == steps[..n];
    if steps[n].Issue? { OccupiedAfter(s, After(s, steps[..n]), steps[n], b); }
  }

  ghost predicate NoData(s: Spec, steps: seq<Step>, i: nat, n: nat) { forall k: nat :: !DataBetween(s, steps, i, k, n) }

  lemma NoDataBefore(s: Spec, steps: seq<Step>, i: nat, m: nat, n: nat)
    requires NoData(s, steps, i, n) && i < m < n <= |steps| && steps[i].Issue?
    ensures NoData(s, steps, i, m)
    ensures steps[m].Issue? && Flat(s.org, steps[i].request.at) == Flat(s.org, steps[m].request.at) ==> !IsData(steps[m].command)
  {
    forall k: nat
      ensures !DataBetween(s, steps, i, k, m)
    {
      assert !DataBetween(s, steps, i, k, n);
    }
    assert !DataBetween(s, steps, i, m, n);
  }

  /** Without a data command the request that opened the row is still active. */
  ghost predicate StillActive(s: Spec, steps: seq<Step>, i: nat, n: nat) {
    && i < n <= |steps| && steps[i].Issue?
    && (NoData(s, steps, i, n) ==> Occupied(s, After(s, steps[..n]).active, Flat(s.org, steps[i].request.at)))
  }

  lemma ActiveBegins(s: Spec, steps: seq<Step>, i: nat, n: nat)
    requires s.policy.OpenPage? && IsRun(s, steps) && n == i + 1 <= |steps| && steps[i].Issue? && IsOpening(steps[i].command)
    ensures StillActive(s, steps, i, n)
  {
    OccupiedStep(s, steps, i, Flat(s.org, steps[i].request.at));
  }

  lemma ActiveGoesOn(s: Spec, steps: seq<Step>, i: nat, m: nat, n: nat)
    requires s.policy.OpenPage? && IsRun(s, steps) && StillActive(s, steps, i, m) && n == m + 1 <= |steps|
    ensures StillActive(s, steps, i, n)
  {
    if NoData(s, steps, i, n) {
      NoDataBefore(s, steps, i, m, n);
      OccupiedStep(s, steps, m, Flat(s.org, steps[i].request.at));
    }
  }

  lemma {:induction false} StaysActive(s: Spec, steps: seq<Step>, i: nat, n: nat)
    requires s.policy.OpenPage? && IsRun(s, steps) && i < n <= |steps| && steps[i].Issue? && IsOpening(steps[i].command)
    ensures StillActive(s, steps, i, n)
  {
    if n == i + 1 {
      ActiveBegins(s, steps, i, n);
    } else {
      StaysActive(s, steps, i, n - 1);
      ActiveGoesOn(s, steps, i, n - 1, n);
    }
  }

  lemma StaysOccupied(s: Spec, steps: seq<Step>, i: nat, n: nat)
    requires s.policy.OpenPage? && IsRun(s, steps) && i < n <= |steps| && steps[i].Issue? && IsOpening(steps[i].command)
    requires NoData(s, steps, i, n)
    ensures Occupied(s, After(s, steps[..n]).active, Flat(s.org, steps[i].request.at))
  {
    StaysActive(s, steps, i, n);
  }

  /** A whole rank is closed only for maintenance, and not while a request is active in it. */
  lemma NoneActive(s: Spec, st: State, step: Step, b: nat)
    requires s.policy.OpenPage? && Possible(s, st, step) && Ownership(s, st) && Counted(s, st)
    requires step.Issue? && step.command.PREAB? && b < BankCount(s.org) && InRankOf(s.org, step.request.at, b)
    ensures !Occupied(s, st.active, b)
  {
    match step.source
    case FromActive(_) => ActiveAsks(s, st, step);
    case FromQueue => QueueAsks(s, st, step);
    case FromPriority =>
  }

  lemma SomeData(s: Spec, steps: seq<Step>, i: nat, j: nat)
    requires s.policy.OpenPage? && OpeningThenAll(s, steps, i, j)
    ensures exists k: nat :: DataBetween(s, steps, i, k, j)
  {
    RunIsRun(s, steps, 0);
    if NoData(s, steps, i, j) {
      StaysOccupied(s, steps, i, j);
      RunPrefix(s, steps, j);
      OwnershipHolds(s, steps[..j]);
      NoneActive(s, After(s, steps[..j]), steps[j], Flat(s.org, steps[i].request.at));
    }
  }

  // ---------------------------------------------------------------- the distance after an opening

  /** Step `m` is a second activate of the bank that step `i` began to open. */
  ghost predicate SecondOf(s: Spec, steps: seq<Step>, i: nat, m: nat) {
    && i < m < |steps| && steps[i].Issue? && steps[m].Issue? && steps[m].command.ACT2?
    && Flat(s.org, steps[m].request.at) == Flat(s.org, steps[i].request.at)
  }

  ghost predicate Opened(s: Spec, steps: seq<Step>, i: nat, n: nat) { exists m: nat | m < n :: SecondOf(s, steps, i, m) }

  /** The bank is still being opened, and no data command went to it. */
  ghost predicate HalfOpen(s: Spec, steps: seq<Step>, i: nat, n: nat) {
    && i < n <= |steps| && steps[i].Issue? && NoData(s, steps, i, n)
    && After(s, steps[..n]).banks[Flat(s.org, steps[i].request.at)].activating
  }

  lemma NoDataYet(s: Spec, steps: seq<Step>, i: nat, n: nat, later: nat)
    requires NoData(s, steps, i, n) && i < n < |steps| && later == n + 1 && steps[i].Issue?
    requires steps[n].Issue? && Flat(s.org, steps[n].request.at) == Flat(s.org, steps[i].request.at) ==> !IsData(steps[n].command)
    ensures NoData(s, steps, i, later)
  {
    forall k: nat
      ensures !DataBetween(s, steps, i, k, later)
    {
      assert !DataBetween(s, steps, i, k, n);
    }
  }

  /** No data command goes to a bank that is being opened. */
  lemma DataNeedsRow(s: Spec, st: State, step: Step)
    requires Possible(s, st, step) && step.Issue? && st.banks[Flat(s.org, step.request.at)].activating
    ensures !IsData(step.command)
  {
  }

  lemma NoDataNow(s: Spec, steps: seq<Step>, i: nat, n: nat)
    requires IsRun(s, steps) && HalfOpen(s, steps, i, n) && n < |steps|
    ensures NoData(s, steps, i, n + 1)
  {
    RunPrefix(s, steps, n);
    if steps[n].Issue? && Flat(s.org, steps[n].request.at) == Flat(s.org, steps[i].request.at) {
      DataNeedsRow(s, After(s, steps[..n]), steps[n]);
    }
    NoDataYet(s, steps, i, n, n + 1);
  }

  lemma OpeningGoesOn(s: Spec, steps: seq<Step>, i: nat, n: nat)
    requires s.policy.OpenPage? && IsRun(s, steps) && HalfOpen(s, steps, i, n) && n < |steps| && IsOpening(steps[i].command)
    ensures HalfOpen(s, steps, i, n + 1) || Opened(s, steps, i, n + 1)
  {
    var st, b := After(s, steps[..n]), Flat(s.org, steps[i].request.at);
    RunPrefix(s, steps, n);
    NoDataNow(s, steps, i, n);
    assert steps[..n + 1][..n] == steps[..n];
    if steps[n].Issue? && !SecondOf(s, steps, i, n) {
      StaysOccupied(s, steps, i, n);
      OwnershipHolds(s, steps[..n]);
      var a :| 0 <= a < |st.active| && Flat(s.org, st.active[a].at) == b;
      OwnerUndisturbed(s, st, steps[n], a);
      UndisturbedBank(s, st.banks[b], b, steps[n].command, steps[n].request.at, st.clk);
    }
  }

  lemma BeginsOpening(s: Spec, st: State, step: Step)
    requires Possible(s, st, step) && step.Issue? && step.command.ACT1?
    ensures Next(s, st, step).banks[Flat(s.org, step.request.at)].activating
  {
  }

  lemma OpeningBegins(s: Spec, steps: seq<Step>, i: nat, n: nat)
    requires IsRun(s, steps) && n == i + 1 <= |steps| && steps[i].Issue? && steps[i].command.ACT1?
    ensures HalfOpen(s, steps, i, n)
  {
    RunPrefix(s, steps, i);
    assert steps[..n][..i] == steps[..i];
    BeginsOpening(s, After(s, steps[..i]), steps[i]);
  }

  ghost predicate OpenSoon(s: Spec, steps: seq<Step>, i: nat, n: nat) { HalfOpen(s, steps, i, n) || Opened(s, steps, i, n) }

  lemma SoonStays(s: Spec, steps: seq<Step>, i: nat, n: nat)
    requires s.policy.OpenPage? && IsRun(s, steps) && OpenSoon(s, steps, i, n) && n < |steps|
    requires i < |steps| && steps[i].Issue? && IsOpening(steps[i].command)
    ensures OpenSoon(s, steps, i, n + 1)
  {
    if HalfOpen(s, steps, i, n) { OpeningGoesOn(s, steps, i, n); }
  }

  lemma {:induction false} SecondComes(s: Spec, steps: seq<Step>, i: nat, n: nat)
    requires s.policy.OpenPage? && IsRun(s, steps) && i < n <= |steps| && steps[i].Issue? && steps[i].command.ACT1?
    ensures OpenSoon(s, steps, i, n)
  {
    if n == i + 1 {
      OpeningBegins(s, steps, i, n);
    } else {
      SecondComes(s, steps, i, n - 1);
      SoonStays(s, steps, i, n - 1);
    }
  }

  /** A bank opened in two steps has its second activate before its data. */
  lemma SecondBefore(s: Spec, steps: seq<Step>, i: nat, k: nat) returns (m: nat)
    requires s.policy.OpenPage? && IsRun(s, steps) && i < k < |steps| && steps[i].Issue? && steps[i].command.ACT1?
    requires steps[k].Issue? && IsData(steps[k].command) && Flat(s.org, steps[k].request.at) == Flat(s.org, steps[i].request.at)
    ensures m < k && SecondOf(s, steps, i, m)
  {
    SecondComes(s, steps, i, k);
    if HalfOpen(s, steps, i, k) {
      NoDataNow(s, steps, i, k);
      assert DataBetween(s, steps, i, k, k + 1);
    }
    m :| m < k && SecondOf(s, steps, i, m);
  }

  /** It is the second half of that very opening, and so keeps the least distance between the two. */
  lemma SecondWaits(s: Spec, steps: seq<Step>, i: nat, m: nat)
    requires s.policy.OpenPage? && IsRun(s, steps) && SameOpening(s, steps, i, m) && steps[i].command.ACT1? && steps[m].command.ACT2?
    ensures CycleOf(s, steps, i) + Wait(s, Max(1, s.t.nAADMin)) <= CycleOf(s, steps, m)
  {
    SecondActivateInWindow(s, steps, m);
    var first: nat :| CompletedBy(s, steps, first, m);
    assert steps[..m][i] == steps[i] && steps[..m][first] == steps[first];
  }

  // ---------------------------------------------------------------- the exact distances

  /** From a data command to the next command of its bus. */
  function AfterData(s: Spec): nat { if Unified(s) then 1 else 0 }

  function SoonestGate(s: Spec): nat { Min(Wait(s, s.t.nRCDRD), Wait(s, s.t.nRCDWR)) }

  /** From an activate to the first tick that takes a data command of the row: later tick, same edge, row open. */
  function SoonestData(s: Spec): nat {
    var n := Max(SoonestGate(s), LastActivate(s));
    if Pairs(s) && Rising(n) then n + 1 else n
  }

  lemma DataWaits(s: Spec, steps: seq<Step>, i: nat, j: nat)
    requires DataThenAll(s, steps, i, j)
    ensures Apart(s, steps, i, j, AfterData(s))
  {
    CyclesGrow(s, steps, i, j);
    if Unified(s) {
      TickOfAny(s, steps, 0, j);
      FreeIsLater(s, steps, i, j);
    }
  }

  lemma OpeningKind(s: Spec, steps: seq<Step>, i: nat)
    requires Run(s, steps, 0) && i < |steps| && steps[i].Issue? && IsOpening(steps[i].command)
    ensures steps[i].command.ACT1? <==> s.splitActivate
  {
    RunIsRun(s, steps, 0);
    RunPrefix(s, steps, i);
  }

  /** With two activates the data command comes a tick after the second at the earliest. */
  lemma SecondApart(s: Spec, steps: seq<Step>, i: nat, k: nat)
    requires s.policy.OpenPage? && IsRun(s, steps) && SameOpening(s, steps, i, k) && s.splitActivate
    requires steps[i].command.ACT1? && IsData(steps[k].command) && SlotAfter(s, steps[..k]).Free?
    ensures Apart(s, steps, i, k, LastActivate(s))
  {
    var m := SecondBefore(s, steps, i, k);
    SecondWaits(s, steps, i, m);
    FreeIsLater(s, steps, m, k);
  }

  /** A data command takes a fresh tick after the last activate. */
  lemma ActivatesApart(s: Spec, steps: seq<Step>, i: nat, k: nat)
    requires s.policy.OpenPage? && Run(s, steps, 0) && SameOpening(s, steps, i, k)
    requires IsOpening(steps[i].command) && IsData(steps[k].command)
    ensures Apart(s, steps, i, k, LastActivate(s))
  {
    TickOfColumn(s, steps, 0, k);
    if s.splitActivate {
      RunIsRun(s, steps, 0);
      OpeningKind(s, steps, i);
      SecondApart(s, steps, i, k);
    } else {
      FreeIsLater(s, steps, i, k);
    }
  }

  /** The shorter row-to-column delay is over for either kind of data command. */
  lemma GateApart(s: Spec, steps: seq<Step>, i: nat, k: nat)
    requires ValidTimings(s) && Run(s, steps, 0) && SameOpening(s, steps, i, k)
    requires IsOpening(steps[i].command) && IsData(steps[k].command)
    ensures Apart(s, steps, i, k, SoonestGate(s))
  {
    RunIsRun(s, steps, 0);
    RowTimings(s, steps, i, k);
  }

  /** Under edge pairing activates and data commands share an edge. */
  lemma SoonestFits(s: Spec, first: nat, second: nat)
    requires first + SoonestGate(s) <= second && first + LastActivate(s) <= second
    requires Pairs(s) ==> Rising(first) && Rising(second)
    ensures first + SoonestData(s) <= second
  {
    if Pairs(s) { EvenApart(first, second); }
  }

  lemma SoonestApart(s: Spec, steps: seq<Step>, i: nat, k: nat)
    requires Apart(s, steps, i, k, SoonestGate(s)) && Apart(s, steps, i, k, LastActivate(s))
    requires Pairs(s) ==> Rising(CycleOf(s, steps, i)) && Rising(CycleOf(s, steps, k))
    ensures Apart(s, steps, i, k, SoonestData(s))
  {
    SoonestFits(s, CycleOf(s, steps, i), CycleOf(s, steps, k));
  }

  lemma DataOfOpening(s: Spec, steps: seq<Step>, i: nat, k: nat)
    requires s.policy.OpenPage? && ValidTimings(s) && Run(s, steps, 0) && SameOpening(s, steps, i, k)
    requires IsOpening(steps[i].command) && IsData(steps[k].command)
    ensures Apart(s, steps, i, k, SoonestData(s))
  {
    GateApart(s, steps, i, k);
    ActivatesApart(s, steps, i, k);
    TickOfOpening(s, steps, 0, i);
    TickOfColumn(s, steps, 0, k);
    SoonestApart(s, steps, i, k);
  }

  /** After an opening the row-to-column delay has passed, since the request that opened the row got its data. */
  lemma OpeningWaits(s: Spec, steps: seq<Step>, i: nat, j: nat)
    requires s.policy.OpenPage? && ValidTimings(s) && OpeningThenAll(s, steps, i, j)
    ensures Apart(s, steps, i, j, SoonestData(s) + AfterData(s))
  {
    SomeData(s, steps, i, j);
    var k: nat :| DataBetween(s, steps, i, k, j);
    forall l | i < l < k && steps[l].Issue? && IsOpening(steps[l].command)
      ensures Flat(s.org, steps[l].request.at) != Flat(s.org, steps[k].request.at)
    {
      assert steps[..j][l] == steps[l];
    }
    DataOfOpening(s, steps, i, k);
    CyclesGrow(s, steps, k, j);
    if Unified(s) {
      TickOfAny(s, steps, 0, j);
      FreeIsLater(s, steps, k, j);
    }
  }

  // ---------------------------------------------------------------- runs that keep no more

  /** The opening request's data command. */
  function Data(s: Spec, d: Coordinate, kind: Kind): Step {
    Issue(FromActive(0), Owner(s, d, kind), if kind.Read? then RD else WR, Calm())
  }

  /** Closing the rank for a refresh of all its banks. */
  function CloseAll(d: Coordinate): Step { Issue(FromPriority, Request(2, Upkeep, d, REFAB, false), PREAB, Calm()) }

  /** A row is open, and no request needs it any more. */
  ghost predicate LeftOpen(s: Spec, st: State, d: Coordinate) {
    && Sized(s, st) && (forall b | 0 <= b < |st.counts| :: st.counts[b] == 0) && st.active == []
    && st.banks[Flat(s.org, d)].openRow >= 0
  }

  function Gate(bank: Bank, kind: Kind): nat { Max(bank.nextAnyCol, if kind.Read? then bank.nextRd else bank.nextWr) }

  lemma DataPossible(s: Spec, st: State, d: Coordinate, kind: Kind)
    requires s.policy.OpenPage? && !kind.Upkeep? && HoldsRow(s, st, d, kind) && d.row >= 0
    requires Gate(st.banks[Flat(s.org, d)], kind) <= st.clk
    ensures Possible(s, st, Data(s, d, kind))
  {
  }

  lemma DataScheduled(s: Spec, steps: seq<Step>, d: Coordinate, kind: Kind)
    requires !kind.Upkeep? && HoldsRow(s, After(s, steps), d, kind) && Begun(s, steps)
    ensures Scheduled(s, steps, Data(s, d, kind))
  {
  }

  lemma DataLeaves(s: Spec, st: State, d: Coordinate, kind: Kind)
    requires !kind.Upkeep? && HoldsRow(s, st, d, kind) && d.row >= 0
    ensures LeftOpen(s, Next(s, st, Data(s, d, kind)), d) && Next(s, st, Data(s, d, kind)).clk == st.clk
  {
  }

  lemma CloseAllPossible(s: Spec, st: State, d: Coordinate)
    requires LeftOpen(s, st, d) && BankInRange(s.org, d)
    ensures Possible(s, st, CloseAll(d))
  {
    RankRangeExact(s.org, d, d);
    assert InRankOf(s.org, d, Flat(s.org, d)) && Busy(st.banks[Flat(s.org, d)]);
  }

  lemma CloseAllScheduled(s: Spec, steps: seq<Step>, d: Coordinate)
    requires After(s, steps).active == [] && !SlotAfter(s, steps).Taken? && (Unified(s) ==> SlotAfter(s, steps).Free?)
    requires Pairs(s) && !Rising(After(s, steps).clk) ==> After(s, steps).clk > MarkAfter(s, steps).falling
    ensures Scheduled(s, steps, CloseAll(d))
  {
  }

  /** Waits for a tick from cycle `n` on; the request's data command is let through then and leaves its row open. */
  lemma WaitsForData(s: Spec, begun: seq<Step>, d: Coordinate, kind: Kind, n: nat) returns (ready: seq<Step>)
    requires s.policy.OpenPage? && !kind.Upkeep? && InRange(s.org, d) && Opens(s, begun, d, kind, 0)
    requires Gate(After(s, begun).banks[Flat(s.org, d)], kind) <= n
    ensures |begun| <= |ready| && Idles(begun, ready, |ready| - |begun|)
    ensures After(s, ready).clk == Column(s, Max(LastActivate(s) + 1, n))
    ensures
      var done := ready + [Data(s, d, kind)];
      && Run(s, done, 0) && LeftOpen(s, After(s, done), d) && After(s, done).clk == After(s, ready).clk
      && MarkAfter(s, done).falling <= LastActivate(s) + 3
  {
    var first: nat := Max(LastActivate(s) + 1, n);
    ColumnFits(s, first);
    ready := WaitsUntil(s, begun, Column(s, first), 0, 0);
    DataPossible(s, After(s, ready), d, kind);
    DataScheduled(s, ready, d, kind);
    DataLeaves(s, After(s, ready), d, kind);
    Extends(s, ready, Data(s, d, kind), 0);
    assert (ready + [Data(s, d, kind)])[..|ready|] == ready;
  }

  /** Some cycles after a data command the buses let the rank be closed. */
  lemma LateScheduled(s: Spec, done: seq<Step>, late: seq<Step>, d: Coordinate, lag: nat)
    requires done != [] && done[|done| - 1].Issue? && IsData(done[|done| - 1].command) && lag >= AfterData(s)
    requires Idles(done, late, lag) && After(s, late).active == []
    requires After(s, late).clk == After(s, done).clk + lag && MarkAfter(s, late) == MarkAfter(s, done)
    requires Pairs(s) ==> Rising(After(s, done).clk) && (!Rising(lag) || After(s, done).clk >= MarkAfter(s, done).falling)
    ensures Scheduled(s, late, CloseAll(d))
  {
    if lag == 0 { assert late == done; } else { assert late[|late| - 1] == Advance; }
    RisingSum(After(s, done).clk, lag);
    CloseAllScheduled(s, late, d);
  }

  /** Waits `lag` cycles; closing the rank is let through then. */
  lemma WaitsToClose(s: Spec, done: seq<Step>, d: Coordinate, lag: nat) returns (late: seq<Step>)
    requires Run(s, done, 0) && LeftOpen(s, After(s, done), d) && InRange(s.org, d)
    requires done != [] && done[|done| - 1].Issue? && IsData(done[|done| - 1].command) && lag >= AfterData(s)
    requires Pairs(s) ==> Rising(After(s, done).clk) && (!Rising(lag) || After(s, done).clk >= MarkAfter(s, done).falling)
    ensures Idles(done, late, lag) && Run(s, late + [CloseAll(d)], 0) && After(s, late).clk == After(s, done).clk + lag
  {
    late := Idling(s, done, lag, 0, 0);
    CloseAllPossible(s, After(s, late), d);
    LateScheduled(s, done, late, d, lag);
    Extends(s, late, CloseAll(d), 0);
  }

  /** What such a run shows: the two commands with nothing but waiting around them, and their cycles. */
  lemma ReadOff(s: Spec, begun: seq<Step>, n: nat, ready: seq<Step>, d: Coordinate, kind: Kind, late: seq<Step>, lag: nat)
    requires Idles(begun, ready, n) && Idles(ready + [Data(s, d, kind)], late, lag) && Run(s, late + [CloseAll(d)], 0)
    ensures
      var steps, i, j := late + [CloseAll(d)], |ready|, |late|;
      && DataThenAll(s, steps, i, j) && steps[i] == Data(s, d, kind) && steps[j] == CloseAll(d)
      && CycleOf(s, steps, i) == After(s, ready).clk && CycleOf(s, steps, j) == After(s, late).clk
      && steps[..|begun|] == begun && forall k | |begun| <= k < j && k != i :: steps[k] == Advance
  {
    var done := ready + [Data(s, d, kind)];
    var steps, i, j := late + [CloseAll(d)], |ready|, |late|;
    RankRangeExact(s.org, d, d);
    assert steps[..j] == late && late[..|done|] == done && done[..i] == ready;
    assert steps[..i] == ready && steps[i] == late[i] == done[i];
    assert steps[..|begun|] == ready[..|begun|];
    forall k | |begun| <= k < j && k != i
      ensures steps[k] == Advance
    {
      if k < i { assert steps[k] == steps[..i][k] == ready[k]; } else { assert steps[k] == late[k]; }
    }
  }

  /** Opens a row, issues the data command at the first fitting tick from `n` on, waits `lag` cycles, and closes the rank. */
  lemma ClosesAfter(s: Spec, begun: seq<Step>, d: Coordinate, kind: Kind, n: nat, lag: nat)
    returns (steps: seq<Step>, i: nat, j: nat)
    requires s.policy.OpenPage? && !kind.Upkeep? && InRange(s.org, d) && Opens(s, begun, d, kind, 0)
    requires Gate(After(s, begun).banks[Flat(s.org, d)], kind) <= n && lag >= AfterData(s)
    requires Pairs(s) ==> !Rising(lag) || LastActivate(s) + 3 <= n
    ensures DataThenAll(s, steps, i, j) && steps[i] == Data(s, d, kind) && steps[j] == CloseAll(d)
    ensures CycleOf(s, steps, j) == CycleOf(s, steps, i) + lag
    ensures |begun| <= i && steps[..|begun|] == begun && forall k | |begun| <= k < j && k != i :: steps[k] == Advance
    ensures CycleOf(s, steps, i) == Column(s, Max(LastActivate(s) + 1, n))
  {
    var ready := WaitsForData(s, begun, d, kind, n);
    ColumnFits(s, Max(LastActivate(s) + 1, n));
    var late := WaitsToClose(s, ready + [Data(s, d, kind)], d, lag);
    ReadOff(s, begun, |ready| - |begun|, ready, d, kind, late, lag);
    steps, i, j := late + [CloseAll(d)], |ready|, |late|;
  }

  /** Whatever read-to-precharge time and write recovery are, a rank is closed as soon after data as the bus allows, or later. */
  lemma AnyLagAfterData(s: Spec, d: Coordinate, kind: Kind, lag: nat)
    requires s.policy.OpenPage? && SplitChecked(s) && !kind.Upkeep? && InRange(s.org, d) && lag >= AfterData(s)
    ensures exists steps, i: nat, j: nat ::
              && DataThenAll(s, steps, i, j) && steps[i] == Data(s, d, kind)
              && CycleOf(s, steps, j) == CycleOf(s, steps, i) + lag
  {
    var begun := SomeOpening(s, d, kind, 0);
    var n := Max(Gate(After(s, begun).banks[Flat(s.org, d)], kind), LastActivate(s) + 3);
    var steps, i, j := ClosesAfter(s, begun, d, kind, n, lag);
  }

  /** So the distance kept from a data command is one tick if there is a single bus, and none if there are two. */
  lemma DataGapExact(s: Spec, cycles: nat)
    requires s.policy.OpenPage? && SplitChecked(s)
    ensures (forall steps, i: nat, j: nat | DataThenAll(s, steps, i, j) :: Apart(s, steps, i, j, cycles))
            <==> cycles <= AfterData(s)
  {
    if cycles <= AfterData(s) {
      forall steps, i: nat, j: nat | DataThenAll(s, steps, i, j)
        ensures Apart(s, steps, i, j, cycles)
      {
        DataWaits(s, steps, i, j);
      }
    } else {
      var d := Coordinate(0, 0, 0, 0, 0, 0, 0, 0);
      AnyLagAfterData(s, d, Read, AfterData(s));
      var steps, i: nat, j: nat :| DataThenAll(s, steps, i, j) && steps[i] == Data(s, d, Read)
                                   && CycleOf(s, steps, j) == CycleOf(s, steps, i) + AfterData(s);
      assert !Apart(s, steps, i, j, cycles);
    }
  }

  lemma SoonestColumn(s: Spec)
    ensures Column(s, Max(LastActivate(s) + 1, 1 + SoonestGate(s))) == 1 + SoonestData(s)
  {
    var n: nat := Max(SoonestGate(s), LastActivate(s));
    assert Max(LastActivate(s) + 1, 1 + SoonestGate(s)) == n + 1;
  }

  /** Between the opening and the closing of the rank such a run touches no bank. */
  lemma LeftAlone(s: Spec, begun: seq<Step>, steps: seq<Step>, i: nat, j: nat, b: nat)
    requires |begun| <= i < j < |steps| && steps[..|begun|] == begun && steps[i].Issue?
    requires steps[i].command.RD? || steps[i].command.WR?
    requires forall k | 1 < k < |begun| && begun[k].Issue? :: begun[k].command.ACT2?
    requires forall k | |begun| <= k < j && k != i :: steps[k] == Advance
    ensures Untouched(s, steps[..j], 1, b)
  {
    forall k | 1 < k < j && steps[..j][k].Issue?
      ensures !Disturbs(s, steps[..j][k].command, steps[..j][k].request.at, b)
    {
      if k < |begun| { assert steps[k] == steps[..|begun|][k] == begun[k]; } else { assert k == i; }
    }
  }

  /** The soonest rank precharge after an opening: right after the soonest data command. */
  lemma SoonestAfterOpening(s: Spec) returns (steps: seq<Step>, j: nat)
    requires s.policy.OpenPage? && SplitChecked(s)
    ensures OpeningThenAll(s, steps, 1, j) && CycleOf(s, steps, 1) == 1
    ensures CycleOf(s, steps, j) == 1 + SoonestData(s) + AfterData(s)
  {
    var d := Coordinate(0, 0, 0, 0, 0, 0, 0, 0);
    var kind := if Wait(s, s.t.nRCDRD) <= Wait(s, s.t.nRCDWR) then Read else Write;
    var begun := SomeOpening(s, d, kind, 0);
    var i;
    steps, i, j := ClosesAfter(s, begun, d, kind, 1 + SoonestGate(s), AfterData(s));
    SoonestColumn(s);
    SoonestShows(s, begun, steps, i, j, d, kind);
  }

  lemma SoonestShows(s: Spec, begun: seq<Step>, steps: seq<Step>, i: nat, j: nat, d: Coordinate, kind: Kind)
    requires Opens(s, begun, d, kind, 0) && DataThenAll(s, steps, i, j) && |begun| <= i && steps[..|begun|] == begun
    requires steps[i] == Data(s, d, kind) && steps[j] == CloseAll(d)
    requires forall k | |begun| <= k < j && k != i :: steps[k] == Advance
    ensures OpeningThenAll(s, steps, 1, j) && CycleOf(s, steps, 1) == 1
  {
    RankRangeExact(s.org, d, d);
    assert steps[1] == steps[..|begun|][1] == begun[1] && steps[..1] == steps[..|begun|][..1] == begun[..1];
    LeftAlone(s, begun, steps, i, j, Flat(s.org, d));
  }

  /** The distance kept from an opening is that of the soonest data command, whatever the row active time is. */
  lemma OpeningGapExact(s: Spec, cycles: nat)
    requires s.policy.OpenPage? && SplitChecked(s) && ValidTimings(s)
    ensures (forall steps, i: nat, j: nat | OpeningThenAll(s, steps, i, j) :: Apart(s, steps, i, j, cycles))
            <==> cycles <= SoonestData(s) + AfterData(s)
  {
    if cycles <= SoonestData(s) + AfterData(s) {
      forall steps, i: nat, j: nat | OpeningThenAll(s, steps, i, j)
        ensures Apart(s, steps, i, j, cycles)
      {
        OpeningWaits(s, steps, i, j);
      }
    } else {
      var steps, j := SoonestAfterOpening(s);
      assert !Apart(s, steps, 1, j, cycles);
    }
  }
}

/**
  One controller's banks: their local timing gates, the requests that own an open row, and the choice,
  check and execution of the next command of a request. Which request is tried is left open, so every
  scheduler is covered; table, scope and bus gates may refuse any command at any time.
 */
module Banks {
  import opened Dram
  import opened TimingScopes
  import opened Wrappers
  import MixedRadix

  /** Bank-local state; the row is -1 when none is open. */
  datatype Bank = Bank(openRow: int, activating: bool, nextAct: nat, nextPre: nat, nextRd: nat, nextWr: nat,
                       nextAnyCol: nat, nextAct2: nat, act2Deadline: nat)

  datatype Timing = Timing(nRCDRD: int, nRCDWR: int, nRAS: int, nRC: int, nRP: int, nRPab: int, nRTP: int,
                           nCWL: int, nBL: int, nWR: int, nCCDL: int, nRFC: int, nRFCpb: int, nRFMab: int,
                           nRFMpb: int, nAADMin: int, nAADMax: int)

  datatype RowPolicy = OpenPage | ClosedPage | ClosedCap

  /** Whether half cycles are told apart, and whether a falling edge must then fit the row command before it. */
  datatype EdgePairing = Unpaired | Paired(strict: bool)

  datatype Spec = Spec(org: Organization, multiplier: pos, t: Timing, splitActivate: bool, lpddr: bool, policy: RowPolicy,
                       pairing: EdgePairing)

  datatype Kind = Read | Write | Upkeep

  /** `id` grows in the order of acceptance; `next` is the command a maintenance request is for. */
  datatype Request = Request(id: nat, kind: Kind, at: Coordinate, next: Command, issuedFirst: bool)

  predicate Busy(b: Bank) { b.activating || b.openRow >= 0 }

  function Wait(s: Spec, cycles: int): nat { Delay(s.multiplier, cycles) }

  // ---------------------------------------------------------------- bank numbers

  function BankCount(o: Organization): nat { Count(o, 5) }

  function Flat(o: Organization, d: Coordinate): (b: nat)
    ensures b < BankCount(o)
  {
    IndexInside(o, 5, d);
    Index(o, 5, d)
  }

  function BanksPerRank(o: Organization): nat { o.bankGroups * o.banksPerGroup }

  function FirstOfRank(o: Organization, d: Coordinate): nat { Index(o, 3, d) * BanksPerRank(o) }

  predicate InRankOf(o: Organization, d: Coordinate, b: nat) {
    FirstOfRank(o, d) <= b < FirstOfRank(o, d) + BanksPerRank(o)
  }

  /** The banks from the first of the rank on are exactly those of the coordinates in that rank. */
  lemma RankRangeExact(o: Organization, d: Coordinate, e: Coordinate)
    ensures FirstOfRank(o, d) + BanksPerRank(o) <= BankCount(o)
    ensures InRankOf(o, d, Flat(o, e)) <==> SameBucket(o, 3, d, e)
  {
    var n := BanksPerRank(o);
    MixedRadix.MulMonotone(o.banksPerGroup, 1, o.bankGroups);
    MixedRadix.DigitJoin(Clamped(o, e, 5), Clamped(o, e, 4), Index(o, 3, e), o.banksPerGroup, o.bankGroups);
    MixedRadix.DigitBelow(o.banksPerGroup, o.bankGroups, Clamped(o, e, 5), Clamped(o, e, 4));
    MixedRadix.DigitJoin(0, 0, Count(o, 3), o.banksPerGroup, o.bankGroups);
    assert Index(o, 4, e) == Clamped(o, e, 4) + Index(o, 3, e) * o.bankGroups;
    assert Count(o, 4) == Count(o, 3) * o.bankGroups;
    IndexInside(o, 3, d);
    IndexInside(o, 3, e);
    ChildRange(n, Index(o, 3, d), Index(o, 3, e), Clamped(o, e, 5) + Clamped(o, e, 4) * o.banksPerGroup, Count(o, 3));
    IndexExact(o, 3, d, e);
  }

  predicate AnyBusyInRank(o: Organization, banks: seq<Bank>, d: Coordinate) {
    exists b: nat | b < |banks| && InRankOf(o, d, b) :: Busy(banks[b])
  }

  predicate AnyActivatingInRank(o: Organization, banks: seq<Bank>, d: Coordinate) {
    exists b: nat | b < |banks| && InRankOf(o, d, b) :: banks[b].activating
  }

  predicate AnyBusyInChannel(o: Organization, banks: seq<Bank>, d: Coordinate) {
    var n := o.pseudoChannels * o.sids * o.ranks * o.bankGroups * o.banksPerGroup;
    exists b: nat | b < |banks| && Clamped(o, d, 0) * n <= b < Clamped(o, d, 0) * n + n :: Busy(banks[b])
  }

  // ---------------------------------------------------------------- the next command of a request

  /**
    What the rest of the controller contributes to a decision on a bank: write-clock, power and training state, the
    commands that table, scope and PHY gates refuse, and the lines with writes still inside the PHY.
   */
  datatype Surroundings = Surroundings(wckReady: bool, wckHold: bool, lowPower: bool, selfRefresh: bool,
                                       wckTrainingRequired: bool, rasEcc: bool, linkRetry: bool,
                                       refused: set<Command>, unfinished: set<Coordinate>)

  predicate DualTargetIdle(s: Spec, banks: seq<Bank>, d: Coordinate, clk: nat)
    requires |banks| == BankCount(s.org)
  {
    var bank, partner := banks[Flat(s.org, d)], banks[Flat(s.org, RefdbPartner(s.org, d))];
    !Busy(bank) && clk >= bank.nextAct && !Busy(partner) && clk >= partner.nextAct
  }

  function MaintenanceStep(s: Spec, banks: seq<Bank>, r: Request, clk: nat): Command
    requires |banks| == BankCount(s.org)
  {
    if (r.next.REFAB? || r.next.RFMAB?) && AnyBusyInRank(s.org, banks, r.at) then PREAB
    else if (r.next.REFPB? || r.next.REFDB? || r.next.RFMPB?) && Busy(banks[Flat(s.org, r.at)]) then PREPB
    else if r.next.REFDB? && !DualTargetIdle(s, banks, r.at, clk) && AnyBusyInRank(s.org, banks, r.at) then PREAB
    else r.next
  }

  function ReadCommandFor(p: RowPolicy): Command { if p.ClosedPage? then RDA else RD }

  function WriteCommandFor(p: RowPolicy): Command { if p.ClosedPage? then WRA else WR }

  function NextCommand(s: Spec, banks: seq<Bank>, r: Request, clk: nat, e: Surroundings): Option<Command>
    requires |banks| == BankCount(s.org)
  {
    var bank := banks[Flat(s.org, r.at)];
    if r.kind.Upkeep? then Some(MaintenanceStep(s, banks, r, clk))
    else if bank.openRow == r.at.row then
      if s.lpddr && !e.wckReady then if e.wckHold then None else Some(if r.kind.Read? then CASRD else CASWR)
      else Some(if r.kind.Read? then ReadCommandFor(s.policy) else WriteCommandFor(s.policy))
    else if bank.openRow >= 0 then Some(PREPB)
    else if bank.activating then if r.issuedFirst then Some(ACT2) else None
    else if s.splitActivate then Some(if r.issuedFirst then ACT2 else ACT1)
    else Some(ACT)
  }

  function SnapshotOf(s: Spec, banks: seq<Bank>, r: Request, c: Command, e: Surroundings): Snapshot
    requires |banks| == BankCount(s.org)
  {
    var bank := banks[Flat(s.org, r.at)];
    var state := if bank.activating then Activating else if bank.openRow >= 0 then Opened else Closed;
    var busy := if c.PREAB? || c.REFAB? || c.RFMAB? then AnyBusyInRank(s.org, banks, r.at) else AnyBusyInChannel(s.org, banks, r.at);
    Snapshot(state, bank.openRow == r.at.row, e.wckReady, busy, s.splitActivate, s.lpddr, r.kind.Upkeep?, r.issuedFirst,
             e.lowPower, e.selfRefresh, false, false, e.wckTrainingRequired, e.rasEcc, e.linkRetry)
  }

  /** The bank-local part of command timing. */
  predicate BankReady(s: Spec, banks: seq<Bank>, r: Request, c: Command, clk: nat)
    requires |banks| == BankCount(s.org)
  {
    var bank := banks[Flat(s.org, r.at)];
    match c
    case ACT => !bank.activating && clk >= bank.nextAct
    case ACT1 => !bank.activating && !AnyActivatingInRank(s.org, banks, r.at) && clk >= bank.nextAct
    case ACT2 => bank.activating && r.issuedFirst && clk >= bank.nextAct2
    case PRE | PREPB => !bank.activating && bank.openRow >= 0 && clk >= bank.nextPre
    case RD | RDA => bank.openRow == r.at.row && clk >= bank.nextRd && clk >= bank.nextAnyCol
    case WR | WRA => bank.openRow == r.at.row && clk >= bank.nextWr && clk >= bank.nextAnyCol
    case REFPB | RFMPB => !Busy(bank) && clk >= bank.nextAct
    case REFDB => DualTargetIdle(s, banks, r.at, clk)
    case REFAB | RFMAB => !AnyBusyInRank(s.org, banks, r.at)
    case CASRD | CASWR => s.lpddr && bank.openRow == r.at.row
    case NOP => false
    case _ => true
  }

  /** Closing a row that some active request has opened is refused outside the active queue. */
  predicate WouldCloseActive(s: Spec, counts: seq<nat>, r: Request, c: Command)
    requires |counts| == BankCount(s.org)
  {
    if c.PREAB? || c.REFAB? || c.RFMAB? then exists b: nat | b < |counts| && InRankOf(s.org, r.at, b) :: counts[b] > 0
    else if c.PREPB? || c.REFPB? || c.REFDB? || c.RFMPB? then counts[Flat(s.org, r.at)] > 0
    else false
  }

  // ---------------------------------------------------------------- execution

  function RefreshAllDelay(s: Spec, c: Command): int {
    if c.RFMAB? && s.t.nRFMab > 0 then s.t.nRFMab else s.t.nRFC
  }

  function RefreshBankDelay(s: Spec, c: Command): int {
    if c.RFMPB? && s.t.nRFMpb > 0 then s.t.nRFMpb else s.t.nRFCpb
  }

  function PrechargeAllDelay(s: Spec): int { if s.t.nRPab > 0 then s.t.nRPab else s.t.nRP }

  function WriteRecovery(s: Spec): int { s.t.nCWL + s.t.nBL + s.t.nWR }

  /** The commanded bank after a command. */
  function OwnBank(s: Spec, bank: Bank, row: int, c: Command, clk: nat): Bank {
    match c
    case ACT =>
      bank.(openRow := row, nextRd := clk + Wait(s, s.t.nRCDRD), nextWr := clk + Wait(s, s.t.nRCDWR),
            nextPre := clk + Wait(s, s.t.nRAS), nextAct := clk + Wait(s, s.t.nRC))
    case ACT1 =>
      bank.(activating := true, nextAct2 := clk + Wait(s, Max(1, s.t.nAADMin)),
            act2Deadline := clk + Wait(s, Max(s.t.nAADMin, s.t.nAADMax)),
            nextRd := clk + Wait(s, s.t.nRCDRD), nextWr := clk + Wait(s, s.t.nRCDWR),
            nextAct := clk + Wait(s, s.t.nRC), nextPre := clk + Wait(s, s.t.nRAS))
    case ACT2 => bank.(activating := false, openRow := row, nextAct2 := 0, act2Deadline := 0)
    case PRE | PREPB => bank.(openRow := -1, activating := false, nextAct := clk + Wait(s, s.t.nRP))
    case RD =>
      bank.(nextAnyCol := clk + Wait(s, s.t.nCCDL), nextRd := clk + Wait(s, s.t.nCCDL),
            nextPre := Max(bank.nextPre, clk + Wait(s, s.t.nRTP)))
    case RDA =>
      bank.(nextAnyCol := clk + Wait(s, s.t.nCCDL), nextRd := clk + Wait(s, s.t.nCCDL),
            nextPre := Max(bank.nextPre, clk + Wait(s, s.t.nRTP)), openRow := -1,
            nextAct := Max(bank.nextAct, clk + Wait(s, s.t.nRTP) + Wait(s, s.t.nRP)))
    case WR =>
      bank.(nextAnyCol := clk + Wait(s, s.t.nCCDL), nextWr := clk + Wait(s, s.t.nCCDL),
            nextPre := Max(bank.nextPre, clk + Wait(s, WriteRecovery(s))))
    case WRA =>
      bank.(nextAnyCol := clk + Wait(s, s.t.nCCDL), nextWr := clk + Wait(s, s.t.nCCDL),
            nextPre := Max(bank.nextPre, clk + Wait(s, WriteRecovery(s))), openRow := -1,
            nextAct := Max(bank.nextAct, clk + Wait(s, WriteRecovery(s)) + Wait(s, s.t.nRP)))
    case REFPB | REFDB | RFMPB => bank.(nextAct := clk + Wait(s, RefreshBankDelay(s, c)))
    case _ => bank
  }

  /** Bank number `b` after a command at `d`. */
  function BankAfter(s: Spec, bank: Bank, b: nat, c: Command, d: Coordinate, clk: nat): Bank {
    if c.PREAB? then
      if InRankOf(s.org, d, b) then
        bank.(openRow := -1, activating := false, nextAct := Max(bank.nextAct, clk + Wait(s, PrechargeAllDelay(s))))
      else bank
    else if c.REFAB? || c.RFMAB? then
      if InRankOf(s.org, d, b) then bank.(nextAct := Max(bank.nextAct, clk + Wait(s, RefreshAllDelay(s, c)))) else bank
    else if b == Flat(s.org, d) then OwnBank(s, bank, d.row, c, clk)
    else if c.REFDB? && b == Flat(s.org, RefdbPartner(s.org, d)) then
      bank.(nextAct := Max(bank.nextAct, clk + Wait(s, s.t.nRFCpb)))
    else bank
  }

  function Executed(s: Spec, banks: seq<Bank>, c: Command, d: Coordinate, clk: nat): (r: seq<Bank>)
    ensures |r| == |banks|
  {
    seq(|banks|, b requires 0 <= b < |banks| => BankAfter(s, banks[b], b, c, d, clk))
  }

  // ---------------------------------------------------------------- the machine

  /** `counts` gives the number of active requests of each bank. */
  datatype State = State(clk: nat, banks: seq<Bank>, active: seq<Request>, counts: seq<nat>)

  /** Where a request waits: in the active queue, a read or write queue, or the maintenance queue. */
  datatype Source = FromActive(index: nat) | FromQueue | FromPriority

  datatype Step = Advance | Issue(source: Source, request: Request, command: Command, around: Surroundings)

  ghost predicate Sized(s: Spec, st: State) {
    |st.banks| == |st.counts| == BankCount(s.org)
  }

  /** The commands a maintenance request may be for. */
  predicate IsMaintenance(c: Command) {
    c.PREPB? || c.REFAB? || c.REFPB? || c.REFDB? || c.RFMAB? || c.RFMPB? || c.MRW? || c.MRR? || c.WCKSYNC? || c.WCKTRAIN?
    || c.DVFS? || c.PDE? || c.PDX? || c.SREFEN? || c.SREFEX? || c.ECCSCRUB? || c.RASERR?
  }

  /** The request is where the step says. */
  predicate Waits(s: Spec, st: State, source: Source, r: Request) {
    match source
    case FromActive(i) => i < |st.active| && st.active[i] == r
    case FromQueue => !r.kind.Upkeep? && !r.issuedFirst && InRange(s.org, r.at)
    case FromPriority => r.kind.Upkeep? && !r.issuedFirst && IsMaintenance(r.next) && BankInRange(s.org, r.at)
  }

  /** Choosing on the bus that carries second activates stops the run if one of them is overdue. */
  predicate Overdue(s: Spec, st: State, r: Request, e: Surroundings)
    requires Sized(s, st)
  {
    NextCommand(s, st.banks, r, st.clk, e) == Some(ACT2) && st.clk > st.banks[Flat(s.org, r.at)].act2Deadline
  }

  predicate Chosen(s: Spec, st: State, r: Request, c: Command, e: Surroundings)
    requires Sized(s, st)
  {
    var next := NextCommand(s, st.banks, r, st.clk, e);
    next == Some(c) || (s.policy.ClosedCap? && ((next == Some(RD) && c.RDA?) || (next == Some(WR) && c.WRA?)))
  }

  ghost predicate Possible(s: Spec, st: State, step: Step) {
    Sized(s, st) &&
    match step
    case Advance => true
    case Issue(source, r, c, e) =>
      && Waits(s, st, source, r) && Chosen(s, st, r, c, e)
      && LegalCommand(SnapshotOf(s, st.banks, r, c, e), c) && BankReady(s, st.banks, r, c, st.clk)
      && (source.FromActive? || !WouldCloseActive(s, st.counts, r, c))
      && (c.ACT2? ==> forall i | 0 <= i < |st.active| :: !Overdue(s, st, st.active[i], e))
  }

  function Without<T>(q: seq<T>, i: nat): seq<T>
    requires i < |q|
  {
    q[..i] + q[i + 1..]
  }

  /** The queue and counts after a request's command was executed. */
  function Advanced(s: Spec, st: State, source: Source, r: Request, c: Command): (seq<Request>, seq<nat>)
    requires |st.counts| == BankCount(s.org) && (source.FromActive? ==> source.index < |st.active|)
  {
    var now := if c.ACT1? then r.(issuedFirst := true) else r;
    var b := Flat(s.org, r.at);
    if r.kind.Upkeep? then (st.active, st.counts)
    else if IsOpening(c) && !source.FromActive? then
      if |st.active| < BankCount(s.org) then (st.active + [now], st.counts[b := st.counts[b] + 1]) else (st.active, st.counts)
    else if !source.FromActive? then (st.active, st.counts)
    else if IsData(c) then
      (Without(st.active, source.index), if st.counts[b] > 0 then st.counts[b := st.counts[b] - 1] else st.counts)
    else (st.active[source.index := now], st.counts)
  }

  function Next(s: Spec, st: State, step: Step): State
    requires |st.counts| == BankCount(s.org)
    requires step.Issue? && step.source.FromActive? ==> step.source.index < |st.active|
  {
    match step
    case Advance => st.(clk := st.clk + 1)
    case Issue(source, r, c, _) =>
      var (active, counts) := Advanced(s, st, source, r, c);
      State(st.clk, Executed(s, st.banks, c, r.at, st.clk), active, counts)
  }

  function Initial(s: Spec): State {
    State(0, seq(BankCount(s.org), _ => Bank.Bank(-1, false, 0, 0, 0, 0, 0, 0, 0)), [], seq(BankCount(s.org), _ => 0))
  }

  /** The state after a run; a step that is not possible changes nothing. */
  ghost function After(s: Spec, steps: seq<Step>): (st: State)
    ensures Sized(s, st)
  {
    if steps == [] then Initial(s)
    else
      var st := After(s, steps[..|steps| - 1]);
      if Possible(s, st, steps[|steps| - 1]) then Next(s, st, steps[|steps| - 1]) else st
  }

  /** Every step of the run was possible when it was taken. */
  ghost predicate IsRun(s: Spec, steps: seq<Step>) {
    steps == []
    || var n := |steps| - 1;
       IsRun(s, steps[..n]) && Possible(s, After(s, steps[..n]), steps[n])
  }

  lemma {:induction false} RunPrefix(s: Spec, steps: seq<Step>, n: nat)
    requires IsRun(s, steps) && n <= |steps|
    ensures IsRun(s, steps[..n])
    ensures n < |steps| ==> Possible(s, After(s, steps[..n]), steps[n])
  {
    if n == |steps| {
      assert steps[..n] == steps;
    } else if n < |steps| - 1 {
      RunPrefix(s, steps[..|steps| - 1], n);
      assert steps[..|steps| - 1][..n] == steps[..n];
    }
  }

  lemma RunExtends(s: Spec, steps: seq<Step>, x: Step)
    requires IsRun(s, steps) && Possible(s, After(s, steps), x)
    ensures IsRun(s, steps + [x]) && After(s, steps + [x]) == Next(s, After(s, steps), x)
  {
    assert (steps + [x])[..|steps|] == steps;
  }

  /** The cycle at which step `i` was taken. */
  ghost function CycleOf(s: Spec, steps: seq<Step>, i: nat): nat
    requires i < |steps|
  {
    After(s, steps[..i]).clk
  }
}

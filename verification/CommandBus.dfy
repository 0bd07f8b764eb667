/**
  What a tick lets through. Each bus takes one command, the column bus before the row bus; a falling edge takes
  only a precharge that fits the last row command; active requests come before waiting ones; no read passes a
  write of its line inside the PHY, and no write an older active read.
 */
module CommandBus {
  import opened Dram
  import opened Banks
  import opened Wrappers

  predicate IsColumn(c: Command) { c.CASRD? || c.CASWR? || c.WCKSYNC? || IsData(c) }

  predicate IsRow(c: Command) { !IsColumn(c) && !c.NOP? }

  /** Devices with split activation have one bus for all commands, the others a column and a row bus. */
  predicate Unified(s: Spec) { s.splitActivate }

  predicate Pairs(s: Spec) { s.pairing.Paired? && !Unified(s) }

  /** Odd cycles are rising edges. */
  predicate Rising(clk: nat) { clk > 0 && !Rising(clk - 1) }

  lemma {:induction false} RisingExact(clk: nat)
    ensures Rising(clk) <==> clk % 2 == 1
  {
    if clk > 0 { RisingExact(clk - 1); }
  }

  lemma {:induction false} RisingSum(a: nat, n: nat)
    ensures Rising(a + n) <==> Rising(a) != Rising(n)
  {
    if n > 0 { RisingSum(a, n - 1); }
  }

  lemma EvenApart(a: nat, b: nat)
    requires Rising(a) && Rising(b) && a <= b
    ensures !Rising(b - a)
  {
    RisingSum(a, b - a);
  }

  // ---------------------------------------------------------------- the buses

  /** What the current tick still takes. */
  datatype Slot = Free | RowOnly | Taken

  /** Nothing is issued before the first tick. */
  function SlotAfter(s: Spec, steps: seq<Step>): Slot {
    if steps == [] then Taken
    else
      match steps[|steps| - 1]
      case Advance => Free
      case Issue(_, _, c, _) => if Unified(s) || IsRow(c) then Taken else RowOnly
  }

  /** The last row command on a rising edge: the falling edge it restrains, and the bank it took, if only one. */
  datatype RowMark = RowMark(falling: nat, pseudoChannel: int, key: Option<int>)

  function BankKey(o: Organization, d: Coordinate): int { (d.sid * o.bankGroups + d.bankGroup) * o.banksPerGroup + d.bank }

  function MarkOf(s: Spec, c: Command, d: Coordinate, clk: nat): RowMark {
    RowMark(clk + if c.ACT? then 3 else 1, d.pseudoChannel, if IsAllBank(c) then None else Some(BankKey(s.org, d)))
  }

  ghost function MarkAfter(s: Spec, steps: seq<Step>): RowMark {
    if steps == [] then RowMark(0, -1, Some(-1))
    else
      var n := |steps| - 1;
      var clk := CycleOf(s, steps, n);
      match steps[n]
      case Issue(_, r, c, _) =>
        if Pairs(s) && IsRow(c) && Rising(clk) then MarkOf(s, c, r.at, clk) else MarkAfter(s, steps[..n])
      case Advance => MarkAfter(s, steps[..n])
  }

  /** A precharge on a falling edge, beside the row command that the edge is paired with. */
  predicate Fits(s: Spec, mark: RowMark, c: Command, d: Coordinate, clk: nat) {
    || clk != mark.falling || mark.pseudoChannel != d.pseudoChannel
    || (mark.key.Some? && c.PREPB? && BankKey(s.org, d) != mark.key.value)
  }

  ghost predicate BusLets(s: Spec, steps: seq<Step>, c: Command, d: Coordinate) {
    var slot, clk := SlotAfter(s, steps), After(s, steps).clk;
    if Unified(s) then slot.Free?
    else if Pairs(s) && !Rising(clk) then
      && (c.PREPB? || c.PREAB?) && !slot.Taken?
      && (s.pairing.strict ==> Fits(s, MarkAfter(s, steps), c, d, clk))
    else if IsColumn(c) then slot.Free?
    else IsRow(c) && !slot.Taken?
  }

  // ---------------------------------------------------------------- the choice

  /** The hazards of the line stand aside. */
  ghost predicate Eligible(st: State, r: Request, c: Command, e: Surroundings) {
    && (r.kind.Read? && IsData(c) ==> r.at !in e.unfinished)
    && (r.kind.Write? ==> forall i | 0 <= i < |st.active| && st.active[i].kind.Read? && st.active[i].at == r.at ::
                            st.active[i].id >= r.id)
  }

  /** An active request whose command could be issued now. */
  ghost predicate CanGo(s: Spec, steps: seq<Step>, r: Request, e: Surroundings) {
    var st := After(s, steps);
    var next := NextCommand(s, st.banks, r, st.clk, e);
    && next.Some? && LegalCommand(SnapshotOf(s, st.banks, r, next.value, e), next.value)
    && BankReady(s, st.banks, r, next.value, st.clk) && BusLets(s, steps, next.value, r.at)
    && (Unified(s) || IsColumn(next.value)) && next.value !in e.refused && Eligible(st, r, next.value, e)
  }

  /**
    The step fits its tick. Active requests are not tried on the row bus; elsewhere a waiting request goes only if
    no active request of its bank can.
   */
  ghost predicate Scheduled(s: Spec, steps: seq<Step>, x: Step) {
    match x
    case Advance => true
    case Issue(source, r, c, e) =>
      var st := After(s, steps);
      && BusLets(s, steps, c, r.at) && c !in e.refused && Eligible(st, r, c, e)
      && (source.FromActive? ==> Unified(s) || IsColumn(c))
      && (!source.FromActive? && (Unified(s) || IsColumn(c)) ==>
            forall i | 0 <= i < |st.active| && Flat(s.org, st.active[i].at) == Flat(s.org, r.at) ::
              !CanGo(s, steps, st.active[i], e))
  }

  // ---------------------------------------------------------------- distances that the buses keep

  lemma ClockGrows(s: Spec, before: seq<Step>, x: Step)
    ensures After(s, before).clk <= After(s, before + [x]).clk
    ensures x.Advance? ==> After(s, before + [x]).clk == After(s, before).clk + 1
  {
    assert (before + [x])[..|before|] == before;
  }

  lemma {:induction false} CyclesGrow(s: Spec, steps: seq<Step>, i: nat, j: nat)
    requires i <= j <= |steps|
    ensures After(s, steps[..i]).clk <= After(s, steps[..j]).clk
    decreases j
  {
    if i < j {
      CyclesGrow(s, steps, i, j - 1);
      ClockGrows(s, steps[..j - 1], steps[j - 1]);
      assert steps[..j] == steps[..j - 1] + [steps[j - 1]];
    }
  }

  /** A free slot means that the tick has just begun. */
  lemma FreeIsLater(s: Spec, steps: seq<Step>, i: nat, j: nat)
    requires i < j < |steps| && steps[i].Issue? && SlotAfter(s, steps[..j]).Free?
    ensures CycleOf(s, steps, i) < CycleOf(s, steps, j)
  {
    assert steps[..j][j - 1] == steps[j - 1] && steps[j - 1].Advance?;
    CyclesGrow(s, steps, i, j - 1);
    ClockGrows(s, steps[..j - 1], steps[j - 1]);
    assert steps[..j] == steps[..j - 1] + [steps[j - 1]];
  }
}

/**
  Exactly when a request keeps the row it opened. Under the closed-page policies a write that waits in its
  queue can hit the open row, be let through before the read that opened it, and close the row behind itself.
 */
module RowLoss {
  import opened Dram
  import opened Banks
  import opened CommandBus
  import opened RowOwnership
  import opened RunBuilder
  import TimingScopes
  import opened Wrappers

  /** A write accepted after the read that opens the row, whose number is 0. */
  function Writer(e: Coordinate, id: pos): Request { Request(id, Write, e, NOP, false) }

  /** Two columns of one row. */
  ghost predicate TwoColumns(s: Spec, d: Coordinate, e: Coordinate) {
    InRange(s.org, d) && InRange(s.org, e) && Flat(s.org, e) == Flat(s.org, d) && e.row == d.row && e != d
  }

  /** A gate outside the banks holds reads back, such as the turnaround after a write to another bank. */
  function ReadsHeld(): Surroundings { Calm().(refused := {RD, RDA}) }

  /** The row is open, a tick has begun, and the bank's gates let a write through. */
  ghost predicate Writable(s: Spec, steps: seq<Step>, d: Coordinate, cap: nat) {
    var st := After(s, steps);
    && Run(s, steps, cap) && Begun(s, steps) && HoldsRow(s, st, d, Read)
    && st.banks[Flat(s.org, d)].nextWr <= st.clk && st.banks[Flat(s.org, d)].nextAnyCol <= st.clk
    && st.banks[Flat(s.org, d)].act2Deadline < st.clk
  }

  lemma WaitsForWrite(s: Spec, steps: seq<Step>, d: Coordinate, cap: nat) returns (more: seq<Step>)
    requires Run(s, steps, cap) && HoldsRow(s, After(s, steps), d, Read)
    requires After(s, steps).banks[Flat(s.org, d)].act2Deadline == 0
    ensures Writable(s, more, d, cap) && After(s, more).banks == After(s, steps).banks
    ensures Accesses(s, more, Flat(s.org, d)) == Accesses(s, steps, Flat(s.org, d))
    ensures
      var bank := After(s, steps).banks[Flat(s.org, d)];
      After(s, more).clk == Column(s, Max(After(s, steps).clk + 1, Max(bank.nextWr, bank.nextAnyCol)))
  {
    var bank := After(s, steps).banks[Flat(s.org, d)];
    var n: nat := Max(After(s, steps).clk + 1, Max(bank.nextWr, bank.nextAnyCol));
    ColumnFits(s, n);
    more := WaitsUntil(s, steps, Column(s, n), cap, Flat(s.org, d));
  }

  // ---------------------------------------------------------------- the write goes first

  /** The read that opened the row cannot have its data: its gate is shut, or reads are held back. */
  ghost predicate OwnerHeld(s: Spec, st: State, d: Coordinate, e: Surroundings) {
    Sized(s, st) && e.wckReady && (st.clk < st.banks[Flat(s.org, d)].nextRd || (RD in e.refused && RDA in e.refused))
  }

  lemma OwnerCannotGo(s: Spec, steps: seq<Step>, d: Coordinate, around: Surroundings)
    requires HoldsRow(s, After(s, steps), d, Read) && OwnerHeld(s, After(s, steps), d, around)
    ensures !CanGo(s, steps, Owner(s, d, Read), around)
  {
  }

  function Waiting(e: Coordinate, id: pos, c: Command, around: Surroundings): Step { Issue(FromQueue, Writer(e, id), c, around) }

  lemma WriteScheduled(s: Spec, steps: seq<Step>, d: Coordinate, e: Coordinate, id: pos, c: Command, around: Surroundings,
                       cap: nat)
    requires TwoColumns(s, d, e) && Writable(s, steps, d, cap) && (c.WR? || c.WRA?)
    requires OwnerHeld(s, After(s, steps), d, around) && around.refused <= {RD, RDA}
    ensures Scheduled(s, steps, Waiting(e, id, c, around))
  {
    OwnerCannotGo(s, steps, d, around);
    assert After(s, steps).active == [Owner(s, d, Read)];
  }

  /** Under a cap, waiting writes first hit the open row and leave it open. */
  lemma HitStep(s: Spec, st: State, d: Coordinate, e: Coordinate, id: pos)
    requires s.policy.ClosedCap? && TwoColumns(s, d, e) && HoldsRow(s, st, d, Read)
    requires st.banks[Flat(s.org, d)].nextWr <= st.clk && st.banks[Flat(s.org, d)].nextAnyCol <= st.clk
    ensures
      var after := Next(s, st, Waiting(e, id, WR, ReadsHeld()));
      && Possible(s, st, Waiting(e, id, WR, ReadsHeld())) && HoldsRow(s, after, d, Read)
      && after.banks[Flat(s.org, d)].act2Deadline == st.banks[Flat(s.org, d)].act2Deadline
  {
  }

  lemma Hits(s: Spec, steps: seq<Step>, d: Coordinate, e: Coordinate, id: pos, cap: nat) returns (more: seq<Step>)
    requires s.policy.ClosedCap? && TwoColumns(s, d, e) && Writable(s, steps, d, cap)
    requires After(s, steps).banks[Flat(s.org, d)].act2Deadline == 0
    ensures Writable(s, more, d, cap) && After(s, more).banks[Flat(s.org, d)].act2Deadline == 0
    ensures Accesses(s, more, Flat(s.org, d)) == Accesses(s, steps, Flat(s.org, d)) + 1
  {
    var x := Waiting(e, id, WR, ReadsHeld());
    HitStep(s, After(s, steps), d, e, id);
    WriteScheduled(s, steps, d, e, id, WR, ReadsHeld(), cap);
    Extends(s, steps, x, cap);
    assert (steps + [x])[..|steps|] == steps;
    more := WaitsForWrite(s, steps + [x], d, cap);
  }

  lemma {:induction false} HitsOften(s: Spec, steps: seq<Step>, d: Coordinate, e: Coordinate, cap: nat, n: nat) returns (more: seq<Step>)
    requires s.policy.ClosedCap? && TwoColumns(s, d, e) && Writable(s, steps, d, cap)
    requires After(s, steps).banks[Flat(s.org, d)].act2Deadline == 0
    ensures Writable(s, more, d, cap) && After(s, more).banks[Flat(s.org, d)].act2Deadline == 0
    ensures Accesses(s, more, Flat(s.org, d)) >= n
  {
    more := steps;
    if n > 0 {
      var some := HitsOften(s, steps, d, e, cap, n - 1);
      more := Hits(s, some, d, e, n, cap);
    }
  }

  /** A write can be let through, on its tick's edge, before the read's own delay is over, as in every HBM profile. */
  predicate WritesSooner(s: Spec) {
    s.policy.ClosedPage? && Column(s, Max(LastActivate(s) + 1, 1 + Wait(s, s.t.nRCDWR))) < 1 + Wait(s, s.t.nRCDRD)
  }

  /** Where it cannot, something outside the banks has to hold the read back. */
  function Around(s: Spec): Surroundings { if WritesSooner(s) then Calm() else ReadsHeld() }

  lemma OpensForWrite(s: Spec, d: Coordinate, e: Coordinate, cap: nat) returns (steps: seq<Step>)
    requires SplitChecked(s) && TwoColumns(s, d, e)
    ensures Writable(s, steps, d, cap) && OwnerHeld(s, After(s, steps), d, Around(s))
    ensures s.policy.ClosedCap? ==> Accesses(s, steps, Flat(s.org, d)) >= cap
  {
    var begun := SomeOpening(s, d, Read, cap);
    steps := WaitsForWrite(s, begun, d, cap);
    if s.policy.ClosedCap? { steps := HitsOften(s, steps, d, e, cap, cap); }
  }

  // ---------------------------------------------------------------- the row is lost

  /** The read at `d` waits in the active queue for data of a row that is closed. */
  ghost predicate LostRow(s: Spec, st: State, d: Coordinate) {
    && Sized(s, st) && st.active == [Owner(s, d, Read)]
    && st.banks[Flat(s.org, d)].openRow == -1 && !st.banks[Flat(s.org, d)].activating
  }

  /** With split activation such a request asks for a second activate that is long overdue, which stops the run. */
  ghost predicate Stuck(s: Spec, st: State) {
    Sized(s, st) && exists i | 0 <= i < |st.active| :: forall around :: Overdue(s, st, st.active[i], around)
  }

  /** Otherwise it asks for an activate, and active requests are not tried on the row bus. */
  ghost predicate Stranded(s: Spec, steps: seq<Step>) {
    forall x: Step | x.Issue? && x.source.FromActive? :: !Possible(s, After(s, steps), x) || !Scheduled(s, steps, x)
  }

  lemma LostIsStuck(s: Spec, st: State, d: Coordinate)
    requires s.splitActivate && LostRow(s, st, d) && d.row >= 0
    requires st.banks[Flat(s.org, d)].act2Deadline < st.clk
    ensures Stuck(s, st)
  {
    forall around
      ensures Overdue(s, st, st.active[0], around)
    {
      assert NextCommand(s, st.banks, Owner(s, d, Read), st.clk, around) == Some(ACT2);
    }
    assert st.active[0] == Owner(s, d, Read);
  }

  lemma LostIsStranded(s: Spec, steps: seq<Step>, d: Coordinate)
    requires !s.splitActivate && LostRow(s, After(s, steps), d) && d.row >= 0
    ensures Stranded(s, steps)
  {
    var st := After(s, steps);
    forall x: Step | x.Issue? && x.source.FromActive?
      ensures !Possible(s, st, x) || !Scheduled(s, steps, x)
    {
      if x.source.index == 0 && x.request == Owner(s, d, Read) {
        assert NextCommand(s, st.banks, Owner(s, d, Read), st.clk, x.around) == Some(ACT);
      }
    }
  }

  /** A waiting write of the row takes it with its automatic precharge. */
  function Closing(s: Spec, e: Coordinate, cap: nat): Step { Waiting(e, cap + 1, WRA, Around(s)) }

  lemma ClosePossible(s: Spec, steps: seq<Step>, d: Coordinate, e: Coordinate, cap: nat)
    requires !s.policy.OpenPage? && TwoColumns(s, d, e) && Writable(s, steps, d, cap)
    ensures Possible(s, After(s, steps), Closing(s, e, cap))
  {
  }

  lemma CloseLoses(s: Spec, st: State, d: Coordinate, e: Coordinate, cap: nat)
    requires TwoColumns(s, d, e) && HoldsRow(s, st, d, Read)
    ensures
      var after := Next(s, st, Closing(s, e, cap));
      && LostRow(s, after, d) && after.clk == st.clk
      && after.banks[Flat(s.org, d)].act2Deadline == st.banks[Flat(s.org, d)].act2Deadline
  {
  }

  /** The run ends with a waiting write closing the row under the read that opened it, which is then never served. */
  ghost predicate ClosesUnder(s: Spec, steps: seq<Step>, d: Coordinate, e: Coordinate, cap: nat) {
    var all := steps + [Closing(s, e, cap)];
    && Run(s, all, cap) && HoldsRow(s, After(s, steps), d, Read) && LostRow(s, After(s, all), d)
    && (if s.splitActivate then Stuck(s, After(s, all)) else Stranded(s, all))
  }

  lemma CloseStep(s: Spec, steps: seq<Step>, d: Coordinate, e: Coordinate, cap: nat)
    requires !s.policy.OpenPage? && TwoColumns(s, d, e) && Writable(s, steps, d, cap)
    requires OwnerHeld(s, After(s, steps), d, Around(s))
    requires s.policy.ClosedCap? ==> Accesses(s, steps, Flat(s.org, d)) >= cap
    ensures ClosesUnder(s, steps, d, e, cap)
  {
    ClosePossible(s, steps, d, e, cap);
    CloseLoses(s, After(s, steps), d, e, cap);
    WriteScheduled(s, steps, d, e, cap + 1, WRA, Around(s), cap);
    Extends(s, steps, Closing(s, e, cap), cap);
    var all := steps + [Closing(s, e, cap)];
    if s.splitActivate { LostIsStuck(s, After(s, all), d); } else { LostIsStranded(s, all, d); }
  }

  /** Unless rows are left open, this happens for any timings, any cap and any two columns of a row. */
  lemma WriteClosesRow(s: Spec, d: Coordinate, e: Coordinate, cap: nat)
    requires SplitChecked(s) && TwoColumns(s, d, e) && !s.policy.OpenPage?
    ensures exists steps :: ClosesUnder(s, steps, d, e, cap)
  {
    var steps := OpensForWrite(s, d, e, cap);
    CloseStep(s, steps, d, e, cap);
  }

  lemma LostIsUnowned(s: Spec, st: State, d: Coordinate)
    requires LostRow(s, st, d) && d.row >= 0
    ensures !Ownership(s, st)
  {
    assert !Owns(s, st.banks, st.active[0]);
  }

  /** After these steps every active request owns its bank, open at or opening for its row, and no two share one. */
  ghost predicate Owned(s: Spec, steps: seq<Step>) { Ownership(s, After(s, steps)) }

  lemma SomeLost(s: Spec, cap: nat)
    requires SplitChecked(s) && s.org.columns > 1 && !s.policy.OpenPage?
    ensures exists steps :: Run(s, steps, cap) && !Owned(s, steps)
  {
    var d := Coordinate(0, 0, 0, 0, 0, 0, 0, 0);
    var e := d.(column := 1);
    TimingScopes.IndexExact(s.org, 5, d, e);
    WriteClosesRow(s, d, e, cap);
    var before :| ClosesUnder(s, before, d, e, cap);
    LostIsUnowned(s, After(s, before + [Closing(s, e, cap)]), d);
    assert Run(s, before + [Closing(s, e, cap)], cap);
  }

  lemma AllOwned(s: Spec, steps: seq<Step>, cap: nat)
    requires s.policy.OpenPage? && Run(s, steps, cap)
    ensures Owned(s, steps)
  {
    RunIsRun(s, steps, cap);
    OwnershipHolds(s, steps);
  }

  /** Every active request owns its bank in every run exactly if rows are left open after use. */
  lemma OwnershipExact(s: Spec, cap: nat)
    requires SplitChecked(s) && s.org.columns > 1
    ensures (forall steps | Run(s, steps, cap) :: Owned(s, steps)) <==> s.policy.OpenPage?
  {
    if s.policy.OpenPage? {
      forall steps | Run(s, steps, cap)
        ensures Owned(s, steps)
      {
        AllOwned(s, steps, cap);
      }
    } else {
      SomeLost(s, cap);
    }
  }
}

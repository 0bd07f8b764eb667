/** Open-page runs: a request that opened a row keeps it until its own data command. */
module RowOwnership {
  import opened Dram
  import opened Banks
  import RefdbSweep

  /** An active request's bank is open at its row, or is being opened for it. */
  ghost predicate Owns(s: Spec, banks: seq<Bank>, r: Request)
    requires |banks| == BankCount(s.org)
  {
    var bank := banks[Flat(s.org, r.at)];
    && !r.kind.Upkeep? && r.at.row >= 0
    && if bank.activating then r.issuedFirst && bank.openRow < 0 else bank.openRow == r.at.row
  }

  ghost predicate OneEach(s: Spec, active: seq<Request>) {
    forall i, j | 0 <= i < j < |active| :: Flat(s.org, active[i].at) != Flat(s.org, active[j].at)
  }

  ghost predicate Occupied(s: Spec, active: seq<Request>, b: nat) {
    exists i | 0 <= i < |active| :: Flat(s.org, active[i].at) == b
  }

  ghost predicate Counted(s: Spec, st: State)
    requires Sized(s, st)
  {
    forall b: nat | b < BankCount(s.org) :: st.counts[b] == if Occupied(s, st.active, b) then 1 else 0
  }

  ghost predicate Ownership(s: Spec, st: State)
    requires Sized(s, st)
  {
    (forall i | 0 <= i < |st.active| :: Owns(s, st.banks, st.active[i])) && OneEach(s, st.active)
  }

  /** The command closes bank `b`, takes it for a refresh, or starts opening it. */
  predicate Disturbs(s: Spec, c: Command, d: Coordinate, b: nat) {
    if c.PREAB? || c.REFAB? || c.RFMAB? then InRankOf(s.org, d, b)
    else if c.REFDB? then b == Flat(s.org, d) || b == Flat(s.org, RefdbPartner(s.org, d))
    else (c.PRE? || c.PREPB? || c.REFPB? || c.RFMPB? || c.RDA? || c.WRA? || IsOpening(c)) && b == Flat(s.org, d)
  }

  lemma UndisturbedBank(s: Spec, bank: Bank, b: nat, c: Command, d: Coordinate, clk: nat)
    requires !Disturbs(s, c, d, b) && !(c.ACT2? && b == Flat(s.org, d))
    ensures
      var after := BankAfter(s, bank, b, c, d, clk);
      && after.openRow == bank.openRow && after.activating == bank.activating
      && after.nextAct2 == bank.nextAct2 && after.act2Deadline == bank.act2Deadline
  {
  }

  /** An active request only ever asks for its second activate, a clock command or its data. */
  lemma ActiveAsks(s: Spec, st: State, step: Step)
    requires Possible(s, st, step) && step.Issue? && step.source.FromActive? && s.policy.OpenPage? && Ownership(s, st)
    ensures step.command.ACT2? || step.command.CASRD? || step.command.CASWR? || step.command.RD? || step.command.WR?
  {
    assert Owns(s, st.banks, st.active[step.source.index]);
  }

  lemma QueueAsks(s: Spec, st: State, step: Step)
    requires Possible(s, st, step) && step.Issue? && step.source.FromQueue? && s.policy.OpenPage?
    ensures step.command.ACT? || step.command.ACT1? || step.command.PREPB? || step.command.CASRD? || step.command.CASWR?
            || step.command.RD? || step.command.WR?
  {
  }

  lemma UpkeepAsks(s: Spec, st: State, step: Step)
    requires Possible(s, st, step) && step.Issue? && step.source.FromPriority?
    ensures step.command.PREAB? || IsMaintenance(step.command)
  {
  }

  /** No command touches the bank of an active request, except that request's own. */
  lemma OwnerUndisturbed(s: Spec, st: State, step: Step, i: nat)
    requires Possible(s, st, step) && step.Issue? && s.policy.OpenPage? && Ownership(s, st) && Counted(s, st)
    requires i < |st.active|
    ensures !Disturbs(s, step.command, step.request.at, Flat(s.org, st.active[i].at))
  {
    var b := Flat(s.org, st.active[i].at);
    assert Owns(s, st.banks, st.active[i]) && Busy(st.banks[b]);
    assert Occupied(s, st.active, b) && st.counts[b] == 1;
    match step.source
    case FromActive(_) => ActiveAsks(s, st, step);
    case FromQueue => QueueAsks(s, st, step);
    case FromPriority => UpkeepAsks(s, st, step);
  }

  /** A row is opened only for a request from outside the active queue, in a bank that nobody owns. */
  lemma OpensFreeBank(s: Spec, st: State, step: Step)
    requires Possible(s, st, step) && step.Issue? && s.policy.OpenPage? && Ownership(s, st) && IsOpening(step.command)
    ensures step.source.FromQueue? && !Occupied(s, st.active, Flat(s.org, step.request.at))
  {
    match step.source
    case FromActive(_) => ActiveAsks(s, st, step);
    case FromQueue =>
      if i :| 0 <= i < |st.active| && Flat(s.org, st.active[i].at) == Flat(s.org, step.request.at) {
        assert Owns(s, st.banks, st.active[i]);
      }
    case FromPriority => UpkeepAsks(s, st, step);
  }

  // ---------------------------------------------------------------- room in the active queue

  ghost function BanksOf(s: Spec, active: seq<Request>): set<nat> {
    if active == [] then {} else BanksOf(s, active[..|active| - 1]) + {Flat(s.org, active[|active| - 1].at)}
  }

  lemma {:induction false} BanksOfExact(s: Spec, active: seq<Request>, b: nat)
    ensures b in BanksOf(s, active) <==> Occupied(s, active, b)
  {
    if active != [] {
      var n := |active| - 1;
      BanksOfExact(s, active[..n], b);
      if i :| 0 <= i < n && Flat(s.org, active[i].at) == b { assert Flat(s.org, active[..n][i].at) == b; }
    }
  }

  lemma {:induction false} BanksOfCounts(s: Spec, active: seq<Request>)
    requires OneEach(s, active)
    ensures |BanksOf(s, active)| == |active|
  {
    if active != [] {
      var n := |active| - 1;
      BanksOfCounts(s, active[..n]);
      BanksOfExact(s, active[..n], Flat(s.org, active[n].at));
    }
  }

  /** With one request per bank, an unowned bank leaves room in the active queue. */
  lemma RoomForOne(s: Spec, active: seq<Request>, b: nat)
    requires OneEach(s, active) && b < BankCount(s.org) && !Occupied(s, active, b)
    ensures |active| < BankCount(s.org)
  {
    BanksOfCounts(s, active);
    BanksOfExact(s, active, b);
    var t := BanksOf(s, active);
    forall x | x in t
      ensures x < BankCount(s.org)
    {
      BanksOfExact(s, active, x);
    }
    RefdbSweep.FullSet(t, BankCount(s.org));
    assert b !in t && b in RefdbSweep.Below(BankCount(s.org));
  }

  // ---------------------------------------------------------------- every step keeps ownership

  /** The active queue after a step: unchanged, one request gone, or the opening request added. */
  lemma ActiveAfter(s: Spec, st: State, step: Step)
    requires Possible(s, st, step) && step.Issue? && s.policy.OpenPage? && Ownership(s, st)
    ensures
      var after := Next(s, st, step);
      var b := Flat(s.org, step.request.at);
      if IsOpening(step.command) then
        && after.active == st.active + [step.request.(issuedFirst := step.command.ACT1?)]
        && after.counts == st.counts[b := st.counts[b] + 1]
      else if step.source.FromActive? && IsData(step.command) then
        && after.active == Without(st.active, step.source.index)
        && after.counts == if st.counts[b] > 0 then st.counts[b := st.counts[b] - 1] else st.counts
      else after.active == st.active && after.counts == st.counts
  {
    if IsOpening(step.command) {
      OpensFreeBank(s, st, step);
      RoomForOne(s, st.active, Flat(s.org, step.request.at));
    } else if step.source.FromActive? {
      ActiveAsks(s, st, step);
    }
  }

  /** The bank of an active request is still its own after any step but its data command. */
  lemma StillOwns(s: Spec, st: State, step: Step, i: nat)
    requires Possible(s, st, step) && step.Issue? && s.policy.OpenPage? && Ownership(s, st) && Counted(s, st)
    requires i < |st.active|
    ensures Owns(s, Executed(s, st.banks, step.command, step.request.at, st.clk), st.active[i])
  {
    var b := Flat(s.org, st.active[i].at);
    assert Owns(s, st.banks, st.active[i]);
    OwnerUndisturbed(s, st, step, i);
    if step.command.ACT2? && b == Flat(s.org, step.request.at) {
      SecondIsOwn(s, st, step, i);
    } else {
      UndisturbedBank(s, st.banks[b], b, step.command, step.request.at, st.clk);
    }
  }

  /** A second activate comes from the active request that owns the bank. */
  lemma SecondIsOwn(s: Spec, st: State, step: Step, i: nat)
    requires Possible(s, st, step) && step.Issue? && s.policy.OpenPage? && Ownership(s, st) && step.command.ACT2?
    requires i < |st.active| && Flat(s.org, st.active[i].at) == Flat(s.org, step.request.at)
    ensures step.source == FromActive(i) && step.request == st.active[i]
  {
    match step.source
    case FromActive(_) =>
    case FromQueue => QueueAsks(s, st, step);
    case FromPriority => UpkeepAsks(s, st, step);
  }

  /** An active request after the step was active before it, or opened its row with it. */
  lemma OwnsAfter(s: Spec, st: State, step: Step, k: nat)
    requires Possible(s, st, step) && step.Issue? && s.policy.OpenPage? && Ownership(s, st) && Counted(s, st)
    requires k < |Next(s, st, step).active|
    ensures Owns(s, Next(s, st, step).banks, Next(s, st, step).active[k])
  {
    var after := Next(s, st, step);
    ActiveAfter(s, st, step);
    if k < |st.active| && after.active[k] == st.active[k] {
      StillOwns(s, st, step, k);
    } else if k + 1 < |st.active| && after.active[k] == st.active[k + 1] {
      StillOwns(s, st, step, k + 1);
    }
  }

  lemma OneEachKept(s: Spec, st: State, step: Step)
    requires Possible(s, st, step) && step.Issue? && s.policy.OpenPage? && Ownership(s, st)
    ensures OneEach(s, Next(s, st, step).active)
  {
    ActiveAfter(s, st, step);
    if IsOpening(step.command) { OpensFreeBank(s, st, step); }
  }

  lemma OwnershipKept(s: Spec, st: State, step: Step)
    requires Possible(s, st, step) && step.Issue? && s.policy.OpenPage? && Ownership(s, st) && Counted(s, st)
    ensures Ownership(s, Next(s, st, step))
  {
    forall k | 0 <= k < |Next(s, st, step).active|
      ensures Owns(s, Next(s, st, step).banks, Next(s, st, step).active[k])
    {
      OwnsAfter(s, st, step, k);
    }
    OneEachKept(s, st, step);
  }

  lemma OccupiedAdded(s: Spec, active: seq<Request>, r: Request, b: nat)
    ensures Occupied(s, active + [r], b) <==> Occupied(s, active, b) || b == Flat(s.org, r.at)
  {
    var after := active + [r];
    assert after[|active|] == r;
    if i :| 0 <= i < |active| && Flat(s.org, active[i].at) == b { assert Flat(s.org, after[i].at) == b; }
  }

  lemma OccupiedRemoved(s: Spec, active: seq<Request>, x: nat, b: nat)
    requires OneEach(s, active) && x < |active|
    ensures Occupied(s, Without(active, x), b) <==> Occupied(s, active, b) && b != Flat(s.org, active[x].at)
  {
    var after := Without(active, x);
    if i :| 0 <= i < |active| && Flat(s.org, active[i].at) == b && i != x {
      assert Flat(s.org, after[if i < x then i else i - 1].at) == b;
    }
    if k :| 0 <= k < |after| && Flat(s.org, after[k].at) == b {
      assert after[k] == active[if k < x then k else k + 1];
    }
  }

  lemma OccupiedAfter(s: Spec, st: State, step: Step, b: nat)
    requires Possible(s, st, step) && step.Issue? && s.policy.OpenPage? && Ownership(s, st)
    ensures
      Occupied(s, Next(s, st, step).active, b) <==>
      if b == Flat(s.org, step.request.at) && IsOpening(step.command) then true
      else if b == Flat(s.org, step.request.at) && step.source.FromActive? && IsData(step.command) then false
      else Occupied(s, st.active, b)
  {
    ActiveAfter(s, st, step);
    if IsOpening(step.command) {
      OccupiedAdded(s, st.active, step.request.(issuedFirst := step.command.ACT1?), b);
    } else if step.source.FromActive? && IsData(step.command) {
      OccupiedRemoved(s, st.active, step.source.index, b);
    }
  }

  lemma CountedKept(s: Spec, st: State, step: Step)
    requires Possible(s, st, step) && step.Issue? && s.policy.OpenPage? && Ownership(s, st) && Counted(s, st)
    ensures Counted(s, Next(s, st, step))
  {
    ActiveAfter(s, st, step);
    if IsOpening(step.command) { OpensFreeBank(s, st, step); }
    if step.source.FromActive? && IsData(step.command) {
      assert Occupied(s, st.active, Flat(s.org, st.active[step.source.index].at));
    }
    forall b: nat | b < BankCount(s.org)
      ensures Next(s, st, step).counts[b] == if Occupied(s, Next(s, st, step).active, b) then 1 else 0
    {
      OccupiedAfter(s, st, step, b);
    }
  }

  /** In every run each bank has at most one active request, and is open at, or opening for, its row. */
  lemma {:induction false} OwnershipHolds(s: Spec, steps: seq<Step>)
    requires s.policy.OpenPage? && IsRun(s, steps)
    ensures Ownership(s, After(s, steps)) && Counted(s, After(s, steps))
  {
    if steps != [] {
      var n := |steps| - 1;
      RunPrefix(s, steps, n);
      OwnershipHolds(s, steps[..n]);
      if steps[n].Issue? {
        OwnershipKept(s, After(s, steps[..n]), steps[n]);
        CountedKept(s, After(s, steps[..n]), steps[n]);
      }
    }
  }

  /** A request that opens a row always finds room in the active queue. */
  lemma PromotionFits(s: Spec, steps: seq<Step>, j: nat)
    requires s.policy.OpenPage? && IsRun(s, steps) && j < |steps| && steps[j].Issue? && IsOpening(steps[j].command)
    ensures |After(s, steps[..j]).active| < BankCount(s.org)
    ensures steps[j].request.(issuedFirst := steps[j].command.ACT1?) in After(s, steps[..j + 1]).active
  {
    RunPrefix(s, steps, j);
    OwnershipHolds(s, steps[..j]);
    var st := After(s, steps[..j]);
    OpensFreeBank(s, st, steps[j]);
    RoomForOne(s, st.active, Flat(s.org, steps[j].request.at));
    ActiveAfter(s, st, steps[j]);
    assert steps[..j + 1][..j] == steps[..j];
    assert Next(s, st, steps[j]).active[|st.active|] == steps[j].request.(issuedFirst := steps[j].command.ACT1?);
  }
}

/** Open-page runs step by step: from a request's opening command to its data command nobody touches the bank. */
module RowTrace {
  import opened Dram
  import opened TimingScopes
  import opened Banks
  import opened RowOwnership

  /** From step `i` on, no command has touched bank `b`. */
  ghost predicate Untouched(s: Spec, steps: seq<Step>, i: nat, b: nat) {
    forall k | i < k < |steps| && steps[k].Issue? :: !Disturbs(s, steps[k].command, steps[k].request.at, b)
  }

  /** Step `i` opened a row for request `r`, and nothing has touched its bank since. */
  ghost predicate OpenedBy(s: Spec, steps: seq<Step>, i: nat, r: Request) {
    && i < |steps| && steps[i].Issue? && steps[i].source.FromQueue? && IsOpening(steps[i].command)
    && steps[i].request == r.(issuedFirst := false) && r.issuedFirst == steps[i].command.ACT1?
    && Untouched(s, steps, i, Flat(s.org, r.at))
  }

  predicate FirstInRank(s: Spec, step: Step, d: Coordinate) {
    step.Issue? && step.command.ACT1? && SameBucket(s.org, 3, step.request.at, d)
  }

  /** Step `i` was the first activate of `r`, at cycle `first`; its window stands in the bank, and the rank was quiet since. */
  ghost predicate HalfOpenedAt(s: Spec, steps: seq<Step>, i: nat, r: Request, first: nat)
    requires i < |steps|
  {
    var bank := After(s, steps).banks[Flat(s.org, r.at)];
    && steps[i].Issue? && steps[i].command.ACT1?
    && bank.nextAct2 == first + Wait(s, Max(1, s.t.nAADMin))
    && bank.act2Deadline == first + Wait(s, Max(s.t.nAADMin, s.t.nAADMax))
    && RankQuiet(s, steps, i, r.at)
  }

  ghost predicate HalfOpened(s: Spec, steps: seq<Step>, i: nat, r: Request)
    requires i < |steps|
  {
    HalfOpenedAt(s, steps, i, r, CycleOf(s, steps, i))
  }

  ghost predicate Traced(s: Spec, steps: seq<Step>, r: Request) {
    exists i: nat :: OpenedBy(s, steps, i, r)
      && (After(s, steps).banks[Flat(s.org, r.at)].activating ==> HalfOpened(s, steps, i, r))
  }

  lemma StaysUntouched(s: Spec, steps: seq<Step>, i: nat, r: Request)
    requires steps != [] && OpenedBy(s, steps[..|steps| - 1], i, r)
    requires steps[|steps| - 1].Issue? ==>
               !Disturbs(s, steps[|steps| - 1].command, steps[|steps| - 1].request.at, Flat(s.org, r.at))
    ensures OpenedBy(s, steps, i, r)
  {
    var n := |steps| - 1;
    forall k | i < k < |steps| && steps[k].Issue?
      ensures !Disturbs(s, steps[k].command, steps[k].request.at, Flat(s.org, r.at))
    {
      if k < n { assert steps[..n][k] == steps[k]; }
    }
  }

  /** A step elsewhere leaves the window of an opening bank as it is, and brings no other first activate to the rank. */
  lemma WindowKept(s: Spec, st: State, step: Step, d: Coordinate)
    requires Possible(s, st, step) && st.banks[Flat(s.org, d)].activating
    requires step.Issue? ==> !Disturbs(s, step.command, step.request.at, Flat(s.org, d))
    requires Next(s, st, step).banks[Flat(s.org, d)].activating
    ensures !FirstInRank(s, step, d)
    ensures
      var before, after := st.banks[Flat(s.org, d)], Next(s, st, step).banks[Flat(s.org, d)];
      before.nextAct2 == after.nextAct2 && before.act2Deadline == after.act2Deadline
  {
    if step.Issue? {
      RankRangeExact(s.org, step.request.at, d);
      var b := Flat(s.org, d);
      if !(step.command.ACT2? && b == Flat(s.org, step.request.at)) {
        UndisturbedBank(s, st.banks[b], b, step.command, step.request.at, st.clk);
      }
    }
  }

  ghost predicate RankQuiet(s: Spec, steps: seq<Step>, i: nat, d: Coordinate) {
    forall k | i < k < |steps| :: !FirstInRank(s, steps[k], d)
  }

  lemma StaysQuiet(s: Spec, steps: seq<Step>, i: nat, d: Coordinate)
    requires steps != [] && RankQuiet(s, steps[..|steps| - 1], i, d) && !FirstInRank(s, steps[|steps| - 1], d)
    ensures RankQuiet(s, steps, i, d)
  {
    forall k | i < k < |steps|
      ensures !FirstInRank(s, steps[k], d)
    {
      if k < |steps| - 1 { assert steps[..|steps| - 1][k] == steps[k]; }
    }
  }

  lemma PrefixCycle(s: Spec, steps: seq<Step>, n: nat, i: nat)
    requires i < n <= |steps|
    ensures steps[..n][i] == steps[i] && CycleOf(s, steps[..n], i) == CycleOf(s, steps, i)
  {
    assert steps[..n][..i] == steps[..i];
  }

  lemma WindowKeptInRun(s: Spec, steps: seq<Step>, d: Coordinate)
    requires steps != [] && IsRun(s, steps)
    requires After(s, steps[..|steps| - 1]).banks[Flat(s.org, d)].activating && After(s, steps).banks[Flat(s.org, d)].activating
    requires steps[|steps| - 1].Issue? ==> !Disturbs(s, steps[|steps| - 1].command, steps[|steps| - 1].request.at, Flat(s.org, d))
    ensures !FirstInRank(s, steps[|steps| - 1], d)
    ensures
      var before, after := After(s, steps[..|steps| - 1]).banks[Flat(s.org, d)], After(s, steps).banks[Flat(s.org, d)];
      before.nextAct2 == after.nextAct2 && before.act2Deadline == after.act2Deadline
  {
    var n := |steps| - 1;
    assert Possible(s, After(s, steps[..n]), steps[n]);
    WindowKept(s, After(s, steps[..n]), steps[n], d);
  }

  lemma StaysHalfOpenedAt(s: Spec, steps: seq<Step>, i: nat, r: Request, first: nat)
    requires steps != [] && IsRun(s, steps) && i < |steps| - 1 && HalfOpenedAt(s, steps[..|steps| - 1], i, r, first)
    requires After(s, steps[..|steps| - 1]).banks[Flat(s.org, r.at)].activating
    requires After(s, steps).banks[Flat(s.org, r.at)].activating
    requires steps[|steps| - 1].Issue? ==>
               !Disturbs(s, steps[|steps| - 1].command, steps[|steps| - 1].request.at, Flat(s.org, r.at))
    ensures HalfOpenedAt(s, steps, i, r, first)
  {
    WindowKeptInRun(s, steps, r.at);
    StaysQuiet(s, steps, i, r.at);
  }

  lemma StaysHalfOpened(s: Spec, steps: seq<Step>, i: nat, r: Request)
    requires steps != [] && IsRun(s, steps) && i < |steps| - 1 && HalfOpened(s, steps[..|steps| - 1], i, r)
    requires After(s, steps[..|steps| - 1]).banks[Flat(s.org, r.at)].activating
    requires After(s, steps).banks[Flat(s.org, r.at)].activating
    requires steps[|steps| - 1].Issue? ==>
               !Disturbs(s, steps[|steps| - 1].command, steps[|steps| - 1].request.at, Flat(s.org, r.at))
    ensures HalfOpened(s, steps, i, r)
  {
    PrefixCycle(s, steps, |steps| - 1, i);
    var first := CycleOf(s, steps, i);
    assert HalfOpenedAt(s, steps[..|steps| - 1], i, r, first);
    StaysHalfOpenedAt(s, steps, i, r, first);
  }

  lemma OpeningTraced(s: Spec, steps: seq<Step>)
    requires steps != [] && IsRun(s, steps)
    requires
      var step := steps[|steps| - 1];
      step.Issue? && step.source.FromQueue? && IsOpening(step.command)
    ensures
      var step := steps[|steps| - 1];
      Traced(s, steps, step.request.(issuedFirst := step.command.ACT1?))
  {
    var n := |steps| - 1;
    var st := After(s, steps[..n]);
    var r := steps[n].request.(issuedFirst := steps[n].command.ACT1?);
    assert Possible(s, st, steps[n]);
    assert OpenedBy(s, steps, n, r);
    if steps[n].command.ACT1? { assert HalfOpened(s, steps, n, r); }
  }

  lemma KeepsTrace(s: Spec, steps: seq<Step>, a: nat)
    requires steps != [] && IsRun(s, steps) && s.policy.OpenPage?
    requires
      var st := After(s, steps[..|steps| - 1]);
      Ownership(s, st) && Counted(s, st) && a < |st.active| && Traced(s, steps[..|steps| - 1], st.active[a])
    ensures Traced(s, steps, After(s, steps[..|steps| - 1]).active[a])
  {
    var n := |steps| - 1;
    var st, step := After(s, steps[..n]), steps[n];
    var r := st.active[a];
    var b := Flat(s.org, r.at);
    var i: nat :| OpenedBy(s, steps[..n], i, r) && (st.banks[b].activating ==> HalfOpened(s, steps[..n], i, r));
    assert Possible(s, st, step);
    if step.Issue? { OwnerUndisturbed(s, st, step, a); }
    StaysUntouched(s, steps, i, r);
    if After(s, steps).banks[b].activating {
      if step.Issue? && !(step.command.ACT2? && b == Flat(s.org, step.request.at)) {
        UndisturbedBank(s, st.banks[b], b, step.command, step.request.at, st.clk);
      }
      StaysHalfOpened(s, steps, i, r);
    }
  }

  /** An active request was active before the last step, or that step opened its row. */
  lemma ActiveFrom(s: Spec, steps: seq<Step>, r: Request)
    requires steps != [] && s.policy.OpenPage? && IsRun(s, steps) && r in After(s, steps).active
    requires Ownership(s, After(s, steps[..|steps| - 1]))
    ensures
      var step := steps[|steps| - 1];
      || r in After(s, steps[..|steps| - 1]).active
      || (step.Issue? && step.source.FromQueue? && IsOpening(step.command) && r == step.request.(issuedFirst := step.command.ACT1?))
  {
    var n := |steps| - 1;
    var st, step := After(s, steps[..n]), steps[n];
    if step.Issue? {
      ActiveAfter(s, st, step);
      if IsOpening(step.command) { OpensFreeBank(s, st, step); }
    }
  }

  /** Every active request was promoted by the step that opened its row, and its bank was left alone since. */
  lemma {:induction false} ActiveIsTraced(s: Spec, steps: seq<Step>, r: Request)
    requires s.policy.OpenPage? && IsRun(s, steps) && r in After(s, steps).active
    ensures Traced(s, steps, r)
  {
    if steps != [] {
      var n := |steps| - 1;
      OwnershipHolds(s, steps[..n]);
      ActiveFrom(s, steps, r);
      if r in After(s, steps[..n]).active {
        ActiveIsTraced(s, steps[..n], r);
        var a :| 0 <= a < |After(s, steps[..n]).active| && After(s, steps[..n]).active[a] == r;
        KeepsTrace(s, steps, a);
      } else {
        OpeningTraced(s, steps);
      }
    }
  }

  /** Between a request's opening command and any command it issues from the active queue, nobody touches its bank. */
  lemma RowStaysOpen(s: Spec, steps: seq<Step>, j: nat)
    requires s.policy.OpenPage? && IsRun(s, steps) && j < |steps| && steps[j].Issue? && steps[j].source.FromActive?
    ensures exists i: nat :: i < j && OpenedBy(s, steps[..j], i, steps[j].request)
  {
    RunPrefix(s, steps, j);
    var st := After(s, steps[..j]);
    assert Possible(s, st, steps[j]);
    assert steps[j].request in st.active;
    ActiveIsTraced(s, steps[..j], steps[j].request);
  }

  lemma SecondIsActive(s: Spec, st: State, step: Step)
    requires Possible(s, st, step) && step.Issue? && step.command.ACT2? && s.policy.OpenPage?
    ensures step.source.FromActive? && step.request in st.active
  {
    match step.source
    case FromActive(_) =>
    case FromQueue => QueueAsks(s, st, step);
    case FromPriority => UpkeepAsks(s, st, step);
  }

  /** Step `i` is the first activate that step `j` completes, inside the allowed window and with the rank quiet between. */
  ghost predicate CompletedBy(s: Spec, steps: seq<Step>, i: nat, j: nat) {
    && i < j < |steps| && steps[j].Issue? && OpenedBy(s, steps[..j], i, steps[j].request) && steps[i].command.ACT1?
    && CycleOf(s, steps, i) + Wait(s, Max(1, s.t.nAADMin)) <= CycleOf(s, steps, j)
    && CycleOf(s, steps, j) <= CycleOf(s, steps, i) + Wait(s, Max(s.t.nAADMin, s.t.nAADMax))
    && RankQuiet(s, steps[..j], i, steps[j].request.at)
  }

  /**
    Each second activate completes the first activate of its own request on the same bank, inside the allowed
    window, and no other first activate came to the rank in between.
   */
  lemma SecondActivateInWindow(s: Spec, steps: seq<Step>, j: nat)
    requires s.policy.OpenPage? && IsRun(s, steps) && j < |steps| && steps[j].Issue? && steps[j].command.ACT2?
    ensures exists i: nat :: CompletedBy(s, steps, i, j)
  {
    RunPrefix(s, steps, j);
    var r := steps[j].request;
    WindowInRun(s, steps, j);
    ActiveIsTraced(s, steps[..j], r);
    var i: nat :| OpenedBy(s, steps[..j], i, r) && HalfOpened(s, steps[..j], i, r);
    PrefixCycle(s, steps, j, i);
    assert CompletedBy(s, steps, i, j);
  }

  lemma WindowInRun(s: Spec, steps: seq<Step>, j: nat)
    requires s.policy.OpenPage? && IsRun(s, steps) && j < |steps| && steps[j].Issue? && steps[j].command.ACT2?
    ensures steps[j].request in After(s, steps[..j]).active
    ensures
      var bank := After(s, steps[..j]).banks[Flat(s.org, steps[j].request.at)];
      bank.activating && bank.nextAct2 <= CycleOf(s, steps, j) <= bank.act2Deadline
  {
    RunPrefix(s, steps, j);
    OwnershipHolds(s, steps[..j]);
    assert Possible(s, After(s, steps[..j]), steps[j]);
    SecondIsActive(s, After(s, steps[..j]), steps[j]);
    WindowHolds(s, After(s, steps[..j]), steps[j]);
  }

  lemma WindowHolds(s: Spec, st: State, step: Step)
    requires Possible(s, st, step) && step.Issue? && step.command.ACT2? && s.policy.OpenPage? && Ownership(s, st)
    ensures
      var bank := st.banks[Flat(s.org, step.request.at)];
      bank.activating && bank.nextAct2 <= st.clk <= bank.act2Deadline
  {
    SecondIsActive(s, st, step);
    assert !Overdue(s, st, st.active[step.source.index], step.around);
  }
}

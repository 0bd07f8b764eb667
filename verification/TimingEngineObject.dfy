/** The cross-bank timing state: ready registers, dual-bank refresh sweeps, activation windows. */
module TimingEngineObject {
  import opened Dram
  import opened TimingScopes
  import opened TimingHistory
  import opened RefdbSweep
  import ActivationWindow

  /** When a command may go: from a cycle on, or not until something else happens first. */
  datatype Readiness = From(cycle: nat) | Never

  predicate Allows(r: Readiness, clk: nat) { r.From? && r.cycle <= clk }

  class TimingEngine {
    const s: Spec
    var registers: map<Slot, nat>
    var refdb: seq<RefdbState>
    var recent: seq<seq<nat>>
    ghost var history: seq<Event>
    ghost var acts: seq<seq<nat>>
    ghost var prunedAt: nat

    /** A register never written reads as zero. */
    function Register(slot: Slot): nat
      reads this
    {
      if slot in registers then registers[slot] else 0
    }

    ghost predicate GatesTrack()
      reads this
    {
      forall slot: Slot :: Register(slot) == Gate(s, history, slot)
    }

    ghost predicate RefdbTracks()
      reads this
    {
      s.dualBankRefresh ==>
        && Paired(s.org) && |refdb| == Count(s.org, 3) && Admitted(s, history)
        && forall d: Coordinate :: RankTracks(s, refdb, history, d)
    }

    function Window(): nat { Delay(s.multiplier, Max(1, s.nFAW)) }

    ghost predicate WindowsTrack()
      reads this
    {
      |recent| == Count(s.org, Level(s.activationScope)) && ActivationWindow.AllTrack(Window(), acts, recent, prunedAt)
    }

    /** Raises register `slot` to at least `ready`. */
    method Raise(slot: Slot, ready: nat)
      modifies this`registers
      ensures forall t: Slot :: Register(t) == if t == slot then Max(old(Register(t)), ready) else old(Register(t))
    {
      registers := registers[slot := Max(Register(slot), ready)];
    }

    /** Raises the registers of every following command in one bucket. */
    method UpdateBucket(scope: TimingScope, bucket: nat, following: seq<Command>, ready: nat)
      modifies this`registers
      ensures forall t: Slot :: Register(t) ==
                if t.scope == scope && t.bucket == bucket && t.command in following then Max(old(Register(t)), ready)
                else old(Register(t))
    {
      for i := 0 to |following|
        invariant forall t: Slot :: Register(t) ==
                    if t.scope == scope && t.bucket == bucket && t.command in following[..i] then Max(old(Register(t)), ready)
                    else old(Register(t))
      {
        Raise(Slot(scope, bucket, following[i]), ready);
        assert following[..i + 1] == following[..i] + [following[i]];
      }
    }

    /** Applies one constraint of the table to an event. */
    method ApplyConstraint(c: Constraint, e: Event)
      modifies this`registers
      ensures forall t: Slot :: Register(t) ==
                if Raises(s, c, e, t) then Max(old(Register(t)), ReadyAfter(s, c, e)) else old(Register(t))
    {
      if c.window > 0 || e.command !in c.preceding { return; }
      var ready := ReadyAfter(s, c, e);
      var current := BucketOf(s, c.scope, e.at);
      if !c.sibling {
        UpdateBucket(c.scope, current, c.following, ready);
        if PairedAt(s, c.scope, e.command) {
          UpdateBucket(c.scope, BucketOf(s, c.scope, RefdbPartner(s.org, e.at)), c.following, ready);
        }
        return;
      }
      var (begin, end) := SiblingRange(s.org, Level(c.scope), e.at);
      if begin >= end { return; }
      for index := begin to end
        invariant forall t: Slot :: Register(t) ==
                    if t.scope == c.scope && t.command in c.following && begin <= t.bucket < index && t.bucket != current
                    then Max(old(Register(t)), ready) else old(Register(t))
      {
        if index != current { UpdateBucket(c.scope, index, c.following, ready); }
      }
    }

    /** Applies the whole table: each register becomes the largest value any constraint asks of it. */
    method ApplyTable(e: Event)
      requires GatesTrack()
      modifies this`registers
      ensures forall t: Slot :: Register(t) == Gate(s, history + [e], t)
    {
      for i := 0 to |s.table|
        invariant forall t: Slot :: Register(t) == Max(Gate(s, history, t), Raised(s, i, e, t))
      {
        ApplyConstraint(s.table[i], e);
      }
      assert (history + [e])[..|history|] == history;
    }
  
    /** Table-driven readiness from the registers alone. */
    method TableReady(cmd: Command, d: Coordinate, clk: nat) returns (ok: bool)
      requires GatesTrack()
      ensures ok <==> TableAllows(s, history, cmd, d, clk)
    {
      RegistersAreHistory(s, history, cmd, d, clk);
      for i := 0 to |s.table|
        invariant forall j | 0 <= j < i :: Consulted(s, history, s.table[j], cmd, d, clk)
      {
        var c := s.table[i];
        if c.window <= 0 && cmd in c.following {
          if clk < Register(Slot(c.scope, BucketOf(s, c.scope, d), cmd)) {
            assert !Consulted(s, history, c, cmd, d, clk);
            return false;
          }
          if PairedAt(s, c.scope, cmd) && clk < Register(Slot(c.scope, BucketOf(s, c.scope, RefdbPartner(s.org, d)), cmd)) {
            assert !Consulted(s, history, c, cmd, d, clk);
            return false;
          }
        }
      }
      return true;
    }

    /** What a dual-bank refresh of the pair of `d` must wait for besides the table. */
    ghost predicate RefdbAllows(cmd: Command, d: Coordinate, clk: nat)
      requires s.dualBankRefresh ==> Admitted(s, history)
      reads this
    {
      s.dualBankRefresh && cmd.REFDB? ==> RefdbGate(s, history, d) <= clk && PairOf(s.org, d) !in Sweep(s, history, d)
    }

    /** A command is ready exactly when the whole history allows it. */
    method ConstraintReady(cmd: Command, d: Coordinate, clk: nat) returns (ok: bool)
      requires GatesTrack() && RefdbTracks() && BankInRange(s.org, d)
      ensures ok <==> TableAllows(s, history, cmd, d, clk) && RefdbAllows(cmd, d, clk)
    {
      if s.dualBankRefresh && cmd.REFDB? {
        assert RankTracks(s, refdb, history, d);
        PairInside(s.org, d);
        var state := refdb[Index(s.org, 3, d)];
        if clk < state.ready || state.visited[PairOf(s.org, d)] { return false; }
      }
      ok := TableReady(cmd, d, clk);
    }

    /** What constraint `c` alone asks a command at `d` to wait for. */
    method ReadyByConstraint(c: Constraint, cmd: Command, d: Coordinate) returns (ready: nat)
      requires GatesTrack()
      ensures ready == AskedBy(s, history, c, cmd, d)
    {
      if c.window > 0 || cmd !in c.following { return 0; }
      ready := Register(Slot(c.scope, BucketOf(s, c.scope, d), cmd));
      if PairedAt(s, c.scope, cmd) {
        ready := Max(ready, Register(Slot(c.scope, BucketOf(s, c.scope, RefdbPartner(s.org, d)), cmd)));
      }
    }

    /** The earliest ready cycle agrees with readiness at every cycle. */
    method ConstraintReadyAt(cmd: Command, d: Coordinate) returns (r: Readiness)
      requires GatesTrack() && RefdbTracks() && BankInRange(s.org, d)
      ensures forall clk: nat :: Allows(r, clk) <==> TableAllows(s, history, cmd, d, clk) && RefdbAllows(cmd, d, clk)
    {
      var start := 0;
      if s.dualBankRefresh && cmd.REFDB? {
        assert RankTracks(s, refdb, history, d);
        PairInside(s.org, d);
        var state := refdb[Index(s.org, 3, d)];
        if state.visited[PairOf(s.org, d)] { return Never; }
        start := state.ready;
      }
      var ready := start;
      for i := 0 to |s.table|
        invariant ready == Max(start, Earliest(s, history, i, cmd, d))
      {
        var one := ReadyByConstraint(s.table[i], cmd, d);
        ready := Max(ready, one);
      }
      r := From(ready);
      forall clk: nat
        ensures Allows(r, clk) <==> TableAllows(s, history, cmd, d, clk) && RefdbAllows(cmd, d, clk)
      {
        EarliestExact(s, history, cmd, d, clk);
      }
    }

    method ClearRank(b: nat, ready: nat)
      requires b < |refdb|
      modifies this`refdb
      ensures refdb == old(refdb)[b := Cleared(old(refdb)[b], ready)]
    {
      refdb := refdb[b := Cleared(refdb[b], ready)];
    }

    /** Records an event in the per-rank refresh state. */
    method ApplyRefdb(e: Event)
      requires |refdb| == Count(s.org, 3)
      modifies this`refdb
      ensures |refdb| == |old(refdb)| && forall b: nat | b < |refdb| :: refdb[b] == AfterEvent(s, old(refdb)[b], e, b)
    {
      var r := Index(s.org, 3, e.at);
      IndexInside(s.org, 3, e.at);
      if e.command.REFDB? {
        refdb := refdb[r := AfterRefdb(s, refdb[r], PairOf(s.org, e.at), e.cycle)];
      } else if e.command.REFAB? {
        ClearRank(r, e.cycle + Delay(s.multiplier, s.nRFC));
      } else if e.command.SREFEX? {
        var (begin, end) := SiblingRange(s.org, 1, e.at);
        var perPseudoChannel := s.org.sids * s.org.ranks;
        RanksInside(s.org, e.at);
        for i := begin * perPseudoChannel to end * perPseudoChannel
          invariant |refdb| == |old(refdb)|
          invariant forall b: nat | b < |refdb| :: refdb[b] ==
                      if begin * perPseudoChannel <= b < i then Cleared(old(refdb)[b], 0) else old(refdb)[b]
        {
          ClearRank(i, 0);
        }
      }
    }

    /** Records an issued command: registers and sweeps again follow the whole history. */
    method ApplyConstraints(e: Event)
      requires GatesTrack() && RefdbTracks() && BankInRange(s.org, e.at)
      requires e.command.REFDB? ==> s.dualBankRefresh && PairOf(s.org, e.at) !in Sweep(s, history, e.at)
      modifies this`registers, this`refdb, this`history
      ensures GatesTrack() && RefdbTracks() && history == old(history) + [e]
    {
      ApplyTable(e);
      if s.dualBankRefresh {
        ghost var before := refdb;
        ApplyRefdb(e);
        AdmittedExtend(s, history, e);
        forall d: Coordinate
          ensures RankTracks(s, refdb, history + [e], d)
        {
          assert RankTracks(s, before, history, d);
          RankStep(s, before, refdb, history, e, d);
        }
      }
      history := history + [e];
    }

    // -------------------------------------------------------------- activation windows

    method PruneOne(ghost all: seq<nat>, kept: seq<nat>, ghost now: nat, clk: nat) returns (q: seq<nat>)
      requires ActivationWindow.Tracks(Window(), all, kept, now) && now <= clk
      ensures ActivationWindow.Tracks(Window(), all, q, clk)
      ensures q != [] ==> clk < q[0] + Window()
    {
      q := kept;
      ActivationWindow.LaterKeeps(Window(), all, q, now, clk);
      while q != [] && clk >= q[0] && clk - q[0] >= Window()
        invariant ActivationWindow.Tracks(Window(), all, q, clk)
        decreases |q|
      {
        ActivationWindow.PruneKeeps(Window(), all, q, clk, clk);
        q := q[1..];
      }
    }

    /** Drops the events that have left the window; afterwards exactly those inside it are kept. */
    method PruneRecentActs(clk: nat)
      requires WindowsTrack() && prunedAt <= clk
      modifies this`recent, this`prunedAt
      ensures WindowsTrack() && prunedAt == clk
      ensures forall b | 0 <= b < |recent| && recent[b] != [] :: clk < recent[b][0] + Window()
    {
      for b := 0 to |recent|
        invariant prunedAt == old(prunedAt) && |recent| == |acts| == Count(s.org, Level(s.activationScope))
        invariant forall i | 0 <= i < b :: ActivationWindow.Tracks(Window(), acts[i], recent[i], clk)
        invariant forall i | 0 <= i < b && recent[i] != [] :: clk < recent[i][0] + Window()
        invariant forall i | b <= i < |recent| :: ActivationWindow.Tracks(Window(), acts[i], recent[i], prunedAt)
      {
        var q := PruneOne(acts[b], recent[b], prunedAt, clk);
        recent := recent[b := q];
      }
      prunedAt := clk;
    }

    /** Room for another event: right after pruning, the fourth-last event has left the window. */
    method FawReady(d: Coordinate) returns (ok: bool)
      requires WindowsTrack()
      ensures
        var b := Index(s.org, Level(s.activationScope), d);
        && b < |recent| && (ok <==> |recent[b]| < 4)
        && ((recent[b] != [] ==> prunedAt < recent[b][0] + Window()) ==>
              (ok <==> |acts[b]| < 4 || acts[b][|acts[b]| - 4] + Window() <= prunedAt))
    {
      var b := Index(s.org, Level(s.activationScope), d);
      IndexInside(s.org, Level(s.activationScope), d);
      if recent[b] != [] ==> prunedAt < recent[b][0] + Window() {
        ActivationWindow.RoomExact(Window(), acts[b], recent[b], prunedAt);
      }
      ok := |recent[b]| < 4;
    }

    /** Records an activate-type event that the window had room for. */
    method RecordActivate(d: Coordinate, clk: nat)
      requires WindowsTrack() && prunedAt <= clk
      requires
        var b := Index(s.org, Level(s.activationScope), d);
        b < |recent| && |recent[b]| < 4 && (acts[b] != [] ==> acts[b][|acts[b]| - 1] <= clk)
      modifies this`recent, this`acts
      ensures WindowsTrack()
      ensures
        var b := Index(s.org, Level(s.activationScope), d);
        acts == old(acts)[b := old(acts)[b] + [clk]]
    {
      var b := Index(s.org, Level(s.activationScope), d);
      ActivationWindow.RecordAll(Window(), acts, recent, prunedAt, b, clk);
      recent := recent[b := recent[b] + [clk]];
      acts := acts[b := acts[b] + [clk]];
    }

    constructor (s: Spec)
      requires s.dualBankRefresh ==> Paired(s.org)
      ensures this.s == s && GatesTrack() && RefdbTracks() && WindowsTrack() && history == []
    {
      this.s := s;
      registers, history := map[], [];
      refdb := seq(Count(s.org, 3), _ => RefdbState(0, 0, seq(if s.dualBankRefresh then Pairs(s.org) else 0, _ => false)));
      recent := seq(Count(s.org, Level(s.activationScope)), _ => []);
      acts := seq(Count(s.org, Level(s.activationScope)), _ => []);
      prunedAt := 0;
      new;
      if s.dualBankRefresh {
        forall d: Coordinate
          ensures RankTracks(s, refdb, history, d)
        {
          IndexInside(s.org, 3, d);
        }
      }
    }
  }
}

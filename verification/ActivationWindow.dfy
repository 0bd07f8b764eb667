/**
  The rolling activation window of one scope: only the recent events are kept, and a new one is
  allowed while fewer than four of them remain.
 */
module ActivationWindow {
  /**
    `acts` is the whole history of the scope, `recent` what is kept of it, `now` the cycle of the
    last pruning. Everything dropped is out of the window, everything kept is inside it, and any
    five consecutive events span the window.
   */
  ghost predicate Tracks(window: nat, acts: seq<nat>, recent: seq<nat>, now: nat) {
    && |recent| <= |acts| && acts[|acts| - |recent|..] == recent
    && (forall i | 0 <= i < |acts| - |recent| :: acts[i] + window <= now)
    && (forall i, j | 0 <= i <= j < |acts| :: acts[i] <= acts[j])
    && Spaced(window, acts)
  }

  /** Any five consecutive events span at least the window. */
  ghost predicate Spaced(window: nat, acts: seq<nat>) {
    forall i, j | 0 <= i && j == i + 4 && j < |acts| :: acts[i] + window <= acts[j]
  }

  lemma PruneKeeps(window: nat, acts: seq<nat>, recent: seq<nat>, now: nat, clk: nat)
    requires Tracks(window, acts, recent, now) && now <= clk
    requires recent != [] && recent[0] + window <= clk
    ensures Tracks(window, acts, recent[1..], clk)
  {
    assert acts[|acts| - |recent| + 1..] == acts[|acts| - |recent|..][1..];
    assert acts[|acts| - |recent|] == recent[0];
  }

  lemma LaterKeeps(window: nat, acts: seq<nat>, recent: seq<nat>, now: nat, clk: nat)
    requires Tracks(window, acts, recent, now) && now <= clk
    ensures Tracks(window, acts, recent, clk)
  {
  }

  lemma RecordKeeps(window: nat, acts: seq<nat>, recent: seq<nat>, now: nat, clk: nat)
    requires Tracks(window, acts, recent, now) && now <= clk && |recent| < 4
    requires acts != [] ==> acts[|acts| - 1] <= clk
    ensures Tracks(window, acts + [clk], recent + [clk], now)
  {
    var more := acts + [clk];
    assert more[|more| - |recent + [clk]|..] == acts[|acts| - |recent|..] + [clk];
    forall i, j | 0 <= i && j == i + 4 && j < |more|
      ensures more[i] + window <= more[j]
    {
      if j < |acts| { assert acts[i] + window <= acts[j]; }
    }
  }

  /** Right after pruning at `now`, room in the deque means the fourth-last event has left the window. */
  lemma RoomExact(window: nat, acts: seq<nat>, recent: seq<nat>, now: nat)
    requires Tracks(window, acts, recent, now)
    requires recent != [] ==> now < recent[0] + window
    ensures |recent| < 4 <==> |acts| < 4 || acts[|acts| - 4] + window <= now
  {
    if |recent| >= 4 {
      assert acts[|acts| - |recent|] == recent[0];
      assert acts[|acts| - |recent|] <= acts[|acts| - 4];
    }
  }

  /** The same of every scope at once. */
  ghost predicate AllTrack(window: nat, acts: seq<seq<nat>>, recent: seq<seq<nat>>, now: nat) {
    |acts| == |recent| && forall b | 0 <= b < |recent| :: Tracks(window, acts[b], recent[b], now)
  }

  lemma RecordAll(window: nat, acts: seq<seq<nat>>, recent: seq<seq<nat>>, now: nat, b: nat, clk: nat)
    requires AllTrack(window, acts, recent, now) && b < |recent| && now <= clk && |recent[b]| < 4
    requires acts[b] != [] ==> acts[b][|acts[b]| - 1] <= clk
    ensures AllTrack(window, acts[b := acts[b] + [clk]], recent[b := recent[b] + [clk]], now)
  {
    RecordKeeps(window, acts[b], recent[b], now, clk);
  }

  // ---------------------------------------------------------------- runs of one scope

  /** The start of a tick prunes; an activate-type command is recorded. */
  datatype Op = Prune(clk: nat) | Activate(clk: nat)

  datatype Scope = Scope(acts: seq<nat>, recent: seq<nat>, now: nat)

  function Pruned(window: nat, recent: seq<nat>, clk: nat): seq<nat> {
    if recent != [] && recent[0] + window <= clk then Pruned(window, recent[1..], clk) else recent
  }

  /** Cycles do not go back, and an activate needs fewer than four kept events. */
  predicate Possible(s: Scope, op: Op) {
    && op.clk >= s.now && (s.acts != [] ==> s.acts[|s.acts| - 1] <= op.clk) && (op.Activate? ==> |s.recent| < 4)
  }

  function Next(window: nat, s: Scope, op: Op): Scope {
    match op
    case Prune(clk) => Scope(s.acts, Pruned(window, s.recent, clk), clk)
    case Activate(clk) => Scope(s.acts + [clk], s.recent + [clk], s.now)
  }

  function After(window: nat, ops: seq<Op>): Scope {
    if ops == [] then Scope([], [], 0) else Next(window, After(window, ops[..|ops| - 1]), ops[|ops| - 1])
  }

  predicate IsRun(window: nat, ops: seq<Op>) {
    ops == [] || (IsRun(window, ops[..|ops| - 1]) && Possible(After(window, ops[..|ops| - 1]), ops[|ops| - 1]))
  }

  lemma {:induction false} PrunedTracks(window: nat, acts: seq<nat>, recent: seq<nat>, now: nat, clk: nat)
    requires Tracks(window, acts, recent, now) && now <= clk
    ensures Tracks(window, acts, Pruned(window, recent, clk), clk)
    ensures Pruned(window, recent, clk) != [] ==> clk < Pruned(window, recent, clk)[0] + window
    decreases |recent|
  {
    if recent != [] && recent[0] + window <= clk {
      PruneKeeps(window, acts, recent, now, clk);
      PrunedTracks(window, acts, recent[1..], clk, clk);
    } else {
      LaterKeeps(window, acts, recent, now, clk);
    }
  }

  lemma {:induction false} RunTracks(window: nat, ops: seq<Op>)
    requires IsRun(window, ops)
    ensures
      var s := After(window, ops);
      Tracks(window, s.acts, s.recent, s.now)
  {
    if ops != [] {
      var s, op := After(window, ops[..|ops| - 1]), ops[|ops| - 1];
      RunTracks(window, ops[..|ops| - 1]);
      match op
      case Prune(clk) => PrunedTracks(window, s.acts, s.recent, s.now, clk);
      case Activate(clk) => RecordKeeps(window, s.acts, s.recent, s.now, clk);
    }
  }

  /** In every run any five consecutive events of the scope span at least the window, though only a few are kept. */
  lemma FiveSpanWindow(window: nat, ops: seq<Op>, i: nat)
    requires IsRun(window, ops) && i + 4 < |After(window, ops).acts|
    ensures After(window, ops).acts[i] + window <= After(window, ops).acts[i + 4]
  {
    RunTracks(window, ops);
  }

  /** Right after pruning, another event is let through exactly if the whole history allows it. */
  lemma WindowExact(window: nat, ops: seq<Op>, clk: nat)
    requires IsRun(window, ops) && ops != [] && ops[|ops| - 1] == Prune(clk)
    ensures
      var acts := After(window, ops).acts;
      Possible(After(window, ops), Activate(clk)) <==> |acts| < 4 || acts[|acts| - 4] + window <= clk
  {
    var s := After(window, ops[..|ops| - 1]);
    RunTracks(window, ops[..|ops| - 1]);
    PrunedTracks(window, s.acts, s.recent, s.now, clk);
    RoomExact(window, s.acts, Pruned(window, s.recent, clk), clk);
  }
}

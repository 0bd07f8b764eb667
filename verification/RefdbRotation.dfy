/** The in-order rotation of the refresh manager never runs into the rule against repeating a pair. */
module RefdbRotation {
  import opened Dram
  import opened TimingScopes
  import opened TimingHistory
  import opened RefdbSweep
  import opened RefreshRules
  import MixedRadix

  /** The stack levels of a rank of one pseudo-channel are refreshed by the same rotation. */
  predicate SameSite(a: Coordinate, b: Coordinate) {
    a.channel == b.channel && a.pseudoChannel == b.pseudoChannel && a.rank == b.rank
  }

  /** Dual-bank refreshes issued so far at the site of `d`. */
  function Served(history: seq<Event>, d: Coordinate): nat {
    if history == [] then 0
    else
      var e := history[|history| - 1];
      Served(history[..|history| - 1], d) + if e.command.REFDB? && SameSite(e.at, d) then 1 else 0
  }

  /** A dual-bank refresh aims at the `n`-th place of the rotation, at either bank of its pair. */
  predicate AtPlace(p: Params, e: Event, n: nat) {
    BankInRange(p.org, e.at) && e.at.sid == SidOf(p, n) && PairOf(p.org, e.at) == BankPosition(p, n)
  }

  /** At every site the refreshes come in rotation order; any other command may come in between. */
  ghost predicate InRotation(p: Params, history: seq<Event>) {
    forall i | 0 <= i < |history| && history[i].command.REFDB? :: AtPlace(p, history[i], Served(history[..i], history[i].at))
  }

  ghost predicate Rotates(p: Params, s: Spec) {
    s.dualBankRefresh && p.dualBank && p.policy.PerBank? && p.org == s.org && Paired(s.org)
  }

  /** The batch at place `n` of the rotation aims, in every pseudo-channel, at the pair of that place. */
  lemma BatchIsAtPlace(p: Params, s: Spec, r: RankState, n: nat, k: nat, rank: nat, cycle: nat)
    requires Rotates(p, s) && r.sid == SidOf(p, n) && r.bank == BankPosition(p, n) && k < BatchSize(p) && rank < p.org.ranks
    ensures
      var m := BatchCommand(p, rank, r, k);
      m.command.REFDB? && AtPlace(p, Event(m.command, m.at, cycle), n)
  {
    PositionsArePairs(p, s);
    var o := p.org;
    MixedRadix.DigitTake(o.sids, r.sid, 0);
    MixedRadix.DigitTake(Positions(p), r.bank, 0);
    MixedRadix.DigitBound(o.banksPerGroup, o.bankGroups / 2, r.bank);
    MixedRadix.DigitSplit(o.banksPerGroup, r.bank);
    MixedRadix.DigitBound(o.pseudoChannels, o.channels, k);
    MixedRadix.DigitSplit(o.pseudoChannels, k);
  }

  lemma PositionsArePairs(p: Params, s: Spec)
    requires Rotates(p, s)
    ensures Positions(p) == Pairs(p.org)
  {
  }

  // ---------------------------------------------------------------- the sweep is an arc

  /** How far position `q` lies behind position `c` on a circle of `n`, from 1 to `n`. */
  function Behind(n: nat, q: nat, c: nat): int { if q < c then c - q else c - q + n }

  /** The sweep holds the `m` positions just behind `c`. */
  ghost predicate IsArc(n: nat, sweep: set<nat>, c: nat, m: nat) {
    m < n && forall q: nat :: q in sweep <==> q < n && Behind(n, q, c) <= m
  }

  ghost predicate Arc(n: nat, sweep: set<nat>, c: nat) { exists m: nat :: IsArc(n, sweep, c, m) }

  lemma EmptyArc(n: nat, c: nat)
    requires c < n
    ensures Arc(n, {}, c)
  {
    assert IsArc(n, {}, c, 0);
  }

  /** Refreshing position `c` grows the arc behind the next position, unless that completes the circle. */
  lemma ArcStep(n: nat, sweep: set<nat>, c: nat)
    requires c < n && Arc(n, sweep, c)
    ensures c !in sweep
    ensures
      var now := sweep + {c};
      Arc(n, if now == Below(n) then {} else now, if c + 1 == n then 0 else c + 1)
  {
    var m: nat :| IsArc(n, sweep, c, m);
    var next := if c + 1 == n then 0 else c + 1;
    var now := sweep + {c};
    if m + 1 < n {
      assert IsArc(n, now, next, m + 1);
      assert Behind(n, next, c) == n - 1 || n == 1;
      assert next !in now;
    } else {
      assert forall q: nat | q < n :: q in now;
      assert now == Below(n);
      EmptyArc(n, next);
    }
  }

  /** Where the rotation will next enter the stack level of `d`. */
  function Entry(p: Params, n: nat, d: Coordinate): nat {
    if d.sid == SidOf(p, n) then BankPosition(p, n) else 0
  }

  lemma {:induction false} SameSiteServed(history: seq<Event>, a: Coordinate, b: Coordinate)
    requires SameSite(a, b)
    ensures Served(history, a) == Served(history, b)
  {
    if history != [] { SameSiteServed(history[..|history| - 1], a, b); }
  }

  ghost predicate AllPlain(s: Spec, history: seq<Event>) { forall i | 0 <= i < |history| :: PlainEvent(s, history[i]) }

  lemma RotationPrefix(p: Params, s: Spec, history: seq<Event>, n: nat)
    requires n <= |history| && InRotation(p, history) && AllPlain(s, history)
    ensures InRotation(p, history[..n]) && AllPlain(s, history[..n])
  {
    assert forall i | 0 <= i < n :: history[..n][..i] == history[..i];
  }

  /** In every history in rotation order, whatever resets came in between, each sweep is the arc behind the entry. */
  lemma {:induction false} SweepIsArc(p: Params, s: Spec, history: seq<Event>, d: Coordinate)
    requires Rotates(p, s) && InRotation(p, history) && BankInRange(s.org, d) && AllPlain(s, history)
    ensures Arc(Pairs(s.org), Sweep(s, history, d), Entry(p, Served(history, d), d))
  {
    if history == [] {
      SomePair(s.org);
      MixedRadix.DigitTake(Positions(p), 0, 0);
      EmptyArc(Pairs(s.org), 0);
    } else {
      var n := |history| - 1;
      RotationPrefix(p, s, history, n);
      SweepIsArc(p, s, history[..n], d);
      NextInRotation(p, history, d);
      SweepStaysArc(p, s, Sweep(s, history[..n], d), Served(history[..n], d), history[n], d);
    }
  }

  lemma NextInRotation(p: Params, history: seq<Event>, d: Coordinate)
    requires history != [] && InRotation(p, history)
    ensures
      var e := history[|history| - 1];
      e.command.REFDB? && SameSite(e.at, d) ==> AtPlace(p, e, Served(history[..|history| - 1], d))
  {
    var n := |history| - 1;
    if SameSite(history[n].at, d) { SameSiteServed(history[..n], history[n].at, d); }
  }

  lemma SweepStaysArc(p: Params, s: Spec, sweep: set<nat>, n: nat, e: Event, d: Coordinate)
    requires Rotates(p, s) && BankInRange(s.org, d) && PlainEvent(s, e)
    requires e.command.REFDB? && SameSite(e.at, d) ==> AtPlace(p, e, n)
    requires Arc(Pairs(s.org), sweep, Entry(p, n, d))
    ensures Arc(Pairs(s.org), SweepStep(s, sweep, e, d),
                Entry(p, n + if e.command.REFDB? && SameSite(e.at, d) then 1 else 0, d))
  {
    SomePair(s.org);
    EntryInside(p, s, n, d);
    if e.command.REFDB? {
      RankIsSite(s, e, d);
      if SameSite(e.at, d) {
        CursorsFollow(p, n);
        if e.at.sid == d.sid {
          ArcStep(Pairs(s.org), sweep, BankPosition(p, n));
        }
      }
    } else {
      EmptyArc(Pairs(s.org), Entry(p, n, d));
    }
  }

  lemma EntryInside(p: Params, s: Spec, n: nat, d: Coordinate)
    requires Rotates(p, s)
    ensures Entry(p, n, d) < Pairs(s.org) == Positions(p)
  {
    SomePair(s.org);
    MixedRadix.DigitSplit(Positions(p), n);
  }

  lemma RankIsSite(s: Spec, e: Event, d: Coordinate)
    requires BankInRange(s.org, d) && BankInRange(s.org, e.at)
    ensures InRank(s, e, d) <==> SameSite(e.at, d) && e.at.sid == d.sid
  {
    if InRank(s, e, d) {
      assert Clamped(s.org, e.at, 0) == Clamped(s.org, d, 0);
      assert Clamped(s.org, e.at, 1) == Clamped(s.org, d, 1);
      assert Clamped(s.org, e.at, 2) == Clamped(s.org, d, 2);
      assert Clamped(s.org, e.at, 3) == Clamped(s.org, d, 3);
    }
  }

  /** In rotation order no dual-bank refresh is ever refused as a repeat, wherever sweeps were reset. */
  lemma RotationNeverRepeats(p: Params, s: Spec, history: seq<Event>)
    requires Rotates(p, s) && InRotation(p, history)
    ensures Admitted(s, history)
  {
    assert AllPlain(s, history);
    forall i | 0 <= i < |history| && history[i].command.REFDB?
      ensures PairOf(s.org, history[i].at) !in Sweep(s, history[..i], history[i].at)
    {
      var before, d := history[..i], history[i].at;
      assert AtPlace(p, history[i], Served(before, d));
      RotationPrefix(p, s, history, i);
      SweepIsArc(p, s, before, d);
      EntryInside(p, s, Served(before, d), d);
      ArcStep(Pairs(s.org), Sweep(s, before, d), Entry(p, Served(before, d), d));
    }
  }
}

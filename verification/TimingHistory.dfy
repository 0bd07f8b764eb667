/**
  The constraint table read as a rule about the whole command history, and the ready registers as
  a running maximum. The two say the same.
 */
module TimingHistory {
  import opened Dram
  import opened TimingScopes

  /** After a `preceding` command, a `following` one waits `latency` cycles in the related buckets. */
  datatype Constraint = Constraint(scope: TimingScope, preceding: seq<Command>, following: seq<Command>,
                                   latency: int, window: int, sibling: bool)

  datatype Spec = Spec(org: Organization, multiplier: pos, table: seq<Constraint>, dualBankRefresh: bool,
                       activationScope: TimingScope, nFAW: int, nRFC: int, nRRDL: int, refdbShort: int, refdbLong: int)

  datatype Event = Event(command: Command, at: Coordinate, cycle: nat)

  /** One ready register. */
  datatype Slot = Slot(scope: TimingScope, bucket: nat, command: Command)

  function BucketOf(s: Spec, scope: TimingScope, d: Coordinate): nat {
    Index(s.org, Level(scope), d)
  }

  /** The partner bank of a dual-bank refresh shares its bank-level constraints. */
  predicate PairedAt(s: Spec, scope: TimingScope, c: Command) {
    s.dualBankRefresh && c.REFDB? && scope.Bank?
  }

  // ---------------------------------------------------------------- the rule over the history

  /** Constraint `c` carries from the bucket where `e` was issued to the bucket of `d`. */
  predicate Reaches(s: Spec, c: Constraint, e: Event, d: Coordinate) {
    var level := Level(c.scope);
    if c.sibling then SameParent(s.org, level, e.at, d) && !SameBucket(s.org, level, e.at, d)
    else SameBucket(s.org, level, e.at, d)
         || (PairedAt(s, c.scope, e.command) && SameBucket(s.org, level, RefdbPartner(s.org, e.at), d))
  }

  /** Constraint `c` makes command `cmd` at `d` wait for event `e`. */
  predicate Restrains(s: Spec, c: Constraint, e: Event, cmd: Command, d: Coordinate) {
    && c.window <= 0 && e.command in c.preceding && cmd in c.following
    && (Reaches(s, c, e, d) || (PairedAt(s, c.scope, cmd) && Reaches(s, c, e, RefdbPartner(s.org, d))))
  }

  function ReadyAfter(s: Spec, c: Constraint, e: Event): nat {
    e.cycle + Delay(s.multiplier, Max(0, c.latency))
  }

  /** Every earlier command that restrains `cmd` is at least its latency in the past. */
  ghost predicate TableAllows(s: Spec, history: seq<Event>, cmd: Command, d: Coordinate, clk: nat) {
    forall i, j | 0 <= i < |history| && 0 <= j < |s.table| && Restrains(s, s.table[j], history[i], cmd, d) ::
      ReadyAfter(s, s.table[j], history[i]) <= clk
  }

  // ---------------------------------------------------------------- the registers

  /** Constraint `c`, on event `e`, raises register `slot`. */
  predicate Raises(s: Spec, c: Constraint, e: Event, slot: Slot) {
    && c.window <= 0 && e.command in c.preceding && c.scope == slot.scope && slot.command in c.following
    && Updated(s, c, e, slot.bucket)
  }

  /** The buckets that constraint `c` writes on event `e`. */
  predicate Updated(s: Spec, c: Constraint, e: Event, bucket: nat) {
    if c.sibling then
      var range := SiblingRange(s.org, Level(c.scope), e.at);
      range.0 <= bucket < range.1 && bucket != BucketOf(s, c.scope, e.at)
    else
      bucket == BucketOf(s, c.scope, e.at)
      || (PairedAt(s, c.scope, e.command) && bucket == BucketOf(s, c.scope, RefdbPartner(s.org, e.at)))
  }

  /** What the first `n` constraints, on event `e`, ask of register `slot`. */
  function Raised(s: Spec, n: nat, e: Event, slot: Slot): nat
    requires n <= |s.table|
  {
    if n == 0 then 0
    else
      var before := Raised(s, n - 1, e, slot);
      if Raises(s, s.table[n - 1], e, slot) then Max(before, ReadyAfter(s, s.table[n - 1], e)) else before
  }

  /** The register value that the whole history calls for. */
  function Gate(s: Spec, history: seq<Event>, slot: Slot): nat {
    if history == [] then 0
    else Max(Gate(s, history[..|history| - 1], slot), Raised(s, |s.table|, history[|history| - 1], slot))
  }

  lemma {:induction false} RaisedExact(s: Spec, n: nat, e: Event, slot: Slot, clk: nat)
    requires n <= |s.table|
    ensures Raised(s, n, e, slot) <= clk <==>
            forall j | 0 <= j < n && Raises(s, s.table[j], e, slot) :: ReadyAfter(s, s.table[j], e) <= clk
  {
    if n > 0 { RaisedExact(s, n - 1, e, slot, clk); }
  }

  /** A register lets a command through exactly when every event that raised it is old enough. */
  lemma {:induction false} GateExact(s: Spec, history: seq<Event>, slot: Slot, clk: nat)
    ensures Gate(s, history, slot) <= clk <==>
            forall i, j | 0 <= i < |history| && 0 <= j < |s.table| && Raises(s, s.table[j], history[i], slot) ::
              ReadyAfter(s, s.table[j], history[i]) <= clk
  {
    if history != [] {
      var n := |history| - 1;
      GateExact(s, history[..n], slot, clk);
      RaisedExact(s, |s.table|, history[n], slot, clk);
      assert forall i | 0 <= i < n :: history[..n][i] == history[i];
    }
  }

  /** The buckets written on an event are those of the coordinates the constraint reaches. */
  lemma UpdatedIsReached(s: Spec, c: Constraint, e: Event, d: Coordinate)
    ensures Updated(s, c, e, BucketOf(s, c.scope, d)) <==> Reaches(s, c, e, d)
  {
    var level := Level(c.scope);
    IndexExact(s.org, level, e.at, d);
    IndexExact(s.org, level, RefdbPartner(s.org, e.at), d);
    SiblingExact(s.org, level, e.at, d);
  }

  /** The registers that constraint `c` makes a command at `d` consult all allow it at `clk`. */
  ghost predicate Consulted(s: Spec, history: seq<Event>, c: Constraint, cmd: Command, d: Coordinate, clk: nat) {
    c.window <= 0 && cmd in c.following ==>
      && Gate(s, history, Slot(c.scope, BucketOf(s, c.scope, d), cmd)) <= clk
      && (PairedAt(s, c.scope, cmd) ==> Gate(s, history, Slot(c.scope, BucketOf(s, c.scope, RefdbPartner(s.org, d)), cmd)) <= clk)
  }

  lemma ConsultedSuffices(s: Spec, history: seq<Event>, cmd: Command, d: Coordinate, clk: nat, i: nat, j: nat)
    requires i < |history| && j < |s.table| && Restrains(s, s.table[j], history[i], cmd, d)
    requires Consulted(s, history, s.table[j], cmd, d, clk)
    ensures ReadyAfter(s, s.table[j], history[i]) <= clk
  {
    var c, e := s.table[j], history[i];
    var b := if Reaches(s, c, e, d) then d else RefdbPartner(s.org, d);
    UpdatedIsReached(s, c, e, b);
    var slot := Slot(c.scope, BucketOf(s, c.scope, b), cmd);
    assert Raises(s, c, e, slot);
    GateExact(s, history, slot, clk);
  }

  lemma ConsultedNecessary(s: Spec, history: seq<Event>, cmd: Command, d: Coordinate, clk: nat, c: Constraint, b: Coordinate)
    requires TableAllows(s, history, cmd, d, clk) && cmd in c.following
    requires b == d || (PairedAt(s, c.scope, cmd) && b == RefdbPartner(s.org, d))
    ensures Gate(s, history, Slot(c.scope, BucketOf(s, c.scope, b), cmd)) <= clk
  {
    var slot := Slot(c.scope, BucketOf(s, c.scope, b), cmd);
    forall i, j | 0 <= i < |history| && 0 <= j < |s.table| && Raises(s, s.table[j], history[i], slot)
      ensures ReadyAfter(s, s.table[j], history[i]) <= clk
    {
      UpdatedIsReached(s, s.table[j], history[i], b);
      assert Restrains(s, s.table[j], history[i], cmd, d);
    }
    GateExact(s, history, slot, clk);
  }

  /** Consulting only the registers is consulting the whole history. */
  lemma RegistersAreHistory(s: Spec, history: seq<Event>, cmd: Command, d: Coordinate, clk: nat)
    ensures (forall j | 0 <= j < |s.table| :: Consulted(s, history, s.table[j], cmd, d, clk)) <==>
            TableAllows(s, history, cmd, d, clk)
  {
    if forall j | 0 <= j < |s.table| :: Consulted(s, history, s.table[j], cmd, d, clk) {
      forall i, j | 0 <= i < |history| && 0 <= j < |s.table| && Restrains(s, s.table[j], history[i], cmd, d)
        ensures ReadyAfter(s, s.table[j], history[i]) <= clk
      {
        ConsultedSuffices(s, history, cmd, d, clk, i, j);
      }
    }
    if TableAllows(s, history, cmd, d, clk) {
      forall j | 0 <= j < |s.table|
        ensures Consulted(s, history, s.table[j], cmd, d, clk)
      {
        var c := s.table[j];
        if cmd in c.following {
          ConsultedNecessary(s, history, cmd, d, clk, c, d);
          if PairedAt(s, c.scope, cmd) { ConsultedNecessary(s, history, cmd, d, clk, c, RefdbPartner(s.org, d)); }
        }
      }
    }
  }

  /** The latest register that constraint `c` makes a command at `d` consult. */
  function AskedBy(s: Spec, history: seq<Event>, c: Constraint, cmd: Command, d: Coordinate): nat {
    if c.window > 0 || cmd !in c.following then 0
    else
      var own := Gate(s, history, Slot(c.scope, BucketOf(s, c.scope, d), cmd));
      if PairedAt(s, c.scope, cmd) then Max(own, Gate(s, history, Slot(c.scope, BucketOf(s, c.scope, RefdbPartner(s.org, d)), cmd)))
      else own
  }

  function Earliest(s: Spec, history: seq<Event>, n: nat, cmd: Command, d: Coordinate): nat
    requires n <= |s.table|
  {
    if n == 0 then 0 else Max(Earliest(s, history, n - 1, cmd, d), AskedBy(s, history, s.table[n - 1], cmd, d))
  }

  lemma {:induction false} EarliestConsults(s: Spec, history: seq<Event>, n: nat, cmd: Command, d: Coordinate, clk: nat)
    requires n <= |s.table|
    ensures Earliest(s, history, n, cmd, d) <= clk <==> forall j | 0 <= j < n :: Consulted(s, history, s.table[j], cmd, d, clk)
  {
    if n > 0 { EarliestConsults(s, history, n - 1, cmd, d, clk); }
  }

  /** The earliest cycle computed from the registers is the first that the whole history allows. */
  lemma EarliestExact(s: Spec, history: seq<Event>, cmd: Command, d: Coordinate, clk: nat)
    ensures Earliest(s, history, |s.table|, cmd, d) <= clk <==> TableAllows(s, history, cmd, d, clk)
  {
    EarliestConsults(s, history, |s.table|, cmd, d, clk);
    RegistersAreHistory(s, history, cmd, d, clk);
  }
}

/** The bank state updated in place by issued commands, and the active queue beside it. */
module BankExecutorObject {
  import opened Dram
  import opened TimingScopes
  import opened Banks
  import opened RowOwnership
  import MixedRadix

  /** The bank that a number stands for: digits taken off one at a time, the inverse of numbering. */
  method DecodedFromFlatBank(o: Organization, flat: nat) returns (d: Coordinate)
    requires flat < BankCount(o)
    ensures BankInRange(o, d) && Flat(o, d) == flat
  {
    var x := flat;
    MixedRadix.DigitBound(o.banksPerGroup, Count(o, 4), x);
    MixedRadix.DigitSplit(o.banksPerGroup, x);
    var bank := x % o.banksPerGroup;
    x := x / o.banksPerGroup;
    MixedRadix.DigitBound(o.bankGroups, Count(o, 3), x);
    MixedRadix.DigitSplit(o.bankGroups, x);
    var bankGroup := x % o.bankGroups;
    x := x / o.bankGroups;
    MixedRadix.DigitBound(o.ranks, Count(o, 2), x);
    MixedRadix.DigitSplit(o.ranks, x);
    var rank := x % o.ranks;
    x := x / o.ranks;
    MixedRadix.DigitBound(o.sids, Count(o, 1), x);
    MixedRadix.DigitSplit(o.sids, x);
    var sid := x % o.sids;
    x := x / o.sids;
    MixedRadix.DigitBound(o.pseudoChannels, Count(o, 0), x);
    MixedRadix.DigitSplit(o.pseudoChannels, x);
    var pseudoChannel := x % o.pseudoChannels;
    x := x / o.pseudoChannels;
    d := Coordinate(x, pseudoChannel, sid, rank, bankGroup, bank, 0, 0);
    HornerBank(o, d);
  }

  /** For a bank inside the organization the bucket number is the plain Horner sum of its fields. */
  lemma HornerBank(o: Organization, d: Coordinate)
    requires BankInRange(o, d)
    ensures Flat(o, d) ==
            d.bank + (d.bankGroup + (d.rank + (d.sid + (d.pseudoChannel + d.channel * o.pseudoChannels) * o.sids)
                                              * o.ranks) * o.bankGroups) * o.banksPerGroup
  {
    assert Index(o, 0, d) == d.channel;
    assert Index(o, 1, d) == d.pseudoChannel + Index(o, 0, d) * o.pseudoChannels;
    assert Index(o, 2, d) == d.sid + Index(o, 1, d) * o.sids;
    assert Index(o, 3, d) == d.rank + Index(o, 2, d) * o.ranks;
    assert Index(o, 4, d) == d.bankGroup + Index(o, 3, d) * o.bankGroups;
    assert Index(o, 5, d) == d.bank + Index(o, 4, d) * o.banksPerGroup;
  }

  class BankExecutor {
    const s: Spec
    const banks: array<Bank>
    const counts: array<nat>
    var active: seq<Request>
    var clk: nat
    /** The steps taken so far. */
    ghost var steps: seq<Step>

    ghost predicate Shaped()
      reads this
    {
      banks.Length == counts.Length == BankCount(s.org)
    }

    /** The object stands where a run of the machine has left it. */
    ghost predicate Valid()
      reads this, banks, counts
    {
      Shaped() && IsRun(s, steps) && Now() == After(s, steps)
    }

    ghost function Now(): State
      reads this, banks, counts
    {
      State(clk, banks[..], active, counts[..])
    }

    constructor (s: Spec)
      ensures Valid() && this.s == s && steps == [] && Now() == Initial(s) && fresh(banks) && fresh(counts)
    {
      this.s := s;
      banks := new Bank[BankCount(s.org)](_ => Bank.Bank(-1, false, 0, 0, 0, 0, 0, 0, 0));
      counts := new nat[BankCount(s.org)](_ => 0);
      active, clk, steps := [], 0, [];
      new;
      assert Now() == Initial(s);
    }

    method RankBankRange(d: Coordinate) returns (begin: nat, end: nat)
      requires Shaped()
      ensures begin <= end <= banks.Length && forall b: nat :: begin <= b < end <==> InRankOf(s.org, d, b)
    {
      RankRangeExact(s.org, d, d);
      MixedRadix.MulMonotone(s.org.banksPerGroup, 0, s.org.bankGroups);
      var perRank := s.org.bankGroups * s.org.banksPerGroup;
      begin := Index(s.org, 3, d) * perRank;
      end := begin + perRank;
    }

    method AnyBankBusyInRank(d: Coordinate) returns (busy: bool)
      requires Shaped()
      ensures busy <==> AnyBusyInRank(s.org, banks[..], d)
    {
      var begin, end := RankBankRange(d);
      for i := begin to end
        invariant forall b: nat | begin <= b < i :: !Busy(banks[b])
      {
        if Busy(banks[i]) {
          assert Busy(banks[..][i]) && InRankOf(s.org, d, i);
          return true;
        }
      }
      return false;
    }

    /** Whether a command for a waiting request would close a row that an active request relies on. */
    method WouldCloseOwned(r: Request, c: Command) returns (closes: bool)
      requires Shaped()
      ensures closes <==> WouldCloseActive(s, counts[..], r, c)
    {
      if !(c.PREPB? || c.REFPB? || c.REFDB? || c.RFMPB? || c.PREAB? || c.REFAB? || c.RFMAB?) { return false; }
      if !IsAllBank(c) { return counts[Flat(s.org, r.at)] > 0; }
      var begin, end := RankBankRange(r.at);
      for i := begin to end
        invariant forall b: nat | begin <= b < i :: counts[b] == 0
      {
        if counts[i] > 0 {
          assert counts[..][i] > 0 && InRankOf(s.org, r.at, i);
          return true;
        }
      }
      return false;
    }

    method CloseRankBanks(d: Coordinate)
      requires Shaped()
      modifies banks
      ensures banks[..] == Executed(s, old(banks[..]), PREAB, d, clk)
    {
      var nextAct := clk + Wait(s, if s.t.nRPab > 0 then s.t.nRPab else s.t.nRP);
      var begin, end := RankBankRange(d);
      for i := begin to end
        invariant forall b: nat | b < banks.Length ::
                    banks[b] == if begin <= b < i then BankAfter(s, old(banks[b]), b, PREAB, d, clk) else old(banks[b])
      {
        banks[i] := banks[i].(openRow := -1, activating := false, nextAct := Max(banks[i].nextAct, nextAct));
      }
    }

    method GateRankBanksAfter(d: Coordinate, readyAt: nat, ghost c: Command)
      requires Shaped() && (c.REFAB? || c.RFMAB?) && readyAt == clk + Wait(s, RefreshAllDelay(s, c))
      modifies banks
      ensures banks[..] == Executed(s, old(banks[..]), c, d, clk)
    {
      var begin, end := RankBankRange(d);
      for i := begin to end
        invariant forall b: nat | b < banks.Length ::
                    banks[b] == if begin <= b < i then BankAfter(s, old(banks[b]), b, c, d, clk) else old(banks[b])
      {
        banks[i] := banks[i].(nextAct := Max(banks[i].nextAct, readyAt));
      }
    }

    /** Commands to one bank, the other bank of a dual-bank refresh included. */
    method ExecuteOnBank(c: Command, d: Coordinate)
      requires Shaped() && !(c.PREAB? || c.REFAB? || c.RFMAB?)
      modifies banks
      ensures banks[..] == Executed(s, old(banks[..]), c, d, clk)
    {
      var b := Flat(s.org, d);
      banks[b] := OwnBank(s, banks[b], d.row, c, clk);
      if c.REFDB? {
        var p := Flat(s.org, RefdbPartner(s.org, d));
        banks[p] := banks[p].(nextAct := Max(banks[p].nextAct, clk + Wait(s, s.t.nRFCpb)));
      }
    }

    /** Executes a command: every bank is afterwards as the command leaves it. */
    method Execute(c: Command, d: Coordinate)
      requires Shaped()
      modifies banks
      ensures banks[..] == Executed(s, old(banks[..]), c, d, clk)
    {
      match c
      case PREAB => CloseRankBanks(d);
      case REFAB => GateRankBanksAfter(d, clk + Wait(s, s.t.nRFC), c);
      case RFMAB => GateRankBanksAfter(d, clk + Wait(s, if s.t.nRFMab > 0 then s.t.nRFMab else s.t.nRFC), c);
      case _ => ExecuteOnBank(c, d);
    }

    /** The clock moves on. */
    method Advance()
      requires Valid()
      modifies this`clk, this`steps
      ensures Valid() && steps == old(steps) + [Step.Advance] && clk == old(clk) + 1
    {
      RunExtends(s, steps, Step.Advance);
      clk := clk + 1;
      steps := steps + [Step.Advance];
    }

    /** Issues a command that the machine allows; with rows left open every active request still owns its bank. */
    method Issue(source: Source, r: Request, c: Command, ghost around: Surroundings)
      requires Valid() && Possible(s, Now(), Step.Issue(source, r, c, around))
      modifies this`active, this`steps, banks, counts
      ensures Valid() && steps == old(steps) + [Step.Issue(source, r, c, around)]
      ensures Now() == Next(s, old(Now()), Step.Issue(source, r, c, around))
      ensures s.policy.OpenPage? ==> Ownership(s, Now()) && Counted(s, Now())
    {
      ghost var x := Step.Issue(source, r, c, around);
      RunExtends(s, steps, x);
      Perform(source, r, c, around);
      steps := steps + [x];
      if s.policy.OpenPage? { OwnershipHolds(s, steps); }
    }

    /** Executes the chosen command of a request and moves the request on. */
    method Perform(source: Source, r: Request, c: Command, ghost around: Surroundings)
      requires Shaped() && (source.FromActive? ==> source.index < |active| && active[source.index] == r)
      modifies this`active, banks, counts
      ensures Now() == Next(s, old(Now()), Step.Issue(source, r, c, around))
    {
      Execute(c, r.at);
      if !r.kind.Upkeep? { RetireOrAdvance(source, r, c); }
    }

    /** One active request of the bank less. */
    method Release(b: nat)
      requires b < counts.Length
      modifies counts
      ensures counts[..] == if old(counts[b]) > 0 then old(counts[..])[b := old(counts[b]) - 1] else old(counts[..])
    {
      if counts[b] > 0 { counts[b] := counts[b] - 1; }
    }

    /** An opening command makes its request active, a data command finishes it, others leave it where it is. */
    method RetireOrAdvance(source: Source, r: Request, c: Command)
      requires Shaped() && !r.kind.Upkeep? && (source.FromActive? ==> source.index < |active|)
      modifies this`active, counts
      ensures (active, counts[..]) == Advanced(s, old(Now()), source, r, c)
    {
      var now := if c.ACT1? then r.(issuedFirst := true) else r;
      var b := Flat(s.org, r.at);
      match source
      case FromActive(i) =>
        if IsData(c) {
          Release(b);
          active := active[..i] + active[i + 1..];
        } else {
          active := active[i := now];
        }
      case _ =>
        if IsOpening(c) && |active| < banks.Length {
          active := active + [now];
          counts[b] := counts[b] + 1;
        }
    }
  }
}

/** DRAM organization, coordinates, commands and the legality table, shared by every component. */
module Dram {
  type pos = x: int | x > 0 witness 1

  function Max(a: int, b: int): int { if a >= b then a else b }
  function Min(a: int, b: int): int { if a <= b then a else b }

  /** The validated geometry: every dimension is positive. */
  datatype Organization = Organization(channels: pos, pseudoChannels: pos, sids: pos, ranks: pos,
                                       bankGroups: pos, banksPerGroup: pos, rows: pos, columns: pos)

  datatype Coordinate = Coordinate(channel: int, pseudoChannel: int, sid: int, rank: int,
                                   bankGroup: int, bank: int, row: int, column: int)

  predicate BankInRange(o: Organization, d: Coordinate) {
    && 0 <= d.channel < o.channels && 0 <= d.pseudoChannel < o.pseudoChannels && 0 <= d.sid < o.sids
    && 0 <= d.rank < o.ranks && 0 <= d.bankGroup < o.bankGroups && 0 <= d.bank < o.banksPerGroup
  }

  predicate InRange(o: Organization, d: Coordinate) {
    BankInRange(o, d) && 0 <= d.row < o.rows && 0 <= d.column < o.columns
  }

  datatype Command =
    | ACT | ACT1 | ACT2 | PRE | PREPB | PREAB | CASRD | CASWR | RD | WR | RDA | WRA
    | REFAB | REFPB | REFDB | RFMAB | RFMPB | MRW | MRR | WCKSYNC | WCKTRAIN | DVFS
    | PDE | PDX | SREFEN | SREFEX | ECCSCRUB | RASERR | NOP

  predicate IsOpening(c: Command) { c.ACT? || c.ACT1? }

  predicate IsData(c: Command) { c.RD? || c.WR? || c.RDA? || c.WRA? }

  predicate IsAllBank(c: Command) {
    c.PREAB? || c.REFAB? || c.RFMAB? || c.MRW? || c.MRR? || c.WCKTRAIN? || c.DVFS? || c.PDE? || c.PDX?
    || c.SREFEN? || c.SREFEX? || c.ECCSCRUB? || c.RASERR?
  }

  /** The second bank of a dual-bank refresh: same bank address, adjacent bank group. */
  function RefdbPartner(o: Organization, d: Coordinate): Coordinate {
    if o.bankGroups < 2 then d
    else
      var bg := if d.bankGroup % 2 == 0 then d.bankGroup + 1 else d.bankGroup - 1;
      if bg >= o.bankGroups then d else d.(bankGroup := bg)
  }

  /** Cycles of the controller's clock for a delay given in clock periods. */
  function Delay(multiplier: pos, cycles: int): nat {
    if cycles <= 0 then 0 else cycles * multiplier
  }

  lemma DelayMonotone(multiplier: pos, a: int, b: int)
    requires a <= b
    ensures Delay(multiplier, a) <= Delay(multiplier, b)
  {
    if a > 0 { assert (b - a) * multiplier >= 0; }
  }

  // ---------------------------------------------------------------- legality

  datatype BankProtocolState = Closed | Activating | Opened

  datatype Snapshot = Snapshot(bankState: BankProtocolState, rowHit: bool, wckReady: bool, anyBankBusy: bool,
                               splitActivate: bool, lpddr: bool, maintenance: bool, issuedFirstActivate: bool,
                               lowPower: bool, selfRefresh: bool, training: bool, dvfs: bool, wckTrainingRequired: bool,
                               rasEcc: bool, linkRetry: bool)

  /** Whether the command is meaningful in the given bank and power state, timing aside. */
  predicate LegalCommand(s: Snapshot, c: Command) {
    if s.selfRefresh && !c.SREFEX? then false
    else match c
      case ACT => !s.splitActivate && s.bankState.Closed?
      case ACT1 => s.splitActivate && s.bankState.Closed?
      case ACT2 => s.splitActivate && s.bankState.Activating? && s.issuedFirstActivate
      case PRE | PREPB => s.bankState.Opened?
      case PREAB => s.anyBankBusy
      case CASRD | CASWR => s.lpddr && s.bankState.Opened? && s.rowHit && !s.wckTrainingRequired
      case RD | WR | RDA | WRA =>
        s.bankState.Opened? && s.rowHit && (!s.lpddr || (s.wckReady && !s.wckTrainingRequired))
      case REFPB | REFDB | RFMPB => s.maintenance && s.bankState.Closed?
      case REFAB | RFMAB => s.maintenance && !s.anyBankBusy
      case MRW | MRR | PDE => s.maintenance && !s.anyBankBusy && !s.lowPower && !s.selfRefresh && !s.training && !s.dvfs
      case WCKSYNC => s.lpddr && !s.lowPower && !s.selfRefresh && !s.training && !s.dvfs && !s.wckTrainingRequired
      case WCKTRAIN => s.lpddr && s.maintenance && !s.anyBankBusy && !s.lowPower && !s.selfRefresh && !s.dvfs
      case DVFS => s.lpddr && s.maintenance && !s.anyBankBusy && !s.lowPower && !s.selfRefresh && !s.training
      case PDX => s.maintenance && s.lowPower && !s.selfRefresh
      case SREFEN => s.maintenance && !s.anyBankBusy && !s.selfRefresh && !s.training && !s.dvfs
      case SREFEX => s.maintenance && s.selfRefresh
      case ECCSCRUB => s.maintenance && s.rasEcc && !s.anyBankBusy && !s.lowPower && !s.selfRefresh
      case RASERR => s.maintenance && (s.rasEcc || s.linkRetry) && !s.training && !s.dvfs
      case NOP => false
  }
}

/** The storage image behind a controller: transactions committed to it and fetched from it are the machine's lines. */
module ControllerStorage {
  import opened Lines
  import opened Dram
  import opened Wrappers
  import RowBuffers
  import opened MemoryImageObject
  import S = StoreBuffer
  import P = StoreBufferProofs
  import MixedRadix

  /** The memory holds the line from address `start` on. */
  ghost predicate HoldsLine(l: Line, fill: byte, memory: map<nat, byte>, start: nat) {
    && |l.bytes| == |l.init|
    && forall i: nat | i < |l.bytes| ::
         && (l.init[i] <==> start + i in memory)
         && l.bytes[i] == if start + i in memory then memory[start + i] else fill
  }

  /** Every line of the machine stands in the memory, transactions being numbered from address zero. */
  ghost predicate Mirrors(cfg: S.Config, lines: map<nat, Line>, memory: map<nat, byte>) {
    forall a: nat :: Sized(S.Lookup(cfg, lines, a), cfg.size) && HoldsLine(S.Lookup(cfg, lines, a), cfg.fill, memory, Start(cfg, a))
  }

  function Start(cfg: S.Config, a: nat): nat {
    MixedRadix.MulMonotone(cfg.size, 0, a);
    a * cfg.size
  }

  lemma EmptyMirrors(cfg: S.Config)
    ensures Mirrors(cfg, map[], map[])
  {
  }

  function Committed(cfg: S.Config, lines: map<nat, Line>, a: nat, data: Bytes, mask: Mask): map<nat, Line> {
    lines[a := Overlay(S.Lookup(cfg, lines, a), data, mask)]
  }

  lemma OwnLine(cfg: S.Config, l: Line, before: map<nat, byte>, after: map<nat, byte>, start: nat, data: Bytes, mask: Mask)
    requires Sized(l, cfg.size) && |data| == |mask| == cfg.size && HoldsLine(l, cfg.fill, before, start)
    requires RowBuffers.IsWritten(before, after, start, data, mask, 0, cfg.size)
    ensures HoldsLine(Overlay(l, data, mask), cfg.fill, after, start)
  {
    var r := Overlay(l, data, mask);
    forall i: nat | i < cfg.size
      ensures r.init[i] <==> start + i in after
      ensures r.bytes[i] == if start + i in after then after[start + i] else cfg.fill
    {
      assert RowBuffers.Touches(start, mask, 0, cfg.size, start + i) <==> mask[i];
    }
  }

  lemma OtherByte(before: map<nat, byte>, after: map<nat, byte>, address: nat, data: Bytes, mask: Mask, x: nat)
    requires |data| == |mask| && RowBuffers.IsWritten(before, after, address, data, mask, 0, |data|)
    requires x < address || address + |data| <= x
    ensures x in after <==> x in before
    ensures x in after ==> after[x] == before[x]
  {
    assert !RowBuffers.Touches(address, mask, 0, |data|, x);
  }

  lemma OtherLine(cfg: S.Config, l: Line, before: map<nat, byte>, after: map<nat, byte>, start: nat, address: nat,
                  data: Bytes, mask: Mask)
    requires Sized(l, cfg.size) && |data| == |mask| == cfg.size && HoldsLine(l, cfg.fill, before, start)
    requires start + cfg.size <= address || address + cfg.size <= start
    requires RowBuffers.IsWritten(before, after, address, data, mask, 0, cfg.size)
    ensures HoldsLine(l, cfg.fill, after, start)
  {
    forall i: nat | i < cfg.size
      ensures l.init[i] <==> start + i in after
      ensures l.bytes[i] == if start + i in after then after[start + i] else cfg.fill
    {
      OtherByte(before, after, address, data, mask, start + i);
    }
  }

  lemma Apart(cfg: S.Config, a: nat, b: nat)
    requires a != b
    ensures Start(cfg, a) + cfg.size <= Start(cfg, b) || Start(cfg, b) + cfg.size <= Start(cfg, a)
  {
    if a < b { MixedRadix.MulMonotone(cfg.size, a + 1, b); } else { MixedRadix.MulMonotone(cfg.size, b + 1, a); }
    assert (a + 1) * cfg.size == a * cfg.size + cfg.size && (b + 1) * cfg.size == b * cfg.size + cfg.size;
  }

  /** A masked write of a transaction is the same write of its line. */
  lemma CommitMirrors(cfg: S.Config, lines: map<nat, Line>, before: map<nat, byte>, after: map<nat, byte>, a: nat,
                      data: Bytes, mask: Mask)
    requires Mirrors(cfg, lines, before) && |data| == |mask| == cfg.size
    requires RowBuffers.IsWritten(before, after, Start(cfg, a), data, mask, 0, cfg.size)
    ensures Mirrors(cfg, Committed(cfg, lines, a, data, mask), after)
  {
    forall b: nat
      ensures
        var l := S.Lookup(cfg, Committed(cfg, lines, a, data, mask), b);
        Sized(l, cfg.size) && HoldsLine(l, cfg.fill, after, Start(cfg, b))
    {
      var l := S.Lookup(cfg, lines, b);
      assert Sized(l, cfg.size) && HoldsLine(l, cfg.fill, before, Start(cfg, b));
      if b == a {
        OwnLine(cfg, l, before, after, Start(cfg, a), data, mask);
      } else {
        Apart(cfg, a, b);
        OtherLine(cfg, l, before, after, Start(cfg, b), Start(cfg, a), data, mask);
      }
    }
  }

  /** The transaction lies inside the image. */
  predicate Inside(cfg: S.Config, g: RowBuffers.Geometry, a: nat) {
    Start(cfg, a) + cfg.size <= RowBuffers.Capacity(g)
  }

  // ---------------------------------------------------------------- the machine's side

  /** The write that a step of the machine performs on its image, if it performs one. */
  function Commit(cfg: S.Config, s: S.State, e: P.Event): Option<(nat, Bytes, Mask)>
    requires P.Allowed(cfg, s, e)
  {
    match e
    case DoIssueWrite(k, _) =>
      var a := s.held[k].request.address;
      if cfg.behavioral then None else Some((a, s.buffered[a].data, s.buffered[a].mask))
    case DoDrain => Some((s.fifo[0].address, s.fifo[0].data, s.fifo[0].mask))
    case _ => None
  }

  /** The writes waiting in the buffer and in the PHY are of whole transactions. */
  ghost predicate WholeWrites(cfg: S.Config, s: S.State) {
    && (forall a | a in s.buffered :: |s.buffered[a].data| == |s.buffered[a].mask| == cfg.size)
    && (forall i | 0 <= i < |s.fifo| :: |s.fifo[i].data| == |s.fifo[i].mask| == cfg.size)
  }

  lemma WritesAreWhole(cfg: S.Config, s: S.State)
    requires P.Reachable(cfg, s)
    ensures WholeWrites(cfg, s)
  {
    P.ReachableKeeps(cfg, s);
  }

  lemma WholeCommits(cfg: S.Config, s: S.State, e: P.Event)
    requires WholeWrites(cfg, s) && P.Allowed(cfg, s, e)
    ensures
      var c := Commit(cfg, s, e);
      match c
      case None => P.Step(cfg, s, e).image == s.image
      case Some((a, data, mask)) =>
        |data| == |mask| == cfg.size && P.Step(cfg, s, e).image == Committed(cfg, s.image, a, data, mask)
  {
  }

  /** Such writes are all that ever happens to the image, and they are of whole transactions. */
  lemma StepCommits(cfg: S.Config, s: S.State, e: P.Event)
    requires P.Reachable(cfg, s) && P.Allowed(cfg, s, e)
    ensures
      var c := Commit(cfg, s, e);
      match c
      case None => P.Step(cfg, s, e).image == s.image
      case Some((a, data, mask)) =>
        |data| == |mask| == cfg.size && P.Step(cfg, s, e).image == Committed(cfg, s.image, a, data, mask)
  {
    WritesAreWhole(cfg, s);
    WholeCommits(cfg, s, e);
  }

  // ---------------------------------------------------------------- the object

  class Storage {
    const cfg: S.Config
    const image: MemoryImage
    /** The machine's lines. */
    ghost var lines: map<nat, Line>

    ghost predicate Valid()
      reads this, image
    {
      image.Valid() && Mirrors(cfg, lines, image.memory)
    }

    constructor (cfg: S.Config, g: RowBuffers.Geometry)
      requires RowBuffers.Injective(g) && RowBuffers.Capacity(g) <= ADDRESS_LIMIT && g.fill == cfg.fill
      ensures Valid() && lines == map[] && this.cfg == cfg && fresh(image) && image.g == g
    {
      this.cfg := cfg;
      image := new MemoryImage(g);
      lines := map[];
      new;
      EmptyMirrors(cfg);
    }

    /** A write reaches the image: the machine's line takes it. */
    method CommitWriteData(a: nat, data: Bytes, mask: Mask)
      requires Valid() && |data| == |mask| == cfg.size && Inside(cfg, image.g, a)
      modifies this`lines, image
      ensures Valid() && lines == Committed(cfg, old(lines), a, data, mask)
    {
      ghost var before := image.memory;
      var r := image.Write(a * cfg.size, data, mask);
      CommitMirrors(cfg, lines, before, image.memory, a, data, mask);
      lines := Committed(cfg, lines, a, data, mask);
    }

    /** A read of the image finds the machine's line, initialized bytes included. */
    method ReadTransaction(a: nat) returns (l: Line)
      requires Valid() && image.g.fill == cfg.fill && Inside(cfg, image.g, a)
      modifies image
      ensures Valid() && l == S.Lookup(cfg, lines, a)
    {
      ghost var memory := image.memory;
      var start := a * cfg.size;
      var data := image.Read(start, cfg.size);
      var mask := image.ReadInitializedMask(start, cfg.size);
      l := Line(data.value.0, mask.value);
      LineRead(cfg, S.Lookup(cfg, lines, a), image.g, image.memory, start, l);
    }

    /** Opening, closing and refreshing rows leaves every line as it is. */
    method OnCommand(c: Command, d: Coordinate)
      requires Valid()
      modifies image
      ensures Valid() && lines == old(lines)
    {
      match c
      case ACT | ACT2 => image.ActivateRow(d);
      case PRE | PREPB | REFPB | REFDB | RFMPB => image.PrechargeBank(d);
      case PREAB | REFAB | RFMAB | SREFEN => image.PrechargeAll(d);
      case _ =>
    }
  }

  lemma LineRead(cfg: S.Config, want: Line, g: RowBuffers.Geometry, memory: map<nat, byte>, start: nat, got: Line)
    requires Sized(want, cfg.size) && HoldsLine(want, cfg.fill, memory, start) && Sized(got, cfg.size) && g.fill == cfg.fill
    requires forall a: nat | start <= a < start + cfg.size :: got.bytes[a - start] == RowBuffers.ByteOf(g, memory, a)
    requires forall a: nat | start <= a < start + cfg.size :: got.init[a - start] <==> a in memory
    ensures got == want
  {
    forall i: nat | i < cfg.size
      ensures got.bytes[i] == want.bytes[i] && got.init[i] == want.init[i]
    {
      var a := start + i;
      assert got.bytes[a - start] == RowBuffers.ByteOf(g, memory, a);
    }
    assert got.bytes == want.bytes && got.init == want.init;
  }
}

/** The storage image as the object whose row buffers and backend are changed in place. */
module MemoryImageObject {
  import opened Lines
  import opened Dram
  import opened RowBuffers
  import opened Wrappers

  const ADDRESS_LIMIT := 0x1_0000_0000_0000_0000

  datatype Fault = AddressOverflow | OutOfRange | MaskSize

  /** Whether and why a span of addresses is refused. */
  function CheckSpan(capacity: nat, address: nat, size: nat): Result<(), Fault> {
    if size == 0 then Ok(())
    else if address + size > ADDRESS_LIMIT then Err(AddressOverflow)
    else if address + size > capacity then Err(OutOfRange)
    else Ok(())
  }

  /** The same rows stay open with the same lines; open rows outside `remaining` are clean. */
  ghost predicate FlushedBut(before: map<Bank, RowBuffer>, after: map<Bank, RowBuffer>, remaining: set<Bank>) {
    && before.Keys == after.Keys
    && forall b | b in after ::
         after[b] == before[b].(dirty := after[b].dirty) && (b !in remaining && after[b].open ==> !after[b].dirty)
  }

  ghost predicate FlushedOne(before: map<Bank, RowBuffer>, after: map<Bank, RowBuffer>, bank: Bank) {
    && bank in before && bank in after && after == before[bank := after[bank]]
    && after[bank] == before[bank].(dirty := after[bank].dirty) && (after[bank].open ==> !after[bank].dirty)
  }

  lemma FlushStep(start: map<Bank, RowBuffer>, mid: map<Bank, RowBuffer>, end: map<Bank, RowBuffer>, remaining: set<Bank>, b: Bank)
    requires FlushedBut(start, mid, remaining) && FlushedOne(mid, end, b)
    ensures FlushedBut(start, end, remaining - {b})
  {
    assert end.Keys == mid.Keys;
  }

  class MemoryImage {
    const g: Geometry
    var store: map<nat, Line>
    var rows: map<Bank, RowBuffer>
    /** The flat memory this image must equal. */
    ghost var memory: map<nat, byte>

    ghost predicate Valid()
      reads this
    {
      Holds(g, store, rows, memory) && Capacity(g) <= ADDRESS_LIMIT
    }

    constructor (g: Geometry)
      requires Injective(g) && Capacity(g) <= ADDRESS_LIMIT
      ensures Valid() && this.g == g && memory == map[]
    {
      this.g, store, rows, memory := g, map[], map[], map[];
    }

    /** Every bank other than `bank` keeps its row buffer. */
    twostate predicate OthersKept(bank: Bank)
      reads this
    {
      forall b | b != bank :: (b in rows <==> b in old(rows)) && (b in rows ==> rows[b] == old(rows)[b])
    }

    /** Writes every cached line of an open bank to the backend. */
    method StoreColumns(bank: Bank)
      requires Valid() && bank in rows && rows[bank].open
      modifies this`store
      ensures Stored(g, old(store), store, rows, bank)
      ensures forall n | n in store :: Sized(store[n], g.size)
    {
      var columns := rows[bank].columns;
      var remaining := columns.Keys;
      assert RowOk(g, store, bank, rows[bank]);
      while exists c :: c in remaining
        invariant remaining <= columns.Keys
        invariant forall n | n in store :: Sized(store[n], g.size)
        invariant forall n: nat | n < g.lines ::
                    Backing(g, store, n) ==
                      if BankOf(g.coordinate(n)) == bank && Cached(rows, g.coordinate(n)) && g.coordinate(n).column !in remaining
                      then Visible(g, old(store), rows, n) else Backing(g, old(store), n)
        decreases |remaining|
      {
        var c :| c in remaining;
        var block := columns[c];
        ghost var before := store;
        store := store[block.number := block.line];
        remaining := remaining - {c};
        forall n: nat | n < g.lines
          ensures Backing(g, store, n) ==
                    if BankOf(g.coordinate(n)) == bank && Cached(rows, g.coordinate(n)) && g.coordinate(n).column !in remaining
                    then Visible(g, old(store), rows, n) else Backing(g, old(store), n)
        {
          if BankOf(g.coordinate(n)) == bank && Cached(rows, g.coordinate(n)) {
            CachedNumber(g, old(store), rows, n);
          }
        }
      }
    }

    /** Closes a bank, writing its lines back first when any of them changed. */
    method WritebackRowBuffer(bank: Bank)
      requires Valid()
      modifies this`store, this`rows
      ensures Valid() && OthersKept(bank)
      ensures bank in rows ==> !rows[bank].open
      ensures bank !in old(rows) ==> bank !in rows
    {
      if bank !in rows || !rows[bank].open { return; }
      ghost var before := store;
      if rows[bank].dirty {
        StoreColumns(bank);
      } else {
        CleanIsStored(g, store, rows, bank);
      }
      CloseKeeps(g, before, store, rows, memory, bank);
      rows := rows[bank := rows[bank].(open := false, dirty := false, columns := map[])];
    }

    /** ACT: the bank's row buffer takes the given row, closing another row if one is open. */
    method ActivateRow(d: Coordinate)
      requires Valid()
      modifies this`store, this`rows
      ensures Valid() && OthersKept(BankOf(d))
      ensures RowOpen(rows, d)
    {
      var bank := BankOf(d);
      if bank in rows && rows[bank].open {
        if rows[bank].row == d.row { return; }
        WritebackRowBuffer(bank);
      }
      OpenKeeps(g, store, rows, memory, bank, d.row);
      rows := rows[bank := RowBuffer(true, false, d.row, map[])];
    }

    method PrechargeBank(d: Coordinate)
      requires Valid()
      modifies this`store, this`rows
      ensures Valid() && OthersKept(BankOf(d))
      ensures !RowOpen(rows, d)
    {
      WritebackRowBuffer(BankOf(d));
    }

    static predicate SameRank(a: Coordinate, b: Coordinate) {
      a.channel == b.channel && a.pseudoChannel == b.pseudoChannel && a.sid == b.sid && a.rank == b.rank
    }

    /** Closes every open bank of the rank of `d`, and no other. */
    method PrechargeAll(d: Coordinate)
      requires Valid()
      modifies this`store, this`rows
      ensures Valid()
      ensures forall b | b in rows && SameRank(b, d) :: !rows[b].open
      ensures forall b | !SameRank(b, d) :: (b in rows <==> b in old(rows)) && (b in rows ==> rows[b] == old(rows)[b])
    {
      var targets := set b | b in rows && rows[b].open && SameRank(b, d);
      while targets != {}
        invariant Valid()
        invariant forall b | b in targets :: SameRank(b, d)
        invariant forall b | b in rows && SameRank(b, d) && rows[b].open :: b in targets
        invariant forall b | !SameRank(b, d) :: (b in rows <==> b in old(rows)) && (b in rows ==> rows[b] == old(rows)[b])
        decreases |targets|
      {
        var b :| b in targets;
        WritebackRowBuffer(b);
        targets := targets - {b};
      }
    }

    method FlushBank(bank: Bank)
      requires Valid() && bank in rows
      modifies this`store, this`rows
      ensures Valid() && FlushedOne(old(rows), rows, bank)
    {
      if rows[bank].open && rows[bank].dirty {
        ghost var before := store;
        StoreColumns(bank);
        CleanKeeps(g, before, store, rows, memory, bank);
        rows := rows[bank := rows[bank].(dirty := false)];
      }
    }

    /** Checkpoint: afterwards the backend alone holds the whole memory, and every row stays as open as it was. */
    method FlushDirtyRowBuffers()
      requires Valid()
      modifies this`store, this`rows
      ensures Valid() && FlushedBut(old(rows), rows, {})
      ensures forall n: nat | n < g.lines :: Sized(Backing(g, store, n), g.size) && Agrees(g, Backing(g, store, n), memory, n)
    {
      var remaining := rows.Keys;
      while remaining != {}
        invariant Valid() && remaining <= rows.Keys && FlushedBut(old(rows), rows, remaining)
        decreases |remaining|
      {
        var b :| b in remaining;
        ghost var mid := rows;
        FlushBank(b);
        FlushStep(old(rows), mid, rows, remaining, b);
        remaining := remaining - {b};
      }
      CleanBackend(g, store, rows, memory);
    }

    /** The line as the row buffer or, when its row is closed, the backend holds it; an open row caches it. */
    method FetchLine(n: nat) returns (l: Line)
      requires Valid() && n < g.lines
      modifies this`rows
      ensures Valid() && l == Visible(g, store, rows, n) && Sized(l, g.size) && Agrees(g, l, memory, n)
      ensures forall d :: RowOpen(rows, d) <==> old(RowOpen(rows, d))
    {
      var d := g.coordinate(n);
      if !RowOpen(rows, d) {
        l := Backing(g, store, n);
      } else if Cached(rows, d) {
        l := rows[BankOf(d)].columns[d.column].line;
      } else {
        l := Backing(g, store, n);
        LoadHolds(g, store, rows, memory, n);
        rows := WithColumn(rows, d, Block(n, l), false);
      }
    }

    /** The part of a span that falls in one line, and whether it was all written. */
    method ReadChunk(current: nat, wanted: nat) returns (bytes: Bytes, all: bool)
      requires Valid() && current < Capacity(g) && wanted > 0
      modifies this`rows
      ensures Valid() && 0 < |bytes| <= wanted
      ensures forall a: nat | current <= a < current + |bytes| :: bytes[a - current] == ByteOf(g, memory, a)
      ensures all <==> AllWritten(memory, current, |bytes|)
    {
      LineInside(g, current);
      var offset := current % g.size;
      var chunk := Min(wanted, g.size - offset);
      var l := FetchLine(current / g.size);
      AgreesRange(g, l, memory, current / g.size, offset, chunk, current);
      bytes := l.bytes[offset..offset + chunk];
      all := AllSet(l.init[offset..offset + chunk]);
      SetIsWritten(l.init[offset..offset + chunk], memory, current);
    }

    static method AllSet(mask: Mask) returns (all: bool)
      ensures all <==> Full(mask)
    {
      for i := 0 to |mask|
        invariant forall j | 0 <= j < i :: mask[j]
      {
        if !mask[i] { return false; }
      }
      return true;
    }

    /** The bytes of a span and whether all of them were ever written. */
    method Read(address: nat, size: nat) returns (r: Result<(Bytes, bool), Fault>)
      requires Valid()
      modifies this`rows
      ensures Valid()
      ensures CheckSpan(Capacity(g), address, size).Ok? ==>
                && r.Ok? && |r.value.0| == size
                && (forall a: nat | address <= a < address + size :: r.value.0[a - address] == ByteOf(g, memory, a))
                && (r.value.1 <==> AllWritten(memory, address, size))
      ensures CheckSpan(Capacity(g), address, size) == Err(OutOfRange) ==> r == Err(OutOfRange) && unchanged(this)
      ensures CheckSpan(Capacity(g), address, size) == Err(AddressOverflow) ==> r == Err(AddressOverflow) && unchanged(this)
    {
      var check := CheckSpan(Capacity(g), address, size);
      if check == Err(AddressOverflow) { return Err(AddressOverflow); }
      if check == Err(OutOfRange) { return Err(OutOfRange); }
      var out: Bytes := [];
      var all := true;
      while |out| < size
        invariant Valid() && |out| <= size
        invariant forall a: nat | address <= a < address + |out| :: out[a - address] == ByteOf(g, memory, a)
        invariant all <==> AllWritten(memory, address, |out|)
        decreases size - |out|
      {
        var chunk, chunkAll := ReadChunk(address + |out|, size - |out|);
        WrittenJoin(memory, address, |out|, |chunk|);
        out := out + chunk;
        all := all && chunkAll;
      }
      return Ok((out, all));
    }

    method MaskChunk(current: nat, wanted: nat) returns (mask: Mask)
      requires Valid() && current < Capacity(g) && wanted > 0
      ensures 0 < |mask| <= wanted
      ensures forall a: nat | current <= a < current + |mask| :: mask[a - current] <==> a in memory
    {
      LineInside(g, current);
      var offset := current % g.size;
      var chunk := Min(wanted, g.size - offset);
      var d := g.coordinate(current / g.size);
      var l := if Cached(rows, d) then rows[BankOf(d)].columns[d.column].line else Backing(g, store, current / g.size);
      assert l == Visible(g, store, rows, current / g.size);
      AgreesRange(g, l, memory, current / g.size, offset, chunk, current);
      mask := l.init[offset..offset + chunk];
    }

    /** Which bytes of a span were ever written; reads the row buffers without changing them. */
    method ReadInitializedMask(address: nat, size: nat) returns (r: Result<Mask, Fault>)
      requires Valid()
      ensures CheckSpan(Capacity(g), address, size).Ok? ==>
                && r.Ok? && |r.value| == size
                && (forall a: nat | address <= a < address + size :: r.value[a - address] <==> a in memory)
      ensures CheckSpan(Capacity(g), address, size) == Err(OutOfRange) ==> r == Err(OutOfRange)
      ensures CheckSpan(Capacity(g), address, size) == Err(AddressOverflow) ==> r == Err(AddressOverflow)
    {
      var check := CheckSpan(Capacity(g), address, size);
      if check == Err(AddressOverflow) { return Err(AddressOverflow); }
      if check == Err(OutOfRange) { return Err(OutOfRange); }
      var out: Mask := [];
      while |out| < size
        invariant |out| <= size
        invariant forall a: nat | address <= a < address + |out| :: out[a - address] <==> a in memory
        decreases size - |out|
      {
        var chunk := MaskChunk(address + |out|, size - |out|);
        out := out + chunk;
      }
      return Ok(out);
    }

    /** Bytes `lo` to `hi` of a write at `address`, all of which fall in line `n`. */
    method WriteLine(n: nat, address: int, data: Bytes, mask: Mask, lo: nat, hi: nat)
      requires Valid() && n < g.lines && lo <= hi <= |data| == |mask|
      requires n * g.size <= address + lo && address + hi <= n * g.size + g.size
      modifies this
      ensures Valid() && IsWritten(old(memory), memory, address, data, mask, lo, hi)
      ensures forall d :: RowOpen(rows, d) <==> old(RowOpen(rows, d))
    {
      if RowOpen(rows, g.coordinate(n)) {
        WriteOpenLine(n, address, data, mask, lo, hi);
      } else {
        WriteClosedLine(n, address, data, mask, lo, hi);
      }
    }

    method WriteOpenLine(n: nat, address: int, data: Bytes, mask: Mask, lo: nat, hi: nat)
      requires Valid() && n < g.lines && lo <= hi <= |data| == |mask| && RowOpen(rows, g.coordinate(n))
      requires n * g.size <= address + lo && address + hi <= n * g.size + g.size
      modifies this
      ensures Valid() && IsWritten(old(memory), memory, address, data, mask, lo, hi)
      ensures forall d :: RowOpen(rows, d) <==> old(RowOpen(rows, d))
    {
      var l := FetchLine(n);
      Allocate(n);
      PutInRow(n, l, address, data, mask, lo, hi);
    }

    /** The line exists in the backend, blank if it was absent. */
    method Allocate(n: nat)
      requires Valid() && n < g.lines
      modifies this`store
      ensures Valid() && n in store && Visible(g, store, rows, n) == Visible(g, old(store), rows, n)
    {
      if n !in store {
        AllocateHolds(g, store, rows, memory, n);
        store := store[n := Blank(g.size, g.fill)];
      }
    }

    /** The line takes its new value in its open row. */
    method PutInRow(n: nat, l: Line, address: int, data: Bytes, mask: Mask, lo: nat, hi: nat)
      requires Valid() && n < g.lines && lo <= hi <= |data| == |mask| && n in store && RowOpen(rows, g.coordinate(n))
      requires n * g.size <= address + lo && address + hi <= n * g.size + g.size
      requires l == Visible(g, store, rows, n)
      modifies this`rows, this`memory
      ensures Valid() && IsWritten(old(memory), memory, address, data, mask, lo, hi)
      ensures forall d :: RowOpen(rows, d) <==> old(RowOpen(rows, d))
    {
      var wroteAny := exists i | lo <= i < hi :: mask[i];
      ghost var after := Written(memory, address, data, mask, lo, hi);
      WrittenIs(memory, address, data, mask, lo, hi);
      OpenWriteHolds(g, store, rows, memory, after, n, address, data, mask, lo, hi, wroteAny);
      rows := WithColumn(rows, g.coordinate(n), Block(n, OverlayAt(l, address - n * g.size, data, mask, lo, hi)), wroteAny);
      memory := after;
    }

    method WriteClosedLine(n: nat, address: int, data: Bytes, mask: Mask, lo: nat, hi: nat)
      requires Valid() && n < g.lines && lo <= hi <= |data| == |mask| && !RowOpen(rows, g.coordinate(n))
      requires n * g.size <= address + lo && address + hi <= n * g.size + g.size
      modifies this
      ensures Valid() && IsWritten(old(memory), memory, address, data, mask, lo, hi)
      ensures forall d :: RowOpen(rows, d) <==> old(RowOpen(rows, d))
    {
      var l := FetchLine(n);
      PutInBackend(n, l, address, data, mask, lo, hi);
    }

    /** The line takes its new value in the backend. */
    method PutInBackend(n: nat, l: Line, address: int, data: Bytes, mask: Mask, lo: nat, hi: nat)
      requires Valid() && n < g.lines && lo <= hi <= |data| == |mask| && !RowOpen(rows, g.coordinate(n))
      requires n * g.size <= address + lo && address + hi <= n * g.size + g.size
      requires l == Visible(g, store, rows, n)
      modifies this
      ensures Valid() && rows == old(rows) && IsWritten(old(memory), memory, address, data, mask, lo, hi)
    {
      ghost var after := Written(memory, address, data, mask, lo, hi);
      WrittenIs(memory, address, data, mask, lo, hi);
      ClosedWriteHolds(g, store, rows, memory, after, n, address, data, mask, lo, hi);
      store := store[n := OverlayAt(l, address - n * g.size, data, mask, lo, hi)];
      memory := after;
    }

    /** The part of a write, from byte `copied` on, that falls in one line. */
    method WriteChunk(address: nat, data: Bytes, mask: Mask, copied: nat) returns (next: nat)
      requires Valid() && copied < |data| == |mask| && address + copied < Capacity(g)
      modifies this
      ensures Valid() && copied < next <= |data|
      ensures IsWritten(old(memory), memory, address, data, mask, copied, next)
    {
      var current := address + copied;
      LineInside(g, current);
      var offset := current % g.size;
      next := copied + Min(|data| - copied, g.size - offset);
      WriteLine(current / g.size, address, data, mask, copied, next);
    }

    /** A masked write of a span, line by line. */
    method Write(address: nat, data: Bytes, mask: Mask) returns (r: Result<(), Fault>)
      requires Valid()
      modifies this
      ensures Valid()
      ensures !CheckSpan(Capacity(g), address, |data|).Ok? ==> r == CheckSpan(Capacity(g), address, |data|) && unchanged(this)
      ensures CheckSpan(Capacity(g), address, |data|).Ok? && |mask| != |data| ==> r == Err(MaskSize) && unchanged(this)
      ensures CheckSpan(Capacity(g), address, |data|).Ok? && |mask| == |data| ==>
                r.Ok? && IsWritten(old(memory), memory, address, data, mask, 0, |data|)
    {
      r := CheckSpan(Capacity(g), address, |data|);
      if !r.Ok? { return; }
      if |mask| != |data| { return Err(MaskSize); }
      var copied := 0;
      while copied < |data|
        invariant Valid() && copied <= |data|
        invariant IsWritten(old(memory), memory, address, data, mask, 0, copied)
        decreases |data| - copied
      {
        ghost var mid := memory;
        var next := WriteChunk(address, data, mask, copied);
        WrittenExtend(old(memory), mid, memory, address, data, mask, copied, next);
        copied := next;
      }
    }
  }
}

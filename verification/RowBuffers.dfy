/**
  The storage image: one row buffer per bank over a line backend.

  The row buffers cache lines by column number alone, write back only when dirty, and are loaded
  lazily. Together with the backend they must behave as one flat byte memory.
 */
module RowBuffers {
  import opened Lines
  import opened Dram
  import MixedRadix

  /** A bank, as the coordinate of its first cell. */
  type Bank = Coordinate

  function BankOf(d: Coordinate): Bank { d.(row := -1, column := -1) }

  /** A cached line and the number of the line it caches. */
  datatype Block = Block(number: nat, line: Line)

  datatype RowBuffer = RowBuffer(open: bool, dirty: bool, row: int, columns: map<int, Block>)

  /** `lines` lines of `size` bytes; `coordinate` says where each is stored, `number` reads that back. */
  datatype Geometry = Geometry(size: pos, fill: byte, lines: pos, coordinate: nat -> Coordinate, number: Coordinate -> nat)

  /** No two lines share a place. */
  ghost predicate Injective(g: Geometry) {
    forall n: nat | n < g.lines :: g.number(g.coordinate(n)) == n
  }

  function Capacity(g: Geometry): nat { g.lines * g.size }

  function Backing(g: Geometry, store: map<nat, Line>, n: nat): Line {
    if n in store then store[n] else Blank(g.size, g.fill)
  }

  predicate Cached(rows: map<Bank, RowBuffer>, d: Coordinate) {
    BankOf(d) in rows && rows[BankOf(d)].open && rows[BankOf(d)].row == d.row && d.column in rows[BankOf(d)].columns
  }

  /** What the image holds for line `n`. */
  function Visible(g: Geometry, store: map<nat, Line>, rows: map<Bank, RowBuffer>, n: nat): Line {
    var d := g.coordinate(n);
    if Cached(rows, d) then rows[BankOf(d)].columns[d.column].line else Backing(g, store, n)
  }

  ghost predicate RowOk(g: Geometry, store: map<nat, Line>, bank: Bank, rb: RowBuffer) {
    && (!rb.open ==> rb.columns == map[])
    && (forall c | c in rb.columns ::
          var b := rb.columns[c];
          && b.number < g.lines && Sized(b.line, g.size)
          && BankOf(g.coordinate(b.number)) == bank && g.coordinate(b.number).row == rb.row
          && g.coordinate(b.number).column == c
          && (!rb.dirty ==> b.line == Backing(g, store, b.number)))
  }

  ghost predicate Coherent(g: Geometry, store: map<nat, Line>, rows: map<Bank, RowBuffer>) {
    && Injective(g)
    && (forall n | n in store :: Sized(store[n], g.size))
    && (forall b | b in rows :: RowOk(g, store, b, rows[b]))
  }

  /** The block cached for line `n` really is line `n`: no other line shares its place. */
  lemma CachedNumber(g: Geometry, store: map<nat, Line>, rows: map<Bank, RowBuffer>, n: nat)
    requires Coherent(g, store, rows) && n < g.lines && Cached(rows, g.coordinate(n))
    ensures rows[BankOf(g.coordinate(n))].columns[g.coordinate(n).column].number == n
  {
    var d := g.coordinate(n);
    var bank := BankOf(d);
    assert RowOk(g, store, bank, rows[bank]);
    var m := rows[bank].columns[d.column].number;
    var e := g.coordinate(m);
    assert BankOf(e) == BankOf(d);
    assert e.channel == BankOf(e).channel && d.channel == BankOf(d).channel;
    assert e.pseudoChannel == BankOf(e).pseudoChannel && e.sid == BankOf(e).sid && e.rank == BankOf(e).rank;
    assert e.bankGroup == BankOf(e).bankGroup && e.bank == BankOf(e).bank;
    assert e == d;
  }

  /** The image's contents as the flat memory it must equal: the written bytes by address. */
  ghost predicate Agrees(g: Geometry, l: Line, memory: map<nat, byte>, n: nat)
    requires Sized(l, g.size)
  {
    MixedRadix.MulMonotone(g.size, 0, n);
    AgreesFrom(g, l, memory, n * g.size)
  }

  /** The line holds the bytes of the memory from address `start` on. */
  ghost predicate AgreesFrom(g: Geometry, l: Line, memory: map<nat, byte>, start: nat)
    requires Sized(l, g.size)
  {
    forall i: nat | i < g.size :: (l.init[i] <==> start + i in memory) && l.bytes[i] == ByteOf(g, memory, start + i)
  }

  function ByteOf(g: Geometry, memory: map<nat, byte>, a: nat): byte {
    if a in memory then memory[a] else g.fill
  }

  ghost predicate Holds(g: Geometry, store: map<nat, Line>, rows: map<Bank, RowBuffer>, memory: map<nat, byte>) {
    && Coherent(g, store, rows)
    && forall n: nat | n < g.lines ::
         Sized(Visible(g, store, rows, n), g.size) && Agrees(g, Visible(g, store, rows, n), memory, n)
  }

  /** What the backend alone holds, once `bank`'s cached lines are written to it. */
  ghost predicate Stored(g: Geometry, old_: map<nat, Line>, store: map<nat, Line>, rows: map<Bank, RowBuffer>, bank: Bank) {
    forall n: nat | n < g.lines ::
      Backing(g, store, n) ==
        if BankOf(g.coordinate(n)) == bank then Visible(g, old_, rows, n) else Backing(g, old_, n)
  }

  /** Closing a bank whose lines are in the backend changes nothing that can be read. */
  lemma CloseKeeps(g: Geometry, old_: map<nat, Line>, store: map<nat, Line>, rows: map<Bank, RowBuffer>,
                   memory: map<nat, byte>, bank: Bank)
    requires Holds(g, old_, rows, memory) && Stored(g, old_, store, rows, bank)
    requires bank in rows && forall n | n in store :: Sized(store[n], g.size)
    ensures Holds(g, store, rows[bank := rows[bank].(open := false, dirty := false, columns := map[])], memory)
  {
    var next := rows[bank := rows[bank].(open := false, dirty := false, columns := map[])];
    forall b | b in next
      ensures RowOk(g, store, b, next[b])
    {
      if b != bank { assert RowOk(g, old_, b, rows[b]); }
    }
    forall n: nat | n < g.lines
      ensures Visible(g, store, next, n) == Visible(g, old_, rows, n)
    {
    }
  }

  /** Marking a written-back bank clean changes nothing that can be read. */
  lemma CleanKeeps(g: Geometry, old_: map<nat, Line>, store: map<nat, Line>, rows: map<Bank, RowBuffer>,
                   memory: map<nat, byte>, bank: Bank)
    requires Holds(g, old_, rows, memory) && Stored(g, old_, store, rows, bank)
    requires bank in rows && rows[bank].open && forall n | n in store :: Sized(store[n], g.size)
    ensures Holds(g, store, rows[bank := rows[bank].(dirty := false)], memory)
  {
    var next := rows[bank := rows[bank].(dirty := false)];
    forall b | b in next
      ensures RowOk(g, store, b, next[b])
    {
      assert RowOk(g, old_, b, rows[b]);
    }
    forall n: nat | n < g.lines
      ensures Visible(g, store, next, n) == Visible(g, old_, rows, n)
    {
    }
  }

  lemma CleanIsStored(g: Geometry, store: map<nat, Line>, rows: map<Bank, RowBuffer>, bank: Bank)
    requires Coherent(g, store, rows) && bank in rows && !rows[bank].dirty
    ensures Stored(g, store, store, rows, bank)
  {
    forall n: nat | n < g.lines && BankOf(g.coordinate(n)) == bank
      ensures Backing(g, store, n) == Visible(g, store, rows, n)
    {
      if Cached(rows, g.coordinate(n)) {
        CachedNumber(g, store, rows, n);
        assert RowOk(g, store, bank, rows[bank]);
      }
    }
  }

  lemma OpenKeeps(g: Geometry, store: map<nat, Line>, rows: map<Bank, RowBuffer>, memory: map<nat, byte>, bank: Bank, row: int)
    requires Holds(g, store, rows, memory) && (bank in rows ==> !rows[bank].open)
    ensures Holds(g, store, rows[bank := RowBuffer(true, false, row, map[])], memory)
  {
    var next := rows[bank := RowBuffer(true, false, row, map[])];
    forall b | b in next
      ensures RowOk(g, store, b, next[b])
    {
      if b != bank { assert RowOk(g, store, b, rows[b]); }
    }
    forall n: nat | n < g.lines
      ensures Visible(g, store, next, n) == Visible(g, store, rows, n)
    {
    }
  }

  /** The row that holds line `n` is open, whether or not the line has been cached yet. */
  predicate RowOpen(rows: map<Bank, RowBuffer>, d: Coordinate) {
    BankOf(d) in rows && rows[BankOf(d)].open && rows[BankOf(d)].row == d.row
  }

  function WithColumn(rows: map<Bank, RowBuffer>, d: Coordinate, b: Block, dirty: bool): map<Bank, RowBuffer>
    requires RowOpen(rows, d)
  {
    var rb := rows[BankOf(d)];
    rows[BankOf(d) := rb.(columns := rb.columns[d.column := b], dirty := rb.dirty || dirty)]
  }

  /** Caching or changing line `n` in its open row changes what is read of line `n` only. */
  lemma ColumnKeeps(g: Geometry, store: map<nat, Line>, rows: map<Bank, RowBuffer>, n: nat, l: Line, dirty: bool)
    requires Coherent(g, store, rows) && n < g.lines && RowOpen(rows, g.coordinate(n)) && Sized(l, g.size)
    requires dirty || l == Visible(g, store, rows, n)
    ensures
      var next := WithColumn(rows, g.coordinate(n), Block(n, l), dirty);
      && Coherent(g, store, next)
      && (forall m: nat | m < g.lines :: Visible(g, store, next, m) == if m == n then l else Visible(g, store, rows, m))
  {
    var d := g.coordinate(n);
    var next := WithColumn(rows, d, Block(n, l), dirty);
    if !dirty { CleanColumn(g, store, rows, n); }
    forall b | b in next
      ensures RowOk(g, store, b, next[b])
    {
      assert RowOk(g, store, b, rows[b]);
    }
    forall m: nat | m < g.lines
      ensures Visible(g, store, next, m) == if m == n then l else Visible(g, store, rows, m)
    {
      var e := g.coordinate(m);
      if BankOf(e) == BankOf(d) && e.row == d.row && e.column == d.column {
        SamePlace(d, e);
      }
    }
  }

  lemma SamePlace(d: Coordinate, e: Coordinate)
    requires BankOf(d) == BankOf(e) && d.row == e.row && d.column == e.column
    ensures d == e
  {
    assert d == BankOf(d).(row := d.row, column := d.column);
    assert e == BankOf(e).(row := e.row, column := e.column);
  }

  lemma CleanColumn(g: Geometry, store: map<nat, Line>, rows: map<Bank, RowBuffer>, n: nat)
    requires Coherent(g, store, rows) && n < g.lines && RowOpen(rows, g.coordinate(n))
    ensures !rows[BankOf(g.coordinate(n))].dirty ==> Visible(g, store, rows, n) == Backing(g, store, n)
  {
    if !rows[BankOf(g.coordinate(n))].dirty {
      CleanIsStored(g, store, rows, BankOf(g.coordinate(n)));
    }
  }

  /** Writing line `n` straight to the backend while its row is closed. */
  lemma DirectKeeps(g: Geometry, store: map<nat, Line>, rows: map<Bank, RowBuffer>, n: nat, l: Line)
    requires Coherent(g, store, rows) && n < g.lines && !RowOpen(rows, g.coordinate(n)) && Sized(l, g.size)
    ensures Coherent(g, store[n := l], rows)
    ensures forall m: nat | m < g.lines :: Visible(g, store[n := l], rows, m) == if m == n then l else Visible(g, store, rows, m)
  {
    forall b | b in rows
      ensures RowOk(g, store[n := l], b, rows[b])
    {
      assert RowOk(g, store, b, rows[b]);
      forall c | c in rows[b].columns
        ensures rows[b].columns[c].number != n
      {
        assert RowOpen(rows, g.coordinate(rows[b].columns[c].number));
      }
    }
  }

  /** Allocating an absent line as blank changes nothing that can be read. */
  lemma AllocateKeeps(g: Geometry, store: map<nat, Line>, rows: map<Bank, RowBuffer>, n: nat)
    requires Coherent(g, store, rows) && n !in store
    ensures Coherent(g, store[n := Blank(g.size, g.fill)], rows)
    ensures forall m: nat :: Visible(g, store[n := Blank(g.size, g.fill)], rows, m) == Visible(g, store, rows, m)
  {
    var next := store[n := Blank(g.size, g.fill)];
    assert forall m: nat :: Backing(g, next, m) == Backing(g, store, m);
    forall b | b in rows
      ensures RowOk(g, next, b, rows[b])
    {
      assert RowOk(g, store, b, rows[b]);
    }
  }

  // ---------------------------------------------------------------- the flat memory

  /** Bytes `lo` to `hi` of a masked write at `address` store a byte at `a`. */
  predicate Touches(address: int, mask: Mask, lo: nat, hi: nat, a: int) {
    address + lo <= a < address + hi && Selected(mask, a - address)
  }

  /** `after` is the flat memory `before` after bytes `lo` to `hi` of a masked write at `address`. */
  ghost predicate IsWritten(before: map<nat, byte>, after: map<nat, byte>, address: int, data: Bytes, mask: Mask, lo: nat, hi: nat)
    requires hi <= |data|
  {
    forall a: nat ::
      && (a in after <==> a in before || Touches(address, mask, lo, hi, a))
      && (a in after ==> after[a] == if Touches(address, mask, lo, hi, a) then data[a - address] else before[a])
  }

  function Written(memory: map<nat, byte>, address: int, data: Bytes, mask: Mask, lo: nat, hi: nat): map<nat, byte>
    requires hi <= |data|
  {
    memory + map a: nat | address + lo <= a < address + hi && Touches(address, mask, lo, hi, a) :: data[a - address]
  }

  lemma WrittenIs(memory: map<nat, byte>, address: int, data: Bytes, mask: Mask, lo: nat, hi: nat)
    requires hi <= |data|
    ensures IsWritten(memory, Written(memory, address, data, mask, lo, hi), address, data, mask, lo, hi)
  {
  }

  lemma WrittenExtend(before: map<nat, byte>, mid: map<nat, byte>, after: map<nat, byte>,
                      address: int, data: Bytes, mask: Mask, m: nat, n: nat)
    requires m <= n <= |data|
    requires IsWritten(before, mid, address, data, mask, 0, m) && IsWritten(mid, after, address, data, mask, m, n)
    ensures IsWritten(before, after, address, data, mask, 0, n)
  {
  }

  /** The line after bytes `lo` to `hi` of a write are stored in it; byte `k` of the write goes to place `k + shift`. */
  function OverlayAt(l: Line, shift: int, data: Bytes, mask: Mask, lo: nat, hi: nat): (r: Line)
    requires hi <= |data|
    ensures |r.bytes| == |l.bytes| && |r.init| == |l.init|
  {
    Line(seq(|l.bytes|, i requires 0 <= i < |l.bytes| =>
               if Touches(shift, mask, lo, hi, i) then data[i - shift] else l.bytes[i]),
         seq(|l.init|, i requires 0 <= i < |l.init| => l.init[i] || Touches(shift, mask, lo, hi, i)))
  }

  predicate NoneSelected(mask: Mask, lo: nat, hi: nat) {
    forall i | lo <= i < hi && i < |mask| :: !mask[i]
  }

  lemma OverlayAtSilent(l: Line, shift: int, data: Bytes, mask: Mask, lo: nat, hi: nat)
    requires hi <= |data| && NoneSelected(mask, lo, hi)
    ensures OverlayAt(l, shift, data, mask, lo, hi) == l
  {
    var r := OverlayAt(l, shift, data, mask, lo, hi);
    forall i: nat
      ensures !Touches(shift, mask, lo, hi, i)
    {
    }
    assert r.bytes == l.bytes;
    assert r.init == l.init;
  }

  lemma LineInside(g: Geometry, a: nat)
    requires a < Capacity(g)
    ensures 0 <= a / g.size < g.lines && 0 <= a % g.size < g.size && a == (a / g.size) * g.size + a % g.size
  {
    MixedRadix.DigitBound(g.size, g.lines, a);
    MixedRadix.DigitSplit(g.size, a);
  }

  /** A line after a write, its first byte being at `start` in the memory. */
  lemma AgreesWrite(g: Geometry, l: Line, before: map<nat, byte>, after: map<nat, byte>, start: nat,
                    address: int, data: Bytes, mask: Mask, lo: nat, hi: nat)
    requires Sized(l, g.size) && AgreesFrom(g, l, before, start) && hi <= |data|
    requires IsWritten(before, after, address, data, mask, lo, hi)
    ensures AgreesFrom(g, OverlayAt(l, address - start, data, mask, lo, hi), after, start)
  {
    var r := OverlayAt(l, address - start, data, mask, lo, hi);
    forall i: nat | i < g.size
      ensures (r.init[i] <==> start + i in after) && r.bytes[i] == ByteOf(g, after, start + i)
    {
      assert Touches(address - start, mask, lo, hi, i) <==> Touches(address, mask, lo, hi, start + i);
    }
  }

  /** Another line lies before the first byte of a write into line `n`, or after its last. */
  lemma OtherLineClear(size: pos, m: nat, n: nat, first: int, last: int)
    requires m != n && n * size <= first && last <= n * size + size
    ensures m * size + size <= first || last <= m * size
  {
    if m < n { MixedRadix.MulMonotone(size, m + 1, n); } else { MixedRadix.MulMonotone(size, n + 1, m); }
    assert (m + 1) * size == m * size + size && (n + 1) * size == n * size + size;
  }

  lemma UntouchedByte(g: Geometry, before: map<nat, byte>, after: map<nat, byte>, a: nat,
                      address: int, data: Bytes, mask: Mask, lo: nat, hi: nat)
    requires hi <= |data| && IsWritten(before, after, address, data, mask, lo, hi) && !Touches(address, mask, lo, hi, a)
    ensures (a in after <==> a in before) && ByteOf(g, after, a) == ByteOf(g, before, a)
  {
  }

  lemma AgreesElsewhere(g: Geometry, l: Line, before: map<nat, byte>, after: map<nat, byte>, start: nat,
                        address: int, data: Bytes, mask: Mask, lo: nat, hi: nat)
    requires Sized(l, g.size) && AgreesFrom(g, l, before, start) && hi <= |data|
    requires start + g.size <= address + lo || address + hi <= start
    requires IsWritten(before, after, address, data, mask, lo, hi)
    ensures AgreesFrom(g, l, after, start)
  {
    forall i: nat | i < g.size
      ensures (l.init[i] <==> start + i in after) && l.bytes[i] == ByteOf(g, after, start + i)
    {
      UntouchedByte(g, before, after, start + i, address, data, mask, lo, hi);
    }
  }

  /** Once no open row is dirty, the backend alone is the flat memory. */
  lemma CleanBackend(g: Geometry, store: map<nat, Line>, rows: map<Bank, RowBuffer>, memory: map<nat, byte>)
    requires Holds(g, store, rows, memory)
    requires forall b | b in rows && rows[b].open :: !rows[b].dirty
    ensures forall n: nat | n < g.lines :: Sized(Backing(g, store, n), g.size) && Agrees(g, Backing(g, store, n), memory, n)
  {
    forall n: nat | n < g.lines
      ensures Backing(g, store, n) == Visible(g, store, rows, n)
    {
      if RowOpen(rows, g.coordinate(n)) { CleanColumn(g, store, rows, n); }
    }
  }

  ghost predicate AllWritten(memory: map<nat, byte>, address: nat, size: nat) {
    forall a: nat | address <= a < address + size :: a in memory
  }

  /** A slice of a line agrees with the memory at its addresses. */
  lemma AgreesRange(g: Geometry, l: Line, memory: map<nat, byte>, n: nat, offset: nat, chunk: nat, address: nat)
    requires Sized(l, g.size) && Agrees(g, l, memory, n) && offset + chunk <= g.size && address == n * g.size + offset
    ensures forall a: nat | address <= a < address + chunk :: l.bytes[offset..offset + chunk][a - address] == ByteOf(g, memory, a)
    ensures forall a: nat | address <= a < address + chunk :: l.init[offset..offset + chunk][a - address] <==> a in memory
  {
    forall a: nat | address <= a < address + chunk
      ensures l.bytes[offset..offset + chunk][a - address] == ByteOf(g, memory, a)
      ensures l.init[offset..offset + chunk][a - address] <==> a in memory
    {
      MixedRadix.MulMonotone(g.size, 0, n);
      var start: nat, i := n * g.size, offset + (a - address);
      assert l.init[i] <==> start + i in memory;
    }
  }

  /** A write into line `n` as another line sees it. */
  lemma OtherAgrees(g: Geometry, l: Line, before: map<nat, byte>, after: map<nat, byte>, m: nat, n: nat,
                    address: int, data: Bytes, mask: Mask, lo: nat, hi: nat)
    requires Sized(l, g.size) && Agrees(g, l, before, m) && m != n && hi <= |data|
    requires n * g.size <= address + lo && address + hi <= n * g.size + g.size
    requires IsWritten(before, after, address, data, mask, lo, hi)
    ensures Agrees(g, l, after, m)
  {
    MixedRadix.MulMonotone(g.size, 0, m);
    OtherLineClear(g.size, m, n, address + lo, address + hi);
    AgreesElsewhere(g, l, before, after, m * g.size, address, data, mask, lo, hi);
  }

  lemma OwnAgrees(g: Geometry, l: Line, before: map<nat, byte>, after: map<nat, byte>, n: nat,
                  address: int, data: Bytes, mask: Mask, lo: nat, hi: nat)
    requires Sized(l, g.size) && Agrees(g, l, before, n) && hi <= |data|
    requires IsWritten(before, after, address, data, mask, lo, hi)
    ensures Agrees(g, OverlayAt(l, address - n * g.size, data, mask, lo, hi), after, n)
  {
    MixedRadix.MulMonotone(g.size, 0, n);
    AgreesWrite(g, l, before, after, n * g.size, address, data, mask, lo, hi);
  }

  /** If exactly line `n` changes, by part of a masked write, the memory changes by that write. */
  lemma WriteHolds(g: Geometry, store: map<nat, Line>, rows: map<Bank, RowBuffer>, before: map<nat, byte>, after: map<nat, byte>,
                   store': map<nat, Line>, rows': map<Bank, RowBuffer>, n: nat,
                   address: int, data: Bytes, mask: Mask, lo: nat, hi: nat)
    requires Holds(g, store, rows, before) && n < g.lines && hi <= |data|
    requires n * g.size <= address + lo && address + hi <= n * g.size + g.size
    requires IsWritten(before, after, address, data, mask, lo, hi)
    requires Coherent(g, store', rows')
    requires forall m: nat | m < g.lines ::
               Visible(g, store', rows', m) ==
                 if m == n then OverlayAt(Visible(g, store, rows, n), address - n * g.size, data, mask, lo, hi)
                 else Visible(g, store, rows, m)
    ensures Holds(g, store', rows', after)
  {
    forall m: nat | m < g.lines
      ensures Sized(Visible(g, store', rows', m), g.size) && Agrees(g, Visible(g, store', rows', m), after, m)
    {
      if m == n { OwnAgrees(g, Visible(g, store, rows, n), before, after, n, address, data, mask, lo, hi); }
      else { OtherAgrees(g, Visible(g, store, rows, m), before, after, m, n, address, data, mask, lo, hi); }
    }
  }

  lemma AllocateHolds(g: Geometry, store: map<nat, Line>, rows: map<Bank, RowBuffer>, memory: map<nat, byte>, n: nat)
    requires Holds(g, store, rows, memory) && n !in store
    ensures Holds(g, store[n := Blank(g.size, g.fill)], rows, memory)
    ensures Visible(g, store[n := Blank(g.size, g.fill)], rows, n) == Visible(g, store, rows, n)
  {
    AllocateKeeps(g, store, rows, n);
    var next := store[n := Blank(g.size, g.fill)];
    forall m: nat | m < g.lines
      ensures Sized(Visible(g, next, rows, m), g.size) && Agrees(g, Visible(g, next, rows, m), memory, m)
    {
      assert Visible(g, next, rows, m) == Visible(g, store, rows, m);
    }
  }

  /** Writing into an open row: the cached copy of an allocated line changes. */
  lemma OpenWriteHolds(g: Geometry, store: map<nat, Line>, rows: map<Bank, RowBuffer>, before: map<nat, byte>, after: map<nat, byte>,
                       n: nat, address: int, data: Bytes, mask: Mask, lo: nat, hi: nat, changed: bool)
    requires Holds(g, store, rows, before) && n < g.lines && hi <= |data| && n in store
    requires n * g.size <= address + lo && address + hi <= n * g.size + g.size
    requires IsWritten(before, after, address, data, mask, lo, hi)
    requires RowOpen(rows, g.coordinate(n)) && (changed || NoneSelected(mask, lo, hi))
    ensures
      var next := OverlayAt(Visible(g, store, rows, n), address - n * g.size, data, mask, lo, hi);
      Holds(g, store, WithColumn(rows, g.coordinate(n), Block(n, next), changed), after)
  {
    var l := Visible(g, store, rows, n);
    if !changed { OverlayAtSilent(l, address - n * g.size, data, mask, lo, hi); }
    var next := OverlayAt(l, address - n * g.size, data, mask, lo, hi);
    ColumnKeeps(g, store, rows, n, next, changed);
    WriteHolds(g, store, rows, before, after, store, WithColumn(rows, g.coordinate(n), Block(n, next), changed), n,
               address, data, mask, lo, hi);
  }

  /** Writing while the row is closed: the line changes in the backend. */
  lemma ClosedWriteHolds(g: Geometry, store: map<nat, Line>, rows: map<Bank, RowBuffer>, before: map<nat, byte>, after: map<nat, byte>,
                         n: nat, address: int, data: Bytes, mask: Mask, lo: nat, hi: nat)
    requires Holds(g, store, rows, before) && n < g.lines && hi <= |data|
    requires n * g.size <= address + lo && address + hi <= n * g.size + g.size
    requires IsWritten(before, after, address, data, mask, lo, hi)
    requires !RowOpen(rows, g.coordinate(n))
    ensures Holds(g, store[n := OverlayAt(Visible(g, store, rows, n), address - n * g.size, data, mask, lo, hi)], rows, after)
  {
    var next := OverlayAt(Visible(g, store, rows, n), address - n * g.size, data, mask, lo, hi);
    DirectKeeps(g, store, rows, n, next);
    WriteHolds(g, store, rows, before, after, store[n := next], rows, n, address, data, mask, lo, hi);
  }

  /** Loading line `n` into its open row as it stands. */
  lemma LoadHolds(g: Geometry, store: map<nat, Line>, rows: map<Bank, RowBuffer>, memory: map<nat, byte>, n: nat)
    requires Holds(g, store, rows, memory) && n < g.lines && RowOpen(rows, g.coordinate(n))
    ensures
      var next := WithColumn(rows, g.coordinate(n), Block(n, Visible(g, store, rows, n)), false);
      Holds(g, store, next, memory) && Visible(g, store, next, n) == Visible(g, store, rows, n)
  {
    ColumnKeeps(g, store, rows, n, Visible(g, store, rows, n), false);
  }

  lemma SetIsWritten(mask: Mask, memory: map<nat, byte>, address: nat)
    requires forall a: nat | address <= a < address + |mask| :: mask[a - address] <==> a in memory
    ensures Full(mask) <==> AllWritten(memory, address, |mask|)
  {
    if AllWritten(memory, address, |mask|) {
      forall i | 0 <= i < |mask| ensures mask[i] { assert mask[(address + i) - address] <==> address + i in memory; }
    }
  }

  lemma WrittenJoin(memory: map<nat, byte>, address: nat, m: nat, n: nat)
    ensures AllWritten(memory, address, m + n) <==> AllWritten(memory, address, m) && AllWritten(memory, address + m, n)
  {
  }
}

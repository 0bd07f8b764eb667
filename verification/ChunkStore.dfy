/**
  The chunk-file backend as values: files of bytes, chunks of them cached, and what the whole holds.
  Lines live at fixed offsets; chunks are runs of lines whose byte offset is a multiple of eight.
 */
module ChunkStore {
  import opened Lines
  import opened EccShadow
  import opened Bitmaps
  import MixedRadix

  type pos = x: int | x > 0 witness 1

  /** `lineSize` bytes a line, `lines` lines, `perChunk` lines a chunk, at most `limit` chunks cached. */
  datatype Layout = Layout(lineSize: pos, lines: pos, perChunk: pos, limit: pos)

  /** Chunks start on a byte boundary of the initialized-bit file. */
  predicate Valid(p: Layout) { (p.perChunk * p.lineSize) % 8 == 0 }

  /** A line's metadata; `stamp` stands for the fields that are only copied. */
  datatype Meta = Meta(version: nat, stamp: nat)

  datatype Record = Record(bytes: Bytes, mask: Mask, meta: Meta)

  /** A run of lines: their bytes, one initialized bit per byte, and their metadata. */
  datatype Area = Area(data: Bytes, init: Bytes, meta: seq<Meta>)

  datatype CachedChunk = CachedChunk(area: Area, lastUse: nat, dirty: bool)

  datatype Store = Store(files: Area, cache: map<nat, CachedChunk>, clock: nat)

  // ---------------------------------------------------------------- geometry

  predicate SizedArea(p: Layout, b: Area, n: nat) {
    |b.data| == n * p.lineSize && |b.init| == CeilDiv8(n * p.lineSize) && |b.meta| == n
  }

  predicate IsChunk(p: Layout, c: nat) { c * p.perChunk < p.lines }

  function ChunkLines(p: Layout, c: nat): nat
    requires IsChunk(p, c)
  {
    if p.perChunk <= p.lines - c * p.perChunk then p.perChunk else p.lines - c * p.perChunk
  }

  function Offset(p: Layout, c: nat): nat { c * p.perChunk * p.lineSize }

  lemma ChunkFits(p: Layout, c: nat)
    requires IsChunk(p, c)
    ensures c * p.perChunk + ChunkLines(p, c) <= p.lines
  {
  }

  /** The bytes of a run of lines. */
  lemma RunBytes(size: nat, first: nat, n: nat, lines: nat)
    requires first + n <= lines
    ensures 0 <= first * size && 0 <= n * size && first * size + n * size <= lines * size
  {
    MixedRadix.MulMonotone(size, first + n, lines);
    MixedRadix.MulMonotone(size, 0, first);
    MixedRadix.MulMonotone(size, 0, n);
    assert (first + n) * size == first * size + n * size;
  }

  lemma OffsetAligned(p: Layout, c: nat)
    requires Valid(p)
    ensures Offset(p, c) % 8 == 0
  {
    Aligned(c, p.perChunk * p.lineSize);
    MixedRadix.DigitJoin(0, 0, c, p.lineSize, p.perChunk);
  }

  /** Bits that start on a byte boundary, counted in bytes. */
  lemma EighthsInside(from: nat, n: nat, whole: nat)
    requires from % 8 == 0 && from + n <= whole
    ensures from / 8 + CeilDiv8(n) <= CeilDiv8(whole)
  {
  }

  lemma ChunkInside(p: Layout, c: nat)
    requires Valid(p) && IsChunk(p, c)
    ensures
      var n := ChunkLines(p, c) * p.lineSize;
      && Offset(p, c) % 8 == 0
      && Offset(p, c) + n <= p.lines * p.lineSize
      && Offset(p, c) / 8 + CeilDiv8(n) <= CeilDiv8(p.lines * p.lineSize)
      && 0 <= c * p.perChunk && c * p.perChunk + ChunkLines(p, c) <= p.lines
  {
    ChunkFits(p, c);
    MixedRadix.MulMonotone(p.perChunk, 0, c);
    OffsetAligned(p, c);
    RunBytes(p.lineSize, c * p.perChunk, ChunkLines(p, c), p.lines);
    EighthsInside(Offset(p, c), ChunkLines(p, c) * p.lineSize, p.lines * p.lineSize);
  }

  lemma Aligned(c: nat, size: nat)
    requires size % 8 == 0
    ensures (c * size) % 8 == 0
  {
    var e := size / 8;
    assert c * size == (c * e) * 8;
    MixedRadix.DigitTake(8, 0, c * e);
  }

  lemma LineInside(p: Layout, n: nat, l: nat)
    requires l < n
    ensures 0 <= l * p.lineSize && l * p.lineSize + p.lineSize <= n * p.lineSize
  {
    RunBytes(p.lineSize, l, 1, n);
  }

  /** Line `l` of a run of `n`. */
  function LineAt(p: Layout, b: Area, n: nat, l: nat): Record
    requires SizedArea(p, b, n) && l < n
  {
    LineInside(p, n, l);
    Record(b.data[l * p.lineSize..l * p.lineSize + p.lineSize],
           seq(p.lineSize, j requires 0 <= j < p.lineSize => ByteBit(b.init, l * p.lineSize + j)),
           b.meta[l])
  }

  /** Byte `j` of two lines, its initialized bit included, is the same. */
  predicate SameByte(p: Layout, a: Area, l: nat, b: Area, m: nat, j: nat) {
    && 0 <= l * p.lineSize && l * p.lineSize + j < |a.data| && 0 <= m * p.lineSize && m * p.lineSize + j < |b.data|
    && a.data[l * p.lineSize + j] == b.data[m * p.lineSize + j]
    && ByteBit(a.init, l * p.lineSize + j) == ByteBit(b.init, m * p.lineSize + j)
  }

  lemma SameLine(p: Layout, a: Area, l: nat, b: Area, m: nat, an: nat, bn: nat)
    requires SizedArea(p, a, an) && l < an && SizedArea(p, b, bn) && m < bn && a.meta[l] == b.meta[m]
    requires forall j: nat | j < p.lineSize :: SameByte(p, a, l, b, m, j)
    ensures LineAt(p, a, an, l) == LineAt(p, b, bn, m)
  {
    LineInside(p, an, l);
    LineInside(p, bn, m);
    var x, y := LineAt(p, a, an, l), LineAt(p, b, bn, m);
    forall j: nat | j < p.lineSize
      ensures x.bytes[j] == y.bytes[j] && x.mask[j] == y.mask[j]
    {
      assert SameByte(p, a, l, b, m, j);
    }
    assert x.bytes == y.bytes && x.mask == y.mask;
  }

  // ---------------------------------------------------------------- what the store holds

  ghost predicate Shaped(p: Layout, s: Store) {
    && Valid(p) && SizedArea(p, s.files, p.lines)
    && forall c | c in s.cache :: IsChunk(p, c) && SizedArea(p, s.cache[c].area, ChunkLines(p, c))
  }

  lemma PlaceInChunk(p: Layout, i: nat)
    requires i < p.lines
    ensures IsChunk(p, i / p.perChunk) && 0 <= i % p.perChunk < ChunkLines(p, i / p.perChunk)
    ensures i == i / p.perChunk * p.perChunk + i % p.perChunk
  {
    MixedRadix.DigitSplit(p.perChunk, i);
  }

  /** Line `i` as the next reader finds it: in its cached chunk, else in the files. */
  function Visible(p: Layout, s: Store, i: nat): Record
    requires Shaped(p, s) && i < p.lines
  {
    PlaceInChunk(p, i);
    var c := i / p.perChunk;
    if c in s.cache then LineAt(p, s.cache[c].area, ChunkLines(p, c), i % p.perChunk) else LineAt(p, s.files, p.lines, i)
  }

  // ---------------------------------------------------------------- reading a chunk from the files

  predicate TakenFits(x: Area, o: nat, n: nat, first: nat, k: nat) {
    o + n <= |x.data| && o / 8 + CeilDiv8(n) <= |x.init| && first + k <= |x.meta|
  }

  /** `n` bytes from byte `o` on with their bits, and the metadata of `k` lines from `first` on. */
  function TakenAt(x: Area, o: nat, n: nat, first: nat, k: nat): Area
    requires TakenFits(x, o, n, first, k)
  {
    Area(x.data[o..o + n], x.init[o / 8..o / 8 + CeilDiv8(n)], x.meta[first..first + k])
  }

  function Taken(p: Layout, files: Area, c: nat): (b: Area)
    requires Valid(p) && SizedArea(p, files, p.lines) && IsChunk(p, c)
    ensures SizedArea(p, b, ChunkLines(p, c))
  {
    ChunkInside(p, c);
    TakenAt(files, Offset(p, c), ChunkLines(p, c) * p.lineSize, c * p.perChunk, ChunkLines(p, c))
  }

  /** Bits of a slice that starts on a byte boundary. */
  lemma SlicedBits(whole: Bytes, from: nat, part: Bytes, k: nat)
    requires from % 8 == 0 && from / 8 + |part| <= |whole| && part == whole[from / 8..from / 8 + |part|] && k < 8 * |part|
    ensures ByteBit(part, k) == ByteBit(whole, from + k)
  {
    assert (from + k) / 8 == from / 8 + k / 8 && (from + k) % 8 == k % 8;
  }

  lemma OffsetOfLine(p: Layout, c: nat, l: nat)
    ensures (c * p.perChunk + l) * p.lineSize == Offset(p, c) + l * p.lineSize
  {
  }

  /** A chunk read from the files holds their lines. */
  lemma TakenLines(p: Layout, files: Area, c: nat, l: nat)
    requires Valid(p) && SizedArea(p, files, p.lines) && IsChunk(p, c) && l < ChunkLines(p, c)
    ensures c * p.perChunk + l < p.lines
    ensures LineAt(p, Taken(p, files, c), ChunkLines(p, c), l) == LineAt(p, files, p.lines, c * p.perChunk + l)
  {
    ChunkInside(p, c);
    var b, n, i := Taken(p, files, c), ChunkLines(p, c), c * p.perChunk + l;
    LineInside(p, n, l);
    OffsetOfLine(p, c, l);
    forall j: nat | j < p.lineSize
      ensures SameByte(p, b, l, files, i, j)
    {
      SlicedBits(files.init, Offset(p, c), b.init, l * p.lineSize + j);
    }
    SameLine(p, b, l, files, i, n, p.lines);
  }

  // ---------------------------------------------------------------- writing a chunk to the files

  function Spliced<T>(whole: seq<T>, from: nat, part: seq<T>): (r: seq<T>)
    requires from + |part| <= |whole|
    ensures |r| == |whole| && r[from..from + |part|] == part
    ensures forall i | 0 <= i < |whole| && !(from <= i < from + |part|) :: r[i] == whole[i]
  {
    whole[..from] + part + whole[from + |part|..]
  }

  predicate PutFits(x: Area, o: nat, first: nat, b: Area) {
    o + |b.data| <= |x.data| && o / 8 + |b.init| <= |x.init| && first + |b.meta| <= |x.meta|
  }

  function PutAt(x: Area, o: nat, first: nat, b: Area): (r: Area)
    requires PutFits(x, o, first, b)
  {
    Area(Spliced(x.data, o, b.data), Spliced(x.init, o / 8, b.init), Spliced(x.meta, first, b.meta))
  }

  function Put(p: Layout, files: Area, c: nat, b: Area): (r: Area)
    requires Valid(p) && SizedArea(p, files, p.lines) && IsChunk(p, c) && SizedArea(p, b, ChunkLines(p, c))
    ensures SizedArea(p, r, p.lines) && Taken(p, r, c) == b
  {
    ChunkInside(p, c);
    PutAt(files, Offset(p, c), c * p.perChunk, b)
  }

  /** Before the chunk's first byte or after its last, also when bits are counted in bytes. */
  predicate Clear(p: Layout, c: nat, x: int)
    requires IsChunk(p, c)
  {
    x < Offset(p, c) || x >= Offset(p, c) + ChunkLines(p, c) * p.lineSize
  }

  lemma ClearEighths(from: nat, n: nat, x: nat)
    requires from % 8 == 0 && (x < from || (x >= from + n && (n % 8 == 0 || x >= from + n + 8)))
    ensures x / 8 < from / 8 || x / 8 >= from / 8 + CeilDiv8(n)
  {
  }

  /** A line of another chunk lies before the chunk, or after a full one. */
  lemma OtherLine(p: Layout, c: nat, i: nat)
    requires IsChunk(p, c) && i < p.lines && i / p.perChunk != c
    ensures i < c * p.perChunk || (i >= c * p.perChunk + p.perChunk && ChunkLines(p, c) == p.perChunk)
  {
    var d := i / p.perChunk;
    MixedRadix.DigitSplit(p.perChunk, i);
    if d < c {
      MixedRadix.DigitOrder(p.perChunk, i % p.perChunk, d, 0, c);
    } else {
      MixedRadix.MulMonotone(p.perChunk, c + 1, d);
      assert (c + 1) * p.perChunk == c * p.perChunk + p.perChunk;
    }
  }

  /** A line of another chunk lies clear of the chunk's bytes. */
  lemma OtherLineClear(p: Layout, c: nat, i: nat, j: nat)
    requires Valid(p) && IsChunk(p, c) && i < p.lines && i / p.perChunk != c && j < p.lineSize
    ensures i < c * p.perChunk || i >= c * p.perChunk + ChunkLines(p, c)
    ensures 0 <= i * p.lineSize && Clear(p, c, i * p.lineSize + j)
    ensures (i * p.lineSize + j) / 8 < Offset(p, c) / 8
            || (i * p.lineSize + j) / 8 >= Offset(p, c) / 8 + CeilDiv8(ChunkLines(p, c) * p.lineSize)
  {
    OtherLine(p, c, i);
    OffsetAligned(p, c);
    var first, size := c * p.perChunk, p.lineSize;
    if i < first {
      RunBytes(size, i, 1, first);
    } else {
      RunBytes(size, first, p.perChunk, i);
    }
    ClearEighths(Offset(p, c), ChunkLines(p, c) * size, i * size + j);
  }

  /** Writing a chunk back changes the chunk's lines in the files and no others. */
  lemma PutLines(p: Layout, files: Area, c: nat, b: Area, i: nat)
    requires Valid(p) && SizedArea(p, files, p.lines) && IsChunk(p, c) && SizedArea(p, b, ChunkLines(p, c)) && i < p.lines
    ensures (PlaceInChunk(p, i); LineAt(p, Put(p, files, c, b), p.lines, i) ==
              if i / p.perChunk == c then LineAt(p, b, ChunkLines(p, c), i % p.perChunk) else LineAt(p, files, p.lines, i))
  {
    PlaceInChunk(p, i);
    var r := Put(p, files, c, b);
    if i / p.perChunk == c {
      TakenLines(p, r, c, i % p.perChunk);
    } else {
      UntouchedLine(p, files, c, b, i);
    }
  }

  lemma UntouchedByte(p: Layout, files: Area, c: nat, b: Area, i: nat, j: nat)
    requires Valid(p) && SizedArea(p, files, p.lines) && IsChunk(p, c) && SizedArea(p, b, ChunkLines(p, c)) && i < p.lines
    requires i / p.perChunk != c && j < p.lineSize
    ensures 0 <= i * p.lineSize + j < p.lines * p.lineSize
    ensures Put(p, files, c, b).data[i * p.lineSize + j] == files.data[i * p.lineSize + j]
    ensures ByteBit(Put(p, files, c, b).init, i * p.lineSize + j) == ByteBit(files.init, i * p.lineSize + j)
    ensures Put(p, files, c, b).meta[i] == files.meta[i]
  {
    LineInside(p, p.lines, i);
    ChunkInside(p, c);
    OtherLineClear(p, c, i, j);
  }

  lemma UntouchedLine(p: Layout, files: Area, c: nat, b: Area, i: nat)
    requires Valid(p) && SizedArea(p, files, p.lines) && IsChunk(p, c) && SizedArea(p, b, ChunkLines(p, c)) && i < p.lines
    requires i / p.perChunk != c
    ensures LineAt(p, Put(p, files, c, b), p.lines, i) == LineAt(p, files, p.lines, i)
  {
    var r := Put(p, files, c, b);
    UntouchedByte(p, files, c, b, i, 0);
    SameLine(p, r, i, files, i, p.lines, p.lines) by {
      forall j: nat | j < p.lineSize
        ensures SameByte(p, r, i, files, i, j)
      {
        UntouchedByte(p, files, c, b, i, j);
      }
    }
  }

  /** Two chunks share no byte of any file. */
  lemma ChunksApart(p: Layout, c: nat, d: nat)
    requires Valid(p) && IsChunk(p, c) && IsChunk(p, d) && c < d
    ensures Offset(p, c) + ChunkLines(p, c) * p.lineSize <= Offset(p, d)
    ensures Offset(p, c) / 8 + CeilDiv8(ChunkLines(p, c) * p.lineSize) <= Offset(p, d) / 8
    ensures c * p.perChunk + ChunkLines(p, c) <= d * p.perChunk
  {
    OffsetAligned(p, c);
    OffsetAligned(p, d);
    LaterChunk(p, c, d);
    RunBytes(p.lineSize, c * p.perChunk, ChunkLines(p, c), d * p.perChunk);
    EighthsInside(Offset(p, c), ChunkLines(p, c) * p.lineSize, Offset(p, d));
  }

  lemma LaterChunk(p: Layout, c: nat, d: nat)
    requires IsChunk(p, c) && c < d
    ensures c * p.perChunk + ChunkLines(p, c) <= d * p.perChunk
  {
    MixedRadix.MulMonotone(p.perChunk, c + 1, d);
    assert (c + 1) * p.perChunk == c * p.perChunk + p.perChunk;
  }

  /** Slices at one place of an area are untouched by splices at another. */
  lemma PutAtOther(x: Area, o: nat, first: nat, b: Area, from: nat, n: nat, start: nat, k: nat)
    requires PutFits(x, o, first, b) && TakenFits(x, from, n, start, k)
    requires from + n <= o || o + |b.data| <= from
    requires from / 8 + CeilDiv8(n) <= o / 8 || o / 8 + |b.init| <= from / 8
    requires start + k <= first || first + |b.meta| <= start
    ensures TakenAt(PutAt(x, o, first, b), from, n, start, k) == TakenAt(x, from, n, start, k)
  {
    var r := PutAt(x, o, first, b);
    assert r.data[from..from + n] == x.data[from..from + n];
    assert r.init[from / 8..from / 8 + CeilDiv8(n)] == x.init[from / 8..from / 8 + CeilDiv8(n)];
    assert r.meta[start..start + k] == x.meta[start..start + k];
  }

  /** Writing one chunk back leaves every other chunk of the files as it was. */
  lemma PutOther(p: Layout, files: Area, c: nat, b: Area, d: nat)
    requires Valid(p) && SizedArea(p, files, p.lines) && IsChunk(p, c) && SizedArea(p, b, ChunkLines(p, c))
    requires IsChunk(p, d) && d != c
    ensures Taken(p, Put(p, files, c, b), d) == Taken(p, files, d)
  {
    ChunkInside(p, c);
    ChunkInside(p, d);
    if c < d { ChunksApart(p, c, d); } else { ChunksApart(p, d, c); }
    PutAtOther(files, Offset(p, c), c * p.perChunk, b,
               Offset(p, d), ChunkLines(p, d) * p.lineSize, d * p.perChunk, ChunkLines(p, d));
  }

  // ---------------------------------------------------------------- storing a line in a chunk

  /** `map_` with the first `k` bits of `mask` placed from bit `from` on. */
  function WithMask(map_: Bytes, from: nat, mask: Mask, k: nat): (r: Bytes)
    requires k <= |mask|
    ensures |r| == |map_|
  {
    if k == 0 then map_ else SetBit(WithMask(map_, from, mask, k - 1), from + k - 1, mask[k - 1])
  }

  lemma {:induction false} WithMaskBits(map_: Bytes, from: nat, mask: Mask, k: nat, j: nat)
    requires k <= |mask| && from + k <= 8 * |map_|
    ensures ByteBit(WithMask(map_, from, mask, k), j) == if from <= j < from + k then mask[j - from] else ByteBit(map_, j)
  {
    if k > 0 {
      WithMaskBits(map_, from, mask, k - 1, j);
      SetBitAt(WithMask(map_, from, mask, k - 1), from + k - 1, mask[k - 1], j);
    }
  }

  predicate SizedRecord(p: Layout, line: Record) { |line.bytes| == |line.mask| == p.lineSize }

  /** A chunk with line `l` replaced. */
  function Patched(p: Layout, b: Area, n: nat, l: nat, line: Record): (r: Area)
    requires SizedArea(p, b, n) && l < n && SizedRecord(p, line)
    ensures SizedArea(p, r, n)
  {
    LineInside(p, n, l);
    Area(Spliced(b.data, l * p.lineSize, line.bytes), WithMask(b.init, l * p.lineSize, line.mask, p.lineSize),
         b.meta[l := line.meta])
  }

  lemma PatchedOwn(p: Layout, b: Area, n: nat, l: nat, line: Record)
    requires SizedArea(p, b, n) && l < n && SizedRecord(p, line)
    ensures LineAt(p, Patched(p, b, n, l, line), n, l) == line
  {
    LineInside(p, n, l);
    var r := Patched(p, b, n, l, line);
    var x := LineAt(p, r, n, l);
    forall j: nat | j < p.lineSize
      ensures x.mask[j] == line.mask[j]
    {
      WithMaskBits(b.init, l * p.lineSize, line.mask, p.lineSize, l * p.lineSize + j);
    }
    assert x.mask == line.mask;
  }

  lemma PatchedOther(p: Layout, b: Area, n: nat, l: nat, line: Record, m: nat)
    requires SizedArea(p, b, n) && l < n && SizedRecord(p, line) && m < n && m != l
    ensures LineAt(p, Patched(p, b, n, l, line), n, m) == LineAt(p, b, n, m)
  {
    LineInside(p, n, l);
    LineInside(p, n, m);
    var r := Patched(p, b, n, l, line);
    if m < l { LineInside(p, l, m); } else { LineInside(p, m, l); }
    forall j: nat | j < p.lineSize
      ensures SameByte(p, r, m, b, m, j)
    {
      WithMaskBits(b.init, l * p.lineSize, line.mask, p.lineSize, m * p.lineSize + j);
    }
    SameLine(p, r, m, b, m, n, n);
  }
}

/** The chunk-file backend object: files, chunk cache, bit maps and counters updated in place. */
module ChunkFileObject {
  import opened Lines
  import opened EccShadow
  import opened Bitmaps
  import opened ChunkStore
  import opened ChunkCache
  import opened ChunkBackend
  import opened Wrappers
  import MixedRadix

  datatype Fault = OutOfRange | BadLine

  /** The line number of a byte address, if it is one. */
  function IndexOf(p: Layout, base: nat): Result<nat, Fault> {
    if base % p.lineSize != 0 || base >= p.lines * p.lineSize then Err(OutOfRange)
    else (MixedRadix.DigitSplit(p.lineSize, base); Ok(base / p.lineSize))
  }

  class ChunkFile {
    const p: Layout
    var files: Area
    var present: Bytes
    var written: Bytes
    var presentCount: int
    var writtenCount: int
    var headerPresent: int
    var headerWritten: int
    var cache: map<nat, CachedChunk>
    var clock: nat

    ghost function Chunks(): Store
      reads this
    {
      Store(files, cache, clock)
    }

    ghost function Now(): Backend
      reads this
    {
      Backend(Chunks(), present, written, presentCount, writtenCount, headerPresent, headerWritten)
    }

    /** Opens files: nothing is cached and the counters come from the header. */
    constructor (p: Layout, files: Area, present: Bytes, written: Bytes, presentCount: int, writtenCount: int)
      ensures this.p == p
      ensures Now() == Backend(Store(files, map[], 0), present, written, presentCount, writtenCount, presentCount, writtenCount)
      ensures Valid(p) && SizedArea(p, files, p.lines) ==> CacheOk(p, Chunks())
    {
      this.p, this.files, this.present, this.written := p, files, present, written;
      this.presentCount, this.writtenCount := presentCount, writtenCount;
      headerPresent, headerWritten := presentCount, writtenCount;
      cache, clock := map[], 0;
    }

    /** Creates new files, which hold nothing. */
    constructor Create(p: Layout)
      requires Valid(p)
      ensures this.p == p && Now() == Created(p) && CacheOk(p, Chunks()) && BackendShaped(p, Now())
      ensures SomeLog(p, Now(), map[]) && FilesCurrent(Now())
    {
      var b := Created(p);
      this.p, files, present, written := p, b.store.files, b.present, b.written;
      presentCount, writtenCount, headerPresent, headerWritten := 0, 0, 0, 0;
      cache, clock := map[], 0;
      new;
      CreatedHoldsNothing(p);
    }

    method CheckedIndex(base: nat) returns (r: Result<nat, Fault>)
      ensures r == IndexOf(p, base)
      ensures r.Ok? ==> r.value < p.lines && base == r.value * p.lineSize
    {
      var capacity := p.lines * p.lineSize;
      MixedRadix.DigitSplit(p.lineSize, base);
      if base < capacity {
        MixedRadix.DigitBound(p.lineSize, p.lines, base);
        LineInside(p, p.lines, base / p.lineSize);
      }
      if base % p.lineSize != 0 || base >= capacity || capacity - base < p.lineSize { return Err(OutOfRange); }
      return Ok(base / p.lineSize);
    }

    /** Writes a dirty chunk to its place in the files. */
    method WriteChunk(c: nat)
      requires Shaped(p, Chunks()) && c in cache
      modifies this`files, this`cache
      ensures Chunks() == WrittenBack(p, old(Chunks()), c)
    {
      if !cache[c].dirty { return; }
      files := Put(p, files, c, cache[c].area);
      cache := cache[c := cache[c].(dirty := false)];
    }

    method LeastRecent() returns (v: nat)
      requires exists d :: d in cache
      ensures IsVictim(Chunks(), v)
    {
      v :| v in cache;
      var left := cache.Keys - {v};
      while left != {}
        invariant left <= cache.Keys && v in cache
        invariant forall d | d in cache && d !in left :: cache[v].lastUse <= cache[d].lastUse
        decreases |left|
      {
        var d :| d in left;
        if cache[d].lastUse < cache[v].lastUse { v := d; }
        left := left - {d};
      }
    }

    /** Brings a chunk into the cache, giving up the least recently used one if there is no room. */
    method EnsureChunk(c: nat) returns (ghost v: nat)
      requires CacheOk(p, Chunks()) && IsChunk(p, c)
      modifies this`files, this`cache, this`clock
      ensures MayEnsure(p, old(Chunks()), c, v)
      ensures Chunks() == Ensured(p, old(Chunks()), c, v)
    {
      v := 0;
      if c in cache {
        clock := clock + 1;
        cache := cache[c := cache[c].(lastUse := clock)];
        return;
      }
      if |cache| >= p.limit {
        SomeKey(cache);
        var least := LeastRecent();
        v := least;
        ghost var before := Chunks();
        WriteChunk(least);
        WriteBackKeeps(p, before, least);
        cache := cache - {least};
      }
      ReadChunk(c);
    }

    /** Reads a chunk in from the files. */
    method ReadChunk(c: nat)
      requires Shaped(p, Chunks()) && IsChunk(p, c)
      modifies this`cache, this`clock
      ensures Chunks() == ReadIn(p, old(Chunks()), c)
    {
      clock := clock + 1;
      cache := cache[c := CachedChunk(Taken(p, files, c), clock, false)];
    }

    /** Reads a line, if it exists. */
    method Load(base: nat) returns (r: Result<Option<Record>, Fault>, ghost v: nat)
      requires BackendShaped(p, Now()) && CacheOk(p, Chunks())
      modifies this`files, this`cache, this`clock
      ensures
        match IndexOf(p, base)
        case Ok(i) =>
          && i < p.lines && (MayEnsure(p, old(Chunks()), ChunkOf(p, i), v) || i !in Existing(p, old(present)))
          && r == Ok(LoadResult(p, old(Now()), i))
          && (i in Existing(p, old(present)) ==> Now() == Loaded(p, old(Now()), i, v))
          && (i !in Existing(p, old(present)) ==> Now() == old(Now()))
        case Err(_) => r == Err(OutOfRange) && Now() == old(Now())
    {
      var index := CheckedIndex(base);
      if !index.Ok? { return Err(OutOfRange), 0; }
      var i := index.value;
      if !ByteBit(present, i) { return Ok(None), 0; }
      var line;
      line, v := LoadFromChunk(i);
      PlaceInChunk(p, i);
      r := Ok(Some(line));
    }

    method LoadFromChunk(i: nat) returns (line: Record, ghost v: nat)
      requires CacheOk(p, Chunks()) && i < p.lines
      modifies this`files, this`cache, this`clock
      ensures IsChunk(p, ChunkOf(p, i)) && MayEnsure(p, old(Chunks()), ChunkOf(p, i), v)
      ensures Chunks() == Ensured(p, old(Chunks()), ChunkOf(p, i), v)
      ensures line == Visible(p, old(Chunks()), i)
    {
      PlaceInChunk(p, i);
      var c := ChunkOf(p, i);
      ghost var before := Chunks();
      v := EnsureChunk(c);
      EnsureKeeps(p, before, c, v);
      line := ReadLine(cache[c].area, ChunkLines(p, c), i % p.perChunk);
      assert line == Visible(p, Chunks(), i);
    }

    method ReadLine(b: Area, n: nat, l: nat) returns (line: Record)
      requires SizedArea(p, b, n) && l < n
      ensures line == LineAt(p, b, n, l)
    {
      LineInside(p, n, l);
      var from := l * p.lineSize;
      var mask: Mask := [];
      for j := 0 to p.lineSize
        invariant mask == LineAt(p, b, n, l).mask[..j]
      {
        mask := mask + [ByteBit(b.init, from + j)];
      }
      line := Record(b.data[from..from + p.lineSize], mask, b.meta[l]);
    }

    method PatchLine(b: Area, n: nat, l: nat, line: Record) returns (r: Area)
      requires SizedArea(p, b, n) && l < n && SizedRecord(p, line)
      ensures r == Patched(p, b, n, l, line)
    {
      LineInside(p, n, l);
      var from := l * p.lineSize;
      var init := b.init;
      for j := 0 to p.lineSize
        invariant init == WithMask(b.init, from, line.mask, j)
      {
        init := SetBit(init, from + j, line.mask[j]);
      }
      r := Area(b.data[..from] + line.bytes + b.data[from + p.lineSize..], init, b.meta[l := line.meta]);
    }

    /** Marks a stored line as existing, and as written or not, and counts. */
    method MarkLine(i: nat, version: nat)
      modifies this`present, this`presentCount, this`written, this`writtenCount
      ensures (present, presentCount) == Marked(old(present), old(presentCount), i, true)
      ensures (written, writtenCount) == Marked(old(written), old(writtenCount), i, version > 0)
    {
      if !ByteBit(present, i) {
        present := SetBit(present, i, true);
        presentCount := presentCount + 1;
      }
      var wasWritten := ByteBit(written, i);
      if version > 0 && !wasWritten {
        written := SetBit(written, i, true);
        writtenCount := writtenCount + 1;
      } else if version == 0 && wasWritten {
        written := SetBit(written, i, false);
        writtenCount := writtenCount - 1;
      }
    }

    method StoreInChunk(i: nat, line: Record) returns (ghost v: nat)
      requires CacheOk(p, Chunks()) && i < p.lines && SizedRecord(p, line)
      modifies this`files, this`cache, this`clock
      ensures MayEnsure(p, old(Chunks()), ChunkOf(p, i), v)
      ensures Chunks() == StoredChunks(p, old(Chunks()), i, line, v)
    {
      PlaceInChunk(p, i);
      var c, l: nat := ChunkOf(p, i), i % p.perChunk;
      ghost var before := Chunks();
      v := EnsureChunk(c);
      EnsureKeeps(p, before, c, v);
      var area := PatchLine(cache[c].area, ChunkLines(p, c), l, line);
      cache := cache[c := CachedChunk(area, cache[c].lastUse, true)];
    }

    /** Stores a line; tells whether it is new. */
    method StoreLine(base: nat, line: Record) returns (r: Result<bool, Fault>, ghost v: nat)
      requires BackendShaped(p, Now()) && CacheOk(p, Chunks())
      modifies this
      ensures
        if !SizedRecord(p, line) then r == Err(BadLine) && Now() == old(Now())
        else match IndexOf(p, base)
          case Ok(i) =>
            && i < p.lines && MayEnsure(p, old(Chunks()), ChunkOf(p, i), v)
            && r == Ok(LoadResult(p, old(Now()), i).None?)
            && Now() == Stored(p, old(Now()), i, line, v)
          case Err(_) => r == Err(OutOfRange) && Now() == old(Now())
    {
      if |line.bytes| != p.lineSize || |line.mask| != p.lineSize { return Err(BadLine), 0; }
      var index := CheckedIndex(base);
      if !index.Ok? { return Err(OutOfRange), 0; }
      var i := index.value;
      var inserted := !ByteBit(present, i);
      v := StoreInChunk(i, line);
      MarkLine(i, line.meta.version);
      r := Ok(inserted);
    }

    method WriteAllChunks()
      requires CacheOk(p, Chunks())
      modifies this`files, this`cache
      ensures IsFlushed(p, old(Chunks()), Chunks())
    {
      ghost var before := Chunks();
      var left := cache.Keys;
      while left != {}
        invariant left <= cache.Keys && FlushedExcept(p, before, Chunks(), left)
        decreases |left|
      {
        var c :| c in left;
        ghost var now := Chunks();
        WriteChunk(c);
        FlushOne(p, before, now, left, c);
        left := left - {c};
      }
      FlushedAll(p, before, Chunks());
    }

    /** Writes every dirty chunk, and the counters to the header. */
    method Flush()
      requires CacheOk(p, Chunks())
      modifies this`files, this`cache, this`headerPresent, this`headerWritten
      ensures IsFlushed(p, old(Chunks()), Chunks())
      ensures Now() == old(Now()).(store := Chunks(), headerPresent := presentCount, headerWritten := writtenCount)
    {
      WriteAllChunks();
      WriteHeader();
    }

    method WriteHeader()
      modifies this`headerPresent, this`headerWritten
      ensures Now() == old(Now()).(headerPresent := presentCount, headerWritten := writtenCount)
    {
      headerPresent, headerWritten := presentCount, writtenCount;
    }

    /** The addresses of all existing lines, in increasing order. */
    method AllAddresses() returns (addresses: seq<nat>)
      requires |present| == CeilDiv8(p.lines)
      ensures |addresses| == Counted(View(present), p.lines)
      ensures forall i: nat | i < p.lines :: i * p.lineSize in addresses <==> ByteBit(present, i)
      ensures forall j, k | 0 <= j < k < |addresses| :: addresses[j] < addresses[k]
    {
      var indices := VisitSetBits(present, p.lines);
      ListedExact(View(present), p.lines);
      addresses := [];
      for k := 0 to |indices|
        invariant |addresses| == k && forall j | 0 <= j < k :: addresses[j] == indices[j] * p.lineSize
      {
        MixedRadix.MulMonotone(p.lineSize, 0, indices[k]);
        addresses := addresses + [indices[k] * p.lineSize];
      }
      AddressesExact(p, present, indices, addresses);
    }
  }

  /** The lines a presence map says exist. */
  ghost function Existing(p: Layout, present: Bytes): set<nat> {
    set i: nat | i < p.lines && ByteBit(present, i)
  }

  lemma SomeKey<V>(m: map<nat, V>)
    requires |m| > 0
    ensures exists d :: d in m
  {
    assert m.Keys != {};
    var d :| d in m.Keys;
  }

  lemma AddressesExact(p: Layout, present: Bytes, indices: seq<nat>, addresses: seq<nat>)
    requires |present| == CeilDiv8(p.lines) && indices == Listed(View(present), p.lines) && |addresses| == |indices|
    requires forall j | 0 <= j < |addresses| :: addresses[j] == indices[j] * p.lineSize
    ensures forall i: nat | i < p.lines :: i * p.lineSize in addresses <==> ByteBit(present, i)
    ensures forall j, k | 0 <= j < k < |addresses| :: addresses[j] < addresses[k]
  {
    ListedExact(View(present), p.lines);
    forall i: nat | i < p.lines
      ensures i * p.lineSize in addresses <==> ByteBit(present, i)
    {
      if ByteBit(present, i) {
        assert View(present)[i] && i in indices;
        var j :| 0 <= j < |indices| && indices[j] == i;
        assert addresses[j] == i * p.lineSize;
      }
      if j :| 0 <= j < |addresses| && addresses[j] == i * p.lineSize {
        MixedRadix.DigitUnique(p.lineSize, 0, i, 0, indices[j]);
        assert indices[j] in indices && View(present)[i];
      }
    }
    forall j, k | 0 <= j < k < |addresses|
      ensures addresses[j] < addresses[k]
    {
      MixedRadix.DigitOrder(p.lineSize, 0, indices[j], 0, indices[k]);
    }
  }

  /** `t` is `s` flushed, but for the chunks in `left`. */
  ghost predicate FlushedExcept(p: Layout, s: Store, t: Store, left: set<nat>)
    requires Shaped(p, s)
  {
    && Shaped(p, t) && t.clock == s.clock && t.cache.Keys == s.cache.Keys
    && (forall c | c in s.cache :: t.cache[c] == if c in left then s.cache[c] else s.cache[c].(dirty := false))
    && forall c | IsChunk(p, c) ::
         Taken(p, t.files, c) == if c in s.cache && c !in left && s.cache[c].dirty then s.cache[c].area else Taken(p, s.files, c)
  }

  lemma FlushedAll(p: Layout, s: Store, t: Store)
    requires Shaped(p, s) && FlushedExcept(p, s, t, {})
    ensures IsFlushed(p, s, t)
  {
  }

  /** What chunk `d` of the files holds once chunk `c` was written back. */
  lemma WrittenChunk(p: Layout, t: Store, c: nat, d: nat)
    requires Shaped(p, t) && c in t.cache && IsChunk(p, d)
    ensures Shaped(p, WrittenBack(p, t, c))
    ensures Taken(p, WrittenBack(p, t, c).files, d) == if d == c && t.cache[c].dirty then t.cache[c].area else Taken(p, t.files, d)
  {
    if t.cache[c].dirty && d != c { PutOther(p, t.files, c, t.cache[c].area, d); }
  }

  lemma FlushOne(p: Layout, s: Store, t: Store, left: set<nat>, c: nat)
    requires Shaped(p, s) && FlushedExcept(p, s, t, left) && c in left && c in s.cache
    ensures FlushedExcept(p, s, WrittenBack(p, t, c), left - {c})
  {
    var u := WrittenBack(p, t, c);
    WrittenChunk(p, t, c, c);
    assert u.cache.Keys == t.cache.Keys;
    forall d | IsChunk(p, d)
      ensures Taken(p, u.files, d) ==
              if d in s.cache && d !in left - {c} && s.cache[d].dirty then s.cache[d].area else Taken(p, s.files, d)
    {
      WrittenChunk(p, t, c, d);
    }
  }
}

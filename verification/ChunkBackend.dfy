/** Whole runs of the chunk-file backend: every load returns what was last stored, and a flush puts it all in the files. */
module ChunkBackend {
  import opened Lines
  import opened EccShadow
  import opened Bitmaps
  import opened ChunkStore
  import opened ChunkCache
  import opened Bits
  import opened Wrappers
  import MixedRadix

  /** The store, the maps of existing and of written lines, and their counters in memory and in the file header. */
  datatype Backend = Backend(store: Store, present: Bytes, written: Bytes, presentCount: int, writtenCount: int,
                             headerPresent: int, headerWritten: int)

  ghost predicate BackendShaped(p: Layout, b: Backend) {
    Shaped(p, b.store) && |b.present| == |b.written| == CeilDiv8(p.lines)
  }

  function ChunkOf(p: Layout, i: nat): nat { i / p.perChunk }

  /** A victim is named exactly if one is needed. */
  ghost predicate MayEnsure(p: Layout, s: Store, c: nat, v: nat) {
    c !in s.cache && |s.cache| >= p.limit ==> IsVictim(s, v)
  }

  // ---------------------------------------------------------------- operations

  function Loaded(p: Layout, b: Backend, i: nat, v: nat): Backend
    requires BackendShaped(p, b) && i < p.lines && MayEnsure(p, b.store, ChunkOf(p, i), v)
  {
    PlaceInChunk(p, i);
    if ByteBit(b.present, i) then b.(store := Ensured(p, b.store, ChunkOf(p, i), v)) else b
  }

  function LoadResult(p: Layout, b: Backend, i: nat): Option<Record>
    requires BackendShaped(p, b) && i < p.lines
  {
    if ByteBit(b.present, i) then Some(Visible(p, b.store, i)) else None
  }

  function Marked(map_: Bytes, counter: int, i: nat, value: bool): (Bytes, int) {
    (SetBit(map_, i, value), counter + if ByteBit(map_, i) == value then 0 else if value then 1 else -1)
  }

  ghost function StoredChunks(p: Layout, s: Store, i: nat, line: Record, v: nat): Store
    requires CacheOk(p, s) && i < p.lines && SizedRecord(p, line) && MayEnsure(p, s, ChunkOf(p, i), v)
  {
    PlaceInChunk(p, i);
    EnsureKeeps(p, s, ChunkOf(p, i), v);
    LineStored(p, Ensured(p, s, ChunkOf(p, i), v), i, line)
  }

  ghost function Stored(p: Layout, b: Backend, i: nat, line: Record, v: nat): Backend
    requires CacheOk(p, b.store) && i < p.lines && SizedRecord(p, line) && MayEnsure(p, b.store, ChunkOf(p, i), v)
  {
    var present := Marked(b.present, b.presentCount, i, true);
    var written := Marked(b.written, b.writtenCount, i, line.meta.version > 0);
    b.(store := StoredChunks(p, b.store, i, line, v),
       present := present.0, presentCount := present.1, written := written.0, writtenCount := written.1)
  }

  /** `t` is `s` with every dirty chunk written back. */
  ghost predicate IsFlushed(p: Layout, s: Store, t: Store)
    requires Shaped(p, s)
  {
    && Shaped(p, t) && t.clock == s.clock && t.cache.Keys == s.cache.Keys
    && (forall c | c in s.cache :: t.cache[c] == s.cache[c].(dirty := false))
    && forall c | IsChunk(p, c) ::
         Taken(p, t.files, c) == if c in s.cache && s.cache[c].dirty then s.cache[c].area else Taken(p, s.files, c)
  }

  /** The lines of a chunk as the next reader finds them: its cached copy, else the files'. */
  function CurrentChunk(p: Layout, s: Store, c: nat): (r: Area)
    requires Shaped(p, s) && IsChunk(p, c)
    ensures SizedArea(p, r, ChunkLines(p, c))
  {
    if c in s.cache then s.cache[c].area else Taken(p, s.files, c)
  }

  lemma VisibleInChunk(p: Layout, s: Store, i: nat)
    requires Shaped(p, s) && i < p.lines
    ensures IsChunk(p, ChunkOf(p, i)) && 0 <= i % p.perChunk < ChunkLines(p, ChunkOf(p, i))
    ensures Visible(p, s, i) == LineAt(p, CurrentChunk(p, s, ChunkOf(p, i)), ChunkLines(p, ChunkOf(p, i)), i % p.perChunk)
  {
    PlaceInChunk(p, i);
    if ChunkOf(p, i) !in s.cache { TakenLines(p, s.files, ChunkOf(p, i), i % p.perChunk); }
  }

  lemma FlushKeepsChunk(p: Layout, s: Store, t: Store, c: nat)
    requires Shaped(p, s) && IsFlushed(p, s, t) && IsChunk(p, c)
    ensures CurrentChunk(p, t, c) == CurrentChunk(p, s, c)
  {
    assert c in t.cache.Keys <==> c in s.cache.Keys;
  }

  lemma FlushKeepsLine(p: Layout, s: Store, t: Store, i: nat)
    requires Shaped(p, s) && IsFlushed(p, s, t) && i < p.lines
    ensures Visible(p, t, i) == Visible(p, s, i)
  {
    VisibleInChunk(p, s, i);
    VisibleInChunk(p, t, i);
    FlushKeepsChunk(p, s, t, ChunkOf(p, i));
  }

  /** Flushing changes no line and leaves every cached chunk a slice of the files. */
  lemma FlushKeeps(p: Layout, s: Store, t: Store)
    requires CacheOk(p, s) && IsFlushed(p, s, t)
    ensures CacheOk(p, t) && SameView(p, s, t) && AllClean(t)
  {
    forall i: nat | i < p.lines
      ensures Visible(p, t, i) == Visible(p, s, i)
    {
      FlushKeepsLine(p, s, t, i);
    }
    assert |t.cache.Keys| == |s.cache.Keys|;
  }

  lemma FlushRecent(p: Layout, s: Store, t: Store, log: seq<nat>)
    requires Shaped(p, s) && IsFlushed(p, s, t) && Recent(s, log)
    ensures Recent(t, log)
  {
  }

  // ---------------------------------------------------------------- what is kept

  /** The presence map says which lines exist, and each of them reads back as its contents. */
  ghost predicate Holds(p: Layout, s: Store, present: Bytes, contents: map<nat, Record>)
    requires Shaped(p, s)
  {
    && |present| == CeilDiv8(p.lines)
    && (forall i | i in contents :: i < p.lines && Visible(p, s, i) == contents[i])
    && forall i: nat | i < p.lines :: ByteBit(present, i) <==> i in contents
  }

  /** The written map marks the existing lines of a version above zero. */
  ghost predicate MarksWritten(p: Layout, written: Bytes, contents: map<nat, Record>) {
    && |written| == CeilDiv8(p.lines)
    && forall i: nat | i < p.lines :: ByteBit(written, i) <==> i in contents && contents[i].meta.version > 0
  }

  /** A counter equals the number of set bits of its map. */
  ghost predicate Counts(p: Layout, map_: Bytes, counter: int) {
    |map_| == CeilDiv8(p.lines) && counter == Counted(View(map_), p.lines)
  }

  ghost predicate Good(p: Layout, b: Backend, contents: map<nat, Record>, log: seq<nat>) {
    && CacheOk(p, b.store) && Recent(b.store, log) && Holds(p, b.store, b.present, contents)
    && MarksWritten(p, b.written, contents) && Counts(p, b.present, b.presentCount) && Counts(p, b.written, b.writtenCount)
  }

  lemma HoldsSameView(p: Layout, s: Store, t: Store, present: Bytes, contents: map<nat, Record>)
    requires Shaped(p, s) && Shaped(p, t) && SameView(p, s, t) && Holds(p, s, present, contents)
    ensures Holds(p, t, present, contents)
  {
    forall i | i in contents
      ensures i < p.lines && Visible(p, t, i) == contents[i]
    {
      assert Visible(p, t, i) == Visible(p, s, i);
    }
  }

  lemma HoldsStored(p: Layout, s: Store, present: Bytes, contents: map<nat, Record>, i: nat, line: Record)
    requires CacheOk(p, s) && i < p.lines && ChunkOf(p, i) in s.cache && SizedRecord(p, line) && Holds(p, s, present, contents)
    ensures Shaped(p, LineStored(p, s, i, line))
    ensures Holds(p, LineStored(p, s, i, line), SetBit(present, i, true), contents[i := line])
  {
    LineStoredExact(p, s, i, line);
    forall m: nat | m < p.lines
      ensures ByteBit(SetBit(present, i, true), m) <==> m in contents[i := line]
    {
      if !ByteBit(present, i) { FlippedBits(present, i, m); }
    }
  }

  lemma WrittenStored(p: Layout, written: Bytes, contents: map<nat, Record>, i: nat, line: Record)
    requires i < p.lines && MarksWritten(p, written, contents)
    ensures MarksWritten(p, SetBit(written, i, line.meta.version > 0), contents[i := line])
  {
    var value := line.meta.version > 0;
    forall m: nat | m < p.lines
      ensures ByteBit(SetBit(written, i, value), m) <==> m in contents[i := line] && contents[i := line][m].meta.version > 0
    {
      if ByteBit(written, i) != value { FlippedBits(written, i, m); }
    }
  }

  lemma CountsMarked(p: Layout, map_: Bytes, counter: int, i: nat, value: bool)
    requires i < p.lines && Counts(p, map_, counter)
    ensures Counts(p, Marked(map_, counter, i, value).0, Marked(map_, counter, i, value).1)
  {
    SetBitExact(map_, i, value);
    UpdateCounts(View(map_), i, value, p.lines);
  }

  lemma StoredRecent(p: Layout, s: Store, log: seq<nat>, i: nat, line: Record)
    requires Shaped(p, s) && Recent(s, log) && i < p.lines && ChunkOf(p, i) in s.cache && SizedRecord(p, line)
    ensures Recent(LineStored(p, s, i, line), log)
  {
    assert LineStored(p, s, i, line).cache.Keys == s.cache.Keys;
  }

  /** A store leaves the backend holding the new line, and every other line as before. */
  lemma StoreKeeps(p: Layout, b: Backend, contents: map<nat, Record>, log: seq<nat>, i: nat, line: Record, v: nat)
    requires Good(p, b, contents, log) && i < p.lines && SizedRecord(p, line) && MayEnsure(p, b.store, ChunkOf(p, i), v)
    ensures Good(p, Stored(p, b, i, line, v), contents[i := line], log + [ChunkOf(p, i)])
  {
    PlaceInChunk(p, i);
    var c := ChunkOf(p, i);
    var s := Ensured(p, b.store, c, v);
    EnsureKeeps(p, b.store, c, v);
    EnsureRecent(p, b.store, log, c, v);
    HoldsSameView(p, b.store, s, b.present, contents);
    LineStoredExact(p, s, i, line);
    HoldsStored(p, s, b.present, contents, i, line);
    WrittenStored(p, b.written, contents, i, line);
    CountsMarked(p, b.present, b.presentCount, i, true);
    CountsMarked(p, b.written, b.writtenCount, i, line.meta.version > 0);
    StoredRecent(p, s, log + [c], i, line);
  }

  lemma LoadKeeps(p: Layout, b: Backend, contents: map<nat, Record>, log: seq<nat>, i: nat, v: nat)
    requires Good(p, b, contents, log) && i < p.lines && MayEnsure(p, b.store, ChunkOf(p, i), v)
    ensures Good(p, Loaded(p, b, i, v), contents, if i in contents then log + [ChunkOf(p, i)] else log)
    ensures LoadResult(p, b, i) == if i in contents then Some(contents[i]) else None
  {
    PlaceInChunk(p, i);
    if ByteBit(b.present, i) {
      var c := ChunkOf(p, i);
      EnsureKeeps(p, b.store, c, v);
      EnsureRecent(p, b.store, log, c, v);
      HoldsSameView(p, b.store, Ensured(p, b.store, c, v), b.present, contents);
    }
  }

  /** The backend opened anew over the files alone. */
  function Reopened(b: Backend): Backend {
    b.(store := Store(b.store.files, map[], 0), presentCount := b.headerPresent, writtenCount := b.headerWritten)
  }

  /** After a flush the files alone hold the contents: opening them anew loses nothing. */
  lemma FlushThenReopen(p: Layout, b: Backend, contents: map<nat, Record>, log: seq<nat>, t: Store)
    requires Good(p, b, contents, log) && IsFlushed(p, b.store, t)
    ensures
      var flushed := b.(store := t, headerPresent := b.presentCount, headerWritten := b.writtenCount);
      Good(p, flushed, contents, log) && Good(p, Reopened(flushed), contents, [])
  {
    FlushKeeps(p, b.store, t);
    FlushRecent(p, b.store, t, log);
    HoldsSameView(p, b.store, t, b.present, contents);
    FilesHold(p, t, b.present, contents);
  }

  lemma FilesHold(p: Layout, s: Store, present: Bytes, contents: map<nat, Record>)
    requires CacheOk(p, s) && AllClean(s) && Holds(p, s, present, contents)
    ensures CacheOk(p, Store(s.files, map[], 0)) && Holds(p, Store(s.files, map[], 0), present, contents)
  {
    var anew := Store(s.files, map[], 0);
    forall i | i in contents
      ensures i < p.lines && Visible(p, anew, i) == contents[i]
    {
      CleanFilesHoldAll(p, s, i);
    }
  }

  // ---------------------------------------------------------------- runs

  datatype Op = StoreOp(i: nat, line: Record, victim: nat) | LoadOp(i: nat, victim: nat) | FlushOp(result: Store) | Restart

  ghost predicate Possible(p: Layout, b: Backend, clean: bool, op: Op) {
    CacheOk(p, b.store) && |b.present| == |b.written| == CeilDiv8(p.lines) &&
    match op
    case StoreOp(i, line, v) => i < p.lines && SizedRecord(p, line) && MayEnsure(p, b.store, ChunkOf(p, i), v)
    case LoadOp(i, v) => i < p.lines && MayEnsure(p, b.store, ChunkOf(p, i), v)
    case FlushOp(t) => IsFlushed(p, b.store, t)
    case Restart => clean
  }

  ghost function Next(p: Layout, b: Backend, clean: bool, op: Op): Backend
    requires Possible(p, b, clean, op)
  {
    match op
    case StoreOp(i, line, v) => Stored(p, b, i, line, v)
    case LoadOp(i, v) => Loaded(p, b, i, v)
    case FlushOp(t) => b.(store := t, headerPresent := b.presentCount, headerWritten := b.writtenCount)
    case Restart => Reopened(b)
  }

  /** Nothing was stored since the last flush, so the files may be closed and opened again. */
  function CleanAfter(ops: seq<Op>): bool {
    if ops == [] then true
    else match ops[|ops| - 1]
      case StoreOp(_, _, _) => false
      case FlushOp(_) => true
      case _ => CleanAfter(ops[..|ops| - 1])
  }

  ghost predicate IsRun(p: Layout, start: Backend, ops: seq<Op>)
    decreases |ops|, 0
  {
    ops == [] || (IsRun(p, start, ops[..|ops| - 1])
                  && Possible(p, After(p, start, ops[..|ops| - 1]), CleanAfter(ops[..|ops| - 1]), ops[|ops| - 1]))
  }

  ghost function After(p: Layout, start: Backend, ops: seq<Op>): Backend
    requires IsRun(p, start, ops)
    decreases |ops|, 1
  {
    if ops == [] then start
    else Next(p, After(p, start, ops[..|ops| - 1]), CleanAfter(ops[..|ops| - 1]), ops[|ops| - 1])
  }

  /** The last line stored at each place. */
  function LastStored(before: map<nat, Record>, ops: seq<Op>): map<nat, Record> {
    if ops == [] then before
    else match ops[|ops| - 1]
      case StoreOp(i, line, _) => LastStored(before, ops[..|ops| - 1])[i := line]
      case _ => LastStored(before, ops[..|ops| - 1])
  }

  ghost predicate SomeLog(p: Layout, b: Backend, contents: map<nat, Record>)
    ensures SomeLog(p, b, contents) ==> CacheOk(p, b.store) && BackendShaped(p, b)
  {
    exists log: seq<nat> :: Good(p, b, contents, log)
  }

  /** The files alone hold the contents. */
  ghost predicate FilesCurrent(b: Backend) {
    AllClean(b.store) && b.headerPresent == b.presentCount && b.headerWritten == b.writtenCount
  }

  lemma CleanReopens(p: Layout, b: Backend, contents: map<nat, Record>)
    requires SomeLog(p, b, contents) && FilesCurrent(b)
    ensures SomeLog(p, Reopened(b), contents) && FilesCurrent(Reopened(b))
  {
    FilesHold(p, b.store, b.present, contents);
    var none: seq<nat> := [];
    assert Good(p, Reopened(b), contents, none);
  }

  lemma LoadStaysClean(p: Layout, b: Backend, i: nat, v: nat)
    requires BackendShaped(p, b) && i < p.lines && MayEnsure(p, b.store, ChunkOf(p, i), v) && AllClean(b.store)
    ensures AllClean(Loaded(p, b, i, v).store)
  {
  }

  lemma StoreStep(p: Layout, b: Backend, i: nat, line: Record, v: nat, contents: map<nat, Record>)
    requires i < p.lines && SizedRecord(p, line) && SomeLog(p, b, contents) && MayEnsure(p, b.store, ChunkOf(p, i), v)
    ensures SomeLog(p, Stored(p, b, i, line, v), contents[i := line])
  {
    var log: seq<nat> :| Good(p, b, contents, log);
    StoreKeeps(p, b, contents, log, i, line, v);
  }

  lemma LoadStep(p: Layout, b: Backend, i: nat, v: nat, contents: map<nat, Record>)
    requires i < p.lines && SomeLog(p, b, contents) && MayEnsure(p, b.store, ChunkOf(p, i), v)
    ensures SomeLog(p, Loaded(p, b, i, v), contents)
  {
    var log: seq<nat> :| Good(p, b, contents, log);
    LoadKeeps(p, b, contents, log, i, v);
  }

  lemma FlushStep(p: Layout, b: Backend, t: Store, contents: map<nat, Record>)
    requires SomeLog(p, b, contents) && IsFlushed(p, b.store, t)
    ensures
      var flushed := b.(store := t, headerPresent := b.presentCount, headerWritten := b.writtenCount);
      SomeLog(p, flushed, contents) && FilesCurrent(flushed)
  {
    var log: seq<nat> :| Good(p, b, contents, log);
    FlushThenReopen(p, b, contents, log, t);
    FlushKeeps(p, b.store, t);
  }

  lemma StepKeeps(p: Layout, b: Backend, clean: bool, op: Op, contents: map<nat, Record>)
    requires Possible(p, b, clean, op) && SomeLog(p, b, contents) && (clean ==> FilesCurrent(b))
    ensures SomeLog(p, Next(p, b, clean, op), if op.StoreOp? then contents[op.i := op.line] else contents)
    ensures (op.FlushOp? || (clean && !op.StoreOp?)) ==> FilesCurrent(Next(p, b, clean, op))
  {
    match op
    case StoreOp(i, line, v) => StoreStep(p, b, i, line, v, contents);
    case LoadOp(i, v) =>
      LoadStep(p, b, i, v, contents);
      if clean { LoadStaysClean(p, b, i, v); }
    case FlushOp(t) => FlushStep(p, b, t, contents);
    case Restart => CleanReopens(p, b, contents);
  }

  lemma {:induction false} RunKeeps(p: Layout, start: Backend, before: map<nat, Record>, ops: seq<Op>)
    requires SomeLog(p, start, before) && FilesCurrent(start) && IsRun(p, start, ops)
    ensures SomeLog(p, After(p, start, ops), LastStored(before, ops))
    ensures CleanAfter(ops) ==> FilesCurrent(After(p, start, ops))
  {
    if ops != [] {
      var n := |ops| - 1;
      RunKeeps(p, start, before, ops[..n]);
      StepKeeps(p, After(p, start, ops[..n]), CleanAfter(ops[..n]), ops[n], LastStored(before, ops[..n]));
    }
  }

  lemma GoodAfter(p: Layout, start: Backend, before: map<nat, Record>, ops: seq<Op>)
    requires SomeLog(p, start, before) && FilesCurrent(start) && IsRun(p, start, ops)
    ensures exists log: seq<nat> :: Good(p, After(p, start, ops), LastStored(before, ops), log)
  {
    RunKeeps(p, start, before, ops);
  }

  // ---------------------------------------------------------------- from new files on

  function Zeros(n: nat): (r: Bytes)
    ensures |r| == n
  {
    seq(n, _ => 0)
  }

  /** Files just created: all zero, with no line existing. */
  function Created(p: Layout): Backend {
    MixedRadix.MulMonotone(p.lineSize, 0, p.lines);
    var files := Area(Zeros(p.lines * p.lineSize), Zeros(CeilDiv8(p.lines * p.lineSize)), seq(p.lines, _ => Meta(0, 0)));
    Backend(Store(files, map[], 0), Zeros(CeilDiv8(p.lines)), Zeros(CeilDiv8(p.lines)), 0, 0, 0, 0)
  }

  lemma ZerosClear(n: nat, k: nat)
    ensures !ByteBit(Zeros(n), k)
  {
    ZeroBits(k % 8);
  }

  lemma {:induction false} NoneCounted(v: seq<bool>, n: nat)
    requires n <= |v| && forall k | 0 <= k < n :: !v[k]
    ensures Counted(v, n) == 0
  {
    if n > 0 { NoneCounted(v, n - 1); }
  }

  lemma ZerosCount(p: Layout)
    ensures Counts(p, Zeros(CeilDiv8(p.lines)), 0)
  {
    var map_ := Zeros(CeilDiv8(p.lines));
    forall k | 0 <= k < p.lines ensures !View(map_)[k] { ZerosClear(|map_|, k); }
    NoneCounted(View(map_), p.lines);
  }

  /** New files hold nothing, and say so. */
  lemma CreatedHoldsNothing(p: Layout)
    requires Valid(p)
    ensures SomeLog(p, Created(p), map[]) && FilesCurrent(Created(p))
  {
    var b, none := Created(p), [];
    forall i: nat | i < p.lines ensures !ByteBit(b.present, i) && !ByteBit(b.written, i) {
      ZerosClear(CeilDiv8(p.lines), i);
    }
    ZerosCount(p);
    assert Good(p, b, map[], none);
  }

  /**
    From new files on, after any run of stores, loads, flushes and restarts that follow a flush, a load returns the
    last line stored at its place, whatever chunks were cached or given up on the way.
   */
  lemma LoadsLastStored(p: Layout, ops: seq<Op>, i: nat)
    requires Valid(p) && IsRun(p, Created(p), ops) && i < p.lines
    ensures BackendShaped(p, After(p, Created(p), ops))
    ensures
      var contents := LastStored(map[], ops);
      LoadResult(p, After(p, Created(p), ops), i) == if i in contents then Some(contents[i]) else None
  {
    CreatedHoldsNothing(p);
    GoodAfter(p, Created(p), map[], ops);
  }

  /** In every such run the cache keeps its limit, clean chunks equal the files, and the counters equal the set bits. */
  lemma CountersAndCache(p: Layout, ops: seq<Op>)
    requires Valid(p) && IsRun(p, Created(p), ops)
    ensures
      var b, contents := After(p, Created(p), ops), LastStored(map[], ops);
      && CacheOk(p, b.store) && MarksWritten(p, b.written, contents)
      && Counts(p, b.present, b.presentCount) && Counts(p, b.written, b.writtenCount)
      && (forall i: nat | i < p.lines :: ByteBit(b.written, i) ==> ByteBit(b.present, i))
  {
    CreatedHoldsNothing(p);
    GoodAfter(p, Created(p), map[], ops);
  }
}

/** The cache of chunks: reading in, evicting the least recently used, writing back, and what never changes. */
module ChunkCache {
  import opened ChunkStore

  /** A clean chunk equals its slice of the files. */
  ghost predicate CleanMatch(p: Layout, s: Store)
    requires Shaped(p, s)
  {
    forall c | c in s.cache && !s.cache[c].dirty :: s.cache[c].area == Taken(p, s.files, c)
  }

  ghost predicate CacheOk(p: Layout, s: Store) {
    Shaped(p, s) && CleanMatch(p, s) && |s.cache| <= p.limit
  }

  ghost predicate SameView(p: Layout, s: Store, t: Store)
    requires Shaped(p, s) && Shaped(p, t)
  {
    forall i: nat | i < p.lines :: Visible(p, t, i) == Visible(p, s, i)
  }

  // ---------------------------------------------------------------- writing back

  function WrittenBack(p: Layout, s: Store, c: nat): Store
    requires Shaped(p, s) && c in s.cache
  {
    if s.cache[c].dirty then
      s.(files := Put(p, s.files, c, s.cache[c].area), cache := s.cache[c := s.cache[c].(dirty := false)])
    else s
  }

  /** Writing a chunk back keeps every line, and every other clean chunk a slice of the files. */
  lemma WriteBackKeeps(p: Layout, s: Store, c: nat)
    requires CacheOk(p, s) && c in s.cache
    ensures CacheOk(p, WrittenBack(p, s, c)) && SameView(p, s, WrittenBack(p, s, c))
  {
    var t := WrittenBack(p, s, c);
    if s.cache[c].dirty {
      assert t.cache.Keys == s.cache.Keys;
      forall d | d in t.cache && !t.cache[d].dirty
        ensures t.cache[d].area == Taken(p, t.files, d)
      {
        if d != c { PutOther(p, s.files, c, s.cache[c].area, d); }
      }
      forall i: nat | i < p.lines
        ensures Visible(p, t, i) == Visible(p, s, i)
      {
        PutLines(p, s.files, c, s.cache[c].area, i);
      }
    }
  }

  // ---------------------------------------------------------------- bringing a chunk in

  ghost predicate IsVictim(s: Store, v: nat) {
    v in s.cache && forall d | d in s.cache :: s.cache[v].lastUse <= s.cache[d].lastUse
  }

  function Dropped(s: Store, v: nat): Store { s.(cache := s.cache - {v}) }

  function ReadIn(p: Layout, s: Store, c: nat): Store
    requires Shaped(p, s) && IsChunk(p, c)
  {
    s.(cache := s.cache[c := CachedChunk(Taken(p, s.files, c), s.clock + 1, false)], clock := s.clock + 1)
  }

  function Used(s: Store, c: nat): Store
    requires c in s.cache
  {
    s.(cache := s.cache[c := s.cache[c].(lastUse := s.clock + 1)], clock := s.clock + 1)
  }

  /** The store with chunk `c` cached, `v` being the chunk to give up if the cache is full. */
  function Ensured(p: Layout, s: Store, c: nat, v: nat): Store
    requires Shaped(p, s) && IsChunk(p, c) && (c !in s.cache && |s.cache| >= p.limit ==> v in s.cache)
  {
    if c in s.cache then Used(s, c)
    else if |s.cache| >= p.limit then
      (var t := Dropped(WrittenBack(p, s, v), v); ReadIn(p, t, c))
    else ReadIn(p, s, c)
  }

  /** A written-back chunk can be dropped: the files hold its lines. */
  lemma DropKeeps(p: Layout, s: Store, v: nat)
    requires CacheOk(p, s) && v in s.cache && !s.cache[v].dirty
    ensures CacheOk(p, Dropped(s, v)) && SameView(p, s, Dropped(s, v))
    ensures |Dropped(s, v).cache| == |s.cache| - 1
  {
    var t := Dropped(s, v);
    assert t.cache.Keys == s.cache.Keys - {v};
    forall i: nat | i < p.lines
      ensures Visible(p, t, i) == Visible(p, s, i)
    {
      PlaceInChunk(p, i);
      if i / p.perChunk == v { TakenLines(p, s.files, v, i % p.perChunk); }
    }
  }

  lemma ReadInKeeps(p: Layout, s: Store, c: nat)
    requires CacheOk(p, s) && IsChunk(p, c) && c !in s.cache && |s.cache| < p.limit
    ensures CacheOk(p, ReadIn(p, s, c)) && SameView(p, s, ReadIn(p, s, c))
  {
    var t := ReadIn(p, s, c);
    assert t.cache.Keys == s.cache.Keys + {c};
    forall i: nat | i < p.lines
      ensures Visible(p, t, i) == Visible(p, s, i)
    {
      PlaceInChunk(p, i);
      if i / p.perChunk == c { TakenLines(p, s.files, c, i % p.perChunk); }
    }
  }

  lemma UsedKeeps(p: Layout, s: Store, c: nat)
    requires CacheOk(p, s) && c in s.cache
    ensures CacheOk(p, Used(s, c)) && SameView(p, s, Used(s, c))
  {
    assert Used(s, c).cache.Keys == s.cache.Keys;
  }

  /** Bringing a chunk in changes no line and keeps the cache within its limit. */
  lemma EnsureKeeps(p: Layout, s: Store, c: nat, v: nat)
    requires CacheOk(p, s) && IsChunk(p, c) && (c !in s.cache && |s.cache| >= p.limit ==> v in s.cache)
    ensures CacheOk(p, Ensured(p, s, c, v)) && SameView(p, s, Ensured(p, s, c, v)) && c in Ensured(p, s, c, v).cache
  {
    if c in s.cache {
      UsedKeeps(p, s, c);
    } else if |s.cache| >= p.limit {
      WriteBackKeeps(p, s, v);
      DropKeeps(p, WrittenBack(p, s, v), v);
      ReadInKeeps(p, Dropped(WrittenBack(p, s, v), v), c);
    } else {
      ReadInKeeps(p, s, c);
    }
  }

  // ---------------------------------------------------------------- recency

  /** Chunk `c` was used at place `i` of the log and not after. */
  ghost predicate LastUsedAt(log: seq<nat>, c: nat, i: nat) {
    i < |log| && log[i] == c && forall j | i < j < |log| :: log[j] != c
  }

  /** Each cached chunk remembers its last use, and all of them were used after every chunk not cached. */
  ghost predicate Recent(s: Store, log: seq<nat>) {
    && s.clock == |log|
    && (forall c | c in s.cache :: s.cache[c].lastUse > 0 && LastUsedAt(log, c, s.cache[c].lastUse - 1))
    && forall i, c | 0 <= i < |log| && log[i] !in s.cache && c in s.cache :: i < s.cache[c].lastUse - 1
  }

  /** The chunk given up was last used before every other cached chunk. */
  lemma VictimIsLeastRecent(s: Store, log: seq<nat>, v: nat, d: nat, i: nat, j: nat)
    requires Recent(s, log) && IsVictim(s, v) && d in s.cache && d != v && LastUsedAt(log, v, i) && LastUsedAt(log, d, j)
    ensures i < j
  {
    assert LastUsedAt(log, v, s.cache[v].lastUse - 1) && LastUsedAt(log, d, s.cache[d].lastUse - 1);
    assert i == s.cache[v].lastUse - 1;
    assert j == s.cache[d].lastUse - 1;
  }

  lemma DropRecent(p: Layout, s: Store, log: seq<nat>, v: nat)
    requires Recent(s, log) && IsVictim(s, v)
    ensures Recent(Dropped(s, v), log)
  {
    var t := Dropped(s, v);
    forall i, c | 0 <= i < |log| && log[i] !in t.cache && c in t.cache
      ensures i < t.cache[c].lastUse - 1
    {
      assert LastUsedAt(log, c, s.cache[c].lastUse - 1);
      if log[i] == v { assert LastUsedAt(log, v, s.cache[v].lastUse - 1); }
    }
  }

  lemma UseRecent(s: Store, log: seq<nat>, c: nat, chunk: CachedChunk)
    requires Recent(s, log) && chunk.lastUse == s.clock + 1
    ensures Recent(s.(cache := s.cache[c := chunk], clock := s.clock + 1), log + [c])
  {
    var t := s.(cache := s.cache[c := chunk], clock := s.clock + 1);
    forall d | d in t.cache
      ensures t.cache[d].lastUse > 0 && LastUsedAt(log + [c], d, t.cache[d].lastUse - 1)
    {
      if d != c { assert LastUsedAt(log, d, s.cache[d].lastUse - 1); }
    }
  }

  lemma WriteBackRecent(p: Layout, s: Store, log: seq<nat>, c: nat)
    requires Shaped(p, s) && c in s.cache && Recent(s, log)
    ensures Recent(WrittenBack(p, s, c), log)
    ensures IsVictim(s, c) ==> IsVictim(WrittenBack(p, s, c), c)
  {
    RecentByUse(s, WrittenBack(p, s, c), log);
  }

  /** Recency is about the times of use alone. */
  lemma RecentByUse(s: Store, t: Store, log: seq<nat>)
    requires Recent(s, log) && t.clock == s.clock && t.cache.Keys == s.cache.Keys
    requires forall c | c in s.cache :: t.cache[c].lastUse == s.cache[c].lastUse
    ensures Recent(t, log)
  {
    forall c | c in t.cache ensures t.cache[c].lastUse > 0 && LastUsedAt(log, c, t.cache[c].lastUse - 1) {
      assert c in s.cache.Keys;
    }
    forall i, c | 0 <= i < |log| && log[i] !in t.cache && c in t.cache ensures i < t.cache[c].lastUse - 1 {
      assert log[i] !in s.cache.Keys && c in s.cache.Keys;
    }
  }

  /** The cache always holds the most recently used distinct chunks. */
  lemma EnsureRecent(p: Layout, s: Store, log: seq<nat>, c: nat, v: nat)
    requires CacheOk(p, s) && IsChunk(p, c) && Recent(s, log)
    requires c !in s.cache && |s.cache| >= p.limit ==> IsVictim(s, v)
    ensures Recent(Ensured(p, s, c, v), log + [c])
  {
    if c in s.cache {
      UseRecent(s, log, c, s.cache[c].(lastUse := s.clock + 1));
    } else if |s.cache| >= p.limit {
      var t := WrittenBack(p, s, v);
      WriteBackRecent(p, s, log, v);
      DropRecent(p, t, log, v);
      WriteBackKeeps(p, s, v);
      DropKeeps(p, t, v);
      var u := Dropped(t, v);
      UseRecent(u, log, c, CachedChunk(Taken(p, u.files, c), u.clock + 1, false));
    } else {
      UseRecent(s, log, c, CachedChunk(Taken(p, s.files, c), s.clock + 1, false));
    }
  }

  // ---------------------------------------------------------------- storing a line

  /** The store with line `i` replaced in its cached chunk. */
  function LineStored(p: Layout, s: Store, i: nat, line: Record): Store
    requires Shaped(p, s) && i < p.lines && i / p.perChunk in s.cache && SizedRecord(p, line)
  {
    PlaceInChunk(p, i);
    var c := i / p.perChunk;
    var chunk := s.cache[c];
    s.(cache := s.cache[c := CachedChunk(Patched(p, chunk.area, ChunkLines(p, c), i % p.perChunk, line), chunk.lastUse, true)])
  }

  lemma LineStoredExact(p: Layout, s: Store, i: nat, line: Record)
    requires CacheOk(p, s) && i < p.lines && i / p.perChunk in s.cache && SizedRecord(p, line)
    ensures CacheOk(p, LineStored(p, s, i, line))
    ensures forall m: nat | m < p.lines :: Visible(p, LineStored(p, s, i, line), m) == if m == i then line else Visible(p, s, m)
  {
    var t := LineStored(p, s, i, line);
    var c := i / p.perChunk;
    PlaceInChunk(p, i);
    assert t.cache.Keys == s.cache.Keys;
    forall m: nat | m < p.lines
      ensures Visible(p, t, m) == if m == i then line else Visible(p, s, m)
    {
      PlaceInChunk(p, m);
      if m == i {
        PatchedOwn(p, s.cache[c].area, ChunkLines(p, c), i % p.perChunk, line);
      } else if m / p.perChunk == c {
        PatchedOther(p, s.cache[c].area, ChunkLines(p, c), i % p.perChunk, line, m % p.perChunk);
      }
    }
  }

  // ---------------------------------------------------------------- flushing

  ghost predicate AllClean(s: Store) { forall c | c in s.cache :: !s.cache[c].dirty }

  /** Once every chunk is clean the files alone hold every line. */
  lemma CleanFilesHoldAll(p: Layout, s: Store, i: nat)
    requires CacheOk(p, s) && AllClean(s) && i < p.lines
    ensures LineAt(p, s.files, p.lines, i) == Visible(p, s, i)
  {
    PlaceInChunk(p, i);
    if i / p.perChunk in s.cache { TakenLines(p, s.files, i / p.perChunk, i % p.perChunk); }
  }
}

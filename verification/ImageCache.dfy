/**
 The archive's images kept locally: two possible file names for each release, under a byte cap, against a
 plain map from a release to the image last cached for it.
 */
module ImageCache {
  import opened Common
  import opened Directory

  type Id = string
  type Data = seq<bv8>

  /** One of the two files that may hold a release's image. */
  datatype File = File(id: Id, png: bool)

  type Cache = Dir<File, Data>

  /** How far a write gets: to the end, or not past the temporary file, or not past retiring the other name. */
  datatype Writing = Done | NoTemporary | NotPublished

  /** How far a discard gets. */
  datatype Discarding = Gone | NotTheJpeg | NotThePng

  /** At most one of a release's two files exists. */
  ghost predicate OneEach(files: Cache) {
    forall id :: !(File(id, false) in files && File(id, true) in files)
  }

  /** What is on disk is the image last cached: every file that exists is a true copy. */
  ghost predicate Agrees(files: Cache, last: map<Id, Data>) {
    && OneEach(files)
    && forall f :: f in files ==> f.id in last && files[f].content == last[f.id] && files[f].size == |last[f.id]|
  }

  // ----- what a read gives -----

  function CachedImage(files: Cache, id: Id): Option<File> {
    if File(id, false) in files then Some(File(id, false))
    else if File(id, true) in files then Some(File(id, true))
    else None
  }

  function Read(files: Cache, id: Id): Option<Data> {
    var f := CachedImage(files, id);
    if f.Some? then Some(files[f.value].content) else None
  }

  /** The cache with a release's image marked as used now, and every other file as it was. */
  function Used(files: Cache, id: Id, now: nat): Cache {
    var f := CachedImage(files, id);
    if f.None? then files else files[f.value := files[f.value].(stamp := now)]
  }

  /** Nothing, or exactly what was last cached. */
  lemma ReadIsLast(files: Cache, last: map<Id, Data>, id: Id)
    requires Agrees(files, last)
    ensures Read(files, id).None? || (id in last && Read(files, id) == Some(last[id]))
    ensures Read(files, id).None? <==> forall png :: File(id, png) !in files
  {
  }

  // ----- eviction -----

  /** Least recently used first, never the file kept, and no more than the overage. */
  ghost predicate Evicted(was: Cache, now: Cache, keep: File, cap: nat, locked: set<File>) {
    && (forall f :: f in now ==> f in was && now[f] == was[f])
    && (keep in was ==> keep in now)
    && (forall f, g :: f in was && f !in now && g in was && g in now && g != keep && g !in locked ==> was[f].stamp <= was[g].stamp)
    && (now == was || exists f :: f in was && f !in now && Total(now) + was[f].size > cap)
    && (Total(now) <= cap || forall f :: f in now ==> f == keep || f in locked)
  }

  lemma OnePassEvicts(was: Cache, now: Cache, order: seq<File>, k: nat, keep: File, cap: nat, locked: set<File>)
    requires Elements(order) == was.Keys - {keep} && ByAge(order, was) && DroppedTo(was, now, order, k, cap, locked)
    ensures Evicted(was, now, keep, cap, locked)
  {
    assert forall f :: f in order <==> f in Elements(order);
    forall f, g | f in was && f !in now && g in was && g in now && g != keep && g !in locked
      ensures was[f].stamp <= was[g].stamp
    {
      OldestFirst(was, order, k, locked, f, g);
    }
    assert now == was || exists f :: f in was && f !in now && Total(now) + was[f].size > cap by {
      if now != was {
        var f :| f in Doomed(order, k, locked) && f in was && Total(now) + was[f].size > cap;
        assert f !in now;
      }
    }
    if Total(now) > cap {
      assert order[..|order|] == order;
      forall f | f in now ensures f == keep || f in locked {
        assert f != keep ==> f in order;
      }
    }
  }

  // ----- the cache -----

  class ImageCache {
    /** Whether a directory is configured, with room for anything at all. */
    const enabled: bool
    const maxBytes: nat
    /** Which ids are safe as a file name. */
    const safe: Id -> bool
    var files: Cache
    var clock: nat
    /** Files the system will not unlink. */
    var locked: set<File>
    /** The image last cached for each release since it was last discarded. */
    ghost var last: map<Id, Data>

    ghost predicate Valid()
      reads this
    {
      Agrees(files, last)
    }

    constructor (enabled: bool, maxBytes: nat, safe: Id -> bool)
      ensures this.enabled == enabled && this.maxBytes == maxBytes && this.safe == safe
      ensures Valid() && files == map[] && last == map[] && locked == {}
    {
      this.enabled, this.maxBytes, this.safe := enabled, maxBytes, safe;
      files, clock, locked, last := map[], 0, {}, map[];
    }

    /** Keeps a release's image in place of any other it had, then makes room for it. */
    method CacheImage(id: Id, data: Data, png: bool, how: Writing) returns (stored: Option<File>)
      requires Valid()
      modifies this`files, this`clock, this`last
      ensures Valid()
      ensures stored == if enabled && safe(id) && how == Done then Some(File(id, png)) else None
      ensures last == if stored.Some? then old(last)[id := data] else old(last)
      ensures stored.Some? ==> File(id, png) in files && Read(files, id) == Some(data)
      ensures stored.Some? ==>
                Evicted((old(files) - {File(id, !png)})[File(id, png) := Entry(|data|, old(clock), data)],
                        files, File(id, png), maxBytes, locked)
      ensures stored.None? ==> files == old(files) || files == old(files) - {File(id, !png)}
    {
      if !enabled || !safe(id) || how == NoTemporary {
        return None;
      }
      var path := File(id, png);
      files := files - {File(id, !png)};
      if how == NotPublished {
        return None;
      }
      files := files[path := Entry(|data|, clock, data)];
      clock := clock + 1;
      last := last[id := data];
      EvictOverCap(path);
      return Some(path);
    }

    method EvictOverCap(keep: File)
      requires Valid()
      modifies this`files
      ensures Valid()
      ensures Evicted(old(files), files, keep, maxBytes, locked)
    {
      ghost var was := files;
      var total := Usage(files);
      var order := SortByAge(files, files.Keys - {keep});
      ghost var k;
      assert forall f :: f in order <==> f in Elements(order);
      files, total, k := DropOldest(files, order, total, maxBytes, locked);
      OnePassEvicts(was, files, order, k, keep, maxBytes, locked);
    }

    /** Retires a release's image; one that cannot be retired fails the check it was for. */
    method DiscardImage(id: Id, how: Discarding) returns (ok: bool)
      requires Valid()
      modifies this`files, this`last
      ensures Valid()
      ensures ok <==> !enabled || !safe(id) || how == Gone
      ensures ok && enabled && safe(id) ==> Read(files, id).None? && last == old(last) - {id}
      ensures !ok || !enabled || !safe(id) ==> last == old(last)
      ensures forall f :: f in files ==> f in old(files) && files[f] == old(files)[f]
      ensures forall f :: f in old(files) && f.id != id ==> f in files
    {
      if !enabled || !safe(id) {
        return true;
      }
      if how == NotTheJpeg {
        return false;
      }
      files := files - {File(id, false)};
      if how == NotThePng {
        return false;
      }
      files := files - {File(id, true)};
      last := last - {id};
      return true;
    }

    /** Serves an image, and marks it as used; nothing when it has been evicted or cannot be read. */
    method CachedFront(id: Id, readable: bool) returns (front: Option<Data>)
      requires Valid()
      modifies this`files, this`clock
      ensures Valid()
      ensures front.Some? ==> id in last && front.value == last[id]
      ensures front.Some? <==> enabled && safe(id) && readable && Read(old(files), id).Some?
      ensures front.None? ==> files == old(files) && clock == old(clock)
      ensures front.Some? ==> files == Used(old(files), id, old(clock)) && clock == old(clock) + 1
    {
      if !enabled || !safe(id) {
        return None;
      }
      var path := CachedImage(files, id);
      if path.None? || !readable {
        return None;
      }
      front := Some(files[path.value].content);
      files := files[path.value := files[path.value].(stamp := clock)];
      clock := clock + 1;
    }
  }

  // ----- whole runs -----

  datatype Op =
    | Store(id: Id, data: Data, png: bool, how: Writing)
    | Discard(id: Id, failing: Discarding)
    | Serve(id: Id, readable: bool)

  /** The image last cached for a release and not discarded since, over a run. */
  function LastCached(ops: seq<Op>, id: Id, safe: Id -> bool): Option<Data> {
    if ops == [] then None
    else
      match ops[|ops| - 1]
      case Store(x, data, png, how) =>
        if x == id && safe(x) && how == Done then Some(data) else LastCached(ops[..|ops| - 1], id, safe)
      case Discard(x, failing) =>
        if x == id && safe(x) && failing == Gone then None else LastCached(ops[..|ops| - 1], id, safe)
      case Serve(_, _) => LastCached(ops[..|ops| - 1], id, safe)
  }

  /** Over any run, a read of any release gives nothing or what the run last cached for it. */
  method RunAll(cache: ImageCache, ops: seq<Op>)
    requires cache.Valid() && cache.enabled && cache.files == map[] && cache.last == map[]
    modifies cache
    ensures cache.Valid()
    ensures forall id :: Read(cache.files, id).None? || Read(cache.files, id) == LastCached(ops, id, cache.safe)
  {
    for i := 0 to |ops|
      invariant cache.Valid()
      invariant forall id :: LastCached(ops[..i], id, cache.safe) == if id in cache.last then Some(cache.last[id]) else None
    {
      assert ops[..i + 1][..i] == ops[..i];
      match ops[i]
      case Store(id, data, png, how) => var _ := cache.CacheImage(id, data, png, how);
      case Discard(id, failing) => var _ := cache.DiscardImage(id, failing);
      case Serve(id, readable) => var _ := cache.CachedFront(id, readable);
    }
    assert ops[..|ops|] == ops;
    forall id ensures Read(cache.files, id).None? || Read(cache.files, id) == LastCached(ops, id, cache.safe) {
      ReadIsLast(cache.files, cache.last, id);
    }
  }
}

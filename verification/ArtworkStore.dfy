/** The store of replaced images: a directory of content-addressed files, kept under a byte cap by a promise. */
module ArtworkStore {
  import opened Common
  import opened Backups
  import opened Directory

  /** A file in the store's directory: an image, or one left half written. */
  datatype File = Image(key: Digest, png: bool) | Temporary(key: Digest, png: bool)

  /** The store's directory; a file's content is what its name says. */
  type Store = Dir<File, ()>

  /** An image to keep: the digest of its bytes, their number, and whether they are a PNG. */
  datatype Incoming = Incoming(key: Digest, size: nat, png: bool)

  // ----- eviction -----

  /** A retention promise or a pending replacement covers the file. */
  predicate Guarded(f: File, guarded: set<Digest>) {
    f.Image? && f.key in guarded
  }

  /** Files only go, and not those that cannot be unlinked. */
  ghost predicate OnlyDropped(was: Store, now: Store, locked: set<File>) {
    && (forall f :: f in now ==> f in was && now[f] == was[f])
    && forall f :: f in was && f in locked ==> f in now
  }

  /** Oldest first within each class. */
  ghost predicate OldestOut(was: Store, now: Store, guarded: set<Digest>, locked: set<File>) {
    forall f, g :: f in was && f !in now && g in was && g in now && g !in locked && Guarded(f, guarded) == Guarded(g, guarded)
      ==> was[f].stamp <= was[g].stamp
  }

  /** A guarded file goes only once no unguarded one is left. */
  ghost predicate GuardedLast(was: Store, now: Store, guarded: set<Digest>, locked: set<File>) {
    forall f, g :: f in was && f !in now && Guarded(f, guarded) && g in now && g !in locked ==> Guarded(g, guarded)
  }

  /** Nothing goes for nothing: the last to go, a guarded one if any was, left the store over its cap before. */
  ghost predicate Needed(was: Store, now: Store, guarded: set<Digest>, cap: nat) {
    now != was ==>
      exists f :: f in was && f !in now && Total(now) + was[f].size > cap
        && ((exists g :: g in was && g !in now && Guarded(g, guarded)) ==> Guarded(f, guarded))
  }

  /** What eviction from `was` to `now` keeps to, `locked` being the files that cannot be unlinked. */
  ghost predicate Evicted(was: Store, now: Store, guarded: set<Digest>, cap: nat, locked: set<File>) {
    && OnlyDropped(was, now, locked) && OldestOut(was, now, guarded, locked) && GuardedLast(was, now, guarded, locked)
    && Needed(was, now, guarded, cap)
    && (Total(now) <= cap || forall f :: f in now ==> f in locked)
  }

  /** What may be dropped before what: every image that is promised or pending last, and within each class the oldest first. */
  lemma DroppedInOrder(was: Store, now: Store, guarded: set<Digest>, cap: nat, locked: set<File>, f: File, g: File)
    requires Evicted(was, now, guarded, cap, locked)
    requires f in was && f !in now && g in was && g in now && g !in locked
    ensures f.Image? && f.key in guarded ==> g.Image? && g.key in guarded
    ensures ((f.Image? && f.key in guarded) <==> (g.Image? && g.key in guarded)) ==> was[f].stamp <= was[g].stamp
  {
  }

  // ----- storing -----

  /** An image already held is only marked as referenced now. */
  function StoreOne(files: Store, clock: nat, image: Incoming): Store {
    if Image(image.key, false) in files
    then files[Image(image.key, false) := Entry(files[Image(image.key, false)].size, clock, ())]
    else if Image(image.key, true) in files
    then files[Image(image.key, true) := Entry(files[Image(image.key, true)].size, clock, ())]
    else files[Image(image.key, image.png) := Entry(image.size, clock, ())]
  }

  /** The directory and the clock once every image that can be written has been. */
  function StoreAll(files: Store, clock: nat, images: seq<Incoming>, failing: set<Digest>): (Store, nat)
    decreases |images|
  {
    if images == [] then (files, clock)
    else if images[0].key in failing then StoreAll(files, clock, images[1..], failing)
    else StoreAll(StoreOne(files, clock, images[0]), clock + 1, images[1..], failing)
  }

  function StoredKeys(images: seq<Incoming>, failing: set<Digest>): set<Digest> {
    set i | i in images && i.key !in failing :: i.key
  }

  ghost predicate OnDisk(files: Store, key: Digest) {
    Image(key, false) in files || Image(key, true) in files
  }

  /** The one file that holds a digest, if any does: its size in bytes. */
  ghost function SizeOf(files: Store, key: Digest): Option<nat> {
    if Image(key, false) in files then Some(files[Image(key, false)].size)
    else if Image(key, true) in files then Some(files[Image(key, true)].size)
    else None
  }

  /** One digest is one image: images of the same digest are as long, those on disk already included. */
  ghost predicate SameBytes(files: Store, images: seq<Incoming>) {
    && (forall i, j :: i in images && j in images && i.key == j.key ==> i.size == j.size)
    && (forall i :: i in images && SizeOf(files, i.key).Some? ==> SizeOf(files, i.key).value == i.size)
  }

  lemma StoringOneKeeps(files: Store, clock: nat, image: Incoming, d: Digest)
    requires SizeOf(files, image.key) in {None, Some(image.size)}
    ensures SizeOf(StoreOne(files, clock, image), d) == if d == image.key then Some(image.size) else SizeOf(files, d)
  {
  }

  /** Every image that can be written is then on disk, under its digest; what was there already stays. */
  lemma {:induction false} StoredIsOnDisk(files: Store, clock: nat, images: seq<Incoming>, failing: set<Digest>)
    ensures var now := StoreAll(files, clock, images, failing).0;
      && files.Keys <= now.Keys
      && forall d :: d in StoredKeys(images, failing) ==> OnDisk(now, d)
    decreases |images|
  {
    if images != [] {
      assert forall i :: i in images <==> i == images[0] || i in images[1..];
      if images[0].key in failing {
        StoredIsOnDisk(files, clock, images[1..], failing);
      } else {
        StoredIsOnDisk(StoreOne(files, clock, images[0]), clock + 1, images[1..], failing);
      }
    }
  }

  /** The size of the first image stored under a digest. */
  function FirstStored(images: seq<Incoming>, failing: set<Digest>, key: Digest): Option<nat> {
    if images == [] then None
    else if images[0].key == key && key !in failing then Some(images[0].size)
    else FirstStored(images[1..], failing, key)
  }

  /** What the store then holds of any digest: the file there already, as long as it was, or else the first image written. */
  lemma {:induction false} StoredSizes(files: Store, clock: nat, images: seq<Incoming>, failing: set<Digest>, d: Digest)
    ensures SizeOf(StoreAll(files, clock, images, failing).0, d)
         == if SizeOf(files, d).Some? then SizeOf(files, d) else FirstStored(images, failing, d)
    decreases |images|
  {
    if images != [] {
      if images[0].key in failing {
        StoredSizes(files, clock, images[1..], failing, d);
      } else {
        StoredSizes(StoreOne(files, clock, images[0]), clock + 1, images[1..], failing, d);
      }
    }
  }

  /** And whole: as long as its image, in the one file that is read; no other digest's file has changed. */
  lemma {:induction false} StoredIsWhole(files: Store, clock: nat, images: seq<Incoming>, failing: set<Digest>)
    requires SameBytes(files, images)
    ensures var now := StoreAll(files, clock, images, failing).0;
      && (forall i :: i in images && i.key !in failing ==> SizeOf(now, i.key) == Some(i.size))
      && (forall d :: d !in StoredKeys(images, failing) ==> SizeOf(now, d) == SizeOf(files, d))
    decreases |images|
  {
    if images != [] {
      assert forall i :: i in images <==> i == images[0] || i in images[1..];
      if images[0].key in failing {
        StoredIsWhole(files, clock, images[1..], failing);
      } else {
        var next := StoreOne(files, clock, images[0]);
        forall d ensures SizeOf(next, d) == if d == images[0].key then Some(images[0].size) else SizeOf(files, d) {
          StoringOneKeeps(files, clock, images[0], d);
        }
        StoredIsWhole(next, clock + 1, images[1..], failing);
      }
    }
  }

  ghost predicate ReferencedSince(files: Store, key: Digest, clock: nat) {
    exists f :: f in files && f.Image? && f.key == key && clock <= files[f].stamp
  }

  /** Every image stored counts as referenced since the writes began, one held already too; no other file is touched. */
  lemma {:induction false} StoredIsReferenced(files: Store, clock: nat, images: seq<Incoming>, failing: set<Digest>)
    ensures var now := StoreAll(files, clock, images, failing).0;
      && (forall d :: d in StoredKeys(images, failing) ==> ReferencedSince(now, d, clock))
      && (forall f :: f in files && !(f.Image? && f.key in StoredKeys(images, failing)) ==> f in now && now[f] == files[f])
      && (forall f :: f in now && f !in files ==> f.Image? && f.key in StoredKeys(images, failing))
    decreases |images|
  {
    if images != [] {
      assert forall i :: i in images <==> i == images[0] || i in images[1..];
      if images[0].key in failing {
        assert StoredKeys(images, failing) == StoredKeys(images[1..], failing);
        StoredIsReferenced(files, clock, images[1..], failing);
      } else {
        assert StoredKeys(images, failing) == {images[0].key} + StoredKeys(images[1..], failing);
        StoredStepIsReferenced(files, clock, images, failing);
      }
    }
  }

  lemma {:induction false} StoredStepIsReferenced(files: Store, clock: nat, images: seq<Incoming>, failing: set<Digest>)
    requires images != [] && images[0].key !in failing
    ensures var now := StoreAll(files, clock, images, failing).0;
      var keys := {images[0].key} + StoredKeys(images[1..], failing);
      && (forall d :: d in keys ==> ReferencedSince(now, d, clock))
      && (forall f :: f in files && !(f.Image? && f.key in keys) ==> f in now && now[f] == files[f])
      && (forall f :: f in now && f !in files ==> f.Image? && f.key in keys)
    decreases |images|, 0
  {
    var next := StoreOne(files, clock, images[0]);
    StoredIsReferenced(next, clock + 1, images[1..], failing);
    var now := StoreAll(files, clock, images, failing).0;
    var keys := StoredKeys(images[1..], failing);
    forall d | d in keys ensures ReferencedSince(now, d, clock) {
      assert ReferencedSince(now, d, clock + 1);
    }
    if images[0].key !in keys {
      var f :| f in next && f.Image? && f.key == images[0].key && next[f].stamp == clock;
      assert now[f] == next[f];
    }
  }

  // ----- the promise -----

  ghost function GuardedFiles(files: Store, guarded: set<Digest>): Store {
    map f | f in files && Guarded(f, guarded) :: files[f]
  }

  /** When every file can be unlinked, eviction ends within the cap. */
  lemma EvictionEndsWithinCap(was: Store, now: Store, guarded: set<Digest>, cap: nat)
    requires Evicted(was, now, guarded, cap, {})
    ensures Total(now) <= cap
  {
    assert Total(now) <= cap || now == map[];
  }

  /** Nothing promised or pending is dropped while it all fits the cap. */
  lemma PromiseIsKept(was: Store, now: Store, guarded: set<Digest>, cap: nat)
    requires Evicted(was, now, guarded, cap, {}) && Total(GuardedFiles(was, guarded)) <= cap
    ensures forall f :: f in was && Guarded(f, guarded) ==> f in now
  {
    if f :| f in was && Guarded(f, guarded) && f !in now {
      var g :| g in was && g !in now && Total(now) + was[g].size > cap && Guarded(g, guarded);
      var back := now[g := was[g]];
      TotalWithout(back, g);
      assert back - {g} == now;
      TotalMonotone(back, GuardedFiles(was, guarded));
      assert false;
    }
  }

  /** So an operation whose images fit beside what is promised keeps them all, and may replace the originals. */
  lemma EverythingPendingIsRetained(files: Store, clock: nat, images: seq<Incoming>, failing: set<Digest>, now: Store,
                                    guarded: set<Digest>, cap: nat)
    requires StoredKeys(images, failing) <= guarded
    requires var mid := StoreAll(files, clock, images, failing).0;
      Evicted(mid, now, guarded, cap, {}) && Total(GuardedFiles(mid, guarded)) <= cap
    ensures Total(now) <= cap
    ensures forall d :: d in StoredKeys(images, failing) ==> OnDisk(now, d)
  {
    var mid := StoreAll(files, clock, images, failing).0;
    EvictionEndsWithinCap(mid, now, guarded, cap);
    PromiseIsKept(mid, now, guarded, cap);
    StoredIsOnDisk(files, clock, images, failing);
    forall d | d in StoredKeys(images, failing) ensures OnDisk(now, d) {
      assert OnDisk(mid, d);
      assert Image(d, false) in mid ==> Guarded(Image(d, false), guarded);
      assert Image(d, true) in mid ==> Guarded(Image(d, true), guarded);
    }
  }

  /** The two passes: the unguarded files first, each class by age. */
  ghost predicate TwoPasses(was: Store, mid: Store, now: Store, spare: seq<File>, kept: seq<File>, j: nat, k: nat,
                            guarded: set<Digest>, cap: nat, locked: set<File>)
  {
    && (forall f :: f in spare <==> f in was && !Guarded(f, guarded))
    && (forall f :: f in kept <==> f in was && Guarded(f, guarded))
    && ByAge(spare, was) && ByAge(kept, was)
    && DroppedTo(was, mid, spare, j, cap, locked) && DroppedTo(mid, now, kept, k, cap, locked)
    && (Total(mid) <= cap ==> k == 0)
  }

  lemma PassesDropOldest(was: Store, mid: Store, now: Store, spare: seq<File>, kept: seq<File>, j: nat, k: nat,
                         guarded: set<Digest>, cap: nat, locked: set<File>)
    requires TwoPasses(was, mid, now, spare, kept, j, k, guarded, cap, locked)
    ensures OldestOut(was, now, guarded, locked) && OnlyDropped(was, now, locked)
  {
    forall f, g | f in was && f !in now && g in was && g in now && g !in locked && Guarded(f, guarded) == Guarded(g, guarded)
      ensures was[f].stamp <= was[g].stamp
    {
      if Guarded(f, guarded) {
        OldestFirst(was, kept, k, locked, f, g);
      } else {
        OldestFirst(was, spare, j, locked, f, g);
      }
    }
  }

  lemma PassesGuardedLast(was: Store, mid: Store, now: Store, spare: seq<File>, kept: seq<File>, j: nat, k: nat,
                          guarded: set<Digest>, cap: nat, locked: set<File>)
    requires TwoPasses(was, mid, now, spare, kept, j, k, guarded, cap, locked)
    ensures GuardedLast(was, now, guarded, locked)
  {
    assert spare[..|spare|] == spare;
    forall f, g | f in was && f !in now && Guarded(f, guarded) && g in now && g !in locked ensures Guarded(g, guarded) {
      assert f in kept[..k];
    }
  }

  lemma PassesNeeded(was: Store, mid: Store, now: Store, spare: seq<File>, kept: seq<File>, j: nat, k: nat,
                     guarded: set<Digest>, cap: nat, locked: set<File>)
    requires TwoPasses(was, mid, now, spare, kept, j, k, guarded, cap, locked)
    ensures Needed(was, now, guarded, cap)
  {
    if now == mid && mid != was {
      var f :| f in Doomed(spare, j, locked) && f in was && Total(mid) + was[f].size > cap;
      forall g | g in was && g !in now ensures !Guarded(g, guarded) {
        assert g in spare[..j];
      }
      assert f !in now;
    } else if now != mid {
      var f :| f in Doomed(kept, k, locked) && f in mid && Total(now) + mid[f].size > cap;
      assert f in was && f !in now && Guarded(f, guarded);
    }
  }

  lemma TwoPassesEvict(was: Store, mid: Store, now: Store, spare: seq<File>, kept: seq<File>, j: nat, k: nat,
                       guarded: set<Digest>, cap: nat, locked: set<File>)
    requires TwoPasses(was, mid, now, spare, kept, j, k, guarded, cap, locked)
    ensures Evicted(was, now, guarded, cap, locked)
  {
    PassesDropOldest(was, mid, now, spare, kept, j, k, guarded, cap, locked);
    PassesGuardedLast(was, mid, now, spare, kept, j, k, guarded, cap, locked);
    PassesNeeded(was, mid, now, spare, kept, j, k, guarded, cap, locked);
    if Total(now) > cap {
      assert spare[..|spare|] == spare && kept[..|kept|] == kept;
      forall f | f in now ensures f in locked {
        assert f in spare || f in kept;
      }
    }
  }

  class ArtworkStore {
    /** Whether a directory is configured; without one nothing is kept. */
    const configured: bool
    const maxBytes: nat
    const keepPerAlbum: int
    /** The directory's files. */
    var files: Store
    /** When the next file is referenced. */
    var clock: nat
    /** The activity records retention is computed from. */
    var rows: seq<Row>
    /** Files the system will not let go of. */
    var locked: set<File>

    constructor (configured: bool, maxBytes: nat, keepPerAlbum: int)
      ensures this.configured == configured && this.maxBytes == maxBytes && this.keepPerAlbum == keepPerAlbum
      ensures files == map[] && rows == [] && locked == {} && clock == 0
    {
      this.configured, this.maxBytes, this.keepPerAlbum := configured, maxBytes, keepPerAlbum;
      files, rows, locked, clock := map[], [], {}, 0;
    }

    /** Whether an image with this digest is on disk. */
    ghost predicate Retains(key: Digest)
      reads this
    {
      OnDisk(files, key)
    }

    /** Where a digest's image is, exactly while the store still has it. */
    function PathFor(key: Digest): (path: Option<File>)
      reads this
      ensures path.Some? <==> OnDisk(files, key)
      ensures path.Some? ==> path.value in files && path.value.Image? && path.value.key == key
    {
      if Image(key, false) in files then Some(Image(key, false))
      else if Image(key, true) in files then Some(Image(key, true))
      else None
    }

    /** The digests the promise covers, and those being replaced right now. */
    ghost predicate IsGuard(guarded: set<Digest>, pending: set<Digest>)
      reads this
    {
      forall d :: d in guarded <==> Promised(rows, keepPerAlbum, d) || d in pending
    }

    /** Stores what one operation is about to overwrite, and says which of it is still there once the cap is enforced. */
    method KeepAll(images: seq<Incoming>, failing: set<Digest>) returns (retained: set<Digest>, ghost guarded: set<Digest>)
      requires Queried(rows)
      modifies this`files, this`clock
      ensures forall d :: d in retained <==> configured && d in StoredKeys(images, failing) && Retains(d)
      ensures !configured || StoredKeys(images, failing) == {} ==> files == old(files)
      ensures configured && StoredKeys(images, failing) != {} ==>
                && IsGuard(guarded, StoredKeys(images, failing))
                && Evicted(StoreAll(old(files), old(clock), images, failing).0, files, guarded, maxBytes, locked)
    {
      retained, guarded := {}, {};
      if !configured {
        return;
      }
      var stored: set<Digest> := {};
      ghost var was, start := files, clock;
      for i := 0 to |images|
        invariant StoreAll(files, clock, images[i..], failing) == StoreAll(was, start, images, failing)
        invariant stored == StoredKeys(images[..i], failing)
        invariant stored == {} ==> files == was
      {
        assert images[i..][0] == images[i] && images[i..][1..] == images[i + 1..];
        assert images[..i + 1] == images[..i] + [images[i]];
        if images[i].key in failing {
          continue;
        }
        var held := PathFor(images[i].key);
        if held.Some? {
          files := files[held.value := Entry(files[held.value].size, clock, ())];
        } else {
          files := files[Image(images[i].key, images[i].png) := Entry(images[i].size, clock, ())];
        }
        clock := clock + 1;
        stored := stored + {images[i].key};
      }
      assert images[..|images|] == images;
      if stored != {} {
        guarded := EvictIfOverCap(stored);
      }
      retained := set d | d in stored && PathFor(d).Some?;
    }

    /** Drops images until the store is under its cap, guarded ones last. */
    method EvictIfOverCap(pending: set<Digest>) returns (ghost guarded: set<Digest>)
      requires Queried(rows)
      modifies this`files
      ensures IsGuard(guarded, pending)
      ensures Evicted(old(files), files, guarded, maxBytes, locked)
    {
      var backups := ArtworkBackups(rows);
      var promised := ProtectedDigests(backups, rows, keepPerAlbum);
      guarded := promised + pending;
      var total := Usage(files);
      if total > maxBytes {
        TwoPassesOver(promised + pending, total);
      }
    }

    /** The unguarded files first, and only if that is not enough the guarded ones. */
    method TwoPassesOver(guarded: set<Digest>, size: nat)
      requires size == Total(files)
      modifies this`files
      ensures Evicted(old(files), files, guarded, maxBytes, locked)
    {
      ghost var was := files;
      var spare := SortByAge(files, set f | f in files && !Guarded(f, guarded));
      var kept := SortByAge(files, set f | f in files && Guarded(f, guarded));
      assert forall f :: f in spare <==> f in Elements(spare);
      assert forall f :: f in kept <==> f in Elements(kept);
      var mid, total;
      ghost var j, k;
      mid, total, j := DropOldest(files, spare, size, maxBytes, locked);
      forall f | f in kept ensures f in mid {
        assert Guarded(f, guarded) && forall g :: g in spare[..j] ==> g in spare;
      }
      files, total, k := DropOldest(mid, kept, total, maxBytes, locked);
      TwoPassesEvict(was, mid, files, spare, kept, j, k, guarded, maxBytes, locked);
    }
  }
}

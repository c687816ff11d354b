/** The index of the library's sidecars, kept current one write at a time, against what a rebuild would give. */
module LibraryIndex {
  import opened Common

  type Dir = string

  /** What the index reads of a sidecar; an empty URL is none. */
  datatype Sidecar = Sidecar(itemId: Option<int>, storeUrl: string, mbid: Option<string>)

  /** A scanned album: its directory, and its sidecar when it has one. */
  datatype Album = Album(path: Dir, sidecar: Option<Sidecar>)

  /** An on-disk album sharing a purchase URL's slug, and how far that goes. */
  datatype SlugCopy = SlugCopy(dir: Dir, linked: bool, sameHost: bool, mbid: Option<string>)

  /** How the release slug and the host are read off a URL. */
  datatype Reader = Reader(slugOf: string -> Option<string>, hostOf: string -> Option<string>)

  datatype Maps = Maps(sidecars: map<Dir, Sidecar>, byItemId: map<int, Dir>, byUrl: map<string, Dir>,
                       bySlug: map<string, set<Dir>>)

  const EMPTY := Maps(map[], map[], map[], map[])

  function SlugFor(r: Reader, sc: Sidecar): Option<string> {
    if sc.storeUrl == "" then None else r.slugOf(sc.storeUrl)
  }

  // ----- the transitions -----

  function Bucket(m: Maps, slug: string): set<Dir> {
    if slug in m.bySlug then m.bySlug[slug] else {}
  }

  /** Adds a stored sidecar's entries, over any other directory's. */
  function Indexed(r: Reader, m: Maps, d: Dir, sc: Sidecar): Maps {
    var slug := SlugFor(r, sc);
    m.(byItemId := if sc.itemId.Some? then m.byItemId[sc.itemId.value := d] else m.byItemId,
       byUrl := if sc.storeUrl != "" then m.byUrl[sc.storeUrl := d] else m.byUrl,
       bySlug := if slug.Some? then m.bySlug[slug.value := Bucket(m, slug.value) + {d}] else m.bySlug)
  }

  /** Drops a sidecar's entries, but not those another directory has since taken. */
  function Deindexed(r: Reader, m: Maps, d: Dir, sc: Sidecar): Maps {
    var slug := SlugFor(r, sc);
    m.(byItemId := if sc.itemId.Some? && sc.itemId.value in m.byItemId && m.byItemId[sc.itemId.value] == d
                   then m.byItemId - {sc.itemId.value} else m.byItemId,
       byUrl := if sc.storeUrl != "" && sc.storeUrl in m.byUrl && m.byUrl[sc.storeUrl] == d
                then m.byUrl - {sc.storeUrl} else m.byUrl,
       bySlug := if slug.Some? && slug.value in m.bySlug then
                   var left := m.bySlug[slug.value] - {d};
                   if left == {} then m.bySlug - {slug.value} else m.bySlug[slug.value := left]
                 else m.bySlug)
  }

  function Dropped(r: Reader, m: Maps, d: Dir): Maps {
    if d in m.sidecars then Deindexed(r, m, d, m.sidecars[d]) else m
  }

  function Upserted(r: Reader, m: Maps, d: Dir, sc: Sidecar): Maps {
    var dropped := Dropped(r, m, d);
    Indexed(r, dropped.(sidecars := m.sidecars[d := sc]), d, sc)
  }

  function Removed(r: Reader, m: Maps, d: Dir): Maps {
    Dropped(r, m, d).(sidecars := m.sidecars - {d})
  }

  /** A rebuild from a scan, album by album. */
  function RebuiltFrom(r: Reader, albums: seq<Album>): Maps {
    if albums == [] then EMPTY
    else
      var m := RebuiltFrom(r, albums[..|albums| - 1]);
      var a := albums[|albums| - 1];
      if a.sidecar.None? then m
      else Indexed(r, m.(sidecars := m.sidecars[a.path := a.sidecar.value]), a.path, a.sidecar.value)
  }

  /** A scan names each directory once. */
  ghost predicate DistinctPaths(albums: seq<Album>) {
    forall i, j :: 0 <= i < j < |albums| ==> albums[i].path != albums[j].path
  }

  datatype Op = ResetFrom(albums: seq<Album>) | Upsert(dir: Dir, sc: Sidecar) | Remove(dir: Dir) | Clear

  function After(r: Reader, m: Maps, op: Op): Maps {
    match op
    case ResetFrom(albums) => RebuiltFrom(r, albums)
    case Upsert(d, sc) => Upserted(r, m, d, sc)
    case Remove(d) => Removed(r, m, d)
    case Clear => EMPTY
  }

  /** The index after a run of operations, the first one first. */
  function Run(r: Reader, ops: seq<Op>): Maps {
    if ops == [] then EMPTY else After(r, Run(r, ops[..|ops| - 1]), ops[|ops| - 1])
  }

  ghost predicate ProperRun(ops: seq<Op>) {
    forall op :: op in ops && op.ResetFrom? ==> DistinctPaths(op.albums)
  }

  // ----- what holds after every run -----

  /** Every slug's bucket is exactly the directories whose stored sidecar carries it, and none is empty. */
  ghost predicate SlugsExact(r: Reader, m: Maps) {
    && (forall s :: s in m.bySlug ==> m.bySlug[s] != {})
    && forall s, d :: d in Bucket(m, s) <==> d in m.sidecars && SlugFor(r, m.sidecars[d]) == Some(s)
  }

  /** Every id and URL points at a directory whose stored sidecar holds it. */
  ghost predicate Sound(m: Maps) {
    && (forall i :: i in m.byItemId ==> m.byItemId[i] in m.sidecars && m.sidecars[m.byItemId[i]].itemId == Some(i))
    && forall u :: u in m.byUrl ==> u != "" && m.byUrl[u] in m.sidecars && m.sidecars[m.byUrl[u]].storeUrl == u
  }

  /** Every id and URL a stored sidecar holds has an entry. */
  ghost predicate Complete(m: Maps) {
    && (forall d :: d in m.sidecars && m.sidecars[d].itemId.Some? ==> m.sidecars[d].itemId.value in m.byItemId)
    && forall d :: d in m.sidecars && m.sidecars[d].storeUrl != "" ==> m.sidecars[d].storeUrl in m.byUrl
  }

  ghost predicate Valid(r: Reader, m: Maps) {
    SlugsExact(r, m) && Sound(m)
  }

  /** The directories whose stored sidecar carries a slug. */
  ghost predicate Carries(r: Reader, m: Maps, s: string, d: Dir) {
    d in m.sidecars && SlugFor(r, m.sidecars[d]) == Some(s)
  }

  lemma IndexedKeepsSlugs(r: Reader, m: Maps, d: Dir, sc: Sidecar)
    requires SlugsExact(r, m) && d !in m.sidecars
    ensures SlugsExact(r, Indexed(r, m.(sidecars := m.sidecars[d := sc]), d, sc))
  {
    var now := Indexed(r, m.(sidecars := m.sidecars[d := sc]), d, sc);
    forall s, e ensures e in Bucket(now, s) <==> Carries(r, now, s, e) {
      assert e in Bucket(m, s) <==> Carries(r, m, s, e);
    }
    assert forall s :: s in now.bySlug ==> now.bySlug[s] != {} by {
      forall s | s in now.bySlug ensures now.bySlug[s] != {} {
        if SlugFor(r, sc) == Some(s) {
          assert d in now.bySlug[s];
        } else {
          assert s in m.bySlug && now.bySlug[s] == m.bySlug[s];
        }
      }
    }
  }

  lemma RemovedKeepsSlugs(r: Reader, m: Maps, d: Dir)
    requires SlugsExact(r, m)
    ensures SlugsExact(r, Removed(r, m, d))
  {
    var now := Removed(r, m, d);
    forall s, e ensures e in Bucket(now, s) <==> Carries(r, now, s, e) {
      assert e in Bucket(m, s) <==> Carries(r, m, s, e);
      if d in m.sidecars && SlugFor(r, m.sidecars[d]) == Some(s) {
        assert Bucket(now, s) == Bucket(m, s) - {d};
      } else {
        assert Bucket(now, s) == Bucket(m, s);
      }
    }
  }

  lemma IndexedKeepsValid(r: Reader, m: Maps, d: Dir, sc: Sidecar)
    requires Valid(r, m) && d !in m.sidecars
    ensures var now := Indexed(r, m.(sidecars := m.sidecars[d := sc]), d, sc);
      Valid(r, now) && (Complete(m) ==> Complete(now))
  {
    IndexedKeepsSlugs(r, m, d, sc);
  }

  lemma RemovedKeepsValid(r: Reader, m: Maps, d: Dir)
    requires Valid(r, m)
    ensures Valid(r, Removed(r, m, d))
  {
    RemovedKeepsSlugs(r, m, d);
  }

  /** Writing a sidecar is dropping the old one and indexing the new. */
  lemma UpsertIsRemoveThenIndex(r: Reader, m: Maps, d: Dir, sc: Sidecar)
    ensures var removed := Removed(r, m, d);
      Upserted(r, m, d, sc) == Indexed(r, removed.(sidecars := removed.sidecars[d := sc]), d, sc)
  {
    assert (m.sidecars - {d})[d := sc] == m.sidecars[d := sc];
  }

  lemma {:induction false} RebuildIsValid(r: Reader, albums: seq<Album>)
    requires DistinctPaths(albums)
    ensures var m := RebuiltFrom(r, albums);
      && Valid(r, m) && Complete(m)
      && (forall d, sc :: d in m.sidecars && m.sidecars[d] == sc <==> Album(d, Some(sc)) in albums)
  {
    if albums != [] {
      var rest := albums[..|albums| - 1];
      var a := albums[|albums| - 1];
      RebuildIsValid(r, rest);
      var m := RebuiltFrom(r, rest);
      assert forall x :: x in albums <==> x in rest || x == a;
      assert forall x :: x in rest ==> x.path != a.path;
      assert forall d :: d in m.sidecars ==> Album(d, Some(m.sidecars[d])) in rest;
      if a.sidecar.Some? {
        IndexedKeepsValid(r, m, a.path, a.sidecar.value);
      }
    }
  }

  /** After any run, lookups by id and by URL are sound and lookups by slug exact. */
  lemma {:induction false} EveryRunIsValid(r: Reader, ops: seq<Op>)
    requires ProperRun(ops)
    ensures Valid(r, Run(r, ops))
  {
    if ops != [] {
      var m := Run(r, ops[..|ops| - 1]);
      EveryRunIsValid(r, ops[..|ops| - 1]);
      match ops[|ops| - 1]
      case ResetFrom(albums) => RebuildIsValid(r, albums);
      case Upsert(d, sc) =>
        UpsertIsRemoveThenIndex(r, m, d, sc);
        RemovedKeepsValid(r, m, d);
        IndexedKeepsValid(r, Removed(r, m, d), d, sc);
      case Remove(d) => RemovedKeepsValid(r, m, d);
      case Clear =>
    }
  }

  // ----- when the index is complete -----

  /** Dropping `d` would lose a key that another directory also holds. */
  ghost predicate Orphans(m: Maps, d: Dir) {
    d in m.sidecars && exists e :: e in m.sidecars && e != d && Shares(m, d, e)
  }

  /** `e` holds a key of `d`'s that is indexed as `d`'s. */
  ghost predicate Shares(m: Maps, d: Dir, e: Dir)
    requires d in m.sidecars && e in m.sidecars
  {
    var x, y := m.sidecars[d], m.sidecars[e];
    || (x.itemId.Some? && x.itemId == y.itemId && x.itemId.value in m.byItemId && m.byItemId[x.itemId.value] == d)
    || (x.storeUrl != "" && x.storeUrl == y.storeUrl && x.storeUrl in m.byUrl && m.byUrl[x.storeUrl] == d)
  }

  /** A complete index stays complete when a directory is dropped exactly when no other holds a key it answers for. */
  lemma RemoveKeepsCompleteExactly(r: Reader, m: Maps, d: Dir)
    requires Valid(r, m) && Complete(m)
    ensures Complete(Removed(r, m, d)) <==> !Orphans(m, d)
  {
    var now := Removed(r, m, d);
    if Orphans(m, d) {
      var e :| e in m.sidecars && e != d && Shares(m, d, e);
      assert now.sidecars[e] == m.sidecars[e];
    }
  }

  /** The same of a write, but for the keys the new sidecar still holds. */
  ghost predicate Forsakes(m: Maps, d: Dir, sc: Sidecar) {
    d in m.sidecars && exists e :: e in m.sidecars && e != d && ForsakenBy(m, d, sc, e)
  }

  ghost predicate ForsakenBy(m: Maps, d: Dir, sc: Sidecar, e: Dir)
    requires d in m.sidecars && e in m.sidecars
  {
    var x, y := m.sidecars[d], m.sidecars[e];
    || (x.itemId.Some? && x.itemId == y.itemId && x.itemId != sc.itemId
        && x.itemId.value in m.byItemId && m.byItemId[x.itemId.value] == d)
    || (x.storeUrl != "" && x.storeUrl == y.storeUrl && x.storeUrl != sc.storeUrl
        && x.storeUrl in m.byUrl && m.byUrl[x.storeUrl] == d)
  }

  lemma ForsakenIsLost(r: Reader, m: Maps, d: Dir, sc: Sidecar)
    requires Valid(r, m) && Complete(m) && Forsakes(m, d, sc)
    ensures !Complete(Upserted(r, m, d, sc))
  {
    var now := Upserted(r, m, d, sc);
    var e :| e in m.sidecars && e != d && ForsakenBy(m, d, sc, e);
    assert now.sidecars[e] == m.sidecars[e];
  }

  lemma NotForsakenIsKept(r: Reader, m: Maps, d: Dir, sc: Sidecar)
    requires Valid(r, m) && Complete(m) && !Forsakes(m, d, sc)
    ensures Complete(Upserted(r, m, d, sc))
  {
  }

  lemma UpsertKeepsCompleteExactly(r: Reader, m: Maps, d: Dir, sc: Sidecar)
    requires Valid(r, m) && Complete(m)
    ensures Complete(Upserted(r, m, d, sc)) <==> !Forsakes(m, d, sc)
  {
    if Forsakes(m, d, sc) {
      ForsakenIsLost(r, m, d, sc);
    } else {
      NotForsakenIsKept(r, m, d, sc);
    }
  }

  /** No two directories hold the same id, and no two the same URL. */
  ghost predicate NothingShared(m: Maps) {
    forall d, e :: d in m.sidecars && e in m.sidecars && d != e ==>
      && (m.sidecars[d].itemId.Some? ==> m.sidecars[d].itemId != m.sidecars[e].itemId)
      && (m.sidecars[d].storeUrl != "" ==> m.sidecars[d].storeUrl != m.sidecars[e].storeUrl)
  }

  ghost predicate NeverShared(r: Reader, ops: seq<Op>) {
    forall k :: 0 <= k <= |ops| ==> NothingShared(Run(r, ops[..k]))
  }

  /** While no two directories share a key, the index stays complete. */
  lemma {:induction false} UnsharedRunIsComplete(r: Reader, ops: seq<Op>)
    requires ProperRun(ops) && NeverShared(r, ops)
    ensures Complete(Run(r, ops))
  {
    if ops != [] {
      var rest := ops[..|ops| - 1];
      var m := Run(r, rest);
      forall k | 0 <= k <= |rest| ensures NothingShared(Run(r, rest[..k])) {
        assert rest[..k] == ops[..k];
      }
      UnsharedRunIsComplete(r, rest);
      EveryRunIsValid(r, rest);
      assert rest[..|rest|] == rest && NothingShared(m);
      match ops[|ops| - 1]
      case ResetFrom(albums) => RebuildIsValid(r, albums);
      case Upsert(d, sc) => UpsertKeepsCompleteExactly(r, m, d, sc);
      case Remove(d) => RemoveKeepsCompleteExactly(r, m, d);
      case Clear =>
    }
  }

  lemma SameKeys(x: Maps, y: Maps)
    requires x.sidecars == y.sidecars && NothingShared(x) && Sound(x) && Sound(y) && Complete(y)
    ensures x.byItemId.Keys <= y.byItemId.Keys && x.byUrl.Keys <= y.byUrl.Keys
    ensures forall i :: i in x.byItemId ==> x.byItemId[i] == y.byItemId[i]
    ensures forall u :: u in x.byUrl ==> x.byUrl[u] == y.byUrl[u]
  {
    forall i | i in x.byItemId ensures i in y.byItemId && x.byItemId[i] == y.byItemId[i] {
      assert y.sidecars[x.byItemId[i]].itemId == Some(i);
    }
    forall u | u in x.byUrl ensures u in y.byUrl && x.byUrl[u] == y.byUrl[u] {
      assert y.sidecars[x.byUrl[u]].storeUrl == u;
    }
  }

  lemma SameBuckets(r: Reader, x: Maps, y: Maps)
    requires x.sidecars == y.sidecars && Valid(r, x) && Valid(r, y)
    ensures x.bySlug == y.bySlug
  {
    forall s ensures Bucket(x, s) == Bucket(y, s) {
      forall d ensures d in Bucket(x, s) <==> d in Bucket(y, s) {
        assert d in Bucket(x, s) <==> Carries(r, x, s, d);
        assert d in Bucket(y, s) <==> Carries(r, y, s, d);
      }
    }
    forall s ensures s in x.bySlug <==> s in y.bySlug {
      assert Bucket(x, s) == Bucket(y, s);
    }
    forall s | s in x.bySlug ensures x.bySlug[s] == y.bySlug[s] {
      assert Bucket(x, s) == Bucket(y, s);
    }
  }

  /** An unshared, sound and complete index is determined by the sidecars it was built from. */
  lemma UnsharedIndexIsUnique(r: Reader, x: Maps, y: Maps)
    requires x.sidecars == y.sidecars && NothingShared(x)
    requires Valid(r, x) && Complete(x) && Valid(r, y) && Complete(y)
    ensures x == y
  {
    SameKeys(x, y);
    SameKeys(y, x);
    assert x.byItemId == y.byItemId by {
      assert x.byItemId.Keys == y.byItemId.Keys;
      assert forall i :: i in x.byItemId.Keys ==> x.byItemId[i] == y.byItemId[i];
    }
    assert x.byUrl == y.byUrl;
    SameBuckets(r, x, y);
  }

  /** So it equals a rebuild from any scan that finds the same sidecars. */
  lemma IncrementalEqualsRebuild(r: Reader, ops: seq<Op>, albums: seq<Album>)
    requires ProperRun(ops) && NeverShared(r, ops) && DistinctPaths(albums)
    requires RebuiltFrom(r, albums).sidecars == Run(r, ops).sidecars
    ensures Run(r, ops) == RebuiltFrom(r, albums)
  {
    EveryRunIsValid(r, ops);
    UnsharedRunIsComplete(r, ops);
    RebuildIsValid(r, albums);
    assert ops[..|ops|] == ops;
    UnsharedIndexIsUnique(r, Run(r, ops), RebuiltFrom(r, albums));
  }

  // ----- exactly when every rebuild agrees -----

  /** Some scan finds exactly these sidecars. */
  lemma {:induction false} ScanOf(sidecars: map<Dir, Sidecar>) returns (albums: seq<Album>)
    ensures DistinctPaths(albums)
    ensures forall a :: a in albums <==> a.path in sidecars && a.sidecar == Some(sidecars[a.path])
    decreases |sidecars|
  {
    if sidecars == map[] {
      albums := [];
    } else {
      var d :| d in sidecars;
      var rest := ScanOf(sidecars - {d});
      albums := AlbumLast(sidecars, d, rest);
    }
  }

  lemma AlbumLast(sidecars: map<Dir, Sidecar>, d: Dir, rest: seq<Album>) returns (albums: seq<Album>)
    requires d in sidecars && DistinctPaths(rest)
    requires forall a :: a in rest <==> a.path in sidecars - {d} && a.sidecar == Some((sidecars - {d})[a.path])
    ensures albums == rest + [Album(d, Some(sidecars[d]))] && DistinctPaths(albums)
    ensures forall a :: a in albums <==> a.path in sidecars && a.sidecar == Some(sidecars[a.path])
  {
    albums := rest + [Album(d, Some(sidecars[d]))];
    forall i | 0 <= i < |rest| ensures rest[i].path != d {
      assert rest[i] in rest;
    }
  }

  /** A scan of these sidecars can come to any one of them last, and then its keys are that directory's. */
  lemma ScanEndsWith(r: Reader, sidecars: map<Dir, Sidecar>, d: Dir) returns (albums: seq<Album>)
    requires d in sidecars
    ensures DistinctPaths(albums) && RebuiltFrom(r, albums).sidecars == sidecars
    ensures var m, sc := RebuiltFrom(r, albums), sidecars[d];
      && (sc.itemId.Some? ==> sc.itemId.value in m.byItemId && m.byItemId[sc.itemId.value] == d)
      && (sc.storeUrl != "" ==> sc.storeUrl in m.byUrl && m.byUrl[sc.storeUrl] == d)
  {
    var rest := ScanOf(sidecars - {d});
    albums := AlbumLast(sidecars, d, rest);
    assert albums[..|albums| - 1] == rest;
    RebuildIsValid(r, albums);
    SameSidecars(r, sidecars, albums);
  }

  lemma SameSidecars(r: Reader, sidecars: map<Dir, Sidecar>, albums: seq<Album>)
    requires forall a :: a in albums <==> a.path in sidecars && a.sidecar == Some(sidecars[a.path])
    requires forall d, sc :: d in RebuiltFrom(r, albums).sidecars && RebuiltFrom(r, albums).sidecars[d] == sc <==> Album(d, Some(sc)) in albums
    ensures RebuiltFrom(r, albums).sidecars == sidecars
  {
    var m := RebuiltFrom(r, albums);
    forall d ensures d in m.sidecars <==> d in sidecars {
      if d in sidecars {
        assert Album(d, Some(sidecars[d])) in albums;
      }
      if d in m.sidecars {
        assert Album(d, Some(m.sidecars[d])) in albums;
      }
    }
    forall d | d in sidecars ensures m.sidecars[d] == sidecars[d] {
      assert Album(d, Some(m.sidecars[d])) in albums;
    }
  }

  /** The index is what any rebuild from a scan of its sidecars gives. */
  ghost predicate EqualsEveryRebuild(r: Reader, m: Maps) {
    forall albums :: DistinctPaths(albums) && RebuiltFrom(r, albums).sidecars == m.sidecars ==> RebuiltFrom(r, albums) == m
  }

  lemma SharedDiffers(r: Reader, m: Maps, d: Dir, e: Dir)
    requires d in m.sidecars && e in m.sidecars && d != e
    requires var x, y := m.sidecars[d], m.sidecars[e];
      (x.itemId.Some? && x.itemId == y.itemId) || (x.storeUrl != "" && x.storeUrl == y.storeUrl)
    ensures !EqualsEveryRebuild(r, m)
  {
    var forD := ScanEndsWith(r, m.sidecars, d);
    var forE := ScanEndsWith(r, m.sidecars, e);
    assert RebuiltFrom(r, forD) != RebuiltFrom(r, forE);
  }

  /** A sound and complete index equals every rebuild of its sidecars if and only if no two directories share a key. */
  lemma EqualsEveryRebuildExactly(r: Reader, m: Maps)
    requires Valid(r, m) && Complete(m)
    ensures EqualsEveryRebuild(r, m) <==> NothingShared(m)
  {
    if NothingShared(m) {
      forall albums | DistinctPaths(albums) && RebuiltFrom(r, albums).sidecars == m.sidecars ensures RebuiltFrom(r, albums) == m {
        RebuildIsValid(r, albums);
        UnsharedIndexIsUnique(r, m, RebuiltFrom(r, albums));
      }
    } else {
      var d, e :| d in m.sidecars && e in m.sidecars && d != e
        && !((m.sidecars[d].itemId.Some? ==> m.sidecars[d].itemId != m.sidecars[e].itemId)
             && (m.sidecars[d].storeUrl != "" ==> m.sidecars[d].storeUrl != m.sidecars[e].storeUrl));
      SharedDiffers(r, m, d, e);
    }
  }

  /** With a shared URL it need not: the second album takes the entry, and takes it away with it. */
  lemma SharedUrlIsLost(r: Reader, sc: Sidecar)
    requires sc.storeUrl != ""
    ensures var ops := [Upsert("a", sc), Upsert("b", sc), Remove("b")];
      var scan := [Album("a", Some(sc))];
      && ProperRun(ops) && DistinctPaths(scan)
      && Run(r, ops).sidecars == RebuiltFrom(r, scan).sidecars
      && sc.storeUrl !in Run(r, ops).byUrl && sc.storeUrl in RebuiltFrom(r, scan).byUrl
  {
    var ops := [Upsert("a", sc), Upsert("b", sc), Remove("b")];
    assert ops[..2] == [Upsert("a", sc), Upsert("b", sc)];
    assert ops[..2][..1] == [Upsert("a", sc)];
    var first := [Upsert("a", sc)];
    assert first[..0] == [] && Run(r, []) == EMPTY;
    var one := Run(r, first);
    assert one == After(r, Run(r, first[..0]), first[0]) == Upserted(r, EMPTY, "a", sc);
    var two := Run(r, ops[..2]);
    assert two == Upserted(r, one, "b", sc);
    assert Run(r, ops) == Removed(r, two, "b");
    assert RebuiltFrom(r, []) == EMPTY;
    assert [Album("a", Some(sc))][..0] == [];
  }

  // ----- the index as the module's four dictionaries -----

  class Index {
    const reader: Reader
    var sidecars: map<Dir, Sidecar>
    var byItemId: map<int, Dir>
    var byUrl: map<string, Dir>
    var bySlug: map<string, set<Dir>>

    ghost function State(): Maps
      reads this
    {
      Maps(sidecars, byItemId, byUrl, bySlug)
    }

    constructor (reader: Reader)
      ensures this.reader == reader && State() == EMPTY
    {
      this.reader := reader;
      sidecars, byItemId, byUrl, bySlug := map[], map[], map[], map[];
    }

    method AddEntries(d: Dir, sc: Sidecar)
      modifies this`byItemId, this`byUrl, this`bySlug
      ensures State() == Indexed(reader, old(State()), d, sc)
    {
      if sc.itemId.Some? {
        byItemId := byItemId[sc.itemId.value := d];
      }
      if sc.storeUrl != "" {
        byUrl := byUrl[sc.storeUrl := d];
        var slug := reader.slugOf(sc.storeUrl);
        if slug.Some? {
          var bucket := if slug.value in bySlug then bySlug[slug.value] else {};
          bySlug := bySlug[slug.value := bucket + {d}];
        }
      }
    }

    method DropEntries(d: Dir, sc: Sidecar)
      modifies this`byItemId, this`byUrl, this`bySlug
      ensures State() == Deindexed(reader, old(State()), d, sc)
    {
      if sc.itemId.Some? && sc.itemId.value in byItemId && byItemId[sc.itemId.value] == d {
        byItemId := byItemId - {sc.itemId.value};
      }
      if sc.storeUrl != "" {
        if sc.storeUrl in byUrl && byUrl[sc.storeUrl] == d {
          byUrl := byUrl - {sc.storeUrl};
        }
        var slug := reader.slugOf(sc.storeUrl);
        if slug.Some? && slug.value in bySlug {
          bySlug := bySlug[slug.value := bySlug[slug.value] - {d}];
          if bySlug[slug.value] == {} {
            bySlug := bySlug - {slug.value};
          }
        }
      }
      assert State() == Deindexed(reader, old(State()), d, sc);
    }

    method Upsert(d: Dir, sc: Sidecar)
      modifies this
      ensures State() == Upserted(reader, old(State()), d, sc)
    {
      if d in sidecars {
        DropEntries(d, sidecars[d]);
      }
      sidecars := sidecars[d := sc];
      AddEntries(d, sc);
    }

    method Remove(d: Dir)
      modifies this
      ensures State() == Removed(reader, old(State()), d)
    {
      if d in sidecars {
        var was := sidecars[d];
        sidecars := sidecars - {d};
        DropEntries(d, was);
      } else {
        assert sidecars - {d} == sidecars;
      }
    }

    method Clear()
      modifies this
      ensures State() == EMPTY
    {
      sidecars, byItemId, byUrl, bySlug := map[], map[], map[], map[];
    }

    method ResetFrom(albums: seq<Album>)
      modifies this
      ensures State() == RebuiltFrom(reader, albums)
    {
      Clear();
      for i := 0 to |albums|
        invariant State() == RebuiltFrom(reader, albums[..i])
      {
        assert albums[..i + 1][..i] == albums[..i];
        if albums[i].sidecar.Some? {
          sidecars := sidecars[albums[i].path := albums[i].sidecar.value];
          AddEntries(albums[i].path, albums[i].sidecar.value);
        }
      }
      assert albums[..|albums|] == albums;
    }

    /** Every linked purchase id. */
    method ItemIds() returns (ids: set<int>)
      requires Valid(reader, State())
      ensures ids == byItemId.Keys
      ensures forall i :: i in ids ==> exists d :: d in sidecars && sidecars[d].itemId == Some(i)
    {
      ids := byItemId.Keys;
    }

    /** A directory whose sidecar's URL is exactly `url`. */
    method DirForUrl(url: string) returns (d: Option<Dir>)
      requires Valid(reader, State())
      ensures d.Some? ==> d.value in sidecars && sidecars[d.value].storeUrl == url
      ensures Complete(State()) && url != "" ==> (d.Some? <==> exists e :: e in sidecars && sidecars[e].storeUrl == url)
    {
      d := if url in byUrl then Some(byUrl[url]) else None;
    }

    /** Every directory whose URL carries `url`'s slug, once each, and how far the resemblance goes. */
    method SlugCopies(url: string) returns (out: seq<SlugCopy>)
      requires Valid(reader, State())
      ensures forall i, j :: 0 <= i < j < |out| ==> out[i].dir != out[j].dir
      ensures forall d :: (exists c :: c in out && c.dir == d)
                          <==> d in sidecars && url != "" && sidecars[d].storeUrl != ""
                               && reader.slugOf(url).Some? && reader.slugOf(sidecars[d].storeUrl) == reader.slugOf(url)
      ensures forall c :: c in out ==> c.dir in sidecars && c == CopyOf(c.dir, sidecars[c.dir], url)
      ensures forall c :: c in out ==>
                var sc, host := sidecars[c.dir], reader.hostOf(url);
                && (c.linked <==> sc.itemId.Some?) && c.mbid == sc.mbid
                && (c.sameHost <==> host.Some? && reader.hostOf(sc.storeUrl) == host)
    {
      out := [];
      var slug := if url == "" then None else reader.slugOf(url);
      if slug.None? {
        return;
      }
      var left := if slug.value in bySlug then bySlug[slug.value] else {};
      ghost var all := left;
      assert forall d :: d in Bucket(State(), slug.value) <==> d in sidecars && SlugFor(reader, sidecars[d]) == Some(slug.value);
      while left != {}
        invariant left <= all
        invariant forall i, j :: 0 <= i < j < |out| ==> out[i].dir != out[j].dir
        invariant forall d :: (exists c :: c in out && c.dir == d) <==> d in all && d !in left
        invariant forall c :: c in out ==> c.dir in sidecars && c == CopyOf(c.dir, sidecars[c.dir], url)
        decreases left
      {
        var d :| d in left;
        ghost var was := out;
        out := out + [CopyOf(d, sidecars[d], url)];
        left := left - {d};
        forall e ensures (exists c :: c in out && c.dir == e) <==> e in all && e !in left {
          assert out[|was|].dir == d;
          if c :| c in was && c.dir == e {
            assert c in out;
          }
        }
      }
    }

    function CopyOf(d: Dir, sc: Sidecar, url: string): SlugCopy {
      var host := reader.hostOf(url);
      SlugCopy(d, sc.itemId.Some?, host.Some? && reader.hostOf(sc.storeUrl) == host, sc.mbid)
    }
  }
}

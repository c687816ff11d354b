/** The survey a backfill starts from: which albums are still unlinked, and which purchases are linked already. */
module LinkSurvey {
  import opened Common
  import opened Backfill

  /** What the survey reads of a sidecar; an empty store URL is none. */
  datatype Sidecar = Sidecar(storeUrl: string, itemId: Option<int>)

  /** A sidecar found in the library; None when it could not be read. */
  datatype Entry = Entry(dir: Dir, sidecar: Option<Sidecar>)

  /** How the release slug is read off a URL, and whether it is Bandcamp's. */
  datatype Reader = Reader(slugOf: string -> Option<string>, isBandcamp: string -> bool)

  datatype Survey = Survey(groups: seq<Group>, slugless: seq<Dir>, linked: set<int>)

  predicate HasUrl(e: Entry) {
    e.sidecar.Some? && e.sidecar.value.storeUrl != ""
  }

  predicate Unlinked(e: Entry) {
    HasUrl(e) && e.sidecar.value.itemId.None?
  }

  /** The slug of a URL, unless it is empty. */
  function Slug(r: Reader, url: string): Option<string> {
    if r.slugOf(url) == Some("") then None else r.slugOf(url)
  }

  function SlugOf(r: Reader, e: Entry): Option<string>
    requires HasUrl(e)
  {
    Slug(r, e.sidecar.value.storeUrl)
  }

  /** The groups with one more album filed under its slug. */
  function Filed(groups: seq<Group>, slug: string, d: Dir): seq<Group> {
    if groups == [] then [Group(slug, [d])]
    else if groups[0].slug == slug then [groups[0].(albums := groups[0].albums + [d])] + groups[1..]
    else [groups[0]] + Filed(groups[1..], slug, d)
  }

  function Noted(r: Reader, s: Survey, e: Entry): Survey {
    if !HasUrl(e) then s
    else if e.sidecar.value.itemId.Some? then s.(linked := s.linked + {e.sidecar.value.itemId.value})
    else if SlugOf(r, e).Some? then s.(groups := Filed(s.groups, SlugOf(r, e).value, e.dir))
    else if r.isBandcamp(e.sidecar.value.storeUrl) then s.(slugless := s.slugless + [e.dir])
    else s
  }

  function SurveyOf(r: Reader, entries: seq<Entry>): Survey {
    if entries == [] then Survey([], [], {})
    else Noted(r, SurveyOf(r, entries[..|entries| - 1]), entries[|entries| - 1])
  }

  method SurveyAlbumLinks(r: Reader, entries: seq<Entry>) returns (s: Survey)
    ensures s == SurveyOf(r, entries)
  {
    var groups: seq<Group>, slugless: seq<Dir>, linked: set<int> := [], [], {};
    for i := 0 to |entries|
      invariant Survey(groups, slugless, linked) == SurveyOf(r, entries[..i])
    {
      var e := entries[i];
      assert entries[..i + 1][..i] == entries[..i];
      if e.sidecar.None? || e.sidecar.value.storeUrl == "" {
        continue;
      }
      var sc := e.sidecar.value;
      if sc.itemId.Some? {
        linked := linked + {sc.itemId.value};
        continue;
      }
      var slug := Slug(r, sc.storeUrl);
      if slug.Some? {
        groups := Filed(groups, slug.value, e.dir);
      } else if r.isBandcamp(sc.storeUrl) {
        slugless := slugless + [e.dir];
      }
    }
    assert entries[..|entries|] == entries;
    s := Survey(groups, slugless, linked);
  }

  // ----- the survey, said of the sidecars -----

  /** A sidecar not linked, with a store URL of the slug. */
  ghost predicate OfSlug(r: Reader, e: Entry, slug: string) {
    && e.sidecar.Some? && e.sidecar.value.storeUrl != "" && e.sidecar.value.itemId.None?
    && slug != "" && r.slugOf(e.sidecar.value.storeUrl) == Some(slug)
  }

  /** A sidecar not linked, with a Bandcamp URL that has no slug. */
  ghost predicate WithoutSlug(r: Reader, e: Entry) {
    && e.sidecar.Some? && e.sidecar.value.storeUrl != "" && e.sidecar.value.itemId.None?
    && r.slugOf(e.sidecar.value.storeUrl) in {None, Some("")} && r.isBandcamp(e.sidecar.value.storeUrl)
  }

  ghost predicate Links(e: Entry, id: int) {
    e.sidecar.Some? && e.sidecar.value.storeUrl != "" && e.sidecar.value.itemId == Some(id)
  }

  ghost function DirsOfSlug(r: Reader, entries: seq<Entry>, slug: string): seq<Dir> {
    if entries == [] then []
    else DirsOfSlug(r, entries[..|entries| - 1], slug) + if OfSlug(r, entries[|entries| - 1], slug) then [entries[|entries| - 1].dir] else []
  }

  ghost function DirsWithoutSlug(r: Reader, entries: seq<Entry>): seq<Dir> {
    if entries == [] then []
    else DirsWithoutSlug(r, entries[..|entries| - 1]) + if WithoutSlug(r, entries[|entries| - 1]) then [entries[|entries| - 1].dir] else []
  }

  /** The albums filed under a slug. */
  ghost function Under(groups: seq<Group>, slug: string): seq<Dir> {
    if groups == [] then [] else if groups[0].slug == slug then groups[0].albums else Under(groups[1..], slug)
  }

  ghost predicate Filing(groups: seq<Group>) {
    && (forall i, j :: 0 <= i < j < |groups| ==> groups[i].slug != groups[j].slug)
    && (forall i :: 0 <= i < |groups| ==> groups[i].albums != [])
  }

  lemma {:induction false} FiledUnder(groups: seq<Group>, slug: string, d: Dir, other: string)
    ensures Under(Filed(groups, slug, d), other) == Under(groups, other) + if other == slug then [d] else []
  {
    if groups != [] && groups[0].slug != slug {
      FiledUnder(groups[1..], slug, d, other);
      var rest := Filed(groups[1..], slug, d);
      assert ([groups[0]] + rest)[1..] == rest;
    }
  }

  lemma {:induction false} FiledIsFiling(groups: seq<Group>, slug: string, d: Dir)
    requires Filing(groups)
    ensures Filing(Filed(groups, slug, d))
  {
    if groups != [] && groups[0].slug != slug {
      var rest := Filed(groups[1..], slug, d);
      FiledIsFiling(groups[1..], slug, d);
      FiledHolds(groups[1..], slug, d);
      forall h | h in rest ensures h.slug != groups[0].slug {
        assert h.slug in SlugsOf(rest);
        if h.slug != slug {
          var g :| g in groups[1..] && g.slug == h.slug;
        }
      }
      HeadFiles(groups[0], rest);
    }
  }

  lemma HeadFiles(g: Group, rest: seq<Group>)
    requires Filing(rest) && g.albums != [] && forall h :: h in rest ==> h.slug != g.slug
    ensures Filing([g] + rest)
  {
  }

  lemma {:induction false} UnderIsOwn(groups: seq<Group>, i: nat)
    requires i < |groups| && Filing(groups)
    ensures Under(groups, groups[i].slug) == groups[i].albums
  {
    if i > 0 {
      UnderIsOwn(groups[1..], i - 1);
    }
  }

  lemma {:induction false} SurveyFiles(r: Reader, entries: seq<Entry>, slug: string)
    ensures Filing(SurveyOf(r, entries).groups)
    ensures Under(SurveyOf(r, entries).groups, slug) == DirsOfSlug(r, entries, slug)
    ensures SurveyOf(r, entries).slugless == DirsWithoutSlug(r, entries)
  {
    if entries != [] {
      var e := entries[|entries| - 1];
      SurveyFiles(r, entries[..|entries| - 1], slug);
      if Unlinked(e) && SlugOf(r, e).Some? {
        FiledUnder(SurveyOf(r, entries[..|entries| - 1]).groups, SlugOf(r, e).value, e.dir, slug);
        FiledIsFiling(SurveyOf(r, entries[..|entries| - 1]).groups, SlugOf(r, e).value, e.dir);
      }
    }
  }

  lemma {:induction false} SurveyLinks(r: Reader, entries: seq<Entry>, id: int)
    ensures id in SurveyOf(r, entries).linked <==> exists e :: e in entries && Links(e, id)
  {
    if entries != [] {
      var init, last := entries[..|entries| - 1], entries[|entries| - 1];
      SurveyLinks(r, init, id);
      assert entries == init + [last];
      assert id in SurveyOf(r, entries).linked <==> id in SurveyOf(r, init).linked || Links(last, id);
    }
  }

  /**
   The survey groups the albums not linked by the slugs of their URLs, one group a slug, in the order found; those
   without a slug are listed apart; and an id counts as linked when some sidecar with a store URL names it.
   */
  lemma SurveyExactly(r: Reader, entries: seq<Entry>)
    ensures var s := SurveyOf(r, entries);
      && (forall i, j :: 0 <= i < j < |s.groups| ==> s.groups[i].slug != s.groups[j].slug)
      && (forall g :: g in s.groups ==> g.albums == DirsOfSlug(r, entries, g.slug) != [])
      && (forall slug :: DirsOfSlug(r, entries, slug) != [] ==> exists g :: g in s.groups && g.slug == slug)
      && s.slugless == DirsWithoutSlug(r, entries)
      && (forall id :: id in s.linked <==> exists e :: e in entries && Links(e, id))
  {
    var s := SurveyOf(r, entries);
    SurveyFiles(r, entries, "");
    forall g | g in s.groups ensures g.albums == DirsOfSlug(r, entries, g.slug) != [] {
      var i :| 0 <= i < |s.groups| && s.groups[i] == g;
      UnderIsOwn(s.groups, i);
      SurveyFiles(r, entries, g.slug);
    }
    forall slug | DirsOfSlug(r, entries, slug) != [] ensures exists g :: g in s.groups && g.slug == slug {
      SurveyFiles(r, entries, slug);
      UnderIsThere(s.groups, slug);
    }
    forall id ensures id in s.linked <==> exists e :: e in entries && Links(e, id) {
      SurveyLinks(r, entries, id);
    }
  }

  lemma {:induction false} UnderIsThere(groups: seq<Group>, slug: string)
    requires Under(groups, slug) != []
    ensures exists g :: g in groups && g.slug == slug
  {
    if groups[0].slug == slug {
      assert groups[0] in groups;
    } else {
      UnderIsThere(groups[1..], slug);
      var g :| g in groups[1..] && g.slug == slug;
      assert g in groups;
    }
  }

  // ----- what the survey holds -----

  ghost predicate Apart(groups: seq<Group>) {
    && (forall i, j :: 0 <= i < j < |groups| ==> groups[i].slug != groups[j].slug && Elements(groups[i].albums) !! Elements(groups[j].albums))
    && (forall i :: 0 <= i < |groups| ==> Distinct(groups[i].albums))
  }

  lemma HeldByHead(g: Group, rest: seq<Group>)
    ensures AlbumsOf([g] + rest) == Elements(g.albums) + AlbumsOf(rest)
    ensures SlugsOf([g] + rest) == {g.slug} + SlugsOf(rest)
  {
    assert forall x :: x in [g] + rest <==> x == g || x in rest;
  }

  lemma {:induction false} FiledHolds(groups: seq<Group>, slug: string, d: Dir)
    ensures AlbumsOf(Filed(groups, slug, d)) == AlbumsOf(groups) + {d}
    ensures SlugsOf(Filed(groups, slug, d)) == SlugsOf(groups) + {slug}
  {
    if groups == [] {
      HeldByHead(Group(slug, [d]), []);
      assert [Group(slug, [d])] + [] == [Group(slug, [d])];
    } else {
      HeldByHead(groups[0], groups[1..]);
      assert [groups[0]] + groups[1..] == groups;
      if groups[0].slug == slug {
        HeldByHead(groups[0].(albums := groups[0].albums + [d]), groups[1..]);
        assert Elements(groups[0].albums + [d]) == Elements(groups[0].albums) + {d};
      } else {
        FiledHolds(groups[1..], slug, d);
        HeldByHead(groups[0], Filed(groups[1..], slug, d));
      }
    }
  }

  lemma ApartHead(groups: seq<Group>, g: Group)
    requires Apart(groups) && Distinct(g.albums)
    requires g.slug !in SlugsOf(groups) && Elements(g.albums) !! AlbumsOf(groups)
    ensures Apart([g] + groups)
  {
    var all := [g] + groups;
    forall i, j | 0 <= i < j < |all|
      ensures all[i].slug != all[j].slug && Elements(all[i].albums) !! Elements(all[j].albums)
    {
      assert all[j] in groups;
      assert Elements(all[j].albums) <= AlbumsOf(groups) && all[j].slug in SlugsOf(groups);
    }
  }

  lemma ApartTail(groups: seq<Group>)
    requires groups != [] && Apart(groups)
    ensures Apart(groups[1..]) && Distinct(groups[0].albums)
    ensures groups[0].slug !in SlugsOf(groups[1..]) && Elements(groups[0].albums) !! AlbumsOf(groups[1..])
  {
    var rest := groups[1..];
    forall g | g in rest ensures g.slug != groups[0].slug && Elements(g.albums) !! Elements(groups[0].albums) {
      var i :| 0 <= i < |rest| && rest[i] == g;
      assert groups[i + 1] == g;
    }
  }

  lemma {:induction false} FiledApart(groups: seq<Group>, slug: string, d: Dir)
    requires Apart(groups) && d !in AlbumsOf(groups)
    ensures Apart(Filed(groups, slug, d))
  {
    if groups != [] {
      ApartTail(groups);
      HeldByHead(groups[0], groups[1..]);
      assert [groups[0]] + groups[1..] == groups;
      if groups[0].slug == slug {
        ApartHead(groups[1..], groups[0].(albums := groups[0].albums + [d]));
      } else {
        FiledApart(groups[1..], slug, d);
        FiledHolds(groups[1..], slug, d);
        ApartHead(Filed(groups[1..], slug, d), groups[0]);
      }
    }
  }

  ghost predicate OneEach(entries: seq<Entry>) {
    forall i, j :: 0 <= i < j < |entries| ==> entries[i].dir != entries[j].dir
  }

  ghost predicate HasUnlinked(entries: seq<Entry>, d: Dir) {
    exists e :: e in entries && e.dir == d && Unlinked(e)
  }

  ghost predicate HasLinked(entries: seq<Entry>, id: int) {
    exists e :: e in entries && HasUrl(e) && e.sidecar.value.itemId == Some(id)
  }

  /** Only unlinked albums are offered, each in one place; and every purchase linked beside a store URL is known. */
  ghost predicate Sound(entries: seq<Entry>, s: Survey) {
    && Apart(s.groups) && Distinct(s.slugless) && AlbumsOf(s.groups) !! Elements(s.slugless)
    && (forall d :: d in AlbumsOf(s.groups) + Elements(s.slugless) ==> HasUnlinked(entries, d))
    && (forall id :: id in s.linked <==> HasLinked(entries, id))
  }

  lemma NewDir(entries: seq<Entry>, e: Entry, s: Survey)
    requires OneEach(entries + [e]) && Sound(entries, s)
    ensures e.dir !in AlbumsOf(s.groups) + Elements(s.slugless)
  {
    forall x | x in entries ensures x.dir != e.dir {
      var i :| 0 <= i < |entries| && entries[i] == x;
      assert (entries + [e])[i] == x && (entries + [e])[|entries|] == e;
    }
    assert !HasUnlinked(entries, e.dir);
  }

  lemma NotedIsSound(r: Reader, entries: seq<Entry>, e: Entry, s: Survey)
    requires OneEach(entries + [e]) && Sound(entries, s)
    ensures Sound(entries + [e], Noted(r, s, e))
  {
    var all := entries + [e];
    assert forall x :: x in all <==> x in entries || x == e;
    NewDir(entries, e, s);
    forall d | HasUnlinked(entries, d) ensures HasUnlinked(all, d) {
      var x :| x in entries && x.dir == d && Unlinked(x);
      assert x in all;
    }
    forall id ensures HasLinked(all, id) <==> HasLinked(entries, id) || (HasUrl(e) && e.sidecar.value.itemId == Some(id)) {
      if HasLinked(entries, id) {
        var x :| x in entries && HasUrl(x) && x.sidecar.value.itemId == Some(id);
        assert x in all;
      }
    }
    if Unlinked(e) {
      assert HasUnlinked(all, e.dir);
      if SlugOf(r, e).Some? {
        FiledApart(s.groups, SlugOf(r, e).value, e.dir);
        FiledHolds(s.groups, SlugOf(r, e).value, e.dir);
      } else if r.isBandcamp(e.sidecar.value.storeUrl) {
        DistinctTogether(s.slugless, [e.dir]);
      }
    }
  }

  /** The survey of a library is sound. */
  lemma {:induction false} SurveyIsSound(r: Reader, entries: seq<Entry>)
    requires OneEach(entries)
    ensures Sound(entries, SurveyOf(r, entries))
  {
    if entries != [] {
      var init, last := entries[..|entries| - 1], entries[|entries| - 1];
      assert init + [last] == entries;
      SurveyIsSound(r, init);
      NotedIsSound(r, init, last, SurveyOf(r, init));
    }
  }

  lemma SoundIsSurveyed(entries: seq<Entry>, s: Survey)
    requires Sound(entries, s)
    ensures Surveyed(s.groups, s.slugless)
  {
    forall i | 0 <= i < |s.groups| ensures Elements(s.groups[i].albums) !! Elements(s.slugless) {
      assert s.groups[i] in s.groups;
      assert Elements(s.groups[i].albums) <= AlbumsOf(s.groups);
    }
  }

  /** A backfill's links, from the library's sidecars and the purchases loaded. */
  function BackfilledFrom(r: Reader, titleOf: Dir -> Title, entries: seq<Entry>, purchases: seq<Purchase>, ignored: set<int>): Phase {
    var s := SurveyOf(r, entries);
    Backfilled(titleOf, s.groups, s.slugless, Candidates(purchases, ignored, s.linked))
  }

  /**
   Nothing already linked is touched: an album linked had a sidecar with no purchase, and a purchase linked was in no
   sidecar that names a store URL.
   */
  lemma NothingLinkedIsTouched(r: Reader, titleOf: Dir -> Title, entries: seq<Entry>, purchases: seq<Purchase>, ignored: set<int>)
    requires OneEach(entries) && DistinctIds(purchases)
    ensures var links := BackfilledFrom(r, titleOf, entries, purchases, ignored).links;
      && Injective(links)
      && (forall l :: l in links ==> HasUnlinked(entries, l.dir) && l.id in ignored && !HasLinked(entries, l.id))
  {
    var s := SurveyOf(r, entries);
    SurveyIsSound(r, entries);
    SoundIsSurveyed(entries, s);
    var candidates := Candidates(purchases, ignored, s.linked);
    BackfillIsInjective(titleOf, s.groups, s.slugless, candidates);
    Backfill.NothingLinkedIsTouched(titleOf, s.groups, s.slugless, purchases, ignored, s.linked);
    var done := Backfilled(titleOf, s.groups, s.slugless, candidates);
    forall l | l in done.links
      ensures HasUnlinked(entries, l.dir) && l.id in ignored && !HasLinked(entries, l.id)
    {
      assert l.dir in Dirs(done.links) && l.id in LinkedIds(done.links);
    }
  }

  // ----- when a purchase linked already goes to a second album -----

  /** The album is one the survey offers: unlinked, and its store URL has a slug or is Bandcamp's. */
  predicate Offered(r: Reader, e: Entry) {
    Unlinked(e) && (SlugOf(r, e).Some? || r.isBandcamp(e.sidecar.value.storeUrl))
  }

  ghost function OfferedDirs(r: Reader, entries: seq<Entry>): set<Dir> {
    set e | e in entries && Offered(r, e) :: e.dir
  }

  lemma {:induction false} SurveyOffers(r: Reader, entries: seq<Entry>)
    ensures AlbumsOf(SurveyOf(r, entries).groups) + Elements(SurveyOf(r, entries).slugless) == OfferedDirs(r, entries)
  {
    if entries != [] {
      var init, last := entries[..|entries| - 1], entries[|entries| - 1];
      assert entries == init + [last];
      SurveyOffers(r, init);
      assert OfferedDirs(r, entries) == OfferedDirs(r, init) + if Offered(r, last) then {last.dir} else {};
      if Offered(r, last) && SlugOf(r, last).Some? {
        FiledHolds(SurveyOf(r, init).groups, SlugOf(r, last).value, last.dir);
      }
    }
  }

  /** These titles, purchases and ignored ids make a backfill link the purchase `id`. */
  ghost predicate Takes(r: Reader, titleOf: Dir -> Title, entries: seq<Entry>, purchases: seq<Purchase>, ignored: set<int>, id: int) {
    DistinctIds(purchases) && id in LinkedIds(BackfilledFrom(r, titleOf, entries, purchases, ignored).links)
  }

  ghost predicate CanBeLinked(r: Reader, entries: seq<Entry>, id: int) {
    exists titleOf: Dir -> Title, purchases: seq<Purchase>, ignored: set<int> :: Takes(r, titleOf, entries, purchases, ignored, id)
  }

  /** Purchases without a slug leave every album of the first phase to the titles. */
  lemma {:induction false} WithoutSlugsAllWait(titleOf: Dir -> Title, groups: seq<Group>, candidates: seq<Purchase>)
    requires forall p :: p in candidates ==> p.slug.None?
    ensures var first := FirstPhase(titleOf, groups, candidates);
      first.links == [] && Elements(first.unlinked) == AlbumsOf(groups)
  {
    if groups != [] {
      var init, g := groups[..|groups| - 1], groups[|groups| - 1];
      assert groups == init + [g];
      WithoutSlugsAllWait(titleOf, init, candidates);
      NoneOfTheSlug(candidates, g.slug);
      var before := FirstPhase(titleOf, init, candidates);
      assert Elements(before.unlinked + g.albums) == Elements(before.unlinked) + Elements(g.albums);
      assert AlbumsOf(groups) == AlbumsOf(init) + Elements(g.albums);
    }
  }

  lemma {:induction false} NoneOfTheSlug(candidates: seq<Purchase>, slug: string)
    requires forall p :: p in candidates ==> p.slug.None?
    ensures WithSlug(candidates, slug) == []
  {
    if candidates != [] {
      NoneOfTheSlug(candidates[1..], slug);
    }
  }

  /** One purchase of the title every album has goes to the first of them. */
  lemma FirstAlbumTakesIt(titleOf: Dir -> Title, albums: seq<Dir>, p: Purchase)
    requires albums != [] && titleOf(albums[0]) == p.title
    ensures p.id in LinkedIds(Pair(titleOf, albums, [p]).links)
  {
    assert [p][1..] == [];
    assert WithTitle([p], p.title) == [p];
    assert Pair(titleOf, albums, [p]).links[0] == Link(albums[0], p.id);
  }

  /** A lone purchase without a slug, of the title every album has, is linked if any album is offered. */
  lemma LonePurchaseIsLinked(titleOf: Dir -> Title, groups: seq<Group>, slugless: seq<Dir>, p: Purchase)
    requires p.slug.None? && (forall d :: titleOf(d) == p.title) && AlbumsOf(groups) + Elements(slugless) != {}
    ensures p.id in LinkedIds(Backfilled(titleOf, groups, slugless, [p]).links)
  {
    WithoutSlugsAllWait(titleOf, groups, [p]);
    OneIsKept(p, {});
    var first := FirstPhase(titleOf, groups, [p]);
    var albums := first.unlinked + slugless;
    assert Elements(albums) == AlbumsOf(groups) + Elements(slugless);
    FirstAlbumTakesIt(titleOf, albums, p);
    assert LinkedIds([]) == {} && [] + Pair(titleOf, albums, [p]).links == Pair(titleOf, albums, [p]).links;
  }

  lemma LinkedExactly(r: Reader, entries: seq<Entry>, id: int)
    requires OneEach(entries)
    ensures id in SurveyOf(r, entries).linked <==> HasLinked(entries, id)
  {
    SurveyIsSound(r, entries);
  }

  lemma LonePurchaseIsTaken(r: Reader, titleOf: Dir -> Title, entries: seq<Entry>, p: Purchase)
    requires p.slug.None? && (forall d :: titleOf(d) == p.title)
    requires p.id !in SurveyOf(r, entries).linked && OfferedDirs(r, entries) != {}
    ensures Takes(r, titleOf, entries, [p], {p.id}, p.id)
  {
    var s := SurveyOf(r, entries);
    SurveyOffers(r, entries);
    OneIsKept(p, s.linked + (Ids([p]) - {p.id}));
    LonePurchaseIsLinked(titleOf, s.groups, s.slugless, p);
  }

  lemma TakenCanBeLinked(r: Reader, titleOf: Dir -> Title, entries: seq<Entry>, purchases: seq<Purchase>, ignored: set<int>, id: int)
    requires Takes(r, titleOf, entries, purchases, ignored, id)
    ensures CanBeLinked(r, entries, id)
  {
  }

  lemma OfferedCanBeLinked(r: Reader, entries: seq<Entry>, id: int)
    requires id !in SurveyOf(r, entries).linked && OfferedDirs(r, entries) != {}
    ensures CanBeLinked(r, entries, id)
  {
    var titleOf: Dir -> Title, p := _ => "t", Purchase(id, "t", None);
    LonePurchaseIsTaken(r, titleOf, entries, p);
    TakenCanBeLinked(r, titleOf, entries, [p], {p.id}, p.id);
  }

  lemma LinkedWasOffered(r: Reader, titleOf: Dir -> Title, entries: seq<Entry>, purchases: seq<Purchase>, ignored: set<int>, id: int)
    requires OneEach(entries) && Takes(r, titleOf, entries, purchases, ignored, id)
    ensures !HasLinked(entries, id) && OfferedDirs(r, entries) != {}
  {
    var s := SurveyOf(r, entries);
    NothingLinkedIsTouched(r, titleOf, entries, purchases, ignored);
    SurveyIsSound(r, entries);
    SoundIsSurveyed(entries, s);
    Backfill.NothingLinkedIsTouched(titleOf, s.groups, s.slugless, purchases, ignored, s.linked);
    SurveyOffers(r, entries);
    var l :| l in BackfilledFrom(r, titleOf, entries, purchases, ignored).links && l.id == id;
    assert l.dir in OfferedDirs(r, entries);
  }

  /** Some backfill of a library links a purchase if and only if no sidecar with a store URL names it, and some album is offered. */
  lemma CanBeLinkedExactly(r: Reader, entries: seq<Entry>, id: int)
    requires OneEach(entries)
    ensures CanBeLinked(r, entries, id) <==> !HasLinked(entries, id) && exists e :: e in entries && Offered(r, e)
  {
    if CanBeLinked(r, entries, id) {
      var titleOf: Dir -> Title, purchases: seq<Purchase>, ignored: set<int> :| Takes(r, titleOf, entries, purchases, ignored, id);
      LinkedWasOffered(r, titleOf, entries, purchases, ignored, id);
    }
    if !HasLinked(entries, id) && exists e :: e in entries && Offered(r, e) {
      var e :| e in entries && Offered(r, e);
      assert e.dir in OfferedDirs(r, entries);
      LinkedExactly(r, entries, id);
      OfferedCanBeLinked(r, entries, id);
    }
  }

  /** Some sidecar that can be read names the purchase. */
  ghost predicate NamedIn(entries: seq<Entry>, id: int) {
    exists e :: e in entries && e.sidecar.Some? && e.sidecar.value.itemId == Some(id)
  }

  /**
   So a purchase linked already can go to a second album exactly when one that a sidecar names is named by no sidecar
   with a store URL, and some album is offered.
   */
  lemma SecondLinksComeExactly(r: Reader, entries: seq<Entry>)
    requires OneEach(entries)
    ensures (exists id :: NamedIn(entries, id) && CanBeLinked(r, entries, id))
       <==> (exists id :: NamedIn(entries, id) && !HasLinked(entries, id)) && exists e :: e in entries && Offered(r, e)
  {
    forall id ensures CanBeLinked(r, entries, id) <==> !HasLinked(entries, id) && exists e :: e in entries && Offered(r, e) {
      CanBeLinkedExactly(r, entries, id);
    }
  }

  /** The store URL matters: a purchase recorded in a sidecar without one is not known to be linked, and goes to a second album. */
  lemma ALinkWithoutAUrlIsMissed(r: Reader, url: string, id: int)
    requires url != "" && r.isBandcamp(url)
    ensures var entries := [Entry("a", Some(Sidecar("", Some(id)))), Entry("b", Some(Sidecar(url, None)))];
      OneEach(entries) && NamedIn(entries, id) && CanBeLinked(r, entries, id)
  {
    var a, b := Entry("a", Some(Sidecar("", Some(id)))), Entry("b", Some(Sidecar(url, None)));
    assert a in [a, b] && b in [a, b] && Offered(r, b);
    CanBeLinkedExactly(r, [a, b], id);
  }

  /** A library with one sidecar that can no longer be read. */
  function Unread(entries: seq<Entry>, k: nat): seq<Entry>
    requires k < |entries|
  {
    entries[k := Entry(entries[k].dir, None)]
  }

  /** A sidecar that cannot be read is missed the same way: the purchase that it alone named is safe, and then is not. */
  lemma AnUnreadableSidecarIsMissed(r: Reader, entries: seq<Entry>, k: nat, id: int, e: Entry)
    requires OneEach(entries) && k < |entries| && HasUrl(entries[k]) && entries[k].sidecar.value.itemId == Some(id)
    requires forall j :: 0 <= j < |entries| && j != k && HasUrl(entries[j]) ==> entries[j].sidecar.value.itemId != Some(id)
    requires e in entries && Offered(r, e)
    ensures !CanBeLinked(r, entries, id) && CanBeLinked(r, Unread(entries, k), id)
  {
    var after := Unread(entries, k);
    assert entries[k] in entries;
    CanBeLinkedExactly(r, entries, id);
    assert OneEach(after);
    var j :| 0 <= j < |entries| && entries[j] == e;
    assert after[j] == e;
    CanBeLinkedExactly(r, after, id);
  }
}

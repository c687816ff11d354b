/**
 What a backfill links and ties, said of the titles, slugs and ids alone: a link exactly for the first album of a title
 and the one purchase of it, then for the last album and the last purchase of a slug, then by title over what is left.
 */
module BackfillRules {
  import opened Common
  import opened Backfill

  // ----- the same, said of the titles -----

  /** The album is the first of its title, and `p` the only purchase on offer with that title. */
  ghost predicate ByTitle(titleOf: Dir -> Title, albums: seq<Dir>, offered: set<Purchase>, i: nat, p: Purchase) {
    && i < |albums| && p in offered && p.title == titleOf(albums[i])
    && (forall q :: q in offered && q.title == p.title ==> q == p)
    && (forall j :: 0 <= j < i ==> titleOf(albums[j]) != p.title)
  }

  ghost predicate LinkedByTitle(titleOf: Dir -> Title, albums: seq<Dir>, offered: set<Purchase>, l: Link) {
    exists i: nat, p: Purchase :: ByTitle(titleOf, albums, offered, i, p) && l == Link(albums[i], p.id)
  }

  lemma FirstIsLinked(titleOf: Dir -> Title, albums: seq<Dir>, purchases: seq<Purchase>, p: Purchase, l: Link)
    requires albums != [] && DistinctIds(purchases) && OnlyWithTitle(purchases, titleOf(albums[0]), p)
    ensures LinkedByTitle(titleOf, albums, Elements(purchases), l)
       <==> l == Link(albums[0], p.id) || LinkedByTitle(titleOf, albums[1..], Elements(Without(purchases, p)), l)
  {
    WithoutStaysDistinct(purchases, p);
    var all, rest := Elements(purchases), Elements(Without(purchases, p));
    assert rest == all - {p};
    assert ByTitle(titleOf, albums, all, 0, p);
    forall i: nat, q | i > 0 && ByTitle(titleOf, albums, all, i, q)
      ensures ByTitle(titleOf, albums[1..], rest, i - 1, q)
    {
      assert titleOf(albums[0]) != q.title;
      assert forall j :: 0 <= j < i - 1 ==> albums[1..][j] == albums[j + 1];
    }
    forall i: nat, q | ByTitle(titleOf, albums[1..], rest, i, q)
      ensures ByTitle(titleOf, albums, all, i + 1, q)
    {
      assert forall j :: 0 < j < i + 1 ==> albums[j] == albums[1..][j - 1];
    }
  }

  lemma FirstIsSkipped(titleOf: Dir -> Title, albums: seq<Dir>, purchases: seq<Purchase>, l: Link)
    requires albums != [] && forall p :: !OnlyWithTitle(purchases, titleOf(albums[0]), p)
    ensures LinkedByTitle(titleOf, albums, Elements(purchases), l) <==> LinkedByTitle(titleOf, albums[1..], Elements(purchases), l)
  {
    var all := Elements(purchases);
    forall i: nat, q | ByTitle(titleOf, albums, all, i, q)
      ensures i > 0 && ByTitle(titleOf, albums[1..], all, i - 1, q)
    {
      assert i == 0 ==> OnlyWithTitle(purchases, titleOf(albums[0]), q);
      assert forall j :: 0 <= j < i - 1 ==> albums[1..][j] == albums[j + 1];
    }
    forall i: nat, q | ByTitle(titleOf, albums[1..], all, i, q)
      ensures ByTitle(titleOf, albums, all, i + 1, q)
    {
      assert titleOf(albums[0]) == q.title ==> OnlyWithTitle(purchases, titleOf(albums[0]), q);
      assert forall j :: 0 < j < i + 1 ==> albums[j] == albums[1..][j - 1];
    }
  }

  /** A pass links an album exactly when it is the first of its title and one purchase on offer has that title: to that one. */
  lemma {:induction false} PairingIsExact(titleOf: Dir -> Title, albums: seq<Dir>, purchases: seq<Purchase>, l: Link)
    requires DistinctIds(purchases)
    ensures l in Pair(titleOf, albums, purchases).links <==> LinkedByTitle(titleOf, albums, Elements(purchases), l)
    decreases |albums|
  {
    if albums != [] {
      var matches := WithTitle(purchases, titleOf(albums[0]));
      OneMatch(purchases, titleOf(albums[0]));
      if |matches| == 1 {
        WithoutStaysDistinct(purchases, matches[0]);
        PairingIsExact(titleOf, albums[1..], Without(purchases, matches[0]), l);
        FirstIsLinked(titleOf, albums, purchases, matches[0], l);
      } else {
        PairingIsExact(titleOf, albums[1..], purchases, l);
        FirstIsSkipped(titleOf, albums, purchases, l);
      }
    }
  }

  /** The albums their titles link to nothing on offer. */
  ghost function SpareDirs(titleOf: Dir -> Title, albums: seq<Dir>, offered: set<Purchase>): set<Dir> {
    set d | d in albums && forall id :: !LinkedByTitle(titleOf, albums, offered, Link(d, id))
  }

  /** The purchases on offer that no album's title takes. */
  ghost function SpareIds(titleOf: Dir -> Title, albums: seq<Dir>, offered: set<Purchase>): set<int> {
    set p | p in offered && (forall d :: !LinkedByTitle(titleOf, albums, offered, Link(d, p.id))) :: p.id
  }

  lemma SpareDirsAreUnpaired(titleOf: Dir -> Title, albums: seq<Dir>, offered: set<Purchase>, r: Paired)
    requires forall l :: l in r.links <==> LinkedByTitle(titleOf, albums, offered, l)
    requires Elements(albums) == Dirs(r.links) + Elements(r.unpaired) && Dirs(r.links) !! Elements(r.unpaired)
    ensures Elements(r.unpaired) == SpareDirs(titleOf, albums, offered)
  {
    forall d | d in albums ensures d in Dirs(r.links) <==> exists id :: LinkedByTitle(titleOf, albums, offered, Link(d, id)) {
      if d in Dirs(r.links) {
        var l :| l in r.links && l.dir == d;
        assert LinkedByTitle(titleOf, albums, offered, Link(d, l.id));
      }
    }
  }

  lemma SpareIdsAreLeft(titleOf: Dir -> Title, albums: seq<Dir>, purchases: seq<Purchase>, r: Paired)
    requires forall l :: l in r.links <==> LinkedByTitle(titleOf, albums, Elements(purchases), l)
    requires Ids(purchases) == LinkedIds(r.links) + Ids(r.left) && LinkedIds(r.links) !! Ids(r.left)
    ensures Ids(r.left) == SpareIds(titleOf, albums, Elements(purchases))
  {
    forall p | p in purchases ensures p.id in LinkedIds(r.links) <==> exists d :: LinkedByTitle(titleOf, albums, Elements(purchases), Link(d, p.id)) {
      if p.id in LinkedIds(r.links) {
        var l :| l in r.links && l.id == p.id;
        assert LinkedByTitle(titleOf, albums, Elements(purchases), Link(l.dir, p.id));
      }
    }
  }

  /** The albums of a set, in the order listed. */
  ghost function Kept(albums: seq<Dir>, keep: set<Dir>): seq<Dir> {
    if albums == [] then [] else (if albums[0] in keep then [albums[0]] else []) + Kept(albums[1..], keep)
  }

  lemma {:induction false} UnpairedAreAlbums(titleOf: Dir -> Title, albums: seq<Dir>, purchases: seq<Purchase>, d: Dir)
    requires d in Pair(titleOf, albums, purchases).unpaired
    ensures d in albums
    decreases |albums|
  {
    var matches := WithTitle(purchases, titleOf(albums[0]));
    if |matches| == 1 {
      UnpairedAreAlbums(titleOf, albums[1..], Without(purchases, matches[0]), d);
    } else if d != albums[0] {
      UnpairedAreAlbums(titleOf, albums[1..], purchases, d);
    }
  }

  /** Unpaired albums keep their order. */
  lemma {:induction false} UnpairedAreKept(titleOf: Dir -> Title, albums: seq<Dir>, purchases: seq<Purchase>, keep: set<Dir>)
    requires Distinct(albums)
    requires forall d :: d in albums ==> (d in keep <==> d in Pair(titleOf, albums, purchases).unpaired)
    ensures Pair(titleOf, albums, purchases).unpaired == Kept(albums, keep)
    decreases |albums|
  {
    if albums != [] {
      var matches := WithTitle(purchases, titleOf(albums[0]));
      var next := if |matches| == 1 then Without(purchases, matches[0]) else purchases;
      var rest := Pair(titleOf, albums[1..], next);
      assert albums[0] !in rest.unpaired by {
        if albums[0] in rest.unpaired {
          UnpairedAreAlbums(titleOf, albums[1..], next, albums[0]);
        }
      }
      forall d | d in albums[1..] ensures d in keep <==> d in rest.unpaired {
        assert d in albums && d != albums[0];
      }
      UnpairedAreKept(titleOf, albums[1..], next, keep);
    }
  }

  // ----- one slug -----

  /** A slug links by title, and the last album to the last purchase when there is one of each. */
  ghost predicate LinkedBySlug(titleOf: Dir -> Title, albums: seq<Dir>, offered: set<Purchase>, l: Link) {
    || LinkedByTitle(titleOf, albums, offered, l)
    || (SpareDirs(titleOf, albums, offered) == {l.dir} && SpareIds(titleOf, albums, offered) == {l.id})
  }

  /** A lone album and a lone purchase are linked whichever way their titles go. */
  lemma LoneSpares(titleOf: Dir -> Title, d: Dir, p: Purchase)
    ensures var dirs, ids := SpareDirs(titleOf, [d], {p}), SpareIds(titleOf, [d], {p});
      if titleOf(d) == p.title then dirs == {} && ids == {} else dirs == {d} && ids == {p.id}
    ensures forall l :: LinkedBySlug(titleOf, [d], {p}, l) <==> l == Link(d, p.id)
  {
    forall l ensures LinkedByTitle(titleOf, [d], {p}, l) <==> titleOf(d) == p.title && l == Link(d, p.id) {
      if titleOf(d) == p.title {
        assert ByTitle(titleOf, [d], {p}, 0, p);
      }
    }
    if titleOf(d) == p.title {
      assert LinkedByTitle(titleOf, [d], {p}, Link(d, p.id));
    }
  }

  /** What a group comes to, said of its albums' titles and its purchases alone. */
  ghost predicate ResolvedAs(titleOf: Dir -> Title, albums: seq<Dir>, offered: set<Purchase>, r: Resolved) {
    var dirs, ids := SpareDirs(titleOf, albums, offered), SpareIds(titleOf, albums, offered);
    && (forall l :: l in r.links <==> LinkedBySlug(titleOf, albums, offered, l))
    && (|dirs| == |ids| == 1 ==> r.links != [] && dirs == {r.links[|r.links| - 1].dir} && ids == {r.links[|r.links| - 1].id})
    && r.unlinked == (if ids == {} then Kept(albums, dirs) else [])
    && r.tied == (if ids == {} || |dirs| == |ids| == 1 then [] else Kept(albums, dirs))
    && (r.tied != [] ==> r.candidates == ids && (|r.tied| > 1 || |r.candidates| > 1))
  }

  lemma LoneResolved(titleOf: Dir -> Title, albums: seq<Dir>, purchases: seq<Purchase>)
    requires |albums| == 1 && |purchases| == 1
    ensures ResolvedAs(titleOf, albums, Elements(purchases), Resolve(titleOf, albums, purchases))
  {
    var d, p := albums[0], purchases[0];
    assert albums == [d] && purchases == [p] && Elements(purchases) == {p};
    LoneSpares(titleOf, d, p);
    var r := Resolve(titleOf, albums, purchases);
    assert r == Resolved([Link(d, p.id)], [], {}, []);
    assert forall l :: l in r.links <==> l == Link(d, p.id);
    if titleOf(d) == p.title {
      assert [d][1..] == [] && Kept([d], {}) == [];
    } else {
      assert r.links[|r.links| - 1] == Link(d, p.id);
    }
  }

  /** What a pass comes to. */
  ghost predicate PassedAs(titleOf: Dir -> Title, albums: seq<Dir>, offered: set<Purchase>, r: Paired) {
    var dirs, ids := SpareDirs(titleOf, albums, offered), SpareIds(titleOf, albums, offered);
    && (forall l :: l in r.links <==> LinkedByTitle(titleOf, albums, offered, l))
    && r.unpaired == Kept(albums, dirs) && Elements(r.unpaired) == dirs && |r.unpaired| == |dirs|
    && Ids(r.left) == ids && |r.left| == |ids|
  }

  lemma PassedExactly(titleOf: Dir -> Title, albums: seq<Dir>, purchases: seq<Purchase>)
    requires Distinct(albums) && DistinctIds(purchases)
    ensures PassedAs(titleOf, albums, Elements(purchases), Pair(titleOf, albums, purchases))
  {
    var r := Pair(titleOf, albums, purchases);
    PairingParts(titleOf, albums, purchases);
    forall l ensures l in r.links <==> LinkedByTitle(titleOf, albums, Elements(purchases), l) {
      PairingIsExact(titleOf, albums, purchases, l);
    }
    SpareDirsAreUnpaired(titleOf, albums, Elements(purchases), r);
    SpareIdsAreLeft(titleOf, albums, purchases, r);
    UnpairedAreKept(titleOf, albums, purchases, SpareDirs(titleOf, albums, Elements(purchases)));
    SizeOfElements(r.unpaired);
    SizeOfIds(r.left);
  }

  lemma Eliminated(titleOf: Dir -> Title, albums: seq<Dir>, offered: set<Purchase>, r: Paired)
    requires PassedAs(titleOf, albums, offered, r) && |r.unpaired| == 1 && |r.left| == 1
    ensures ResolvedAs(titleOf, albums, offered, Resolved(r.links + [Link(r.unpaired[0], r.left[0].id)], [], {}, []))
  {
    var last := Link(r.unpaired[0], r.left[0].id);
    assert r.unpaired == [last.dir] && r.left == [r.left[0]];
    assert SpareDirs(titleOf, albums, offered) == {last.dir} && SpareIds(titleOf, albums, offered) == {last.id};
    var links := r.links + [last];
    assert links[|links| - 1] == last;
    forall l ensures l in links <==> LinkedBySlug(titleOf, albums, offered, l) {
      assert l in links <==> l in r.links || l == last;
      assert {last.dir} == {l.dir} && {last.id} == {l.id} <==> last.dir == l.dir && last.id == l.id;
    }
  }

  lemma NotEliminated(titleOf: Dir -> Title, albums: seq<Dir>, offered: set<Purchase>, r: Paired)
    requires PassedAs(titleOf, albums, offered, r) && !(|r.unpaired| == 1 && |r.left| == 1)
    ensures ResolvedAs(titleOf, albums, offered, if r.left == [] then Resolved(r.links, [], {}, r.unpaired)
                                                 else Resolved(r.links, r.unpaired, Ids(r.left), []))
  {
    var dirs, ids := SpareDirs(titleOf, albums, offered), SpareIds(titleOf, albums, offered);
    assert ids == {} <==> r.left == [];
    forall l ensures LinkedBySlug(titleOf, albums, offered, l) <==> LinkedByTitle(titleOf, albums, offered, l) {
      assert |{l.dir}| == 1 && |{l.id}| == 1;
    }
  }

  /** A group is resolved as its titles say. */
  lemma ResolvedExactly(titleOf: Dir -> Title, albums: seq<Dir>, purchases: seq<Purchase>)
    requires Distinct(albums) && DistinctIds(purchases)
    ensures ResolvedAs(titleOf, albums, Elements(purchases), Resolve(titleOf, albums, purchases))
  {
    if |albums| == 1 && |purchases| == 1 {
      LoneResolved(titleOf, albums, purchases);
    } else {
      var r := Pair(titleOf, albums, purchases);
      PassedExactly(titleOf, albums, purchases);
      if |r.unpaired| == 1 && |r.left| == 1 {
        Eliminated(titleOf, albums, Elements(purchases), r);
      } else {
        NotEliminated(titleOf, albums, Elements(purchases), r);
      }
    }
  }

  lemma {:induction false} SizeOfElements(dirs: seq<Dir>)
    requires Distinct(dirs)
    ensures |Elements(dirs)| == |dirs|
  {
    if dirs != [] {
      SizeOfElements(dirs[1..]);
      assert Elements(dirs) == {dirs[0]} + Elements(dirs[1..]);
    }
  }

  lemma {:induction false} SizeOfIds(purchases: seq<Purchase>)
    requires DistinctIds(purchases)
    ensures |Ids(purchases)| == |purchases|
  {
    if purchases != [] {
      var p, rest := purchases[0], purchases[1..];
      SizeOfIds(rest);
      DistinctFromFirst(purchases);
      assert forall q :: q in purchases <==> q == p || q in rest;
      assert Ids(purchases) == {p.id} + Ids(rest) && p.id !in Ids(rest);
    }
  }

  // ----- both phases -----

  ghost function OfSlug(candidates: seq<Purchase>, slug: string): set<Purchase> {
    set p | p in candidates && p.slug == Some(slug)
  }

  /** Some group's slug links the two. */
  ghost predicate SlugLinks(titleOf: Dir -> Title, groups: seq<Group>, candidates: seq<Purchase>, l: Link) {
    exists g :: g in groups && LinkedBySlug(titleOf, g.albums, OfSlug(candidates, g.slug), l)
  }

  /** A group's albums tied: none linked by title, with a purchase of the slug left, and more than one of either. */
  ghost function TiedOf(titleOf: Dir -> Title, g: Group, candidates: seq<Purchase>): set<Dir> {
    var dirs, ids := SpareDirs(titleOf, g.albums, OfSlug(candidates, g.slug)), SpareIds(titleOf, g.albums, OfSlug(candidates, g.slug));
    if ids == {} || |dirs| == |ids| == 1 then {} else dirs
  }

  /** The albums no purchase of their slug is left for, group by group. */
  ghost function ForTitles(titleOf: Dir -> Title, groups: seq<Group>, candidates: seq<Purchase>): seq<Dir> {
    if groups == [] then []
    else
      var g := groups[|groups| - 1];
      var offered := OfSlug(candidates, g.slug);
      ForTitles(titleOf, groups[..|groups| - 1], candidates)
      + if SpareIds(titleOf, g.albums, offered) == {} then Kept(g.albums, SpareDirs(titleOf, g.albums, offered)) else []
  }

  /** The candidates no slug links. */
  ghost function ForTitlesToTake(titleOf: Dir -> Title, groups: seq<Group>, candidates: seq<Purchase>): set<Purchase> {
    set p | p in candidates && forall d :: !SlugLinks(titleOf, groups, candidates, Link(d, p.id))
  }

  lemma {:induction false} KeptAll(albums: seq<Dir>)
    ensures Kept(albums, Elements(albums)) == albums
  {
    KeptMore(albums, Elements(albums));
  }

  lemma {:induction false} KeptMore(albums: seq<Dir>, keep: set<Dir>)
    requires forall d :: d in albums ==> d in keep
    ensures Kept(albums, keep) == albums
  {
    if albums != [] {
      KeptMore(albums[1..], keep);
    }
  }

  ghost predicate GroupAs(titleOf: Dir -> Title, g: Group, candidates: seq<Purchase>, r: Phase) {
    var offered := OfSlug(candidates, g.slug);
    && (forall l :: l in r.links <==> LinkedBySlug(titleOf, g.albums, offered, l))
    && r.unlinked == (if SpareIds(titleOf, g.albums, offered) == {} then Kept(g.albums, SpareDirs(titleOf, g.albums, offered)) else [])
    && r.ties.Keys == TiedOf(titleOf, g, candidates)
    && (forall d :: d in r.ties ==> r.ties[d] == SpareIds(titleOf, g.albums, offered))
  }

  lemma NothingOffered(titleOf: Dir -> Title, albums: seq<Dir>)
    ensures SpareIds(titleOf, albums, {}) == {} && SpareDirs(titleOf, albums, {}) == Elements(albums)
    ensures forall l :: !LinkedBySlug(titleOf, albums, {}, l)
  {
  }

  lemma {:induction false} KeptElements(albums: seq<Dir>, keep: set<Dir>)
    requires keep <= Elements(albums)
    ensures Elements(Kept(albums, keep)) == keep
  {
    KeptIn(albums, keep);
  }

  lemma {:induction false} KeptIn(albums: seq<Dir>, keep: set<Dir>)
    ensures forall d :: d in Kept(albums, keep) <==> d in albums && d in keep
  {
    if albums != [] {
      KeptIn(albums[1..], keep);
      assert albums == [albums[0]] + albums[1..];
    }
  }

  lemma GroupExactly(titleOf: Dir -> Title, g: Group, candidates: seq<Purchase>)
    requires Distinct(g.albums) && DistinctIds(candidates)
    ensures GroupAs(titleOf, g, candidates, GroupPhase(titleOf, g, candidates))
  {
    var purchases := WithSlug(candidates, g.slug);
    assert Elements(purchases) == OfSlug(candidates, g.slug);
    if purchases == [] {
      assert OfSlug(candidates, g.slug) == {};
      NothingOffered(titleOf, g.albums);
      KeptAll(g.albums);
    } else {
      ResolvedExactly(titleOf, g.albums, purchases);
      KeptElements(g.albums, SpareDirs(titleOf, g.albums, Elements(purchases)));
      var r := Resolve(titleOf, g.albums, purchases);
      assert forall d :: d in r.tied <==> d in TiedOf(titleOf, g, candidates);
    }
  }

  ghost predicate FirstAs(titleOf: Dir -> Title, groups: seq<Group>, candidates: seq<Purchase>, r: Phase) {
    && (forall l :: l in r.links <==> SlugLinks(titleOf, groups, candidates, l))
    && r.unlinked == ForTitles(titleOf, groups, candidates)
    && (forall d :: d in r.ties <==> exists g :: g in groups && d in TiedOf(titleOf, g, candidates))
    && (forall g, d :: g in groups && d in TiedOf(titleOf, g, candidates) ==>
          r.ties[d] == SpareIds(titleOf, g.albums, OfSlug(candidates, g.slug)))
  }

  lemma OneMoreGroup(titleOf: Dir -> Title, groups: seq<Group>, g: Group, candidates: seq<Purchase>, before: Phase, r: Phase)
    requires FirstAs(titleOf, groups, candidates, before) && GroupAs(titleOf, g, candidates, r)
    requires forall x :: x in groups ==> Elements(x.albums) !! Elements(g.albums)
    ensures FirstAs(titleOf, groups + [g], candidates, Phase(before.links + r.links, before.ties + r.ties, before.unlinked + r.unlinked))
  {
    var all := groups + [g];
    assert all[..|all| - 1] == groups && all[|all| - 1] == g;
    assert forall x :: x in all <==> x in groups || x == g;
    forall x, d | x in groups && d in TiedOf(titleOf, x, candidates) ensures d !in r.ties {
      assert d in Elements(x.albums);
    }
    forall l ensures SlugLinks(titleOf, all, candidates, l) <==>
                     SlugLinks(titleOf, groups, candidates, l) || LinkedBySlug(titleOf, g.albums, OfSlug(candidates, g.slug), l) {
    }
  }

  lemma {:induction false} FirstExactly(titleOf: Dir -> Title, groups: seq<Group>, slugless: seq<Dir>, candidates: seq<Purchase>)
    requires Surveyed(groups, slugless) && DistinctIds(candidates)
    ensures FirstAs(titleOf, groups, candidates, FirstPhase(titleOf, groups, candidates))
  {
    if groups != [] {
      var rest, g := groups[..|groups| - 1], groups[|groups| - 1];
      FirstExactly(titleOf, rest, slugless, candidates);
      GroupExactly(titleOf, g, candidates);
      assert rest + [g] == groups;
      OneMoreGroup(titleOf, rest, g, candidates, FirstPhase(titleOf, rest, candidates), GroupPhase(titleOf, g, candidates));
    }
  }

  /**
   A backfill links by slug what a slug links, then by title over what is left of both; an album is tied exactly when
   its slug ties it, to the purchases its slug leaves; the rest stays unlinked.
   */
  lemma BackfilledExactly(titleOf: Dir -> Title, groups: seq<Group>, slugless: seq<Dir>, candidates: seq<Purchase>)
    requires Surveyed(groups, slugless) && DistinctIds(candidates)
    ensures var r := Backfilled(titleOf, groups, slugless, candidates);
      var albums, offered := ForTitles(titleOf, groups, candidates) + slugless, ForTitlesToTake(titleOf, groups, candidates);
      && (forall l :: l in r.links <==> SlugLinks(titleOf, groups, candidates, l) || LinkedByTitle(titleOf, albums, offered, l))
      && r.unlinked == Kept(albums, SpareDirs(titleOf, albums, offered))
    ensures var r := Backfilled(titleOf, groups, slugless, candidates);
      && (forall d :: d in r.ties <==> exists g :: g in groups && d in TiedOf(titleOf, g, candidates))
      && (forall g, d :: g in groups && d in TiedOf(titleOf, g, candidates) ==>
            r.ties[d] == SpareIds(titleOf, g.albums, OfSlug(candidates, g.slug)))
  {
    FirstExactly(titleOf, groups, slugless, candidates);
    FirstPhaseParts(titleOf, groups, slugless, candidates);
    var first := FirstPhase(titleOf, groups, candidates);
    var albums := first.unlinked + slugless;
    var left := Unconsumed(candidates, LinkedIds(first.links));
    LeftAreOffered(titleOf, groups, candidates, first);
    DistinctTogether(first.unlinked, slugless);
    PassedExactly(titleOf, albums, left);
    var second := Pair(titleOf, albums, left);
    assert forall l :: l in first.links + second.links <==> l in first.links || l in second.links;
  }

  lemma LeftAreOffered(titleOf: Dir -> Title, groups: seq<Group>, candidates: seq<Purchase>, first: Phase)
    requires FirstAs(titleOf, groups, candidates, first)
    ensures Elements(Unconsumed(candidates, LinkedIds(first.links))) == ForTitlesToTake(titleOf, groups, candidates)
  {
    forall p | p in candidates
      ensures p.id in LinkedIds(first.links) <==> exists d :: SlugLinks(titleOf, groups, candidates, Link(d, p.id))
    {
      if p.id in LinkedIds(first.links) {
        var l :| l in first.links && l.id == p.id;
        assert SlugLinks(titleOf, groups, candidates, Link(l.dir, p.id));
      }
    }
  }
}

/** Linking purchases downloaded before to the albums on disk, first by store-URL slug, then by title. */
module Backfill {
  import opened Common

  type Dir = string
  type Title = string

  /** A purchase: its id, its title reduced to letters and digits, and the slug of its URL. */
  datatype Purchase = Purchase(id: int, title: Title, slug: Option<string>)

  datatype Link = Link(dir: Dir, id: int)

  /** The unlinked albums whose store URL carries one slug. */
  datatype Group = Group(slug: string, albums: seq<Dir>)

  ghost predicate DistinctIds(purchases: seq<Purchase>) {
    forall i, j :: 0 <= i < j < |purchases| ==> purchases[i].id != purchases[j].id
  }

  function Ids(purchases: seq<Purchase>): set<int> {
    set p | p in purchases :: p.id
  }

  function Dirs(links: seq<Link>): set<Dir> {
    set l | l in links :: l.dir
  }

  function LinkedIds(links: seq<Link>): set<int> {
    set l | l in links :: l.id
  }

  /** No album is linked twice and no purchase goes to two albums. */
  ghost predicate Injective(links: seq<Link>) {
    forall i, j :: 0 <= i < j < |links| ==> links[i].dir != links[j].dir && links[i].id != links[j].id
  }

  function WithTitle(purchases: seq<Purchase>, title: Title): (matches: seq<Purchase>)
    ensures forall p :: p in matches <==> p in purchases && p.title == title
    ensures |matches| <= |purchases|
  {
    if purchases == [] then []
    else
      assert purchases == [purchases[0]] + purchases[1..];
      (if purchases[0].title == title then [purchases[0]] else []) + WithTitle(purchases[1..], title)
  }

  lemma DistinctFromFirst(purchases: seq<Purchase>)
    requires purchases != [] && DistinctIds(purchases)
    ensures DistinctIds(purchases[1..]) && forall q :: q in purchases[1..] ==> q.id != purchases[0].id
  {
  }

  lemma DistinctWithFirst(p: Purchase, rest: seq<Purchase>)
    requires DistinctIds(rest) && forall q :: q in rest ==> q.id != p.id
    ensures DistinctIds([p] + rest)
  {
    forall i | 0 <= i < |rest| ensures rest[i].id != p.id {
      assert rest[i] in rest;
    }
  }

  lemma FewerStayDistinct(purchases: seq<Purchase>, rest: seq<Purchase>)
    requires purchases != [] && (DistinctIds(purchases[1..]) ==> DistinctIds(rest)) && forall q :: q in rest ==> q in purchases[1..]
    ensures DistinctIds(purchases) ==> DistinctIds(rest) && DistinctIds([purchases[0]] + rest)
  {
    if DistinctIds(purchases) {
      DistinctFromFirst(purchases);
      DistinctWithFirst(purchases[0], rest);
    }
  }

  function Without(purchases: seq<Purchase>, p: Purchase): (rest: seq<Purchase>)
    requires p in purchases
    ensures |rest| == |purchases| - 1
    ensures forall q :: q in purchases <==> q in rest || q == p
  {
    assert purchases == [purchases[0]] + purchases[1..];
    if purchases[0] == p then purchases[1..] else [purchases[0]] + Without(purchases[1..], p)
  }

  lemma {:induction false} WithoutStaysDistinct(purchases: seq<Purchase>, p: Purchase)
    requires p in purchases && DistinctIds(purchases)
    ensures DistinctIds(Without(purchases, p)) && p !in Without(purchases, p)
  {
    DistinctFromFirst(purchases);
    if purchases[0] != p {
      WithoutStaysDistinct(purchases[1..], p);
      DistinctWithFirst(purchases[0], Without(purchases[1..], p));
    }
  }

  /** Exactly one purchase bears the title, and it is `p`. */
  ghost predicate OnlyWithTitle(purchases: seq<Purchase>, title: Title, p: Purchase) {
    p in purchases && p.title == title && forall q :: q in purchases && q.title == title ==> q == p
  }

  lemma {:induction false} OneMatch(purchases: seq<Purchase>, title: Title)
    requires DistinctIds(purchases)
    ensures |WithTitle(purchases, title)| == 1 <==> exists p :: OnlyWithTitle(purchases, title, p)
    ensures |WithTitle(purchases, title)| == 1 ==> OnlyWithTitle(purchases, title, WithTitle(purchases, title)[0])
  {
    if purchases != [] {
      assert purchases == [purchases[0]] + purchases[1..];
      var rest := WithTitle(purchases[1..], title);
      OneMatch(purchases[1..], title);
      if purchases[0].title == title {
        assert WithTitle(purchases, title) == [purchases[0]] + rest;
        if rest != [] {
          assert rest[0] in purchases[1..] && rest[0] != purchases[0];
        } else {
          assert OnlyWithTitle(purchases, title, purchases[0]);
        }
      } else {
        assert WithTitle(purchases, title) == rest;
        if exists p :: OnlyWithTitle(purchases[1..], title, p) {
          var p :| OnlyWithTitle(purchases[1..], title, p);
          assert OnlyWithTitle(purchases, title, p);
        }
        if exists p :: OnlyWithTitle(purchases, title, p) {
          var p :| OnlyWithTitle(purchases, title, p);
          assert OnlyWithTitle(purchases[1..], title, p);
        }
      }
    }
  }

  // ----- pairing by title -----

  datatype Paired = Paired(links: seq<Link>, unpaired: seq<Dir>, left: seq<Purchase>)

  /** Each album in turn with the one purchase still left that bears its title. */
  function Pair(titleOf: Dir -> Title, albums: seq<Dir>, purchases: seq<Purchase>): Paired
    decreases |albums|
  {
    if albums == [] then Paired([], [], purchases)
    else
      var matches := WithTitle(purchases, titleOf(albums[0]));
      if |matches| == 1 then
        var r := Pair(titleOf, albums[1..], Without(purchases, matches[0]));
        r.(links := [Link(albums[0], matches[0].id)] + r.links)
      else
        var r := Pair(titleOf, albums[1..], purchases);
        r.(unpaired := [albums[0]] + r.unpaired)
  }

  /** Nothing is lost and nothing shared: albums are linked or unpaired, purchases linked or left. */
  ghost predicate Parted(albums: seq<Dir>, purchases: seq<Purchase>, r: Paired) {
    && Injective(r.links) && Distinct(r.unpaired) && DistinctIds(r.left)
    && Elements(albums) == Dirs(r.links) + Elements(r.unpaired) && Dirs(r.links) !! Elements(r.unpaired)
    && Ids(purchases) == LinkedIds(r.links) + Ids(r.left) && LinkedIds(r.links) !! Ids(r.left)
    && (forall p :: p in r.left ==> p in purchases)
    && |r.links| + |r.unpaired| == |albums| && |r.links| + |r.left| == |purchases|
  }

  lemma IdsWithout(purchases: seq<Purchase>, p: Purchase)
    requires p in purchases && DistinctIds(purchases)
    ensures DistinctIds(Without(purchases, p))
    ensures Ids(purchases) == Ids(Without(purchases, p)) + {p.id} && p.id !in Ids(Without(purchases, p))
  {
    var rest := Without(purchases, p);
    WithoutStaysDistinct(purchases, p);
    forall q | q in rest ensures q.id != p.id {
      var i :| 0 <= i < |purchases| && purchases[i] == p;
      var j :| 0 <= j < |purchases| && purchases[j] == q;
    }
  }

  lemma OneMoreLink(link: Link, links: seq<Link>)
    requires Injective(links) && link.dir !in Dirs(links) && link.id !in LinkedIds(links)
    ensures Injective([link] + links)
    ensures Dirs([link] + links) == {link.dir} + Dirs(links) && LinkedIds([link] + links) == {link.id} + LinkedIds(links)
  {
    var all := [link] + links;
    assert forall l :: l in all <==> l == link || l in links;
    forall i, j | 0 <= i < j < |all| ensures all[i].dir != all[j].dir && all[i].id != all[j].id {
      if i == 0 {
        assert all[j] in links;
        assert all[j].dir in Dirs(links) && all[j].id in LinkedIds(links);
      }
    }
  }

  lemma OneMoreDir(d: Dir, others: seq<Dir>)
    requires d !in others
    ensures Elements([d] + others) == {d} + Elements(others) && d !in Elements(others)
  {
  }

  lemma {:induction false} TakenParts(albums: seq<Dir>, purchases: seq<Purchase>, p: Purchase, r: Paired)
    requires albums != [] && albums[0] !in albums[1..] && p in purchases && DistinctIds(purchases)
    requires Parted(albums[1..], Without(purchases, p), r)
    ensures Parted(albums, purchases, Paired([Link(albums[0], p.id)] + r.links, r.unpaired, r.left))
  {
    var rest := Without(purchases, p);
    IdsWithout(purchases, p);
    OneMoreDir(albums[0], albums[1..]);
    assert albums == [albums[0]] + albums[1..];
    OneMoreLink(Link(albums[0], p.id), r.links);
    forall q | q in r.left ensures q in purchases {
      assert q in rest;
    }
  }

  lemma SkippedParts(albums: seq<Dir>, purchases: seq<Purchase>, r: Paired)
    requires albums != [] && albums[0] !in albums[1..] && Parted(albums[1..], purchases, r)
    ensures Parted(albums, purchases, Paired(r.links, [albums[0]] + r.unpaired, r.left))
  {
    OneMoreDir(albums[0], albums[1..]);
    assert albums == [albums[0]] + albums[1..];
    assert albums[0] !in Elements(r.unpaired) && albums[0] !in Dirs(r.links);
    OneMoreDir(albums[0], r.unpaired);
  }

  lemma {:induction false} PairingParts(titleOf: Dir -> Title, albums: seq<Dir>, purchases: seq<Purchase>)
    requires Distinct(albums) && DistinctIds(purchases)
    ensures Parted(albums, purchases, Pair(titleOf, albums, purchases))
    decreases |albums|
  {
    if albums == [] {
    } else {
      var matches := WithTitle(purchases, titleOf(albums[0]));
      assert albums == [albums[0]] + albums[1..];
      if |matches| == 1 {
        WithoutStaysDistinct(purchases, matches[0]);
        PairingParts(titleOf, albums[1..], Without(purchases, matches[0]));
        TakenParts(albums, purchases, matches[0], Pair(titleOf, albums[1..], Without(purchases, matches[0])));
      } else {
        PairingParts(titleOf, albums[1..], purchases);
        SkippedParts(albums, purchases, Pair(titleOf, albums[1..], purchases));
      }
    }
  }

  /** Every pair shares a title that no other purchase offered bears. */
  ghost predicate PairsByTitle(titleOf: Dir -> Title, purchases: seq<Purchase>, links: seq<Link>) {
    forall l :: l in links ==> exists p: Purchase :: OnlyWithTitle(purchases, titleOf(l.dir), p) && p.id == l.id
  }

  lemma {:induction false} PairingByTitle(titleOf: Dir -> Title, albums: seq<Dir>, purchases: seq<Purchase>)
    requires DistinctIds(purchases)
    ensures PairsByTitle(titleOf, purchases, Pair(titleOf, albums, purchases).links)
    decreases |albums|
  {
    if albums != [] {
      var title := titleOf(albums[0]);
      var matches := WithTitle(purchases, title);
      OneMatch(purchases, title);
      if |matches| == 1 {
        var left := Without(purchases, matches[0]);
        WithoutStaysDistinct(purchases, matches[0]);
        var r := Pair(titleOf, albums[1..], left);
        PairingByTitle(titleOf, albums[1..], left);
        forall l | l in r.links
          ensures exists p: Purchase :: OnlyWithTitle(purchases, titleOf(l.dir), p) && p.id == l.id
        {
          var p: Purchase :| OnlyWithTitle(left, titleOf(l.dir), p) && p.id == l.id;
          assert OnlyWithTitle(purchases, titleOf(l.dir), p);
        }
      } else {
        PairingByTitle(titleOf, albums[1..], purchases);
      }
    }
  }

  lemma {:induction false} WithoutOneTitle(purchases: seq<Purchase>, p: Purchase, title: Title)
    requires p in purchases
    ensures |WithTitle(Without(purchases, p), title)| == |WithTitle(purchases, title)| - if p.title == title then 1 else 0
  {
    if purchases[0] != p {
      assert purchases == [purchases[0]] + purchases[1..];
      WithoutOneTitle(purchases[1..], p, title);
      assert Without(purchases, p)[1..] == Without(purchases[1..], p);
    }
  }

  /** How many purchases of a title a pass leaves: as many as there were, unless there was one and an album took it. */
  lemma {:induction false} TitlesLeft(titleOf: Dir -> Title, albums: seq<Dir>, purchases: seq<Purchase>, title: Title)
    ensures var was, left := |WithTitle(purchases, title)|, |WithTitle(Pair(titleOf, albums, purchases).left, title)|;
      left == was || (was == 1 && left == 0)
    decreases |albums|
  {
    if albums != [] {
      var matches := WithTitle(purchases, titleOf(albums[0]));
      if |matches| == 1 {
        assert matches[0] in matches;
        WithoutOneTitle(purchases, matches[0], title);
        TitlesLeft(titleOf, albums[1..], Without(purchases, matches[0]), title);
      } else {
        TitlesLeft(titleOf, albums[1..], purchases, title);
      }
    }
  }

  /** No album is left unpaired for which exactly one purchase of its title is left. */
  lemma {:induction false} PairingIsMaximal(titleOf: Dir -> Title, albums: seq<Dir>, purchases: seq<Purchase>, d: Dir)
    requires d in Pair(titleOf, albums, purchases).unpaired
    ensures |WithTitle(Pair(titleOf, albums, purchases).left, titleOf(d))| != 1
    decreases |albums|
  {
    var matches := WithTitle(purchases, titleOf(albums[0]));
    if |matches| == 1 {
      PairingIsMaximal(titleOf, albums[1..], Without(purchases, matches[0]), d);
    } else if d == albums[0] {
      TitlesLeft(titleOf, albums[1..], purchases, titleOf(d));
    } else {
      PairingIsMaximal(titleOf, albums[1..], purchases, d);
    }
  }

  // ----- an album's turn -----

  lemma {:induction false} OnlyAlbumsAreLinked(titleOf: Dir -> Title, albums: seq<Dir>, purchases: seq<Purchase>, l: Link)
    requires l in Pair(titleOf, albums, purchases).links
    ensures l.dir in albums
    decreases |albums|
  {
    var matches := WithTitle(purchases, titleOf(albums[0]));
    if |matches| == 1 {
      var rest := Pair(titleOf, albums[1..], Without(purchases, matches[0]));
      if l in rest.links {
        OnlyAlbumsAreLinked(titleOf, albums[1..], Without(purchases, matches[0]), l);
      }
    } else {
      OnlyAlbumsAreLinked(titleOf, albums[1..], purchases, l);
    }
  }

  /** What is left when the album at `i` has its turn. */
  function LeftAtTurn(titleOf: Dir -> Title, albums: seq<Dir>, purchases: seq<Purchase>, i: nat): seq<Purchase>
    requires i < |albums|
  {
    Pair(titleOf, albums[..i], purchases).left
  }

  ghost predicate DecidedAtTurn(titleOf: Dir -> Title, albums: seq<Dir>, purchases: seq<Purchase>, i: nat)
    requires i < |albums|
  {
    var matches := WithTitle(LeftAtTurn(titleOf, albums, purchases, i), titleOf(albums[i]));
    var links := Pair(titleOf, albums, purchases).links;
    && (albums[i] in Dirs(links) <==> |matches| == 1)
    && (|matches| == 1 ==> Link(albums[i], matches[0].id) in links)
  }

  lemma FirstTurnDecides(titleOf: Dir -> Title, albums: seq<Dir>, purchases: seq<Purchase>)
    requires Distinct(albums) && albums != []
    ensures DecidedAtTurn(titleOf, albums, purchases, 0)
  {
    var matches := WithTitle(purchases, titleOf(albums[0]));
    var next := if |matches| == 1 then Without(purchases, matches[0]) else purchases;
    var rest := Pair(titleOf, albums[1..], next);
    assert LeftAtTurn(titleOf, albums, purchases, 0) == purchases;
    forall l | l in rest.links ensures l.dir != albums[0] {
      OnlyAlbumsAreLinked(titleOf, albums[1..], next, l);
    }
    assert |matches| == 1 ==> Link(albums[0], matches[0].id).dir == albums[0];
  }

  lemma LaterTurn(titleOf: Dir -> Title, albums: seq<Dir>, purchases: seq<Purchase>, next: seq<Purchase>, i: nat)
    requires Distinct(albums) && 0 < i < |albums|
    requires var matches := WithTitle(purchases, titleOf(albums[0])); next == if |matches| == 1 then Without(purchases, matches[0]) else purchases
    requires DecidedAtTurn(titleOf, albums[1..], next, i - 1)
    ensures DecidedAtTurn(titleOf, albums, purchases, i)
  {
    assert albums[..i][0] == albums[0] && albums[..i][1..] == albums[1..][..i - 1];
    assert albums[1..][i - 1] == albums[i] && albums[0] != albums[i];
    assert LeftAtTurn(titleOf, albums, purchases, i) == LeftAtTurn(titleOf, albums[1..], next, i - 1);
  }

  /** An album is linked if and only if exactly one purchase of its title is left when its turn comes, and to that one. */
  lemma {:induction false} TurnDecides(titleOf: Dir -> Title, albums: seq<Dir>, purchases: seq<Purchase>, i: nat)
    requires Distinct(albums) && i < |albums|
    ensures DecidedAtTurn(titleOf, albums, purchases, i)
    decreases |albums|
  {
    if i == 0 {
      FirstTurnDecides(titleOf, albums, purchases);
    } else {
      var matches := WithTitle(purchases, titleOf(albums[0]));
      var next := if |matches| == 1 then Without(purchases, matches[0]) else purchases;
      TurnDecides(titleOf, albums[1..], next, i - 1);
      LaterTurn(titleOf, albums, purchases, next, i);
    }
  }

  /** So for an album with no title: it is linked exactly when one purchase whose title reduces to nothing is left. */
  lemma UntitledAlbumIsLinkedExactly(titleOf: Dir -> Title, albums: seq<Dir>, purchases: seq<Purchase>, i: nat)
    requires Distinct(albums) && i < |albums| && titleOf(albums[i]) == ""
    ensures albums[i] in Dirs(Pair(titleOf, albums, purchases).links)
       <==> |WithTitle(LeftAtTurn(titleOf, albums, purchases, i), "")| == 1
  {
    TurnDecides(titleOf, albums, purchases, i);
  }

  // ----- one slug's albums and purchases -----

  /** What became of a group: the links made, the albums marked ambiguous and between which purchases, those left for phase two. */
  datatype Resolved = Resolved(links: seq<Link>, tied: seq<Dir>, candidates: set<int>, unlinked: seq<Dir>)

  function Resolve(titleOf: Dir -> Title, albums: seq<Dir>, purchases: seq<Purchase>): Resolved {
    if |albums| == 1 && |purchases| == 1 then Resolved([Link(albums[0], purchases[0].id)], [], {}, [])
    else
      var r := Pair(titleOf, albums, purchases);
      if |r.unpaired| == 1 && |r.left| == 1 then
        Resolved(r.links + [Link(r.unpaired[0], r.left[0].id)], [], {}, [])
      else if r.left == [] then Resolved(r.links, [], {}, r.unpaired)
      else Resolved(r.links, r.unpaired, Ids(r.left), [])
  }

  /** Every album of the group is linked, tied or left for phase two, exactly once. */
  ghost predicate Settled(albums: seq<Dir>, purchases: seq<Purchase>, r: Resolved) {
    && Injective(r.links) && Distinct(r.tied) && Distinct(r.unlinked)
    && Elements(albums) == Dirs(r.links) + Elements(r.tied) + Elements(r.unlinked)
    && Dirs(r.links) !! Elements(r.tied) && (r.tied == [] || r.unlinked == [])
    && Dirs(r.links) !! Elements(r.unlinked)
    && LinkedIds(r.links) <= Ids(purchases)
    && (r.tied != [] ==> r.candidates != {} && r.candidates == Ids(purchases) - LinkedIds(r.links))
    && (r.unlinked != [] ==> Ids(purchases) == LinkedIds(r.links))
  }

  lemma ResolvingSettles(titleOf: Dir -> Title, albums: seq<Dir>, purchases: seq<Purchase>)
    requires Distinct(albums) && DistinctIds(purchases)
    ensures Settled(albums, purchases, Resolve(titleOf, albums, purchases))
  {
    if |albums| == 1 && |purchases| == 1 {
      assert albums == [albums[0]] && purchases == [purchases[0]];
    } else {
      PairingParts(titleOf, albums, purchases);
      var r := Pair(titleOf, albums, purchases);
      if |r.unpaired| == 1 && |r.left| == 1 {
        var link := Link(r.unpaired[0], r.left[0].id);
        assert r.unpaired == [link.dir] && r.left == [r.left[0]];
        assert link.dir in Elements(r.unpaired) && link.id in Ids(r.left);
        LinkedLast(r.links, link);
      } else if r.left != [] {
        assert r.left[0].id in Ids(r.left);
      }
    }
  }

  lemma LinkedLast(links: seq<Link>, link: Link)
    requires Injective(links) && link.dir !in Dirs(links) && link.id !in LinkedIds(links)
    ensures Injective(links + [link])
    ensures Dirs(links + [link]) == Dirs(links) + {link.dir} && LinkedIds(links + [link]) == LinkedIds(links) + {link.id}
  {
    var all := links + [link];
    assert forall l :: l in all <==> l == link || l in links;
    forall i, j | 0 <= i < j < |all| ensures all[i].dir != all[j].dir && all[i].id != all[j].id {
      if j == |links| {
        assert all[i] in links;
        assert all[i].dir in Dirs(links) && all[i].id in LinkedIds(links);
      }
    }
  }

  /** A link not made by title was the last album and the last purchase of its group. */
  lemma LinksAreByTitleOrElimination(titleOf: Dir -> Title, albums: seq<Dir>, purchases: seq<Purchase>)
    requires Distinct(albums) && DistinctIds(purchases)
    ensures var r := Resolve(titleOf, albums, purchases);
      || PairsByTitle(titleOf, purchases, r.links)
      || (|r.links| > 0 && PairsByTitle(titleOf, purchases, r.links[..|r.links| - 1])
          && |r.links| == |albums| == |purchases|)
  {
    PairingParts(titleOf, albums, purchases);
    PairingByTitle(titleOf, albums, purchases);
    var r := Resolve(titleOf, albums, purchases);
    var p := Pair(titleOf, albums, purchases);
    if |albums| == 1 && |purchases| == 1 {
      assert r.links[..0] == [];
    } else if |p.unpaired| == 1 && |p.left| == 1 {
      assert r.links[..|r.links| - 1] == p.links;
    }
  }

  // ----- both phases -----

  function WithSlug(purchases: seq<Purchase>, slug: string): (matches: seq<Purchase>)
    ensures forall p :: p in matches <==> p in purchases && p.slug == Some(slug)
    ensures DistinctIds(purchases) ==> DistinctIds(matches)
  {
    if purchases == [] then []
    else
      var rest := WithSlug(purchases[1..], slug);
      assert purchases == [purchases[0]] + purchases[1..];
      FewerStayDistinct(purchases, rest);
      if purchases[0].slug == Some(slug) then [purchases[0]] + rest else rest
  }

  datatype Phase = Phase(links: seq<Link>, ties: map<Dir, set<int>>, unlinked: seq<Dir>)

  function GroupPhase(titleOf: Dir -> Title, g: Group, candidates: seq<Purchase>): Phase {
    var purchases := WithSlug(candidates, g.slug);
    if purchases == [] then Phase([], map[], g.albums)
    else
      var r := Resolve(titleOf, g.albums, purchases);
      Phase(r.links, map d | d in r.tied :: r.candidates, r.unlinked)
  }

  /** Phase one, group by group. */
  function FirstPhase(titleOf: Dir -> Title, groups: seq<Group>, candidates: seq<Purchase>): Phase {
    if groups == [] then Phase([], map[], [])
    else
      var before := FirstPhase(titleOf, groups[..|groups| - 1], candidates);
      var g := GroupPhase(titleOf, groups[|groups| - 1], candidates);
      Phase(before.links + g.links, before.ties + g.ties, before.unlinked + g.unlinked)
  }

  function Unconsumed(purchases: seq<Purchase>, consumed: set<int>): (left: seq<Purchase>)
    ensures forall p :: p in left <==> p in purchases && p.id !in consumed
    ensures DistinctIds(purchases) ==> DistinctIds(left)
  {
    if purchases == [] then []
    else
      var rest := Unconsumed(purchases[1..], consumed);
      assert purchases == [purchases[0]] + purchases[1..];
      FewerStayDistinct(purchases, rest);
      if purchases[0].id in consumed then rest else [purchases[0]] + rest
  }

  /** Both phases: the title phase pairs what the first left over, across the URLs that did not match. */
  function Backfilled(titleOf: Dir -> Title, groups: seq<Group>, slugless: seq<Dir>, candidates: seq<Purchase>): Phase {
    var first := FirstPhase(titleOf, groups, candidates);
    var second := Pair(titleOf, first.unlinked + slugless, Unconsumed(candidates, LinkedIds(first.links)));
    Phase(first.links + second.links, first.ties, second.unpaired)
  }

  /** The survey: one group a slug, and every album in one place. */
  ghost predicate Surveyed(groups: seq<Group>, slugless: seq<Dir>) {
    && (forall i, j :: 0 <= i < j < |groups| ==> groups[i].slug != groups[j].slug && Elements(groups[i].albums) !! Elements(groups[j].albums))
    && (forall i :: 0 <= i < |groups| ==> Distinct(groups[i].albums) && Elements(groups[i].albums) !! Elements(slugless))
    && Distinct(slugless)
  }

  ghost function AlbumsOf(groups: seq<Group>): set<Dir> {
    set g, d | g in groups && d in g.albums :: d
  }

  ghost function SlugsOf(groups: seq<Group>): set<string> {
    set g | g in groups :: g.slug
  }

  /** Links from `candidates` to the albums of `groups`, each purchase of one of their slugs; each album dealt with once. */
  ghost predicate PhaseParts(groups: seq<Group>, candidates: seq<Purchase>, r: Phase) {
    && Injective(r.links) && Distinct(r.unlinked)
    && AlbumsOf(groups) == Dirs(r.links) + r.ties.Keys + Elements(r.unlinked)
    && Dirs(r.links) !! r.ties.Keys && Dirs(r.links) !! Elements(r.unlinked) && r.ties.Keys !! Elements(r.unlinked)
    && (forall l :: l in r.links ==> exists p :: p in candidates && p.id == l.id && p.slug.Some? && p.slug.value in SlugsOf(groups))
  }

  lemma GroupParts(titleOf: Dir -> Title, g: Group, candidates: seq<Purchase>)
    requires Distinct(g.albums) && DistinctIds(candidates)
    ensures PhaseParts([g], candidates, GroupPhase(titleOf, g, candidates))
  {
    var purchases := WithSlug(candidates, g.slug);
    var r := GroupPhase(titleOf, g, candidates);
    assert AlbumsOf([g]) == Elements(g.albums);
    assert g in [g];
    if purchases != [] {
      ResolvingSettles(titleOf, g.albums, purchases);
      var s := Resolve(titleOf, g.albums, purchases);
      assert r.ties.Keys == Elements(s.tied);
      forall l | l in r.links
        ensures exists p :: p in candidates && p.id == l.id && p.slug.Some? && p.slug.value in SlugsOf([g])
      {
        assert l.id in Ids(purchases);
        var p :| p in purchases && p.id == l.id;
        assert p in candidates;
      }
    }
  }

  lemma LinksTogether(a: seq<Link>, b: seq<Link>)
    requires Injective(a) && Injective(b) && Dirs(a) !! Dirs(b) && LinkedIds(a) !! LinkedIds(b)
    ensures Injective(a + b) && Dirs(a + b) == Dirs(a) + Dirs(b) && LinkedIds(a + b) == LinkedIds(a) + LinkedIds(b)
  {
    var all := a + b;
    assert forall l :: l in all <==> l in a || l in b;
    forall i, j | 0 <= i < j < |all| ensures all[i].dir != all[j].dir && all[i].id != all[j].id {
      if i < |a| <= j {
        assert all[i] in a && all[j] in b;
        assert all[i].dir in Dirs(a) && all[j].dir in Dirs(b) && all[i].id in LinkedIds(a) && all[j].id in LinkedIds(b);
      }
    }
  }

  lemma PhasesTogether(groups: seq<Group>, g: Group, candidates: seq<Purchase>, before: Phase, r: Phase)
    requires DistinctIds(candidates) && PhaseParts(groups, candidates, before) && PhaseParts([g], candidates, r)
    requires g.slug !in SlugsOf(groups) && Elements(g.albums) !! AlbumsOf(groups)
    ensures PhaseParts(groups + [g], candidates, Phase(before.links + r.links, before.ties + r.ties, before.unlinked + r.unlinked))
  {
    var all := groups + [g];
    assert AlbumsOf([g]) == Elements(g.albums) by {
      assert g in [g];
    }
    assert forall x :: x in all <==> x in groups || x == g;
    assert AlbumsOf(all) == AlbumsOf(groups) + AlbumsOf([g]);
    assert SlugsOf(all) == SlugsOf(groups) + {g.slug};
    SlugsApart(groups, g, candidates, before, r);
    LinksTogether(before.links, r.links);
    DistinctTogether(before.unlinked, r.unlinked);
    forall l | l in before.links + r.links
      ensures exists p :: p in candidates && p.id == l.id && p.slug.Some? && p.slug.value in SlugsOf(all)
    {
      if l in r.links {
        var p :| p in candidates && p.id == l.id && p.slug.Some? && p.slug.value in SlugsOf([g]);
        assert p.slug.value in SlugsOf(all);
      }
    }
  }

  /** A purchase has one slug, so no two groups link the same one. */
  lemma SlugsApart(groups: seq<Group>, g: Group, candidates: seq<Purchase>, before: Phase, r: Phase)
    requires DistinctIds(candidates) && PhaseParts(groups, candidates, before) && PhaseParts([g], candidates, r)
    requires g.slug !in SlugsOf(groups)
    ensures LinkedIds(before.links) !! LinkedIds(r.links)
  {
    forall l, m | l in before.links && m in r.links ensures l.id != m.id {
      var p :| p in candidates && p.id == l.id && p.slug.Some? && p.slug.value in SlugsOf(groups);
      var q :| q in candidates && q.id == m.id && q.slug.Some? && q.slug.value in SlugsOf([g]);
      assert p != q;
      var i :| 0 <= i < |candidates| && candidates[i] == p;
      var j :| 0 <= j < |candidates| && candidates[j] == q;
    }
  }

  lemma {:induction false} FirstPhaseParts(titleOf: Dir -> Title, groups: seq<Group>, slugless: seq<Dir>, candidates: seq<Purchase>)
    requires Surveyed(groups, slugless) && DistinctIds(candidates)
    ensures PhaseParts(groups, candidates, FirstPhase(titleOf, groups, candidates))
    ensures AlbumsOf(groups) !! Elements(slugless)
  {
    if groups != [] {
      var rest := groups[..|groups| - 1];
      var g := groups[|groups| - 1];
      FirstPhaseParts(titleOf, rest, slugless, candidates);
      GroupParts(titleOf, g, candidates);
      assert rest + [g] == groups;
      PhasesTogether(rest, g, candidates, FirstPhase(titleOf, rest, candidates), GroupPhase(titleOf, g, candidates));
      forall d | d in AlbumsOf(groups) ensures d !in Elements(slugless) {
        var x :| x in groups && d in x.albums;
        var i :| 0 <= i < |groups| && groups[i] == x;
      }
    }
  }

  /**
   Over both phases linking is a partial injection into the candidates, and every album surveyed is linked,
   tied or left unlinked, exactly once.
   */
  lemma BackfillIsInjective(titleOf: Dir -> Title, groups: seq<Group>, slugless: seq<Dir>, candidates: seq<Purchase>)
    requires Surveyed(groups, slugless) && DistinctIds(candidates)
    ensures var r := Backfilled(titleOf, groups, slugless, candidates);
      && Injective(r.links) && LinkedIds(r.links) <= Ids(candidates)
      && AlbumsOf(groups) + Elements(slugless) == Dirs(r.links) + r.ties.Keys + Elements(r.unlinked)
      && Dirs(r.links) !! r.ties.Keys && Dirs(r.links) !! Elements(r.unlinked) && r.ties.Keys !! Elements(r.unlinked)
  {
    FirstPhaseParts(titleOf, groups, slugless, candidates);
    var first := FirstPhase(titleOf, groups, candidates);
    var albums := first.unlinked + slugless;
    var left := Unconsumed(candidates, LinkedIds(first.links));
    DistinctTogether(first.unlinked, slugless);
    PairingParts(titleOf, albums, left);
    var second := Pair(titleOf, albums, left);
    assert LinkedIds(first.links) !! Ids(left);
    LinksTogether(first.links, second.links);
    forall id | id in LinkedIds(first.links) ensures id in Ids(candidates) {
      var l :| l in first.links && l.id == id;
      var p :| p in candidates && p.id == l.id && p.slug.Some? && p.slug.value in SlugsOf(groups);
    }
    forall id | id in Ids(left) ensures id in Ids(candidates) {
      var p :| p in left && p.id == id;
    }
  }

  /** The purchases a backfill may link: ignored by the sync itself, and not linked to an album already. */
  function Candidates(purchases: seq<Purchase>, ignored: set<int>, linkedBefore: set<int>): (candidates: seq<Purchase>)
    ensures forall p :: p in candidates <==> p in purchases && p.id in ignored && p.id !in linkedBefore
    ensures DistinctIds(purchases) ==> DistinctIds(candidates)
  {
    Unconsumed(purchases, linkedBefore + (Ids(purchases) - ignored))
  }

  /** Nothing already linked is touched: the purchases linked were free, and so were the albums. */
  lemma NothingLinkedIsTouched(titleOf: Dir -> Title, groups: seq<Group>, slugless: seq<Dir>, purchases: seq<Purchase>,
                               ignored: set<int>, linkedBefore: set<int>)
    requires Surveyed(groups, slugless) && DistinctIds(purchases)
    ensures var r := Backfilled(titleOf, groups, slugless, Candidates(purchases, ignored, linkedBefore));
      && LinkedIds(r.links) !! linkedBefore && LinkedIds(r.links) <= ignored
      && Dirs(r.links) <= AlbumsOf(groups) + Elements(slugless)
  {
    BackfillIsInjective(titleOf, groups, slugless, Candidates(purchases, ignored, linkedBefore));
  }

  /** Phase two links an album only to the one purchase not yet linked that bears its title. */
  lemma TitlePhaseIsExact(titleOf: Dir -> Title, groups: seq<Group>, slugless: seq<Dir>, candidates: seq<Purchase>)
    requires Surveyed(groups, slugless) && DistinctIds(candidates)
    ensures var first := FirstPhase(titleOf, groups, candidates);
      var r := Backfilled(titleOf, groups, slugless, candidates);
      && first.links <= r.links
      && PairsByTitle(titleOf, Unconsumed(candidates, LinkedIds(first.links)), r.links[|first.links|..])
  {
    var first := FirstPhase(titleOf, groups, candidates);
    var left := Unconsumed(candidates, LinkedIds(first.links));
    var second := Pair(titleOf, first.unlinked + slugless, left);
    PairingByTitle(titleOf, first.unlinked + slugless, left);
    assert (first.links + second.links)[|first.links|..] == second.links;
  }

  lemma OneIsKept(p: Purchase, consumed: set<int>)
    requires p.id !in consumed
    ensures Unconsumed([p], consumed) == [p]
  {
    assert [p][1..] == [];
  }

  lemma OneIsPaired(titleOf: Dir -> Title, d: Dir, p: Purchase)
    requires titleOf(d) == p.title
    ensures Pair(titleOf, [d], [p]) == Paired([Link(d, p.id)], [], [])
  {
    assert [p][1..] == [] && [d][1..] == [];
    assert WithTitle([p], p.title) == [p];
    assert Without([p], p) == [];
    assert Pair(titleOf, [], []) == Paired([], [], []);
  }

  /** An album with no title tag, and one purchase whose title has neither letters nor digits: they are linked. */
  lemma AnUntitledAlbumCanMatch(titleOf: Dir -> Title, d: Dir, id: int)
    requires titleOf(d) == ""
    ensures Backfilled(titleOf, [], [d], [Purchase(id, "", None)]).links == [Link(d, id)]
  {
    var p := Purchase(id, "", None);
    OneIsKept(p, {});
    OneIsPaired(titleOf, d, p);
    assert LinkedIds([]) == {} && [] + [d] == [d];
    assert FirstPhase(titleOf, [], [p]) == Phase([], map[], []);
  }

  // ----- the loops -----

  lemma OneMoreLinked(made: seq<Link>, link: Link)
    ensures LinkedIds(made + [link]) == LinkedIds(made) + {link.id}
  {
    assert forall l :: l in made + [link] <==> l in made || l == link;
  }

  class Linker {
    /** The title tagged on an album's files, reduced to letters and digits. */
    const titleOf: Dir -> Title
    /** Whether an album's sidecar can be read and annotated. */
    const markable: Dir -> bool
    /** The links made, in order. */
    var links: seq<Link>
    var consumed: set<int>
    /** The candidate ids stored on the albums marked ambiguous. */
    var ambiguous: map<Dir, set<int>>

    constructor (titleOf: Dir -> Title, markable: Dir -> bool)
      ensures this.titleOf == titleOf && this.markable == markable
      ensures links == [] && consumed == {} && ambiguous == map[]
    {
      this.titleOf, this.markable := titleOf, markable;
      links, consumed, ambiguous := [], {}, map[];
    }

    method Take(dir: Dir, p: Purchase)
      modifies this`links, this`consumed
      ensures links == old(links) + [Link(dir, p.id)] && consumed == old(consumed) + {p.id}
    {
      links := links + [Link(dir, p.id)];
      consumed := consumed + {p.id};
    }

    /** The loop of one pass of pairing; purchases taken leave the list. */
    method PairByTitle(albums: seq<Dir>, purchases: seq<Purchase>) returns (unpaired: seq<Dir>, left: seq<Purchase>)
      modifies this`links, this`consumed
      ensures var r := Pair(titleOf, albums, purchases);
        && links == old(links) + r.links && unpaired == r.unpaired && left == r.left
        && consumed == old(consumed) + LinkedIds(r.links)
    {
      unpaired, left := [], purchases;
      ghost var whole := Pair(titleOf, albums, purchases);
      ghost var was, taken := links, consumed;
      ghost var made: seq<Link> := [];
      for i := 0 to |albums|
        invariant links == was + made && consumed == taken + LinkedIds(made)
        invariant var r := Pair(titleOf, albums[i..], left);
          whole == Paired(made + r.links, unpaired + r.unpaired, r.left)
      {
        assert albums[i..][0] == albums[i] && albums[i..][1..] == albums[i + 1..];
        var matches := WithTitle(left, titleOf(albums[i]));
        if |matches| == 1 {
          Take(albums[i], matches[0]);
          left := Without(left, matches[0]);
          ghost var link := Link(albums[i], matches[0].id);
          Regroup(made, [link], Pair(titleOf, albums[i + 1..], left).links);
          OneMoreLinked(made, link);
          made := made + [link];
        } else {
          Regroup(unpaired, [albums[i]], Pair(titleOf, albums[i + 1..], left).unpaired);
          unpaired := unpaired + [albums[i]];
        }
      }
    }

    /** One group: a clean pair at once, else by title, then by elimination, then as ambiguous. */
    method ResolveSlugGroup(albums: seq<Dir>, purchases: seq<Purchase>) returns (unlinked: seq<Dir>)
      modifies this
      ensures var r := Resolve(titleOf, albums, purchases);
        && links == old(links) + r.links && unlinked == r.unlinked
        && consumed == old(consumed) + LinkedIds(r.links)
        && ambiguous == old(ambiguous) + map d | d in r.tied && markable(d) :: r.candidates
    {
      if |albums| == 1 && |purchases| == 1 {
        Take(albums[0], purchases[0]);
        return [];
      }
      var unpaired, left := PairByTitle(albums, purchases);
      ghost var r := Pair(titleOf, albums, purchases);
      if |unpaired| == 1 && |left| == 1 {
        ghost var link := Link(unpaired[0], left[0].id);
        assert old(links) + (r.links + [link]) == old(links) + r.links + [link];
        assert forall l :: l in r.links + [link] <==> l in r.links || l == link;
        Take(unpaired[0], left[0]);
        return [];
      }
      if left == [] {
        return unpaired;
      }
      MarkAmbiguous(unpaired, Ids(left));
      return [];
    }

    /** Stores the candidates on every album that can be annotated. */
    method MarkAmbiguous(albums: seq<Dir>, candidates: set<int>)
      modifies this`ambiguous
      ensures ambiguous == old(ambiguous) + map d | d in albums && markable(d) :: candidates
    {
      for i := 0 to |albums|
        invariant ambiguous == old(ambiguous) + map d | d in albums[..i] && markable(d) :: candidates
      {
        assert albums[..i + 1] == albums[..i] + [albums[i]];
        if markable(albums[i]) {
          ambiguous := ambiguous[albums[i] := candidates];
        }
      }
      assert albums[..|albums|] == albums;
    }

    /** Of the albums tied, those whose sidecar can say so. */
    function Marked(ties: map<Dir, set<int>>): map<Dir, set<int>> {
      map d | d in ties && markable(d) :: ties[d]
    }

    /** One group of the first phase. */
    method FirstPhaseStep(g: Group, candidates: seq<Purchase>) returns (left: seq<Dir>)
      modifies this
      ensures var r := GroupPhase(titleOf, g, candidates);
        && links == old(links) + r.links && consumed == old(consumed) + LinkedIds(r.links) && left == r.unlinked
        && ambiguous == old(ambiguous) + Marked(r.ties)
    {
      var purchases := WithSlug(candidates, g.slug);
      if purchases == [] {
        assert links + [] == links;
        assert Marked(map[]) == map[] && ambiguous + map[] == ambiguous;
        return g.albums;
      }
      ghost var r := Resolve(titleOf, g.albums, purchases);
      assert Marked(map d | d in r.tied :: r.candidates) == map d | d in r.tied && markable(d) :: r.candidates;
      left := ResolveSlugGroup(g.albums, purchases);
    }

    lemma MarkedTogether(was: map<Dir, set<int>>, a: map<Dir, set<int>>, b: map<Dir, set<int>>)
      ensures was + Marked(a) + Marked(b) == was + Marked(a + b)
    {
    }

    /** The loop over the groups. */
    method LinkBySlug(groups: seq<Group>, candidates: seq<Purchase>) returns (forTitles: seq<Dir>)
      requires links == [] && consumed == {}
      modifies this
      ensures var r := FirstPhase(titleOf, groups, candidates);
        && links == r.links && consumed == LinkedIds(r.links) && forTitles == r.unlinked
        && ambiguous == old(ambiguous) + Marked(r.ties)
    {
      forTitles := [];
      ghost var was := ambiguous;
      assert Marked(map[]) == map[] && was + map[] == was;
      for i := 0 to |groups|
        invariant var r := FirstPhase(titleOf, groups[..i], candidates);
          && links == r.links && consumed == LinkedIds(r.links) && forTitles == r.unlinked
          && ambiguous == was + Marked(r.ties)
      {
        assert groups[..i + 1][..i] == groups[..i];
        ghost var before, g := FirstPhase(titleOf, groups[..i], candidates), GroupPhase(titleOf, groups[i], candidates);
        AllIds(before.links, g.links);
        MarkedTogether(was, before.ties, g.ties);
        var left := FirstPhaseStep(groups[i], candidates);
        forTitles := forTitles + left;
      }
      assert groups[..|groups|] == groups;
    }

    /** Both phases over the survey. */
    method BackfillIgnoredPurchases(groups: seq<Group>, slugless: seq<Dir>, candidates: seq<Purchase>) returns (unlinked: seq<Dir>)
      requires links == [] && consumed == {}
      modifies this
      ensures var r := Backfilled(titleOf, groups, slugless, candidates);
        && links == r.links && consumed == LinkedIds(r.links) && unlinked == r.unlinked
        && ambiguous == old(ambiguous) + Marked(r.ties)
    {
      var forTitles := LinkBySlug(groups, candidates);
      AllIds(links, Pair(titleOf, forTitles + slugless, Unconsumed(candidates, consumed)).links);
      var left;
      unlinked, left := PairByTitle(forTitles + slugless, Unconsumed(candidates, consumed));
    }
  }

  lemma AllIds(a: seq<Link>, b: seq<Link>)
    ensures LinkedIds(a + b) == LinkedIds(a) + LinkedIds(b)
  {
    assert forall l :: l in a + b <==> l in a || l in b;
  }
}

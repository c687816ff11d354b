/**
 Which picture each artist.nfo shows, and refreshing only the profiles a file change can have touched instead of
 looking every picture up again.
 */
module NfoImages {
  import opened Common

  type Path = seq<string>

  // ----- the file system, as far as a picture search sees it -----

  datatype Info = Info(size: nat, stamp: int)

  datatype Node =
    | Picture(info: Info)
    | NotAFile
    | Denied(cause: string)
    | Link(target: Path)

  type Files = map<Path, Node>

  /**
   What a change of pictures leaves alone: the music root, which directory a reference leads to (directory links do
   not change), and which names are pictures'.
   */
  datatype World = World(root: Path, baseOf: Path -> Path, entryOf: (Path, string) -> Path, isPicture: Path -> bool)

  /** Where a path leads once every link is followed; a path in a loop leads to a link. */
  function Follow(fs: Files, p: Path, seen: set<Path>): Path
    decreases fs.Keys - seen
  {
    if p in fs && fs[p].Link? && p !in seen then Follow(fs, fs[p].target, seen + {p}) else p
  }

  /** Every path passed on the way, the first and the last among them. */
  function Visited(fs: Files, p: Path, seen: set<Path>): set<Path>
    decreases fs.Keys - seen
  {
    {p} + if p in fs && fs[p].Link? && p !in seen then Visited(fs, fs[p].target, seen + {p}) else {}
  }

  // ----- profiles -----

  const MAX_IMAGE_BYTES := 20 * 1024 * 1024

  const EXPLICIT := ["artist.jpg", "artist.png", "artist.jpeg", "artist.webp"]

  const GENERIC := ["thumb.jpg", "thumb.png", "thumb.jpeg", "thumb.webp",
                    "folder.jpg", "folder.png", "folder.jpeg", "folder.webp"]

  /** One parsed artist.nfo. */
  datatype Profile = Profile(path: Path, mbid: Option<string>, imageRef: string)

  datatype Cause = Os(cause: string) | TooLarge(path: Path)

  /** A profile with its picture looked up, and every path the lookup depended on. */
  datatype Resolved = Resolved(profile: Profile, image: Option<(Path, Info)>, error: Option<Cause>, candidates: set<Path>)

  datatype Operation = Walk | Read | Image

  datatype Failure = Failure(operation: Operation, path: Path, cause: Cause)

  // ----- the search for a local image -----

  datatype Found = Found(path: Path, info: Info) | NoImage | Raised(cause: Cause)

  predicate Skipped(reference: string) {
    reference == "" || ':' in reference || reference[0] == '\\'
  }

  function Stat(fs: Files, path: Path): Found {
    if path !in fs then NoImage
    else match fs[path]
      case Picture(info) => Found(path, info)
      case NotAFile => NoImage
      case Denied(cause) => Raised(Os(cause))
      case Link(_) => Raised(Os("too many levels of symbolic links"))
  }

  predicate Usable(w: World, path: Path) {
    w.root <= path && w.isPicture(path)
  }

  /** What one reference gives. */
  function Look(w: World, fs: Files, base: Path, reference: string): Found {
    if Skipped(reference) then NoImage
    else
      var path := Follow(fs, w.entryOf(base, reference), {});
      if Usable(w, path) then Stat(fs, path) else NoImage
  }

  /** The paths that one reference depends on: its directory entry, and where that leads, existing or not. */
  function Consulted(w: World, fs: Files, base: Path, reference: string): set<Path> {
    if Skipped(reference) then {}
    else
      var entry := w.entryOf(base, reference);
      var path := Follow(fs, entry, {});
      (if w.root <= entry then {entry} else {}) + (if Usable(w, path) then {path} else {})
  }

  /** The first reference that gives a picture, or an error. */
  function Search(w: World, fs: Files, base: Path, references: seq<string>): Found {
    if references == [] then NoImage
    else
      var found := Look(w, fs, base, references[0]);
      if found.NoImage? then Search(w, fs, base, references[1..]) else found
  }

  function Candidates(w: World, fs: Files, base: Path, references: seq<string>): set<Path> {
    if references == [] then {}
    else
      Consulted(w, fs, base, references[0])
      + (if Look(w, fs, base, references[0]).NoImage? then Candidates(w, fs, base, references[1..]) else {})
  }

  method LocalImage(w: World, fs: Files, base: Path, references: seq<string>) returns (found: Found, candidates: set<Path>)
    ensures found == Search(w, fs, base, references)
    ensures candidates == Candidates(w, fs, base, references)
  {
    candidates := {};
    for i := 0 to |references|
      invariant Search(w, fs, base, references) == Search(w, fs, base, references[i..])
      invariant Candidates(w, fs, base, references) == candidates + Candidates(w, fs, base, references[i..])
    {
      var reference := references[i];
      assert references[i..][1..] == references[i + 1..];
      if Skipped(reference) {
        continue;
      }
      var entry := w.entryOf(base, reference);
      if w.root <= entry {
        candidates := candidates + {entry};
      }
      var path := Follow(fs, entry, {});
      if !(w.root <= path) || !w.isPicture(path) {
        continue;
      }
      candidates := candidates + {path};
      found := Stat(fs, path);
      if !found.NoImage? {
        return;
      }
    }
    return NoImage, candidates;
  }

  /** Declared artwork first, then the artist's own names, and the folder's only where it is known to be the artist's. */
  function References(w: World, p: Profile, artistDirs: set<(Path, string)>): seq<string> {
    [p.imageRef] + EXPLICIT
    + (if p.mbid.Some? && p.mbid.value != "" && (w.baseOf(p.path), p.mbid.value) in artistDirs then GENERIC else [])
  }

  function WithImage(p: Profile, found: Found, candidates: set<Path>): Resolved {
    match found
    case NoImage => Resolved(p, None, None, candidates)
    case Raised(cause) => Resolved(p, None, Some(cause), candidates)
    case Found(path, info) =>
      if info.size > MAX_IMAGE_BYTES then Resolved(p, None, Some(TooLarge(path)), candidates)
      else Resolved(p, Some((path, info)), None, candidates)
  }

  function ResolveImage(w: World, fs: Files, artistDirs: set<(Path, string)>, p: Profile): Resolved {
    var base, references := w.baseOf(p.path), References(w, p, artistDirs);
    WithImage(p, Search(w, fs, base, references), Candidates(w, fs, base, references))
  }

  method Resolve(w: World, fs: Files, artistDirs: set<(Path, string)>, p: Profile, failures: seq<Failure>)
    returns (r: Resolved, out: seq<Failure>)
    ensures r == ResolveImage(w, fs, artistDirs, p)
    ensures out == failures + ImageFailure(r)
    ensures ImageFailure(r) == if r.error.Some? then [Failure(Image, p.path, r.error.value)] else []
  {
    var found, candidates := LocalImage(w, fs, w.baseOf(p.path), References(w, p, artistDirs));
    r, out := WithImage(p, found, candidates), failures;
    if r.error.Some? {
      out := out + [Failure(Image, p.path, r.error.value)];
    }
  }

  function ImageFailure(r: Resolved): seq<Failure> {
    if r.error.Some? then [Failure(Image, r.profile.path, r.error.value)] else []
  }

  // ----- what a look depends on -----

  predicate SameAt(was: Files, now: Files, p: Path) {
    (p in was <==> p in now) && (p in was ==> was[p] == now[p])
  }

  predicate LinkAt(fs: Files, p: Path) {
    p in fs && fs[p].Link?
  }

  /** No link has come, gone or turned at `p`; anything else there may have changed. */
  predicate SameLink(was: Files, now: Files, p: Path) {
    (LinkAt(was, p) <==> LinkAt(now, p)) && (LinkAt(was, p) ==> was[p] == now[p])
  }

  /** Only the paths named have changed. */
  ghost predicate ChangedOnlyAt(was: Files, now: Files, paths: set<Path>) {
    forall p :: p !in paths ==> SameAt(was, now, p)
  }

  lemma {:induction false} FollowedIsVisited(fs: Files, p: Path, seen: set<Path>)
    ensures p in Visited(fs, p, seen) && Follow(fs, p, seen) in Visited(fs, p, seen)
    decreases fs.Keys - seen
  {
    if LinkAt(fs, p) && p !in seen {
      FollowedIsVisited(fs, fs[p].target, seen + {p});
    }
  }

  lemma {:induction false} SameLinksSameWay(was: Files, now: Files, p: Path, seen: set<Path>)
    requires forall q :: q in Visited(was, p, seen) ==> SameLink(was, now, q)
    ensures Follow(now, p, seen) == Follow(was, p, seen) && Visited(now, p, seen) == Visited(was, p, seen)
    decreases was.Keys - seen
  {
    assert SameLink(was, now, p);
    if LinkAt(was, p) && p !in seen {
      SameLinksSameWay(was, now, was[p].target, seen + {p});
    }
  }

  /** A way cut at one of its paths ends there. */
  lemma {:induction false} CutEndsThere(was: Files, p: Path, seen: set<Path>, q: Path)
    requires q in Visited(was, p, seen) && q !in seen
    ensures Follow(was[q := NotAFile], p, seen) == q
    decreases was.Keys - seen
  {
    var now := was[q := NotAFile];
    if p != q {
      CutEndsThere(was, was[p].target, seen + {p}, q);
      assert now[p] == was[p];
    }
  }

  /** The paths one reference leads through. */
  function Through(w: World, fs: Files, base: Path, reference: string): set<Path> {
    if Skipped(reference) then {} else Visited(fs, w.entryOf(base, reference), {})
  }

  lemma LookIsStable(w: World, was: Files, now: Files, base: Path, reference: string)
    requires forall q :: q in Through(w, was, base, reference) ==> SameLink(was, now, q)
    requires forall q :: q in Consulted(w, was, base, reference) ==> SameAt(was, now, q)
    ensures Look(w, now, base, reference) == Look(w, was, base, reference)
    ensures Consulted(w, now, base, reference) == Consulted(w, was, base, reference)
    ensures Through(w, now, base, reference) == Through(w, was, base, reference)
  {
    if !Skipped(reference) {
      var entry := w.entryOf(base, reference);
      SameLinksSameWay(was, now, entry, {});
      var path := Follow(was, entry, {});
      assert Usable(w, path) ==> SameAt(was, now, path);
    }
  }

  lemma ConsultedIsThrough(w: World, fs: Files, base: Path, reference: string)
    ensures Consulted(w, fs, base, reference) <= Through(w, fs, base, reference)
    ensures Look(w, fs, base, reference).Found? ==> Look(w, fs, base, reference).path in Consulted(w, fs, base, reference)
  {
    if !Skipped(reference) {
      FollowedIsVisited(fs, w.entryOf(base, reference), {});
    }
  }

  lemma CutLosesThePicture(w: World, was: Files, base: Path, reference: string, q: Path)
    requires q in Through(w, was, base, reference)
    ensures Look(w, was[q := NotAFile], base, reference) == NoImage
  {
    CutEndsThere(was, w.entryOf(base, reference), {}, q);
  }

  lemma ElsewhereChangesNothing(w: World, was: Files, now: Files, base: Path, reference: string, q: Path)
    requires ChangedOnlyAt(was, now, {q}) && q !in Through(w, was, base, reference)
    ensures Look(w, now, base, reference) == Look(w, was, base, reference)
  {
    ConsultedIsThrough(w, was, base, reference);
    forall p | p != q ensures SameAt(was, now, p) && SameLink(was, now, p) {
    }
    LookIsStable(w, was, now, base, reference);
  }

  /** A picture found depends on exactly the paths its reference leads through: a change at one of them alone can lose it. */
  lemma LookDependsExactlyOn(w: World, was: Files, base: Path, reference: string, q: Path)
    requires Look(w, was, base, reference).Found?
    ensures q in Through(w, was, base, reference)
       <==> exists now: Files :: ChangedOnlyAt(was, now, {q}) && Look(w, now, base, reference) != Look(w, was, base, reference)
  {
    if q in Through(w, was, base, reference) {
      var now := was[q := NotAFile];
      CutLosesThePicture(w, was, base, reference, q);
      assert ChangedOnlyAt(was, now, {q});
    } else if now: Files :|
      ChangedOnlyAt(was, now, {q}) && Look(w, now, base, reference) != Look(w, was, base, reference)
    {
      ElsewhereChangesNothing(w, was, now, base, reference, q);
    }
  }

  /** The paths a search leads through. */
  function Passed(w: World, fs: Files, base: Path, references: seq<string>): set<Path> {
    if references == [] then {}
    else
      Through(w, fs, base, references[0])
      + (if Look(w, fs, base, references[0]).NoImage? then Passed(w, fs, base, references[1..]) else {})
  }

  /** A search whose recorded paths are as they were, and whose way leads over the same links, gives the same again. */
  lemma {:induction false} SearchIsStable(w: World, was: Files, now: Files, base: Path, references: seq<string>)
    requires forall q :: q in Passed(w, was, base, references) ==> SameLink(was, now, q)
    requires forall q :: q in Candidates(w, was, base, references) ==> SameAt(was, now, q)
    ensures Search(w, now, base, references) == Search(w, was, base, references)
    ensures Candidates(w, now, base, references) == Candidates(w, was, base, references)
  {
    if references != [] {
      LookIsStable(w, was, now, base, references[0]);
      if Look(w, was, base, references[0]).NoImage? {
        SearchIsStable(w, was, now, base, references[1..]);
      }
    }
  }

  function Passes(w: World, fs: Files, artistDirs: set<(Path, string)>, p: Profile): set<Path> {
    Passed(w, fs, w.baseOf(p.path), References(w, p, artistDirs))
  }

  /** No link the profile's search leads over, without recording it, has changed. */
  ghost predicate NoneUnseen(w: World, was: Files, now: Files, artistDirs: set<(Path, string)>, p: Profile) {
    forall q :: q in Passes(w, was, artistDirs, p) && q !in ResolveImage(w, was, artistDirs, p).candidates ==> SameLink(was, now, q)
  }

  /** A profile none of whose recorded paths has changed, nor any link passed unrecorded, would be looked up the same again. */
  lemma UntouchedResolvesTheSame(w: World, was: Files, now: Files, paths: set<Path>, artistDirs: set<(Path, string)>, p: Profile)
    requires ChangedOnlyAt(was, now, paths) && NoneUnseen(w, was, now, artistDirs, p)
    requires ResolveImage(w, was, artistDirs, p).candidates !! paths
    ensures ResolveImage(w, now, artistDirs, p) == ResolveImage(w, was, artistDirs, p)
  {
    var candidates := Candidates(w, was, w.baseOf(p.path), References(w, p, artistDirs));
    assert candidates == ResolveImage(w, was, artistDirs, p).candidates;
    assert forall q :: q in candidates ==> SameAt(was, now, q);
    SearchIsStable(w, was, now, w.baseOf(p.path), References(w, p, artistDirs));
  }

  // ----- refreshing an inventory -----

  datatype Inventory = Inventory(profiles: seq<Resolved>, failures: seq<Failure>, artistDirs: set<(Path, string)>)

  type Dependencies = map<Path, set<Path>>

  ghost predicate Records(deps: Dependencies, c: Path, nfo: Path) {
    c in deps && nfo in deps[c]
  }

  ghost predicate DependsOn(r: Resolved, nfo: Path, c: Path) {
    r.profile.path == nfo && c in r.candidates
  }

  ghost predicate SomeDepends(profiles: seq<Resolved>, nfo: Path, c: Path) {
    exists i :: 0 <= i < |profiles| && DependsOn(profiles[i], nfo, c)
  }

  method RecordCandidates(deps: Dependencies, r: Resolved) returns (out: Dependencies)
    ensures forall c, nfo :: Records(out, c, nfo) <==> Records(deps, c, nfo) || DependsOn(r, nfo, c)
  {
    out := deps;
    var todo := r.candidates;
    while todo != {}
      invariant todo <= r.candidates
      invariant forall c, nfo :: Records(out, c, nfo) <==> Records(deps, c, nfo) || (DependsOn(r, nfo, c) && c !in todo)
    {
      var c :| c in todo;
      todo := todo - {c};
      out := out[c := (if c in out then out[c] else {}) + {r.profile.path}];
    }
  }

  lemma SomeDependsGrows(profiles: seq<Resolved>, i: nat, nfo: Path, c: Path)
    requires i < |profiles|
    ensures SomeDepends(profiles[..i + 1], nfo, c) <==> SomeDepends(profiles[..i], nfo, c) || DependsOn(profiles[i], nfo, c)
  {
    var more, less := profiles[..i + 1], profiles[..i];
    assert more[i] == profiles[i] && forall j :: 0 <= j < i ==> more[j] == less[j];
    if SomeDepends(less, nfo, c) {
      var j :| 0 <= j < |less| && DependsOn(less[j], nfo, c);
      assert DependsOn(more[j], nfo, c);
    }
    if SomeDepends(more, nfo, c) {
      var j :| 0 <= j < |more| && DependsOn(more[j], nfo, c);
      assert j < i ==> DependsOn(less[j], nfo, c);
    }
  }

  /** For each recorded path, the profiles that depend on it. */
  method ImageDependencies(profiles: seq<Resolved>) returns (deps: Dependencies)
    ensures forall c, nfo :: Records(deps, c, nfo) <==> SomeDepends(profiles, nfo, c)
  {
    deps := map[];
    for i := 0 to |profiles|
      invariant forall c, nfo :: Records(deps, c, nfo) <==> SomeDepends(profiles[..i], nfo, c)
    {
      deps := RecordCandidates(deps, profiles[i]);
      forall c, nfo ensures Records(deps, c, nfo) <==> SomeDepends(profiles[..i + 1], nfo, c) {
        SomeDependsGrows(profiles, i, nfo, c);
      }
    }
    assert profiles[..|profiles|] == profiles;
  }

  ghost function Affected(profiles: seq<Resolved>, paths: set<Path>): set<Path> {
    set i | 0 <= i < |profiles| && !(profiles[i].candidates !! paths) :: profiles[i].profile.path
  }

  lemma AffectedDepend(profiles: seq<Resolved>, paths: set<Path>, nfo: Path)
    ensures nfo in Affected(profiles, paths) <==> exists c :: c in paths && SomeDepends(profiles, nfo, c)
  {
    if nfo in Affected(profiles, paths) {
      var i :| 0 <= i < |profiles| && !(profiles[i].candidates !! paths) && profiles[i].profile.path == nfo;
      var c :| c in profiles[i].candidates && c in paths;
      assert DependsOn(profiles[i], nfo, c);
    }
    if c :| c in paths && SomeDepends(profiles, nfo, c) {
      var i :| 0 <= i < |profiles| && DependsOn(profiles[i], nfo, c);
      assert c in profiles[i].candidates * paths;
    }
  }

  method FindAffected(profiles: seq<Resolved>, paths: set<Path>) returns (affected: set<Path>)
    ensures affected == Affected(profiles, paths)
  {
    var deps := ImageDependencies(profiles);
    affected := {};
    var todo := paths;
    while todo != {}
      invariant todo <= paths
      invariant forall nfo :: nfo in affected <==> exists c :: c in paths && c !in todo && Records(deps, c, nfo)
    {
      var c :| c in todo;
      ghost var before := todo;
      todo := todo - {c};
      ghost var was := affected;
      if c in deps {
        affected := affected + deps[c];
      }
      forall nfo ensures nfo in affected <==> exists d :: d in paths && d !in todo && Records(deps, d, nfo) {
        assert nfo in affected <==> nfo in was || Records(deps, c, nfo);
        assert forall d :: d !in todo <==> d !in before || d == c;
      }
    }
    forall nfo ensures nfo in affected <==> nfo in Affected(profiles, paths) {
      AffectedDepend(profiles, paths, nfo);
    }
  }

  function Dropped(failures: seq<Failure>, affected: set<Path>): seq<Failure> {
    if failures == [] then []
    else if failures[0].operation != Image || failures[0].path !in affected
    then [failures[0]] + Dropped(failures[1..], affected)
    else Dropped(failures[1..], affected)
  }

  function Refreshed(w: World, fs: Files, artistDirs: set<(Path, string)>, profiles: seq<Resolved>, affected: set<Path>): (out: seq<Resolved>)
    ensures |out| == |profiles|
  {
    seq(|profiles|, i requires 0 <= i < |profiles| =>
      if profiles[i].profile.path in affected then ResolveImage(w, fs, artistDirs, profiles[i].profile) else profiles[i])
  }

  function NewFailures(profiles: seq<Resolved>, affected: set<Path>, n: nat): seq<Failure>
    requires n <= |profiles|
  {
    if n == 0 then []
    else NewFailures(profiles, affected, n - 1)
         + (if profiles[n - 1].profile.path in affected then ImageFailure(profiles[n - 1]) else [])
  }

  /** The inventory after a refresh: the profiles a change can have touched looked up again, the others as they were. */
  ghost function AfterRefresh(w: World, fs: Files, inv: Inventory, paths: set<Path>): Inventory {
    var affected := Affected(inv.profiles, paths);
    var profiles := Refreshed(w, fs, inv.artistDirs, inv.profiles, affected);
    Inventory(profiles, Dropped(inv.failures, affected) + NewFailures(profiles, affected, |profiles|), inv.artistDirs)
  }

  lemma NothingDropped(failures: seq<Failure>)
    ensures Dropped(failures, {}) == failures
  {
  }

  lemma NothingNew(profiles: seq<Resolved>, n: nat)
    requires n <= |profiles|
    ensures NewFailures(profiles, {}, n) == []
  {
  }

  method RefreshImages(w: World, fs: Files, inv: Inventory, paths: set<Path>) returns (out: Inventory)
    ensures out == AfterRefresh(w, fs, inv, paths)
  {
    var affected := FindAffected(inv.profiles, paths);
    if affected == {} {
      NothingDropped(inv.failures);
      NothingNew(inv.profiles, |inv.profiles|);
      assert Refreshed(w, fs, inv.artistDirs, inv.profiles, {}) == inv.profiles;
      return inv;
    }
    var profiles, failures := ResolveAffected(w, fs, inv.artistDirs, inv.profiles, affected, Dropped(inv.failures, affected));
    return Inventory(profiles, failures, inv.artistDirs);
  }

  method ResolveAffected(w: World, fs: Files, artistDirs: set<(Path, string)>, was: seq<Resolved>, affected: set<Path>,
                         before: seq<Failure>)
    returns (profiles: seq<Resolved>, failures: seq<Failure>)
    ensures profiles == Refreshed(w, fs, artistDirs, was, affected)
    ensures failures == before + NewFailures(profiles, affected, |profiles|)
  {
    ghost var goal := Refreshed(w, fs, artistDirs, was, affected);
    profiles, failures := [], before;
    for i := 0 to |was|
      invariant profiles == goal[..i]
      invariant failures == before + NewFailures(goal, affected, i)
    {
      var p := was[i];
      if p.profile.path in affected {
        p, failures := Resolve(w, fs, artistDirs, p.profile, failures);
      }
      profiles := profiles + [p];
    }
    assert goal[..|goal|] == goal;
  }

  // ----- a refresh equals looking everything up again -----

  /** The inventory is what looking every profile up in these files gives, its image failures included. */
  ghost predicate Current(w: World, fs: Files, inv: Inventory) {
    && (forall i :: 0 <= i < |inv.profiles| ==> inv.profiles[i] == ResolveImage(w, fs, inv.artistDirs, inv.profiles[i].profile))
    && (forall f: Failure :: f.operation == Image ==> (f in inv.failures <==> Reported(inv.profiles, f)))
  }

  ghost predicate Reported(profiles: seq<Resolved>, f: Failure) {
    exists i :: 0 <= i < |profiles| && ImageFailure(profiles[i]) == [f]
  }

  lemma {:induction false} DroppedAre(failures: seq<Failure>, affected: set<Path>, f: Failure)
    ensures f in Dropped(failures, affected) <==> f in failures && (f.operation != Image || f.path !in affected)
  {
    if failures != [] {
      DroppedAre(failures[1..], affected, f);
    }
  }

  lemma {:induction false} NewAre(profiles: seq<Resolved>, affected: set<Path>, n: nat, f: Failure)
    requires n <= |profiles|
    ensures f in NewFailures(profiles, affected, n)
       <==> f.path in affected && exists i :: 0 <= i < n && ImageFailure(profiles[i]) == [f]
  {
    if n > 0 {
      NewAre(profiles, affected, n - 1, f);
      assert f in ImageFailure(profiles[n - 1]) <==> ImageFailure(profiles[n - 1]) == [f];
    }
  }

  /** Over every profile a refresh leaves alone. */
  ghost predicate NothingUnseen(w: World, was: Files, now: Files, paths: set<Path>, inv: Inventory) {
    forall i :: 0 <= i < |inv.profiles| && inv.profiles[i].profile.path !in Affected(inv.profiles, paths)
      ==> NoneUnseen(w, was, now, inv.artistDirs, inv.profiles[i].profile)
  }

  lemma RefreshedProfile(w: World, was: Files, now: Files, paths: set<Path>, inv: Inventory, i: nat)
    requires ChangedOnlyAt(was, now, paths) && NothingUnseen(w, was, now, paths, inv)
    requires Current(w, was, inv) && i < |inv.profiles|
    ensures AfterRefresh(w, now, inv, paths).profiles[i] == ResolveImage(w, now, inv.artistDirs, inv.profiles[i].profile)
    ensures AfterRefresh(w, now, inv, paths).profiles[i].profile == inv.profiles[i].profile
    ensures inv.profiles[i].profile.path in Affected(inv.profiles, paths)
         || AfterRefresh(w, now, inv, paths).profiles[i] == inv.profiles[i]
  {
    if inv.profiles[i].profile.path !in Affected(inv.profiles, paths) {
      assert inv.profiles[i].candidates !! paths;
      UntouchedResolvesTheSame(w, was, now, paths, inv.artistDirs, inv.profiles[i].profile);
    }
  }

  /** The failures kept and the failures added are those of the new profiles. */
  lemma FailuresFollowProfiles(was: seq<Resolved>, out: seq<Resolved>, failures: seq<Failure>, affected: set<Path>, f: Failure)
    requires |was| == |out| && f.operation == Image
    requires forall i :: 0 <= i < |was| ==> out[i].profile == was[i].profile
    requires forall i :: 0 <= i < |was| ==> was[i].profile.path in affected || out[i] == was[i]
    requires f in failures <==> Reported(was, f)
    ensures f in Dropped(failures, affected) + NewFailures(out, affected, |out|) <==> Reported(out, f)
  {
    DroppedAre(failures, affected, f);
    NewAre(out, affected, |out|, f);
    if f.path !in affected {
      if Reported(was, f) {
        var i :| 0 <= i < |was| && ImageFailure(was[i]) == [f];
        assert ImageFailure(out[i]) == [f];
      }
      if Reported(out, f) {
        var i :| 0 <= i < |out| && ImageFailure(out[i]) == [f];
        assert ImageFailure(was[i]) == [f];
      }
    }
  }

  /**
   An incremental refresh gives what looking every picture up again would, the same profiles and the same image
   failures, whatever changed at `paths` but a link that a search leads over and does not record.
   */
  lemma RefreshEqualsRecompute(w: World, was: Files, now: Files, paths: set<Path>, inv: Inventory)
    requires ChangedOnlyAt(was, now, paths) && NothingUnseen(w, was, now, paths, inv)
    requires Current(w, was, inv)
    ensures Current(w, now, AfterRefresh(w, now, inv, paths))
    ensures |AfterRefresh(w, now, inv, paths).profiles| == |inv.profiles|
    ensures forall i :: 0 <= i < |inv.profiles| ==> AfterRefresh(w, now, inv, paths).profiles[i].profile == inv.profiles[i].profile
    ensures forall f: Failure :: f.operation != Image ==> (f in AfterRefresh(w, now, inv, paths).failures <==> f in inv.failures)
  {
    var out := AfterRefresh(w, now, inv, paths);
    forall i | 0 <= i < |inv.profiles|
      ensures out.profiles[i] == ResolveImage(w, now, inv.artistDirs, inv.profiles[i].profile)
      ensures out.profiles[i].profile == inv.profiles[i].profile
      ensures inv.profiles[i].profile.path in Affected(inv.profiles, paths) || out.profiles[i] == inv.profiles[i]
    {
      RefreshedProfile(w, was, now, paths, inv, i);
    }
    forall f: Failure | f.operation == Image
      ensures f in out.failures <==> Reported(out.profiles, f)
    {
      FailuresFollowProfiles(inv.profiles, out.profiles, inv.failures, Affected(inv.profiles, paths), f);
    }
    forall f: Failure | f.operation != Image
      ensures f in out.failures <==> f in inv.failures
    {
      DroppedAre(inv.failures, Affected(inv.profiles, paths), f);
      NewAre(out.profiles, Affected(inv.profiles, paths), |out.profiles|, f);
    }
  }

  /** One settled change: what the files became, and where. */
  datatype Change = Change(now: Files, paths: set<Path>)

  /** Each change is told, and none is of a link passed unrecorded. */
  ghost predicate Watched(w: World, fs: Files, inv: Inventory, changes: seq<Change>)
    decreases |changes|
  {
    changes == [] || (ChangedOnlyAt(fs, changes[0].now, changes[0].paths)
                      && NothingUnseen(w, fs, changes[0].now, changes[0].paths, inv)
                      && Watched(w, changes[0].now, AfterRefresh(w, changes[0].now, inv, changes[0].paths), changes[1..]))
  }

  function FilesAfter(fs: Files, changes: seq<Change>): Files
    decreases |changes|
  {
    if changes == [] then fs else FilesAfter(changes[0].now, changes[1..])
  }

  ghost function AfterAll(w: World, inv: Inventory, changes: seq<Change>): Inventory
    decreases |changes|
  {
    if changes == [] then inv
    else AfterAll(w, AfterRefresh(w, changes[0].now, inv, changes[0].paths), changes[1..])
  }

  /** So it does after any run of changes: the inventory never drifts from the files. */
  lemma {:induction false} EveryRunStaysCurrent(w: World, fs: Files, inv: Inventory, changes: seq<Change>)
    requires Current(w, fs, inv) && Watched(w, fs, inv, changes)
    ensures Current(w, FilesAfter(fs, changes), AfterAll(w, inv, changes))
    decreases |changes|
  {
    if changes != [] {
      var now, next := changes[0].now, AfterRefresh(w, changes[0].now, inv, changes[0].paths);
      assert Current(w, now, next) by {
        RefreshEqualsRecompute(w, fs, now, changes[0].paths, inv);
      }
      EveryRunStaysCurrent(w, now, next, changes[1..]);
    }
  }

  // ----- one link to a picture is enough -----

  /** No picture's link leads to another link. */
  ghost predicate OneHop(fs: Files) {
    forall p :: LinkAt(fs, p) ==> !LinkAt(fs, fs[p].target)
  }

  lemma OneHopVisits(fs: Files, p: Path)
    requires OneHop(fs)
    ensures Visited(fs, p, {}) == if LinkAt(fs, p) then {p, fs[p].target} else {p}
    ensures Follow(fs, p, {}) == if LinkAt(fs, p) then fs[p].target else p
  {
    if LinkAt(fs, p) {
      assert Visited(fs, p, {}) == {p} + Visited(fs, fs[p].target, {} + {p});
    }
  }

  lemma OneHopLook(w: World, was: Files, now: Files, paths: set<Path>, base: Path, reference: string)
    requires ChangedOnlyAt(was, now, paths) && OneHop(was) && OneHop(now) && (forall q :: q in paths ==> w.root <= q)
    requires Consulted(w, was, base, reference) !! paths
    ensures forall q :: q in Through(w, was, base, reference) ==> SameLink(was, now, q)
  {
    if !Skipped(reference) {
      var entry := w.entryOf(base, reference);
      OneHopVisits(was, entry);
      assert entry !in paths;
      assert SameAt(was, now, entry);
    }
  }

  lemma {:induction false} OneHopSearch(w: World, was: Files, now: Files, paths: set<Path>, base: Path, references: seq<string>)
    requires ChangedOnlyAt(was, now, paths) && OneHop(was) && OneHop(now) && (forall q :: q in paths ==> w.root <= q)
    requires Candidates(w, was, base, references) !! paths
    ensures forall q :: q in Passed(w, was, base, references) ==> SameLink(was, now, q)
  {
    if references != [] {
      OneHopLook(w, was, now, paths, base, references[0]);
      if Look(w, was, base, references[0]).NoImage? {
        OneHopSearch(w, was, now, paths, base, references[1..]);
      }
    }
  }

  lemma OneHopIsSeen(w: World, was: Files, now: Files, paths: set<Path>, inv: Inventory)
    requires ChangedOnlyAt(was, now, paths) && OneHop(was) && OneHop(now) && (forall q :: q in paths ==> w.root <= q)
    requires Current(w, was, inv)
    ensures NothingUnseen(w, was, now, paths, inv)
  {
    forall i | 0 <= i < |inv.profiles| && inv.profiles[i].profile.path !in Affected(inv.profiles, paths)
      ensures NoneUnseen(w, was, now, inv.artistDirs, inv.profiles[i].profile)
    {
      var p := inv.profiles[i].profile;
      assert inv.profiles[i].candidates !! paths;
      OneHopSearch(w, was, now, paths, w.baseOf(p.path), References(w, p, inv.artistDirs));
    }
  }

  /** Changes in the library, with no link to a link at any time. */
  ghost predicate OneHopRun(w: World, fs: Files, changes: seq<Change>)
    decreases |changes|
  {
    changes == [] || (ChangedOnlyAt(fs, changes[0].now, changes[0].paths) && OneHop(changes[0].now)
                      && (forall q :: q in changes[0].paths ==> w.root <= q)
                      && OneHopRun(w, changes[0].now, changes[1..]))
  }

  /** Where no picture's link leads to another link, every run of changes in the library is watched whole. */
  lemma {:induction false} OneHopRunsStayCurrent(w: World, fs: Files, inv: Inventory, changes: seq<Change>)
    requires OneHop(fs) && Current(w, fs, inv) && OneHopRun(w, fs, changes)
    ensures Watched(w, fs, inv, changes) && Current(w, FilesAfter(fs, changes), AfterAll(w, inv, changes))
    decreases |changes|
  {
    if changes != [] {
      var now, paths := changes[0].now, changes[0].paths;
      OneHopIsSeen(w, fs, now, paths, inv);
      assert Current(w, now, AfterRefresh(w, now, inv, paths)) by {
        RefreshEqualsRecompute(w, fs, now, paths, inv);
      }
      OneHopRunsStayCurrent(w, now, AfterRefresh(w, now, inv, paths), changes[1..]);
    }
  }

  // ----- a link passed unrecorded goes stale -----

  lemma {:induction false} SearchFindsOne(w: World, fs: Files, base: Path, references: seq<string>)
    requires !Search(w, fs, base, references).NoImage?
    ensures exists k :: 0 <= k < |references| && Look(w, fs, base, references[k]) == Search(w, fs, base, references)
  {
    if Look(w, fs, base, references[0]).NoImage? {
      SearchFindsOne(w, fs, base, references[1..]);
      var k :| 0 <= k < |references[1..]| && Look(w, fs, base, references[1..][k]) == Search(w, fs, base, references);
      assert references[k + 1] == references[1..][k];
    }
  }

  /** Every one of these references that leads to the picture leads through `q`. */
  ghost predicate OnlyThrough(w: World, fs: Files, base: Path, references: seq<string>, picture: Found, q: Path) {
    forall k :: 0 <= k < |references| && Look(w, fs, base, references[k]) == picture ==> q in Through(w, fs, base, references[k])
  }

  lemma CutSearchMisses(w: World, was: Files, base: Path, references: seq<string>, picture: Found, q: Path)
    requires picture.Found? && OnlyThrough(w, was, base, references, picture, q)
    ensures Search(w, was[q := NotAFile], base, references) != picture
  {
    var now := was[q := NotAFile];
    if Search(w, now, base, references) == picture {
      SearchFindsOne(w, now, base, references);
      var k :| 0 <= k < |references| && Look(w, now, base, references[k]) == picture;
      if q in Through(w, was, base, references[k]) {
        CutLosesThePicture(w, was, base, references[k], q);
      } else {
        ElsewhereChangesNothing(w, was, now, base, references[k], q);
      }
      assert false;
    }
  }

  /**
   The other way round: a profile that shows a picture only by way of a path it did not record goes stale when that
   path alone is cut. A refresh told of the change leaves the profile as it was.
   */
  lemma AnUnrecordedPathGoesStale(w: World, was: Files, inv: Inventory, i: nat, q: Path)
    requires Current(w, was, inv) && i < |inv.profiles| && inv.profiles[i].image.Some?
    requires inv.profiles[i].profile.path !in Affected(inv.profiles, {q})
    requires var p := inv.profiles[i].profile;
      OnlyThrough(w, was, w.baseOf(p.path), References(w, p, inv.artistDirs),
                  Found(inv.profiles[i].image.value.0, inv.profiles[i].image.value.1), q)
    ensures var now := was[q := NotAFile];
      && ChangedOnlyAt(was, now, {q})
      && AfterRefresh(w, now, inv, {q}).profiles[i] == inv.profiles[i]
      && !Current(w, now, AfterRefresh(w, now, inv, {q}))
  {
    var now, p := was[q := NotAFile], inv.profiles[i].profile;
    var out := AfterRefresh(w, now, inv, {q});
    CutSearchMisses(w, was, w.baseOf(p.path), References(w, p, inv.artistDirs),
                    Found(inv.profiles[i].image.value.0, inv.profiles[i].image.value.1), q);
    assert ResolveImage(w, now, inv.artistDirs, p).image != inv.profiles[i].image;
    assert out.profiles[i] == inv.profiles[i];
  }

  // ----- exactly when a refresh can leave an inventory stale -----

  /** A way turned aside at one of its paths ends where it was turned to. */
  lemma {:induction false} TurnLeadsThere(was: Files, p: Path, seen: set<Path>, q: Path, t: Path)
    requires q in Visited(was, p, seen) && q !in seen && t != q && !LinkAt(was, t)
    ensures Follow(was[q := Link(t)], p, seen) == t
    decreases was.Keys - seen
  {
    var now := was[q := Link(t)];
    if p == q {
      assert !LinkAt(now, t);
      assert Follow(now, q, seen) == Follow(now, t, seen + {q});
    } else {
      TurnLeadsThere(was, was[p].target, seen + {p}, q, t);
      assert now[p] == was[p];
    }
  }

  /** A search that leads through `q` records where `q` is turned to. */
  lemma {:induction false} TurnIsRecorded(w: World, was: Files, base: Path, references: seq<string>, q: Path, t: Path)
    requires q in Passed(w, was, base, references) && t != q && !LinkAt(was, t) && Usable(w, t)
    ensures t in Candidates(w, was[q := Link(t)], base, references)
  {
    var now := was[q := Link(t)];
    if q in Through(w, was, base, references[0]) {
      TurnLeadsThere(was, w.entryOf(base, references[0]), {}, q, t);
    } else {
      assert ChangedOnlyAt(was, now, {q});
      ElsewhereChangesNothing(w, was, now, base, references[0], q);
      TurnIsRecorded(w, was, base, references[1..], q, t);
    }
  }

  lemma APassedPathGoesStale(w: World, was: Files, inv: Inventory, i: nat, q: Path, t: Path)
    requires Current(w, was, inv) && i < |inv.profiles| && inv.profiles[i].profile.path !in Affected(inv.profiles, {q})
    requires q in Passes(w, was, inv.artistDirs, inv.profiles[i].profile)
    requires t != q && !LinkAt(was, t) && Usable(w, t) && t !in inv.profiles[i].candidates
    ensures var now := was[q := Link(t)];
      ChangedOnlyAt(was, now, {q}) && !Current(w, now, AfterRefresh(w, now, inv, {q}))
  {
    var now, p := was[q := Link(t)], inv.profiles[i].profile;
    TurnIsRecorded(w, was, w.baseOf(p.path), References(w, p, inv.artistDirs), q, t);
    assert t in ResolveImage(w, now, inv.artistDirs, p).candidates;
    assert AfterRefresh(w, now, inv, {q}).profiles[i] == inv.profiles[i];
  }

  lemma UnpassedStaysCurrent(w: World, was: Files, now: Files, inv: Inventory, q: Path)
    requires Current(w, was, inv) && ChangedOnlyAt(was, now, {q})
    requires forall i :: 0 <= i < |inv.profiles| && inv.profiles[i].profile.path !in Affected(inv.profiles, {q})
               ==> q !in Passes(w, was, inv.artistDirs, inv.profiles[i].profile)
    ensures Current(w, now, AfterRefresh(w, now, inv, {q}))
  {
    forall p | p != q ensures SameLink(was, now, p) {
      assert SameAt(was, now, p);
    }
    RefreshEqualsRecompute(w, was, now, {q}, inv);
  }

  /**
   Exactly when a change at one path can leave a refreshed inventory stale, whatever its profiles show: when the search
   of a profile that does not depend on the path leads through it. The only thing asked is a picture's path that no
   record names, for a link to be turned to.
   */
  lemma RefreshGoesStaleExactly(w: World, was: Files, inv: Inventory, q: Path, t: Path)
    requires Current(w, was, inv)
    requires Usable(w, t) && !LinkAt(was, t) && t != q && forall i :: 0 <= i < |inv.profiles| ==> t !in inv.profiles[i].candidates
    ensures (exists now: Files :: ChangedOnlyAt(was, now, {q}) && !Current(w, now, AfterRefresh(w, now, inv, {q})))
       <==> exists i :: 0 <= i < |inv.profiles| && inv.profiles[i].profile.path !in Affected(inv.profiles, {q})
                        && q in Passes(w, was, inv.artistDirs, inv.profiles[i].profile)
  {
    if i :| 0 <= i < |inv.profiles| && inv.profiles[i].profile.path !in Affected(inv.profiles, {q})
            && q in Passes(w, was, inv.artistDirs, inv.profiles[i].profile)
    {
      APassedPathGoesStale(w, was, inv, i, q, t);
    } else if now: Files :| ChangedOnlyAt(was, now, {q}) && !Current(w, now, AfterRefresh(w, now, inv, {q})) {
      UnpassedStaysCurrent(w, was, now, inv, q);
      assert false;
    }
  }

  lemma FollowLink(fs: Files, p: Path, seen: set<Path>)
    requires LinkAt(fs, p) && p !in seen
    ensures Follow(fs, p, seen) == Follow(fs, fs[p].target, seen + {p})
    ensures Visited(fs, p, seen) == {p} + Visited(fs, fs[p].target, seen + {p})
  {
  }

  /** Two links are enough: the picture and the first link are recorded, the link between them is not. */
  lemma TwoHopsPassUnrecorded(w: World, fs: Files, base: Path, reference: string, entry: Path, middle: Path)
    requires !Skipped(reference) && w.entryOf(base, reference) == entry && entry != middle
    requires LinkAt(fs, entry) && fs[entry].target == middle && LinkAt(fs, middle) && !LinkAt(fs, fs[middle].target)
    ensures middle in Through(w, fs, base, reference) && middle !in Consulted(w, fs, base, reference)
    ensures Follow(fs, entry, {}) == fs[middle].target
  {
    FollowLink(fs, entry, {});
    FollowLink(fs, middle, {} + {entry});
  }

  lemma OthersFindNothing(w: World, fs: Files, base: Path, references: seq<string>)
    requires forall r :: r in references ==> w.entryOf(base, r) !in fs
    ensures forall k :: 0 <= k < |references| ==> Look(w, fs, base, references[k]) == NoImage
  {
    forall k | 0 <= k < |references| ensures Look(w, fs, base, references[k]) == NoImage {
      assert references[k] in references;
    }
  }

  /** One profile, whose artwork is a link to a link to its picture: cut the middle link, and the refresh shows the picture still. */
  lemma TwoHopsGoStale(w: World, p: Profile, entry: Path, middle: Path, picture: Path, info: Info) returns (was: Files, inv: Inventory)
    requires !Skipped(p.imageRef) && w.entryOf(w.baseOf(p.path), p.imageRef) == entry
    requires entry != middle && middle != picture && picture != entry && Usable(w, picture) && info.size <= MAX_IMAGE_BYTES
    requires forall r :: r in EXPLICIT ==> w.entryOf(w.baseOf(p.path), r) !in {entry, middle, picture}
    ensures inv.profiles == [ResolveImage(w, was, {}, p)] && inv.profiles[0].image == Some((picture, info))
    ensures Current(w, was, inv)
    ensures var now := was[middle := NotAFile];
      ChangedOnlyAt(was, now, {middle}) && !Current(w, now, AfterRefresh(w, now, inv, {middle}))
  {
    was := map[entry := Link(middle), middle := Link(picture), picture := Picture(info)];
    var base, r := w.baseOf(p.path), ResolveImage(w, was, {}, p);
    inv := Inventory([r], [], {});
    TwoHopsPassUnrecorded(w, was, base, p.imageRef, entry, middle);
    assert References(w, p, {}) == [p.imageRef] + EXPLICIT;
    assert Look(w, was, base, p.imageRef) == Found(picture, info);
    OthersFindNothing(w, was, base, EXPLICIT);
    assert forall f: Failure :: !Reported(inv.profiles, f);
    AnUnrecordedPathGoesStale(w, was, inv, 0, middle);
  }
}

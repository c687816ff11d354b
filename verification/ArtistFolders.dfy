/**
 Which folders are one artist's, so that a picture there with a general name is the artist's: the credits of the
 albums below each folder, intersected as the albums are walked.
 */
module ArtistFolders {
  import opened Common

  type Path = seq<string>

  datatype Album = Album(credits: set<string>, folders: seq<Path>, partOfALargerRelease: bool)

  /** The folder is below `d`, and both are in the library. */
  predicate Under(root: Path, folder: Path, d: Path) {
    root <= d && Below(folder, d)
  }

  ghost predicate HasUnder(a: Album, root: Path, d: Path) {
    exists k :: 0 <= k < |a.folders| && Under(root, a.folders[k], d)
  }

  // ----- the intersection -----

  type Credits = map<Path, set<string>>

  /** What folder `d` holds once more credits are met there, or are not. */
  function Met(was: Credits, d: Path, credits: set<string>, met: bool): set<string> {
    if !met then (if d in was then was[d] else {})
    else if d in was then was[d] * credits
    else credits
  }

  /** One folder's credits, taken up to every folder above it. */
  ghost predicate AddedTo(was: Credits, now: Credits, root: Path, folder: Path, credits: set<string>) {
    && (forall d :: d in now <==> d in was || Under(root, folder, d))
    && (forall d :: d in now ==> now[d] == Met(was, d, credits, Under(root, folder, d)))
  }

  lemma UnderIsAPrefix(root: Path, folder: Path, d: Path, n: nat)
    requires |root| <= n < |folder| && root <= folder
    ensures Under(root, folder, folder[..n])
    ensures Under(root, folder, d) && |d| == n ==> d == folder[..n]
  {
    assert folder[..n][..|root|] == folder[..|root|] == root;
  }

  method AddFolder(was: Credits, root: Path, folder: Path, credits: set<string>) returns (now: Credits)
    ensures AddedTo(was, now, root, folder, credits)
  {
    now := was;
    if !(root <= folder) {
      forall d ensures !Under(root, folder, d) {
        UnderNeedsRoot(root, folder, d);
      }
      return;
    }
    var n := |folder|;
    while n > |root|
      invariant |root| <= n <= |folder|
      invariant forall d :: d in now <==> d in was || (Under(root, folder, d) && |d| >= n)
      invariant forall d :: d in now ==> now[d] == Met(was, d, credits, Under(root, folder, d) && |d| >= n)
    {
      n := n - 1;
      var parent := folder[..n];
      forall d ensures Under(root, folder, d) && |d| == n <==> d == parent {
        UnderIsAPrefix(root, folder, d, n);
      }
      now := now[parent := if parent in now then now[parent] * credits else credits];
    }
  }

  lemma UnderNeedsRoot(root: Path, folder: Path, d: Path)
    ensures Under(root, folder, d) ==> root <= folder
  {
    if Under(root, folder, d) {
      assert folder[..|root|] == folder[..|d|][..|root|] == d[..|root|] == root;
    }
  }

  ghost predicate AnyUnder(albums: seq<Album>, root: Path, d: Path) {
    exists i :: 0 <= i < |albums| && HasUnder(albums[i], root, d)
  }

  ghost predicate AllCredit(albums: seq<Album>, root: Path, d: Path, c: string) {
    forall i :: 0 <= i < |albums| && HasUnder(albums[i], root, d) ==> c in albums[i].credits
  }

  /** Each folder above an album holds exactly the artists that every album below it credits. */
  ghost predicate Intersected(m: Credits, albums: seq<Album>, root: Path) {
    && (forall d :: d in m <==> AnyUnder(albums, root, d))
    && (forall d, c :: d in m ==> (c in m[d] <==> AllCredit(albums, root, d, c)))
  }

  /** The same, part of the way through the folders of the next album. */
  ghost predicate TakenUp(was: Credits, now: Credits, a: Album, n: nat, root: Path)
    requires n <= |a.folders|
  {
    var part := a.(folders := a.folders[..n]);
    && (forall d :: d in now <==> d in was || HasUnder(part, root, d))
    && (forall d :: d in now ==> now[d] == Met(was, d, a.credits, HasUnder(part, root, d)))
  }

  lemma HasUnderGrows(a: Album, n: nat, root: Path, d: Path)
    requires n < |a.folders|
    ensures HasUnder(a.(folders := a.folders[..n + 1]), root, d)
       <==> HasUnder(a.(folders := a.folders[..n]), root, d) || Under(root, a.folders[n], d)
  {
    var less, more := a.folders[..n], a.folders[..n + 1];
    assert more[n] == a.folders[n] && forall k :: 0 <= k < n ==> more[k] == less[k];
    if k :| 0 <= k < n && Under(root, less[k], d) {
      assert Under(root, more[k], d);
    }
    if k :| 0 <= k < n + 1 && Under(root, more[k], d) {
      assert k < n ==> Under(root, less[k], d);
    }
  }

  method AddAlbum(was: Credits, root: Path, a: Album) returns (now: Credits)
    ensures TakenUp(was, now, a, |a.folders|, root)
  {
    now := was;
    for n := 0 to |a.folders|
      invariant TakenUp(was, now, a, n, root)
    {
      ghost var before := now;
      now := AddFolder(now, root, a.folders[n], a.credits);
      forall d ensures HasUnder(a.(folders := a.folders[..n + 1]), root, d)
                  <==> HasUnder(a.(folders := a.folders[..n]), root, d) || Under(root, a.folders[n], d)
      {
        HasUnderGrows(a, n, root, d);
      }
      TakenUpGrows(was, before, now, a, n, root);
    }
  }

  lemma TakenUpGrows(was: Credits, before: Credits, now: Credits, a: Album, n: nat, root: Path)
    requires n < |a.folders| && TakenUp(was, before, a, n, root) && AddedTo(before, now, root, a.folders[n], a.credits)
    requires forall d :: HasUnder(a.(folders := a.folders[..n + 1]), root, d)
                    <==> HasUnder(a.(folders := a.folders[..n]), root, d) || Under(root, a.folders[n], d)
    ensures TakenUp(was, now, a, n + 1, root)
  {
  }

  lemma AlbumIntersects(was: Credits, now: Credits, albums: seq<Album>, i: nat, root: Path)
    requires i < |albums| && Intersected(was, albums[..i], root) && TakenUp(was, now, albums[i], |albums[i].folders|, root)
    ensures Intersected(now, albums[..i + 1], root)
  {
    var a, less, more := albums[i], albums[..i], albums[..i + 1];
    assert a.(folders := a.folders[..|a.folders|]) == a;
    assert more == less + [a];
    forall d
      ensures AnyUnder(more, root, d) <==> AnyUnder(less, root, d) || HasUnder(a, root, d)
    {
      assert more[i] == a;
      if AnyUnder(less, root, d) {
        var k :| 0 <= k < i && HasUnder(less[k], root, d);
        assert HasUnder(more[k], root, d);
      }
    }
    forall d, c
      ensures AllCredit(more, root, d, c) <==> AllCredit(less, root, d, c) && (HasUnder(a, root, d) ==> c in a.credits)
    {
      assert more[i] == a && forall k :: 0 <= k < i ==> more[k] == less[k];
    }
  }

  method DirectoryCredits(albums: seq<Album>, root: Path) returns (credits: Credits)
    ensures Intersected(credits, albums, root)
  {
    credits := map[];
    for i := 0 to |albums|
      invariant Intersected(credits, albums[..i], root)
    {
      ghost var was := credits;
      credits := AddAlbum(credits, root, albums[i]);
      AlbumIntersects(was, credits, albums, i, root);
    }
    assert albums[..|albums|] == albums;
  }

  // ----- the folders that are one artist's -----

  /** An album's own folders, those the walk found to be albums, and a box set's container, are no artist's folder. */
  ghost predicate Blocked(albums: seq<Album>, albumDirs: set<Path>, root: Path, d: Path) {
    || d in albumDirs
    || (exists i, k :: 0 <= i < |albums| && 0 <= k < |albums[i].folders| && BlockedBy(albums[i], root, albums[i].folders[k], d))
  }

  ghost predicate BlockedBy(a: Album, root: Path, folder: Path, d: Path) {
    root <= folder && (d == folder || (a.partOfALargerRelease && folder != [] && d == folder[..|folder| - 1]))
  }

  method BlockedDirs(albums: seq<Album>, albumDirs: set<Path>, root: Path) returns (blocked: set<Path>)
    ensures forall d :: d in blocked <==> Blocked(albums, albumDirs, root, d)
  {
    blocked := albumDirs;
    for i := 0 to |albums|
      invariant forall d :: d in blocked <==> (d in albumDirs
                  || exists j, k :: 0 <= j < i && 0 <= k < |albums[j].folders| && BlockedBy(albums[j], root, albums[j].folders[k], d))
    {
      var a := albums[i];
      var own := set k | 0 <= k < |a.folders| && root <= a.folders[k] :: a.folders[k];
      var containers := set k | 0 <= k < |a.folders| && root <= a.folders[k] && a.partOfALargerRelease && a.folders[k] != []
                          :: a.folders[k][..|a.folders[k]| - 1];
      forall d ensures d in own + containers <==> exists k :: 0 <= k < |a.folders| && BlockedBy(a, root, a.folders[k], d) {
      }
      blocked := blocked + own + containers;
    }
  }

  /**
   A picture with a general name in folder `d` is taken for artist `c`'s exactly when the whole library could be
   walked, `d` is no album's own folder, some album lies below it, and every album below it credits `c`.
   */
  method ArtistDirs(albums: seq<Album>, albumDirs: set<Path>, root: Path, walkErrors: bool) returns (dirs: set<(Path, string)>)
    ensures forall d, c :: (d, c) in dirs
              <==> !walkErrors && !Blocked(albums, albumDirs, root, d) && AnyUnder(albums, root, d) && AllCredit(albums, root, d, c)
  {
    var credits := DirectoryCredits(albums, root);
    var blocked := BlockedDirs(albums, albumDirs, root);
    dirs := set d, c | d in credits && c in credits[d] && d !in blocked && !walkErrors :: (d, c);
  }
}

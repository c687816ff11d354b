/** Which picture an artist.nfo shows, said of the files and the names tried alone. */
module ShownPictures {
  import opened Common
  import opened NfoImages

  /** The names tried, in order: the one the profile declares, the artist's, and where the folder is the artist's own, the folder's. */
  ghost function Names(w: World, p: Profile, artistDirs: set<(Path, string)>): seq<string> {
    [p.imageRef, "artist.jpg", "artist.png", "artist.jpeg", "artist.webp"]
    + if p.mbid.Some? && p.mbid.value != "" && (w.baseOf(p.path), p.mbid.value) in artistDirs
      then ["thumb.jpg", "thumb.png", "thumb.jpeg", "thumb.webp", "folder.jpg", "folder.png", "folder.jpeg", "folder.webp"]
      else []
  }

  /** A name that can be a local file's: not empty, no URL, no network path. */
  ghost predicate IsLocal(name: string) {
    |name| > 0 && (forall i :: 0 <= i < |name| ==> name[i] != ':') && name[0] != '\\'
  }

  /** The name leads, over links, to `path`: a picture's name inside the library, with something there. */
  ghost predicate LeadsTo(w: World, fs: Files, base: Path, name: string, path: Path) {
    && IsLocal(name) && path == Follow(fs, w.entryOf(base, name), {})
    && w.root <= path && w.isPicture(path) && path in fs && fs[path] != NotAFile
  }

  ghost predicate Leads(w: World, fs: Files, base: Path, name: string) {
    exists path :: LeadsTo(w, fs, base, name, path)
  }

  /** The first name that leads anywhere is the `k`th, and it leads to `path`. */
  ghost predicate FirstToLead(w: World, fs: Files, base: Path, names: seq<string>, k: nat, path: Path) {
    && k < |names| && LeadsTo(w, fs, base, names[k], path)
    && forall j :: 0 <= j < k ==> !Leads(w, fs, base, names[j])
  }

  ghost predicate IsShown(r: Resolved, node: Node, path: Path) {
    match node
    case Picture(info) =>
      if info.size <= 20_971_520 then r.image == Some((path, info)) && r.error.None?
      else r.image.None? && r.error == Some(TooLarge(path))
    case Denied(cause) => r.image.None? && r.error == Some(Os(cause))
    case Link(_) => r.image.None? && r.error == Some(Os("too many levels of symbolic links"))
    case NotAFile => false
  }

  lemma LooksTo(w: World, fs: Files, base: Path, name: string, path: Path)
    ensures Leads(w, fs, base, name) <==> !Look(w, fs, base, name).NoImage?
    ensures LeadsTo(w, fs, base, name, path) ==> Look(w, fs, base, name) == Stat(fs, path)
  {
    assert IsLocal(name) <==> !Skipped(name);
    if IsLocal(name) {
      var there := Follow(fs, w.entryOf(base, name), {});
      assert Usable(w, there) && there in fs && fs[there] != NotAFile ==> LeadsTo(w, fs, base, name, there);
    }
  }

  lemma {:induction false} SearchFinds(w: World, fs: Files, base: Path, names: seq<string>, k: nat, path: Path)
    requires FirstToLead(w, fs, base, names, k, path)
    ensures Search(w, fs, base, names) == Stat(fs, path)
  {
    if k == 0 {
      LooksTo(w, fs, base, names[0], path);
      assert Leads(w, fs, base, names[0]);
    } else {
      LooksTo(w, fs, base, names[0], path);
      assert !Leads(w, fs, base, names[0]);
      assert forall j :: 0 <= j < k - 1 ==> names[1..][j] == names[j + 1];
      SearchFinds(w, fs, base, names[1..], k - 1, path);
    }
  }

  lemma {:induction false} SearchFindsNothing(w: World, fs: Files, base: Path, names: seq<string>)
    requires forall j :: 0 <= j < |names| ==> !Leads(w, fs, base, names[j])
    ensures Search(w, fs, base, names) == NoImage
  {
    if names != [] {
      LooksTo(w, fs, base, names[0], base);
      assert !Leads(w, fs, base, names[0]);
      assert forall j :: 0 <= j < |names| - 1 ==> names[1..][j] == names[j + 1];
      SearchFindsNothing(w, fs, base, names[1..]);
    }
  }

  /** The paths recorded on the way: for each name up to the first that leads anywhere, its entry and where it leads. */
  ghost predicate Recorded(w: World, fs: Files, base: Path, names: seq<string>, q: Path) {
    exists k :: 0 <= k < |names| && RecordedFor(w, fs, base, names[k], q) && forall j :: 0 <= j < k ==> !Leads(w, fs, base, names[j])
  }

  ghost predicate RecordedFor(w: World, fs: Files, base: Path, name: string, q: Path) {
    && IsLocal(name) && w.root <= q
    && var entry := w.entryOf(base, name); q == entry || (q == Follow(fs, entry, {}) && w.isPicture(q))
  }

  lemma ConsultedAre(w: World, fs: Files, base: Path, name: string, q: Path)
    ensures q in Consulted(w, fs, base, name) <==> RecordedFor(w, fs, base, name, q)
  {
    assert IsLocal(name) <==> !Skipped(name);
  }

  lemma {:induction false} CandidatesAre(w: World, fs: Files, base: Path, names: seq<string>, q: Path)
    ensures q in Candidates(w, fs, base, names) <==> Recorded(w, fs, base, names, q)
  {
    if names != [] {
      var rest := names[1..];
      LooksTo(w, fs, base, names[0], base);
      ConsultedAre(w, fs, base, names[0], q);
      CandidatesAre(w, fs, base, rest, q);
      assert forall j :: 0 < j < |names| ==> names[j] == rest[j - 1];
      if Recorded(w, fs, base, rest, q) && !Leads(w, fs, base, names[0]) {
        var k :| 0 <= k < |rest| && RecordedFor(w, fs, base, rest[k], q) && forall j :: 0 <= j < k ==> !Leads(w, fs, base, rest[j]);
        assert RecordedFor(w, fs, base, names[k + 1], q);
      }
      if Recorded(w, fs, base, names, q) && q !in Consulted(w, fs, base, names[0]) {
        var k :| 0 <= k < |names| && RecordedFor(w, fs, base, names[k], q) && forall j :: 0 <= j < k ==> !Leads(w, fs, base, names[j]);
        assert RecordedFor(w, fs, base, rest[k - 1], q);
      }
    }
  }

  /**
   A profile shows the first of its names that leads to a picture, an error or a link that leads nowhere: the picture when
   it is no larger than 20 MiB, and else the error. It depends on every path tried until then.
   */
  lemma ShownExactly(w: World, fs: Files, artistDirs: set<(Path, string)>, p: Profile)
    ensures var r, base, names := ResolveImage(w, fs, artistDirs, p), w.baseOf(p.path), Names(w, p, artistDirs);
      && r.profile == p
      && (forall k, path :: FirstToLead(w, fs, base, names, k, path) ==> IsShown(r, fs[path], path))
      && ((forall j :: 0 <= j < |names| ==> !Leads(w, fs, base, names[j])) ==> r.image.None? && r.error.None?)
      && (forall q :: q in r.candidates <==> Recorded(w, fs, base, names, q))
  {
    var base, names := w.baseOf(p.path), Names(w, p, artistDirs);
    NamesAre(w, p, artistDirs);
    forall k, path | FirstToLead(w, fs, base, names, k, path) ensures IsShown(ResolveImage(w, fs, artistDirs, p), fs[path], path) {
      SearchFinds(w, fs, base, names, k, path);
    }
    if forall j :: 0 <= j < |names| ==> !Leads(w, fs, base, names[j]) {
      SearchFindsNothing(w, fs, base, names);
    }
    forall q ensures q in Candidates(w, fs, base, names) <==> Recorded(w, fs, base, names, q) {
      CandidatesAre(w, fs, base, names, q);
    }
  }

  lemma NamesAre(w: World, p: Profile, artistDirs: set<(Path, string)>)
    ensures References(w, p, artistDirs) == Names(w, p, artistDirs)
  {
  }
}

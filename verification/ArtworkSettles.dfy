/** Carrying out a plan settles the album: the next plan has nothing left to write. */
module ArtworkSettles {
  import opened Common
  import opened Artwork

  // ----- sizes -----

  lemma BeatsIsStrict(x: Option<Size>, y: Option<Size>, z: Option<Size>)
    ensures !Beats(x, x)
    ensures Beats(x, y) ==> !Beats(y, x)
    ensures Beats(x, y) && Beats(y, z) ==> Beats(x, z)
    ensures x.None? ==> !Beats(x, y) && !Beats(y, x)
  {
  }

  /** Nothing the album can offer beats the image its folder cover should hold. */
  lemma BestCoverUnbeaten(cover: Option<FolderCover>, own: Option<Image>, archive: Option<Image>)
    ensures var best := BestCover(cover, own, archive);
      && (best.None? <==> cover.None? && own.None? && archive.None?)
      && (best.Some? ==>
        && (cover.Some? ==> !Beats(cover.value.image.size, best.value.image.size))
        && (own.Some? ==> !Beats(own.value.size, best.value.image.size))
        && (archive.Some? ==> !Beats(archive.value.size, best.value.image.size)))
  {
  }

  // ----- hypotheses -----

  /** No row choices, no stand-ins and no squished copies: the size rule, a chosen source or an override. */
  predicate NoRowChoices(o: Options) {
    o.choices == map[] && o.standIns == {} && o.originals == map[]
  }

  ghost function Offered(a: AlbumState, archive: Option<Image>): set<Image> {
    (set t | t in a.tracks && t.art.Some? :: t.art.value)
    + (if a.cover.Some? then {a.cover.value.image} else {})
    + (if archive.Some? then {archive.value} else {})
  }

  /** Two descriptions of the same bytes differ at most in what a label claims. */
  ghost predicate SameBytes(x: Image, y: Image) {
    x.digest == y.digest && x.size == y.size && x.length == y.length && (x.kind == y.kind || (x.kind.Claims? && y.kind.Claims?))
  }

  /** A digest is of the bytes. */
  ghost predicate Coherent(images: set<Image>) {
    forall x, y :: x in images && y in images && x.digest == y.digest ==> SameBytes(x, y)
  }

  ghost predicate NoneTooLarge(images: set<Image>) {
    forall x :: x in images ==> !TooLarge(x)
  }

  /** The two names a folder cover is looked for under, in any case. */
  ghost predicate UsualCover(a: AlbumState) {
    a.cover.Some? ==> Lower(CoverTarget(a.dir, a.cover.value).name.suffix) in {".jpg", ".png"}
  }

  ghost predicate Plain(a: AlbumState, archive: Option<Image>, o: Options) {
    WellFormed(a) && UsualCover(a) && Coherent(Offered(a, archive)) && NoneTooLarge(Offered(a, archive)) && NoRowChoices(o)
  }

  /** Filling the gaps with the tracks' own image is what makes the archive's image cheap to embed. */
  predicate EmbiggensOnceFilled(a: AlbumState, archive: Option<Image>, o: Options) {
    var w := Weighed(archive, o);
    var own := FirstArt(a.tracks);
    && !o.overwrite && !o.unreadable && o.chosen != Some(FromArchive) && !PerTrack(Before(a.tracks))
    && a.cover.None? && o.policy == Never
    && own.Some? && w.Some? && Beats(w.value.size, own.value.size)
    && !o.lossless && o.audioBytes.Some? && o.audioBytes.value != 0
    && 10 * (|a.tracks| * (w.value.length - own.value.length)) <= o.audioBytes.value < 10 * Growth(a.tracks, w.value)
  }

  // ----- the shape of a plan without choices -----

  lemma WithoutChoices(a: AlbumState, archive: Option<Image>, o: Options)
    requires NoRowChoices(o)
    ensures MakePlan(a, archive, o) == Renamed(Suggest(a, Weighed(archive, o), o), a.cover)
  {
    var s := Suggest(a, Weighed(archive, o), o);
    var choices := Given(a, archive, o) + o.choices;
    assert choices == map[];
    assert Honoured(choices, s.before, archive, o.picks) == map[];
  }

  lemma PlanForIsComplete(dir: string, targets: seq<Carried>, cover: Option<FolderCover>, winner: Incoming,
                          forCover: Incoming, before: seq<Carried>, preserves: bool, policy: Policy,
                          originals: map<Digest, Digest>)
    ensures Complete(PlanFor(dir, targets, cover, winner, forCover, before, preserves, policy, originals))
  {
  }

  lemma PlanForPartsAreComplete(a: AlbumState, targets: seq<Carried>, cover: Option<FolderCover>, winner: Incoming,
                                forCover: Incoming, preserves: bool, policy: Policy, o: Options)
    ensures Complete(PlanFor(a.dir, targets, cover, winner, forCover, Before(a.tracks), preserves, policy, o.originals))
  {
    PlanForIsComplete(a.dir, targets, cover, winner, forCover, Before(a.tracks), preserves, policy, o.originals);
  }

  lemma PerTrackIsComplete(a: AlbumState, picked: Option<Image>, archive: Option<Image>, o: Options)
    ensures Complete(SuggestPerTrack(a, picked, archive, o))
  {
    forall targets, cover, winner, forCover, preserves, policy
      ensures Complete(PlanFor(a.dir, targets, cover, winner, forCover, Before(a.tracks), preserves, policy, o.originals))
    {
      PlanForPartsAreComplete(a, targets, cover, winner, forCover, preserves, policy, o);
    }
  }

  lemma BySizeIsComplete(a: AlbumState, archive: Option<Image>, o: Options)
    ensures Complete(SuggestBySize(a, archive, o))
  {
    var best, forTracks := BestCover(a.cover, FirstArt(a.tracks), archive), BestForTracks(a.tracks, a.cover, archive, o);
    if forTracks.Some? {
      PlanForPartsAreComplete(a, Before(a.tracks), a.cover, forTracks.value, if best.Some? then best.value else forTracks.value,
                              false, o.policy, o);
    }
  }

  lemma SuggestionsAreComplete(a: AlbumState, archive: Option<Image>, o: Options)
    ensures Complete(Suggest(a, archive, o))
  {
    PerTrackIsComplete(a, if o.chosen == Some(FromArchive) then archive else None, archive, o);
    BySizeIsComplete(a, archive, o);
    if a.cover.Some? {
      var folder := Incoming(a.cover.value.image, FromFolder);
      PlanForPartsAreComplete(a, Before(a.tracks), a.cover, folder, folder, false, IfMissing, o);
    }
    if archive.Some? {
      var front := Incoming(archive.value, FromArchive);
      PlanForPartsAreComplete(a, Before(a.tracks), a.cover, front, front, false, o.policy, o);
    }
  }

  /** Every plan made without choices names an image for each of its changes. */
  lemma PlainPlansAreComplete(a: AlbumState, archive: Option<Image>, o: Options)
    requires NoRowChoices(o)
    ensures Complete(MakePlan(a, archive, o))
  {
    WithoutChoices(a, archive, o);
    SuggestionsAreComplete(a, Weighed(archive, o), o);
  }

  // ----- what one application leaves behind -----

  lemma {:induction false} TrackChangeAt(targets: seq<Carried>, i: nat, winner: Image, originals: map<Digest, Digest>)
    requires forall j, k :: 0 <= j < k < |targets| ==> targets[j].path != targets[k].path
    requires i < |targets|
    ensures var c := ChangeAt(TrackChanges(targets, winner, originals), targets[i].path);
      if Settled(targets[i].digest, winner, originals) then c.None?
      else c == Some(Change(targets[i].path, targets[i].digest, winner.digest, false, None, false))
  {
    var others := TrackChanges(targets[1..], winner, originals);
    var changes := TrackChanges(targets, winner, originals);
    assert changes != others ==> changes[1..] == others;
    if i == 0 {
      NoChangeElsewhere(targets[1..], targets[0].path, winner, originals);
    } else {
      TrackChangeAt(targets[1..], i - 1, winner, originals);
      assert targets[1..][i - 1] == targets[i];
    }
  }

  lemma {:induction false} NoChangeElsewhere(targets: seq<Carried>, path: Path, winner: Image, originals: map<Digest, Digest>)
    requires forall j :: 0 <= j < |targets| ==> targets[j].path != path
    ensures ChangeAt(TrackChanges(targets, winner, originals), path).None?
  {
    if targets != [] {
      var others := TrackChanges(targets[1..], winner, originals);
      var changes := TrackChanges(targets, winner, originals);
      assert changes != others ==> changes[1..] == others;
      NoChangeElsewhere(targets[1..], path, winner, originals);
    }
  }

  /** A folder cover's change hides no track's. */
  lemma {:induction false} CoverChangesHideNothing(xs: seq<Change>, ys: seq<Change>, path: Path)
    requires forall c :: c in ys ==> c.folderCover
    ensures ChangeAt(xs + ys, path) == ChangeAt(xs, path)
  {
    if xs != [] {
      assert (xs + ys)[1..] == xs[1..] + ys;
      CoverChangesHideNothing(xs[1..], ys, path);
    } else if ys != [] {
      assert xs + ys == ys;
      CoverChangesHideNothing([], ys[1..], path);
      assert [] + ys[1..] == ys[1..];
    }
  }

  lemma {:induction false} CoverChangeBehind(xs: seq<Change>, ys: seq<Change>)
    requires forall c :: c in xs ==> !c.folderCover
    ensures CoverChange(xs + ys) == CoverChange(ys)
  {
    if xs != [] {
      assert (xs + ys)[1..] == xs[1..] + ys;
      CoverChangeBehind(xs[1..], ys);
    } else {
      assert xs + ys == ys;
    }
  }

  /** Every track holds `image`. */
  ghost predicate AllHold(tracks: seq<Track>, image: Image) {
    forall i :: 0 <= i < |tracks| ==> tracks[i].art.Some? && SameBytes(tracks[i].art.value, image)
  }

  /** A plan that puts `winner` on every track leaves every track holding it. */
  lemma TracksWritten(a: AlbumState, p: Plan, winner: Image, rest: seq<Change>)
    requires WellFormed(a) && !TooLarge(winner) && Complete(p)
    requires p.changes == TrackChanges(Before(a.tracks), winner, map[]) + rest
    requires forall c :: c in rest ==> c.folderCover
    requires winner.digest in p.images ==> SameBytes(p.images[winner.digest].image, winner)
    requires forall t :: t in a.tracks && t.art.Some? && t.art.value.digest == winner.digest ==> SameBytes(t.art.value, winner)
    ensures AllHold(Apply(a, p, Everything).tracks, winner)
  {
    var before := Before(a.tracks);
    forall i | 0 <= i < |a.tracks|
      ensures var t := Written(a.tracks[i], p, Everything); t.art.Some? && SameBytes(t.art.value, winner)
    {
      TrackChangeAt(before, i, winner, map[]);
      CoverChangesHideNothing(TrackChanges(before, winner, map[]), rest, a.tracks[i].path);
      assert a.tracks[i] in a.tracks;
    }
  }

  /** A plan that writes to no track leaves every track as it was. */
  lemma TracksLeftAlone(a: AlbumState, p: Plan)
    requires Complete(p)
    requires forall c :: c in p.changes ==> c.folderCover
    ensures Apply(a, p, Everything).tracks == a.tracks
  {
  }

  // ----- the folder cover after one application -----

  /** Nothing is left to rename. */
  ghost predicate Fits(dir: string, c: FolderCover) {
    !Moves(CoverTarget(dir, c), TypeName(c.image), c.beside)
  }

  lemma UsualSuffixesAreLower()
    ensures Lower(".jpg") == ".jpg" && Lower(".png") == ".png"
  {
  }

  /** Read back under the name it was written to, an image never calls for another rename. */
  lemma WrittenNameFits(dir: string, cover: FolderCover, planned: Image, written: Image)
    requires Lower(CoverTarget(dir, cover).name.suffix) in {".jpg", ".png"}
    requires SameBytes(planned, written)
    ensures var target := CoverTarget(dir, cover);
      var name := TypeName(planned);
      var path := if Moves(target, name, cover.beside) then Path(target.dir, name) else target;
      Fits(dir, FolderCover(path.name, ReadBack(written, path.name), Some(path), cover.beside))
  {
    UsualSuffixesAreLower();
  }

  lemma CreatedNameFits(dir: string, planned: Image, written: Image)
    requires SameBytes(planned, written)
    ensures var name := TypeName(planned);
      Fits(dir, FolderCover(name, ReadBack(written, name), Some(Path(dir, name)), {}))
  {
    UsualSuffixesAreLower();
  }

  /** The folder cover holds `image`, under a name that fits it. */
  ghost predicate CoverHolds(dir: string, cover: Option<FolderCover>, image: Image) {
    && cover.Some? && cover.value.image.digest == image.digest && cover.value.image.size == image.size
    && cover.value.image.length == image.length && Fits(dir, cover.value)
  }

  /** What a plan that writes `forCover` to the folder cover leaves there. */
  lemma CoverWritten(a: AlbumState, q: Plan, tracks: seq<Change>, forCover: Image, policy: Policy)
    requires UsualCover(a) && q.dir == a.dir && q.choices == map[]
    requires !TooLarge(forCover) && (a.cover.Some? ==> !TooLarge(a.cover.value.image))
    requires q.changes == tracks + CoverChanges(a.dir, a.cover, forCover, policy, map[])
    requires forall c :: c in tracks ==> !c.folderCover
    requires Complete(q)
    requires forCover.digest in q.images ==> SameBytes(forCover, q.images[forCover.digest].image)
    requires a.cover.Some? && a.cover.value.image.digest == forCover.digest ==> SameBytes(forCover, a.cover.value.image)
    ensures Complete(Renamed(q, a.cover))
    ensures var cover := WrittenCover(a.cover, Renamed(q, a.cover), Everything);
      if a.cover.None? && policy == Never then cover.None?
      else CoverHolds(a.dir, cover, forCover)
  {
    var p := Renamed(q, a.cover);
    var own := CoverChanges(a.dir, a.cover, forCover, policy, map[]);
    CoverChangeBehind(tracks, own);
    if own != [] {
      assert p == q;
      assert own[0] in q.changes;
      if a.cover.Some? {
        WrittenNameFits(a.dir, a.cover.value, forCover, q.images[forCover.digest].image);
      } else {
        CreatedNameFits(a.dir, forCover, q.images[forCover.digest].image);
      }
    } else if a.cover.Some? {
      RenameWritten(a, q);
    }
  }

  /** A plan that writes nothing to the folder cover may still rename it, and then once is enough. */
  lemma RenameWritten(a: AlbumState, q: Plan)
    requires UsualCover(a) && q.dir == a.dir && q.choices == map[] && Complete(q)
    requires a.cover.Some? && CoverChange(q.changes).None?
    ensures Complete(Renamed(q, a.cover))
    ensures CoverHolds(a.dir, WrittenCover(a.cover, Renamed(q, a.cover), Everything), a.cover.value.image)
  {
    var p := Renamed(q, a.cover);
    var r := Rename(q, a.cover);
    var image := a.cover.value.image;
    if r.Some? {
      CoverChangeBehind(q.changes, [r.value]);
      assert CoverChange([r.value]) == r;
      WrittenNameFits(a.dir, a.cover.value, image, image);
    } else {
      assert CoverChange(p.changes).None?;
    }
  }

  // ----- a second plan for an album that already holds what it should -----

  lemma {:induction false} NothingLeftForTracks(tracks: seq<Carried>, winner: Image)
    requires !TooLarge(winner)
    requires forall c :: c in tracks ==> c.digest == Some(winner.digest)
    ensures TrackChanges(tracks, winner, map[]) == []
  {
    if tracks != [] {
      NothingLeftForTracks(tracks[1..], winner);
    }
  }

  lemma HeldByAll(tracks: seq<Track>, image: Image)
    requires AllHold(tracks, image)
    ensures forall c :: c in Before(tracks) ==> c.digest == Some(image.digest)
    ensures !PerTrack(Before(tracks))
    ensures FirstArt(tracks) == if tracks == [] then None else tracks[0].art
  {
    var before := Before(tracks);
    var held := set c | c in before && c.digest.Some? :: c.digest.value;
    assert held <= {image.digest};
    if |held| > 1 {
      SubsetSize(held, {image.digest});
    }
  }

  lemma SubsetSize<T>(x: set<T>, y: set<T>)
    requires x <= y
    ensures |x| <= |y|
  {
    if x != {} {
      var e :| e in x;
      SubsetSize(x - {e}, y - {e});
    }
  }

  /** With nothing to write and nothing to rename, a plan is empty. */
  lemma QuietPlan(a: AlbumState, archive: Option<Image>, o: Options)
    requires NoRowChoices(o)
    requires Suggest(a, Weighed(archive, o), o).changes == []
    requires Suggest(a, Weighed(archive, o), o).dir == a.dir
    requires a.cover.Some? ==> Fits(a.dir, a.cover.value)
    ensures MakePlan(a, archive, o).changes == []
  {
    WithoutChoices(a, archive, o);
  }

  // ----- the two plans together -----

  /** What a plan for the whole album leaves behind. */
  ghost predicate Wrote(a: AlbumState, b: AlbumState, winner: Image, forCover: Image, policy: Policy) {
    && b.dir == a.dir && |b.tracks| == |a.tracks| && AllHold(b.tracks, winner)
    && if a.cover.None? && policy == Never then b.cover.None? else CoverHolds(a.dir, b.cover, forCover)
  }

  /** A whole plan's image table describes the two winners. */
  lemma WholePlanImages(a: AlbumState, q: Plan, winner: Incoming, forCover: Incoming, policy: Policy, images: set<Image>)
    requires Coherent(images) && Offered(a, None) <= images && winner.image in images && forCover.image in images
    requires q == PlanFor(a.dir, Before(a.tracks), a.cover, winner, forCover, Before(a.tracks), false, policy, map[])
    ensures Complete(q)
    ensures forCover.image.digest in q.images ==> SameBytes(forCover.image, q.images[forCover.image.digest].image)
    ensures winner.image.digest in Renamed(q, a.cover).images
            ==> SameBytes(Renamed(q, a.cover).images[winner.image.digest].image, winner.image)
  {
    PlanForIsComplete(a.dir, Before(a.tracks), a.cover, winner, forCover, Before(a.tracks), false, policy, map[]);
    if a.cover.Some? {
      assert a.cover.value.image in images;
    }
  }

  lemma WholePlanTracks(a: AlbumState, q: Plan, winner: Incoming, forCover: Incoming, policy: Policy, images: set<Image>)
    requires WellFormed(a) && Coherent(images) && NoneTooLarge(images)
    requires Offered(a, None) <= images && winner.image in images && forCover.image in images
    requires q == PlanFor(a.dir, Before(a.tracks), a.cover, winner, forCover, Before(a.tracks), false, policy, map[])
    requires Complete(Renamed(q, a.cover))
    ensures AllHold(Apply(a, Renamed(q, a.cover), Everything).tracks, winner.image)
  {
    var p := Renamed(q, a.cover);
    var rest := CoverChanges(a.dir, a.cover, forCover.image, policy, map[]) + Listed(Rename(q, a.cover));
    WholePlanImages(a, q, winner, forCover, policy, images);
    forall t | t in a.tracks && t.art.Some? && t.art.value.digest == winner.image.digest
      ensures SameBytes(t.art.value, winner.image)
    {
      assert t.art.value in Offered(a, None);
    }
    assert p.changes == TrackChanges(Before(a.tracks), winner.image, map[]) + rest;
    TracksWritten(a, p, winner.image, rest);
  }

  lemma WholePlanCover(a: AlbumState, q: Plan, winner: Incoming, forCover: Incoming, policy: Policy, images: set<Image>)
    requires UsualCover(a) && Coherent(images) && NoneTooLarge(images)
    requires Offered(a, None) <= images && winner.image in images && forCover.image in images
    requires q == PlanFor(a.dir, Before(a.tracks), a.cover, winner, forCover, Before(a.tracks), false, policy, map[])
    ensures Complete(Renamed(q, a.cover))
    ensures var cover := WrittenCover(a.cover, Renamed(q, a.cover), Everything);
      if a.cover.None? && policy == Never then cover.None? else CoverHolds(a.dir, cover, forCover.image)
  {
    WholePlanImages(a, q, winner, forCover, policy, images);
    assert a.cover.Some? ==> a.cover.value.image in images;
    CoverWritten(a, q, TrackChanges(Before(a.tracks), winner.image, map[]), forCover.image, policy);
  }

  lemma WholePlanWrites(a: AlbumState, winner: Incoming, forCover: Incoming, policy: Policy, images: set<Image>)
    requires WellFormed(a) && UsualCover(a) && Coherent(images) && NoneTooLarge(images)
    requires Offered(a, None) <= images && winner.image in images && forCover.image in images
    ensures var q := PlanFor(a.dir, Before(a.tracks), a.cover, winner, forCover, Before(a.tracks), false, policy, map[]);
      Complete(Renamed(q, a.cover)) && Wrote(a, Apply(a, Renamed(q, a.cover), Everything), winner.image, forCover.image, policy)
  {
    var q := PlanFor(a.dir, Before(a.tracks), a.cover, winner, forCover, Before(a.tracks), false, policy, map[]);
    WholePlanCover(a, q, winner, forCover, policy, images);
    WholePlanTracks(a, q, winner, forCover, policy, images);
  }

  /** A second plan with the same winners writes nothing. */
  lemma WholePlanQuiet(b: AlbumState, winner: Incoming, forCover: Incoming, policy: Policy)
    requires AllHold(b.tracks, winner.image)
    requires !TooLarge(winner.image) && !TooLarge(forCover.image)
    requires if b.cover.None? then policy == Never else b.cover.value.image.digest == forCover.image.digest
    ensures PlanFor(b.dir, Before(b.tracks), b.cover, winner, forCover, Before(b.tracks), false, policy, map[]).changes == []
  {
    HeldByAll(b.tracks, winner.image);
    NothingLeftForTracks(Before(b.tracks), winner.image);
  }

  /** The override: the folder cover's image, everywhere. */
  lemma OverwriteSettles(a: AlbumState, archive: Option<Image>, o: Options)
    requires Plain(a, archive, o) && o.overwrite
    ensures Complete(MakePlan(a, archive, o))
    ensures var b := Apply(a, MakePlan(a, archive, o), Everything);
      if o.unreadable || a.cover.None? then b.tracks == a.tracks
      else Wrote(a, b, a.cover.value.image, a.cover.value.image, IfMissing)
    ensures MakePlan(Apply(a, MakePlan(a, archive, o), Everything), archive, o).changes == []
  {
    WithoutChoices(a, archive, o);
    PlainPlansAreComplete(a, archive, o);
    var b := Apply(a, MakePlan(a, archive, o), Everything);
    if o.unreadable || a.cover.None? {
      NothingWritten(a, archive, o);
      TracksLeftAlone(a, MakePlan(a, archive, o));
    } else {
      var winner := Incoming(a.cover.value.image, FromFolder);
      WholePlanWrites(a, winner, winner, IfMissing, Offered(a, archive));
      var again := Incoming(b.cover.value.image, FromFolder);
      WholePlanQuiet(b, again, again, IfMissing);
      QuietPlan(b, archive, o);
    }
  }

  /** An album a plan did not touch gets the same plan again. */
  lemma NothingWritten(a: AlbumState, archive: Option<Image>, o: Options)
    requires NoRowChoices(o) && Suggest(a, Weighed(archive, o), o) == NoChanges(a.dir, Before(a.tracks), false)
    requires UsualCover(a)
    requires forall b: AlbumState :: b.tracks == a.tracks && b.dir == a.dir && b.cover.Some? == a.cover.Some?
               ==> Suggest(b, Weighed(archive, o), o) == NoChanges(b.dir, Before(b.tracks), false)
    ensures Complete(MakePlan(a, archive, o))
    ensures MakePlan(Apply(a, MakePlan(a, archive, o), Everything), archive, o).changes == []
  {
    WithoutChoices(a, archive, o);
    var q := Suggest(a, Weighed(archive, o), o);
    var b := Apply(a, Renamed(q, a.cover), Everything);
    TracksLeftAlone(a, Renamed(q, a.cover));
    if a.cover.Some? {
      RenameWritten(a, q);
    }
    QuietPlan(b, archive, o);
  }

  /** The image a per-track album's folder cover should take from the archive, if any. */
  function ForPerTrack(cover: Option<FolderCover>, archive: Option<Image>, o: Options): Option<Image> {
    if cover.None? && o.policy == Never then None
    else if o.chosen == Some(FromArchive) && archive.Some? then archive
    else if cover.None? then Weighed(archive, o)
    else None
  }

  /** The suggestion for a per-track album writes at most the folder cover, and only that image. */
  lemma PerTrackSuggestion(a: AlbumState, archive: Option<Image>, o: Options)
    requires NoRowChoices(o) && !o.overwrite && !o.unreadable && PerTrack(Before(a.tracks))
    requires a.cover.Some? ==> !TooLarge(a.cover.value.image)
    ensures var q := Suggest(a, Weighed(archive, o), o);
      var candidate := ForPerTrack(a.cover, archive, o);
      && q.dir == a.dir && q.choices == map[] && Complete(q)
      && q.changes == (if candidate.None? then [] else CoverChanges(a.dir, a.cover, candidate.value, o.policy, map[]))
      && (candidate.Some? && candidate.value.digest in q.images ==> q.images[candidate.value.digest].image == candidate.value)
  {
  }

  /** Different images on the tracks: only the folder cover is ever written, and every track keeps its own. */
  lemma PerTrackSettles(a: AlbumState, archive: Option<Image>, o: Options)
    requires Plain(a, archive, o) && !o.overwrite && !o.unreadable && PerTrack(Before(a.tracks))
    ensures Complete(MakePlan(a, archive, o))
    ensures Apply(a, MakePlan(a, archive, o), Everything).tracks == a.tracks
    ensures MakePlan(Apply(a, MakePlan(a, archive, o), Everything), archive, o).changes == []
  {
    WithoutChoices(a, archive, o);
    PlainPlansAreComplete(a, archive, o);
    var q := Suggest(a, Weighed(archive, o), o);
    var p := Renamed(q, a.cover);
    var b := Apply(a, p, Everything);
    var candidate := ForPerTrack(a.cover, archive, o);
    assert a.cover.Some? ==> a.cover.value.image in Offered(a, archive);
    assert candidate.Some? ==> candidate.value in Offered(a, archive);
    PerTrackSuggestion(a, archive, o);
    TracksLeftAlone(a, p);
    if candidate.Some? {
      CoverWritten(a, q, [], candidate.value, o.policy);
    } else if a.cover.Some? {
      RenameWritten(a, q);
    }
    PerTrackSuggestion(b, archive, o);
    QuietPlan(b, archive, o);
  }

  /** A source the user picked: that image, everywhere. */
  lemma PickedSettles(a: AlbumState, archive: Option<Image>, o: Options)
    requires Plain(a, archive, o) && !o.overwrite && !o.unreadable && !PerTrack(Before(a.tracks))
    requires o.chosen == Some(FromArchive) && archive.Some?
    ensures Complete(MakePlan(a, archive, o))
    ensures Wrote(a, Apply(a, MakePlan(a, archive, o), Everything), archive.value, archive.value, o.policy)
    ensures MakePlan(Apply(a, MakePlan(a, archive, o), Everything), archive, o).changes == []
  {
    WithoutChoices(a, archive, o);
    PlainPlansAreComplete(a, archive, o);
    var winner := Incoming(archive.value, FromArchive);
    var b := Apply(a, MakePlan(a, archive, o), Everything);
    WholePlanWrites(a, winner, winner, o.policy, Offered(a, archive));
    HeldByAll(b.tracks, winner.image);
    WholePlanQuiet(b, winner, winner, o.policy);
    QuietPlan(b, archive, o);
  }

  lemma {:induction false} FirstArtOffered(tracks: seq<Track>)
    ensures FirstArt(tracks).Some? ==> exists t :: t in tracks && t.art == FirstArt(tracks)
    ensures FirstArt(tracks).None? <==> forall t :: t in tracks ==> t.art.None?
  {
    if tracks == [] {
    } else if tracks[0].art.Some? {
      assert tracks[0] in tracks;
    } else {
      FirstArtOffered(tracks[1..]);
      assert forall t :: t in tracks <==> t == tracks[0] || t in tracks[1..];
    }
  }

  lemma {:induction false} GrowthOnceHeld(tracks: seq<Track>, held: Image, image: Image)
    requires AllHold(tracks, held)
    ensures Growth(tracks, image) == |tracks| * (image.length - held.length)
  {
    if tracks != [] {
      GrowthOnceHeld(tracks[1..], held, image);
    }
  }

  /** With a folder cover there, or to be made, the size rule has the same answer twice. */
  lemma BySizeSettles(a: AlbumState, b: AlbumState, w: Option<Image>, o: Options, winner: Incoming, forCover: Incoming)
    requires NoRowChoices(o) && b.cover.Some?
    requires BestForTracks(a.tracks, a.cover, w, o) == Some(winner) && BestCover(a.cover, FirstArt(a.tracks), w) == Some(forCover)
    requires !TooLarge(winner.image) && !TooLarge(forCover.image)
    requires Wrote(a, b, winner.image, forCover.image, o.policy)
    ensures SuggestBySize(b, w, o).changes == []
  {
    HeldByAll(b.tracks, winner.image);
    BestCoverUnbeaten(a.cover, FirstArt(a.tracks), w);
    var again := BestForTracks(b.tracks, b.cover, w, o);
    assert BestCover(b.cover, FirstArt(b.tracks), w) == CoverOf(b.cover);
    if b.tracks == [] {
      assert Before(b.tracks) == [];
    } else {
      assert AllHold(b.tracks, again.value.image);
      WholePlanQuiet(b, again.value, CoverOf(b.cover).value, o.policy);
    }
  }

  /** The archive's front beats what the tracks first held, and the album once filled can bear it where the album before could not. */
  ghost predicate BareSurprise(a: AlbumState, w: Option<Image>, o: Options) {
    && FirstArt(a.tracks).Some? && w.Some? && Beats(w.value.size, FirstArt(a.tracks).value.size)
    && !o.lossless && !CheapToEmbed(a.tracks, w.value, o.audioBytes)
    && o.audioBytes.Some? && o.audioBytes.value != 0
    && 10 * (|a.tracks| * (w.value.length - FirstArt(a.tracks).value.length)) <= o.audioBytes.value
  }

  lemma HeldEmbiggens(b: AlbumState, w: Option<Image>, o: Options, held: Image)
    requires b.cover.None? && AllHold(b.tracks, held) && b.tracks != []
    ensures Embiggens(b.tracks, b.cover, w, o) <==>
      && w.Some? && Beats(w.value.size, held.size)
      && (o.lossless || (o.audioBytes.Some? && o.audioBytes.value != 0
                         && 10 * (|b.tracks| * (w.value.length - held.length)) <= o.audioBytes.value))
  {
    HeldByAll(b.tracks, held);
    if w.Some? {
      GrowthOnceHeld(b.tracks, held, w.value);
    }
  }

  /** Without a folder cover the tracks' winner is the archive's front where it is cheap to embed, and else their own image. */
  lemma BareEmbiggens(a: AlbumState, b: AlbumState, w: Option<Image>, o: Options, winner: Incoming)
    requires NoRowChoices(o) && a.cover.None? && b.cover.None? && o.policy == Never
    requires BestForTracks(a.tracks, a.cover, w, o) == Some(winner)
    requires AllHold(b.tracks, winner.image) && |b.tracks| == |a.tracks|
    ensures Embiggens(b.tracks, b.cover, w, o) <==> BareSurprise(a, w, o)
  {
    FirstArtOffered(a.tracks);
    if b.tracks != [] {
      HeldEmbiggens(b, w, o, winner.image);
    }
  }

  lemma BareHeldIsQuiet(b: AlbumState, w: Option<Image>, o: Options, held: Image)
    requires NoRowChoices(o) && b.cover.None? && o.policy == Never && AllHold(b.tracks, held) && !TooLarge(held)
    requires !Embiggens(b.tracks, b.cover, w, o)
    ensures SuggestBySize(b, w, o).changes == []
  {
    HeldByAll(b.tracks, held);
    var again := BestForTracks(b.tracks, b.cover, w, o);
    if b.tracks == [] {
      assert Before(b.tracks) == [];
    } else {
      assert AllHold(b.tracks, again.value.image);
      var best := BestCover(b.cover, FirstArt(b.tracks), w);
      NothingLeftForTracks(Before(b.tracks), again.value.image);
    }
  }

  lemma BareEmbiggeningWrites(b: AlbumState, w: Option<Image>, o: Options, held: Image)
    requires NoRowChoices(o) && b.cover.None? && o.policy == Never && AllHold(b.tracks, held)
    requires Embiggens(b.tracks, b.cover, w, o) && (w.value.digest == held.digest ==> SameBytes(w.value, held))
    ensures SuggestBySize(b, w, o).changes != []
  {
    HeldByAll(b.tracks, held);
    assert Before(b.tracks)[0].digest == Some(held.digest);
    assert TrackChanges(Before(b.tracks), w.value, map[]) != [];
  }

  /** With no folder cover, and none to be made, the second answer can differ from the first. */
  lemma BareSettles(a: AlbumState, b: AlbumState, w: Option<Image>, o: Options, winner: Incoming)
    requires NoRowChoices(o) && a.cover.None? && b.cover.None? && o.policy == Never
    requires BestForTracks(a.tracks, a.cover, w, o) == Some(winner)
    requires !TooLarge(winner.image)
    requires AllHold(b.tracks, winner.image) && |b.tracks| == |a.tracks|
    requires w.Some? && FirstArt(a.tracks).Some? && w.value.digest == FirstArt(a.tracks).value.digest
             ==> SameBytes(w.value, FirstArt(a.tracks).value)
    ensures SuggestBySize(b, w, o).changes == [] <==> !Embiggens(b.tracks, b.cover, w, o)
    ensures Embiggens(b.tracks, b.cover, w, o) <==> BareSurprise(a, w, o)
  {
    BareEmbiggens(a, b, w, o, winner);
    if Embiggens(b.tracks, b.cover, w, o) {
      BareEmbiggeningWrites(b, w, o, winner.image);
    } else {
      BareHeldIsQuiet(b, w, o, winner.image);
    }
  }

  /** The size rule alone, applied once. */
  lemma SizeRuleSettles(a: AlbumState, archive: Option<Image>, o: Options)
    requires Plain(a, archive, o) && !o.overwrite && !o.unreadable && !PerTrack(Before(a.tracks))
    requires o.chosen == Some(FromArchive) ==> archive.None?
    ensures Complete(MakePlan(a, archive, o))
    ensures var b := Apply(a, MakePlan(a, archive, o), Everything);
      && (MakePlan(b, archive, o).changes == [] <==> !EmbiggensOnceFilled(a, archive, o))
      && (EmbiggensOnceFilled(a, archive, o) ==> b.cover.None? && AllHold(b.tracks, FirstArt(a.tracks).value))
  {
    WithoutChoices(a, archive, o);
    PlainPlansAreComplete(a, archive, o);
    var w := Weighed(archive, o);
    var b := Apply(a, MakePlan(a, archive, o), Everything);
    var winner := BestForTracks(a.tracks, a.cover, w, o);
    FirstArtOffered(a.tracks);
    assert w.Some? ==> w.value in Offered(a, archive);
    assert a.cover.Some? ==> a.cover.value.image in Offered(a, archive);
    if winner.None? {
      TracksLeftAlone(a, MakePlan(a, archive, o));
      QuietPlan(b, archive, o);
    } else {
      var forCover := BestCover(a.cover, FirstArt(a.tracks), w);
      BestCoverUnbeaten(a.cover, FirstArt(a.tracks), w);
      OfferedOnly(a, archive, o);
      WholePlanWrites(a, winner.value, forCover.value, o.policy, Offered(a, archive));
      HeldByAll(b.tracks, winner.value.image);
      WithoutChoices(b, archive, o);
      if b.cover.Some? {
        BySizeSettles(a, b, w, o, winner.value, forCover.value);
        QuietPlan(b, archive, o);
      } else {
        BareSettles(a, b, w, o, winner.value);
        BareQuiet(a, b, archive, o);
      }
    }
  }

  lemma OfferedOnly(a: AlbumState, archive: Option<Image>, o: Options)
    ensures var w := Weighed(archive, o);
      && (FirstArt(a.tracks).Some? ==> FirstArt(a.tracks).value in Offered(a, archive))
      && (BestForTracks(a.tracks, a.cover, w, o).Some? ==> BestForTracks(a.tracks, a.cover, w, o).value.image in Offered(a, archive))
      && (BestCover(a.cover, FirstArt(a.tracks), w).Some? ==> BestCover(a.cover, FirstArt(a.tracks), w).value.image in Offered(a, archive))
  {
    FirstArtOffered(a.tracks);
  }

  lemma BareQuiet(a: AlbumState, b: AlbumState, archive: Option<Image>, o: Options)
    requires NoRowChoices(o) && a.cover.None? && b.cover.None? && o.policy == Never && !o.overwrite && !o.unreadable
    requires !PerTrack(Before(a.tracks)) && !PerTrack(Before(b.tracks))
    requires o.chosen == Some(FromArchive) ==> archive.None?
    requires var w := Weighed(archive, o);
      && (SuggestBySize(b, w, o).changes == [] <==> !Embiggens(b.tracks, b.cover, w, o))
      && (Embiggens(b.tracks, b.cover, w, o) <==> BareSurprise(a, w, o))
    ensures MakePlan(b, archive, o).changes == [] <==> !EmbiggensOnceFilled(a, archive, o)
  {
    WithoutChoices(b, archive, o);
  }

  // ----- the theorems -----

  /**
   Writing a plan and planning again proposes nothing, except in one case that can be told beforehand: a
   lossy album with no folder cover and none to be made, where filling the gaps with the tracks' own image
   brings the archive's larger image within the growth allowance.
   */
  lemma PlanSettlesExactly(a: AlbumState, archive: Option<Image>, o: Options)
    requires Plain(a, archive, o)
    ensures Complete(MakePlan(a, archive, o))
    ensures MakePlan(Apply(a, MakePlan(a, archive, o), Everything), archive, o).changes == []
            <==> !EmbiggensOnceFilled(a, archive, o)
  {
    if o.overwrite {
      OverwriteSettles(a, archive, o);
    } else if o.unreadable {
      NothingWritten(a, archive, o);
    } else if PerTrack(Before(a.tracks)) {
      PerTrackSettles(a, archive, o);
    } else if o.chosen == Some(FromArchive) && archive.Some? {
      PickedSettles(a, archive, o);
    } else {
      SizeRuleSettles(a, archive, o);
    }
  }

  /** Tracks that all carry art, and not different art, all hold the first one's. */
  lemma SameImageEverywhere(a: AlbumState, archive: Option<Image>)
    requires Coherent(Offered(a, archive)) && !PerTrack(Before(a.tracks)) && FirstArt(a.tracks).Some?
    requires forall t :: t in a.tracks ==> t.art.Some?
    ensures AllHold(a.tracks, FirstArt(a.tracks).value)
  {
    var own := FirstArt(a.tracks).value;
    var before := Before(a.tracks);
    var held := set c | c in before && c.digest.Some? :: c.digest.value;
    FirstArtOffered(a.tracks);
    forall i | 0 <= i < |a.tracks| ensures SameBytes(a.tracks[i].art.value, own) {
      assert a.tracks[i] in a.tracks && before[i] in before;
      assert before[0] in before && own.digest in held && a.tracks[i].art.value.digest in held;
      if a.tracks[i].art.value.digest != own.digest {
        SubsetSize({own.digest, a.tracks[i].art.value.digest}, held);
      }
      assert own in Offered(a, archive) && a.tracks[i].art.value in Offered(a, archive);
    }
  }

  /** An album that holds its image everywhere grows by as much as it would once filled. */
  lemma NoGapsNoGrowth(a: AlbumState, archive: Option<Image>, w: Image)
    requires Coherent(Offered(a, archive)) && !PerTrack(Before(a.tracks)) && FirstArt(a.tracks).Some?
    requires forall t :: t in a.tracks ==> t.art.Some?
    ensures Growth(a.tracks, w) == |a.tracks| * (w.length - FirstArt(a.tracks).value.length)
  {
    SameImageEverywhere(a, archive);
    GrowthOnceHeld(a.tracks, FirstArt(a.tracks).value, w);
  }

  /** The exception needs a gap, a lossy album, no folder cover, and a policy that makes none. */
  lemma NoGapsNoSurprise(a: AlbumState, archive: Option<Image>, o: Options)
    requires Plain(a, archive, o) && !PerTrack(Before(a.tracks))
    requires o.lossless || a.cover.Some? || o.policy == IfMissing || forall t :: t in a.tracks ==> t.art.Some?
    ensures !EmbiggensOnceFilled(a, archive, o)
  {
    if !o.lossless && a.cover.None? && o.policy == Never && FirstArt(a.tracks).Some? && Weighed(archive, o).Some? {
      NoGapsNoGrowth(a, archive, Weighed(archive, o).value);
    }
  }

  lemma PlanSettles(a: AlbumState, archive: Option<Image>, o: Options)
    requires Plain(a, archive, o)
    requires o.lossless || a.cover.Some? || o.policy == IfMissing || forall t :: t in a.tracks ==> t.art.Some?
    ensures Complete(MakePlan(a, archive, o))
    ensures MakePlan(Apply(a, MakePlan(a, archive, o), Everything), archive, o).changes == []
  {
    PlanSettlesExactly(a, archive, o);
    assert !EmbiggensOnceFilled(a, archive, o) by {
      if !PerTrack(Before(a.tracks)) {
        NoGapsNoSurprise(a, archive, o);
      }
    }
  }

  /** Even then a second application settles it, the audio's size being what it was. */
  lemma TwoPlansSettle(a: AlbumState, archive: Option<Image>, o: Options)
    requires Plain(a, archive, o)
    ensures Complete(MakePlan(a, archive, o))
    ensures var b := Apply(a, MakePlan(a, archive, o), Everything);
      && Complete(MakePlan(b, archive, o))
      && MakePlan(Apply(b, MakePlan(b, archive, o), Everything), archive, o).changes == []
  {
    PlanSettlesExactly(a, archive, o);
    var b := Apply(a, MakePlan(a, archive, o), Everything);
    PlainPlansAreComplete(b, archive, o);
    if MakePlan(b, archive, o).changes == [] {
      ApplyNothing(b, MakePlan(b, archive, o));
    } else {
      SecondPlanSettles(a, b, archive, o);
    }
  }

  lemma ApplyNothing(a: AlbumState, p: Plan)
    requires Complete(p) && p.changes == []
    ensures Apply(a, p, Everything) == a
  {
  }

  lemma SecondPlanSettles(a: AlbumState, b: AlbumState, archive: Option<Image>, o: Options)
    requires Plain(a, archive, o) && EmbiggensOnceFilled(a, archive, o)
    requires Complete(MakePlan(a, archive, o)) && b == Apply(a, MakePlan(a, archive, o), Everything)
    ensures Complete(MakePlan(b, archive, o))
    ensures MakePlan(Apply(b, MakePlan(b, archive, o), Everything), archive, o).changes == []
  {
    SizeRuleSettles(a, archive, o);
    var own := FirstArt(a.tracks).value;
    OfferedOnly(a, archive, o);
    assert WellFormed(b);
    StillPlain(a, b, archive, o, own);
    forall t | t in b.tracks ensures t.art.Some? {
    }
    PlanSettles(b, archive, o);
  }

  lemma StillPlain(a: AlbumState, b: AlbumState, archive: Option<Image>, o: Options, own: Image)
    requires Plain(a, archive, o) && own in Offered(a, archive)
    requires WellFormed(b) && b.cover.None? && AllHold(b.tracks, own)
    ensures Plain(b, archive, o)
  {
    forall x | x in Offered(b, archive) ensures SameBytes(x, own) || archive == Some(x) {
    }
    SameBytesCohere(Offered(b, archive), Offered(a, archive), own, archive);
  }

  lemma SameBytesCohere(xs: set<Image>, ys: set<Image>, own: Image, archive: Option<Image>)
    requires Coherent(ys) && NoneTooLarge(ys) && own in ys && (archive.Some? ==> archive.value in ys)
    requires forall x :: x in xs ==> SameBytes(x, own) || archive == Some(x)
    ensures Coherent(xs) && NoneTooLarge(xs)
  {
    forall x, y | x in xs && y in xs && x.digest == y.digest ensures SameBytes(x, y) {
      assert archive.Some? && archive.value.digest == own.digest ==> SameBytes(archive.value, own);
    }
  }

  // The exception is real: two tracks, one of them with no image, on lossy audio with no folder cover.

  const OWN := Image("a", IsJpeg, 10, Some(Size(100, 100)))
  const FRONT := Image("b", IsJpeg, 60, Some(Size(200, 200)))
  const ARTED := Track(Path("d", Name("1", ".mp3")), Some(OWN))
  const BARE := Track(Path("d", Name("2", ".mp3")), None)
  const GAPPED := AlbumState("d", [ARTED, BARE], None)
  const LOSSY := Options(false, false, None, map[], map[], {}, false, Never, false, Some(1000), map[])

  lemma GappedIsPlain()
    ensures Plain(GAPPED, Some(FRONT), LOSSY)
  {
    assert Offered(GAPPED, Some(FRONT)) == {OWN, FRONT};
  }

  lemma GappedGrowth()
    ensures Growth(GAPPED.tracks, FRONT) == 110 && FirstArt(GAPPED.tracks) == Some(OWN)
  {
    assert GAPPED.tracks[1..] == [BARE];
    assert Growth([BARE], FRONT) == 60;
  }

  lemma GappedIsNotPerTrack()
    ensures !PerTrack(Before(GAPPED.tracks))
  {
    var before := Before(GAPPED.tracks);
    assert before[0].digest == Some("a") && before[1].digest == None;
    var held := set c | c in before && c.digest.Some? :: c.digest.value;
    assert held <= {"a"};
    if |held| > 1 {
      SubsetSize(held, {"a"});
    }
  }

  lemma GapsUnsettleAPlan()
    ensures Plain(GAPPED, Some(FRONT), LOSSY) && Complete(MakePlan(GAPPED, Some(FRONT), LOSSY))
    ensures MakePlan(Apply(GAPPED, MakePlan(GAPPED, Some(FRONT), LOSSY), Everything), Some(FRONT), LOSSY).changes != []
  {
    GappedIsPlain();
    GappedGrowth();
    GappedIsNotPerTrack();
    PlanSettlesExactly(GAPPED, Some(FRONT), LOSSY);
    assert EmbiggensOnceFilled(GAPPED, Some(FRONT), LOSSY);
  }
}

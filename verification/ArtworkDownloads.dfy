/** The width filter on archive downloads never skips an image the plan would use. */
module ArtworkDownloads {
  import opened Common
  import opened Artwork
  import opened ArtworkSettles
  import opened ArtworkOutcome
  import I = Images

  /** What a scan keeps of an album's artwork. */
  datatype LocalArtwork = LocalArtwork(tracks: seq<Track>, cover: Option<FolderCover>, unreadable: bool,
                                       lossless: bool, audioBytes: Option<nat>)
  {
    predicate Missing() {
      !unreadable && cover.None? && forall t :: t in tracks ==> t.art.None?
    }

    function CarriedDigests(): set<Digest> {
      (set t | t in tracks && t.art.Some? :: t.art.value.digest)
      + (if cover.Some? then {cover.value.image.digest} else {})
    }
  }

  /** The width a candidate must exceed to be fetched: negative for any image, none for no image. */
  function DownloadThreshold(local: Option<LocalArtwork>, borrowed: set<Digest>, policy: Policy): Option<int> {
    if local.None? then Some(-1)
    else
      var l := local.value;
      if l.unreadable then None
      else if l.CarriedDigests() * borrowed != {} then Some(-1)
      else
        var perTrack := PerTrack(Before(l.tracks));
        if l.cover.None? then
          if l.Missing() || policy == IfMissing then Some(-1)
          else
            var own := FirstArt(l.tracks);
            if (l.lossless || (l.audioBytes.Some? && l.audioBytes.value != 0)) && !perTrack && own.Some? && own.value.size.Some?
            then Some(own.value.size.value.width as int) else None
        else if perTrack then None
        else
          var size := l.cover.value.image.size;
          if size.Some? then Some(size.value.width as int) else None
  }

  /** Whether the archive check fetches a front that measures `size`. */
  predicate Fetched(threshold: Option<int>, size: Option<Size>) {
    threshold.Some? && (threshold.value < 0 || (size.Some? && size.value.width > threshold.value))
  }

  /** The image a front must be wider than: the folder cover's, or the tracks' own where a front may displace it. */
  ghost predicate ToExceed(l: LocalArtwork, held: Image) {
    if l.cover.Some? then held == l.cover.value.image
    else FirstOn(l.tracks, held) && (l.lossless || (l.audioBytes.Some? && l.audioBytes.value != 0))
  }

  ghost predicate HoldsBorrowed(l: LocalArtwork, borrowed: set<Digest>) {
    || (exists t :: t in l.tracks && t.art.Some? && t.art.value.digest in borrowed)
    || (l.cover.Some? && l.cover.value.image.digest in borrowed)
  }

  /**
   A front is fetched exactly where something still holds a borrowed image, where the album lacks a folder cover it could
   have or any image, or where it is wider than the one image it could replace.
   */
  lemma FetchedExactly(l: LocalArtwork, borrowed: set<Digest>, policy: Policy, size: Option<Size>)
    ensures Fetched(DownloadThreshold(Some(l), borrowed, policy), size) <==>
      && !l.unreadable
      && (|| HoldsBorrowed(l, borrowed)
          || (l.cover.None? && (policy == IfMissing || NoneOn(l.tracks)))
          || (!SeveralImages(l.tracks) && size.Some?
              && exists held :: ToExceed(l, held) && held.size.Some? && size.value.width > held.size.value.width))
    ensures Fetched(DownloadThreshold(None, borrowed, policy), size)
  {
    SeveralIsPerTrack(l.tracks);
    BorrowedIsCarried(l, borrowed);
    if FirstArt(l.tracks).Some? {
      var own := FirstArt(l.tracks).value;
      forall x ensures FirstOn(l.tracks, x) <==> x == own {
        FirstArtIs(l.tracks, x);
      }
      assert l.cover.None? && (l.lossless || (l.audioBytes.Some? && l.audioBytes.value != 0)) ==> ToExceed(l, own);
      MissingIsNone(l);
    } else {
      MissingIsNone(l);
    }
    assert l.cover.Some? ==> ToExceed(l, l.cover.value.image);
  }

  lemma MissingIsNone(l: LocalArtwork)
    ensures FirstArt(l.tracks).None? <==> NoneOn(l.tracks)
    ensures l.Missing() <==> !l.unreadable && l.cover.None? && NoneOn(l.tracks)
  {
    FirstArtOffered(l.tracks);
    forall t | t in l.tracks ensures NoneOn(l.tracks) ==> t.art.None? {
      var i :| 0 <= i < |l.tracks| && l.tracks[i] == t;
    }
    forall i | 0 <= i < |l.tracks| ensures l.tracks[i] in l.tracks {
    }
  }

  lemma BorrowedIsCarried(l: LocalArtwork, borrowed: set<Digest>)
    ensures l.CarriedDigests() * borrowed != {} <==> HoldsBorrowed(l, borrowed)
  {
    var both := l.CarriedDigests() * borrowed;
    if both != {} {
      var d :| d in both;
      assert d in l.CarriedDigests() && d in borrowed;
    }
    forall t | t in l.tracks && t.art.Some? && t.art.value.digest in borrowed ensures t.art.value.digest in both {
    }
    assert l.cover.Some? && l.cover.value.image.digest in borrowed ==> l.cover.value.image.digest in both;
  }

  /** The options of the default review, which has neither row choices nor an override. */
  predicate Reviews(l: LocalArtwork, o: Options) {
    && o.choices == map[] && !o.overwrite && !o.unreadable && o.chosen.None?
    && o.lossless == l.lossless && o.audioBytes == l.audioBytes
  }

  function AlbumOf(dir: string, l: LocalArtwork): AlbumState {
    AlbumState(dir, l.tracks, l.cover)
  }

  /** Where nothing carried is borrowed, no carrier is given the archive's front. */
  lemma NothingGiven(a: AlbumState, l: LocalArtwork, archive: Option<Image>, o: Options, borrowed: set<Digest>)
    requires a.tracks == l.tracks && a.cover == l.cover && o.standIns <= borrowed && l.CarriedDigests() * borrowed == {}
    ensures Given(a, archive, o) == map[]
  {
    forall t | t in l.tracks && t.art.Some? ensures t.art.value.digest !in borrowed {
      assert t.art.value.digest !in l.CarriedDigests() * borrowed;
    }
    assert l.cover.Some? ==> l.cover.value.image.digest !in l.CarriedDigests() * borrowed;
  }

  lemma ReviewWithoutChoices(a: AlbumState, l: LocalArtwork, archive: Option<Image>, o: Options, borrowed: set<Digest>)
    requires Reviews(l, o) && a.tracks == l.tracks && a.cover == l.cover
    requires o.standIns <= borrowed && l.CarriedDigests() * borrowed == {}
    ensures MakePlan(a, archive, o) == Renamed(Suggest(a, Weighed(archive, o), o), a.cover)
  {
    NothingGiven(a, l, archive, o, borrowed);
    var s := Suggest(a, Weighed(archive, o), o);
    assert Honoured(map[], s.before, archive, o.picks) == map[];
  }

  /** The size rule gives an image the filter skips no part, wherever the folder cover is. */
  lemma SkippedBesideACover(a: AlbumState, image: Image, o: Options)
    requires a.cover.Some? && !Beats(image.size, a.cover.value.image.size)
    ensures SuggestBySize(a, Some(image), o) == SuggestBySize(a, None, o)
  {
    var better := Better(CoverOf(a.cover), FirstArt(a.tracks), FromAlbum);
    BeatsIsStrict(image.size, better.value.image.size, a.cover.value.image.size);
  }

  lemma SkippedWithoutACover(a: AlbumState, image: Image, o: Options)
    requires a.cover.None? && o.policy == Never && FirstArt(a.tracks).Some? && !Embiggens(a.tracks, a.cover, Some(image), o)
    ensures SuggestBySize(a, Some(image), o) == SuggestBySize(a, None, o)
  {
    assert CoverChanges(a.dir, None, image, Never, o.originals) == [];
  }

  lemma SkippedBySize(a: AlbumState, image: Image, l: LocalArtwork, o: Options)
    requires Reviews(l, o) && a.tracks == l.tracks && a.cover == l.cover && !l.unreadable && !PerTrack(Before(a.tracks))
    requires !Fetched(DownloadThreshold(Some(l), {}, o.policy), image.size)
    ensures SuggestBySize(a, Some(image), o) == SuggestBySize(a, None, o)
  {
    FirstArtOffered(a.tracks);
    if a.cover.Some? {
      SkippedBesideACover(a, image, o);
    } else {
      SkippedWithoutACover(a, image, o);
    }
  }

  lemma SkippedSuggestion(a: AlbumState, image: Image, l: LocalArtwork, o: Options)
    requires Reviews(l, o) && a.tracks == l.tracks && a.cover == l.cover && !l.unreadable
    requires !Fetched(DownloadThreshold(Some(l), {}, o.policy), image.size)
    ensures Suggest(a, Some(image), o) == Suggest(a, None, o)
  {
    if PerTrack(Before(a.tracks)) {
      assert a.cover.Some? || o.policy == Never;
    } else {
      SkippedBySize(a, image, l, o);
    }
  }

  /**
   Skipping a download never changes a review: when the filter would not fetch the archive's front, the plan
   with it is the plan without it. The plan may know of fewer stand-ins than the filter does.
   */
  lemma SkippedImageChangesNothing(dir: string, l: LocalArtwork, image: Image, o: Options, borrowed: set<Digest>)
    requires Reviews(l, o) && !l.unreadable && o.standIns <= borrowed
    requires !Fetched(DownloadThreshold(Some(l), borrowed, o.policy), image.size)
    ensures MakePlan(AlbumOf(dir, l), Some(image), o) == MakePlan(AlbumOf(dir, l), None, o)
  {
    var a := AlbumOf(dir, l);
    ReviewWithoutChoices(a, l, Some(image), o, borrowed);
    ReviewWithoutChoices(a, l, None, o, borrowed);
    if Weighed(Some(image), o).Some? {
      SkippedSuggestion(a, image, l, o);
    }
  }

  /** Whether a plan writes the archive's image anywhere. */
  predicate WritesArchive(p: Plan) {
    exists d :: d in p.images && p.images[d].source == FromArchive
  }

  lemma LocalPerTrack(a: AlbumState, o: Options)
    ensures !WritesArchive(SuggestPerTrack(a, None, None, o))
  {
  }

  lemma LocalBySize(a: AlbumState, o: Options)
    ensures !WritesArchive(SuggestBySize(a, None, o))
  {
  }

  lemma LocalSuggestion(a: AlbumState, o: Options)
    ensures !WritesArchive(Suggest(a, None, o))
  {
    LocalPerTrack(a, o);
    LocalBySize(a, o);
  }

  lemma NothingHonoured(a: AlbumState, o: Options, s: Plan)
    requires o.choices == map[] && s == Suggest(a, None, o)
    ensures Given(a, None, o) == map[] && Honoured(map[], s.before, None, o.picks) == map[]
  {
  }

  lemma NoArchiveNoArchiveImage(a: AlbumState, o: Options)
    requires o.choices == map[]
    ensures !WritesArchive(MakePlan(a, None, o))
  {
    LocalSuggestion(a, o);
    NothingHonoured(a, o, Suggest(a, None, o));
  }

  /** A plan that writes the archive's image is one whose image the filter fetches. */
  lemma UsedImageIsFetched(dir: string, l: LocalArtwork, image: Image, o: Options, borrowed: set<Digest>)
    requires Reviews(l, o) && !l.unreadable && o.standIns <= borrowed
    requires WritesArchive(MakePlan(AlbumOf(dir, l), Some(image), o))
    ensures var t := DownloadThreshold(Some(l), borrowed, o.policy);
      t.Some? && (t.value < 0 || (image.size.Some? && t.value < image.size.value.width))
  {
    if !Fetched(DownloadThreshold(Some(l), borrowed, o.policy), image.size) {
      SkippedImageChangesNothing(dir, l, image, o, borrowed);
      NoArchiveNoArchiveImage(AlbumOf(dir, l), o);
    }
  }

  // ----- measuring by a part of the image -----

  function Measured(data: seq<I.byte>): Option<Size> {
    match I.Dimensions(data)
    case None => None
    case Some(size) => Some(Size(size.width, size.height))
  }

  /**
   The check measures only the start of the archive's front. A front the plan would write is left unfetched by that
   exactly when the threshold is a width, and the start of the image does not reach its size.
   */
  lemma RangedCheckMissesExactly(dir: string, l: LocalArtwork, image: Image, o: Options, borrowed: set<Digest>, data: seq<I.byte>)
    requires Reviews(l, o) && !l.unreadable && o.standIns <= borrowed && image.size == Measured(data)
    requires WritesArchive(MakePlan(AlbumOf(dir, l), Some(image), o))
    ensures var t := DownloadThreshold(Some(l), borrowed, o.policy);
      t.Some? && (!Fetched(t, Measured(I.Head(data))) <==> t.value >= 0 && I.Dimensions(I.Head(data)).None?)
  {
    UsedImageIsFetched(dir, l, image, o, borrowed);
    I.RangedMeasurementIsRight(data);
  }

  function Lossless(): Options {
    Options(false, false, None, map[], map[], {}, false, Never, true, None, map[])
  }

  /** A lossless album of one track takes a front that is larger than the track's own image. */
  lemma LargerFrontIsWritten(dir: string, path: Path, own: Image, front: Image)
    requires own.size.Some? && Beats(front.size, own.size) && front.digest != own.digest && !TooLarge(front)
    ensures var l := LocalArtwork([Track(path, Some(own))], None, false, true, None);
      && Reviews(l, Lossless()) && WritesArchive(MakePlan(AlbumOf(dir, l), Some(front), Lossless()))
      && DownloadThreshold(Some(l), {}, Never) == Some(own.size.value.width as int)
  {
    var l, o := LocalArtwork([Track(path, Some(own))], None, false, true, None), Lossless();
    var a := AlbumOf(dir, l);
    ReviewWithoutChoices(a, l, Some(front), o, {});
    OneTrackCarriesOne(path, own);
    assert Suggest(a, Some(front), o) == SuggestBySize(a, Some(front), o);
    assert BestForTracks(a.tracks, a.cover, Some(front), o) == Some(Incoming(front, FromArchive));
    assert TrackChanges(Before(a.tracks), front, map[]) != [];
    var p := SuggestBySize(a, Some(front), o);
    assert front.digest in p.images && p.images[front.digest].source == FromArchive;
  }

  lemma OneTrackCarriesOne(path: Path, own: Image)
    ensures !PerTrack(Before([Track(path, Some(own))]))
  {
    var before := Before([Track(path, Some(own))]);
    assert before == [Carried(path, Some(own.digest))];
    assert (set c | c in before && c.digest.Some? :: c.digest.value) == {own.digest};
  }

  lemma LateHeader() returns (data: seq<I.byte>)
    ensures Measured(data) == Some(Size(200, 200)) && Measured(I.Head(data)) == None
  {
    var piece := I.Segment(0xE1, seq(65533, _ => 0));
    var frame := I.Frame(0xC0, [0, 17], 8, [0, 200], [0, 200], 3);
    data := I.SOI + (piece.Bytes() + frame.Bytes());
    I.ALongSegmentHidesTheSize(piece, frame);
  }

  /**
   A front the plan would write and the check leaves unfetched: 200 by 200 for a lossless album whose one track holds 100
   by 100, after a metadata segment of the greatest length.
   */
  lemma ALateHeaderIsMissed(dir: string, path: Path) returns (l: LocalArtwork, front: Image, o: Options, data: seq<I.byte>)
    ensures Reviews(l, o) && !l.unreadable && o.standIns == {} && front.size == Measured(data)
    ensures WritesArchive(MakePlan(AlbumOf(dir, l), Some(front), o))
    ensures !Fetched(DownloadThreshold(Some(l), {}, o.policy), Measured(I.Head(data)))
  {
    data := LateHeader();
    var own := Image("own", IsJpeg, 1000, Some(Size(100, 100)));
    front, o := Image("front", IsJpeg, 70000, Some(Size(200, 200))), Lossless();
    l := LocalArtwork([Track(path, Some(own))], None, false, true, None);
    LargerFrontIsWritten(dir, path, own, front);
  }
}

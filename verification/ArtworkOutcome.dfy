/**
 What a plan writes, said of the album's own images: which image each track and the folder cover are to hold, for the
 choices of the user, the archive's front, the stand-ins, an override, per-track artwork and the size rule.
 */
module ArtworkOutcome {
  import opened Common
  import opened Artwork
  import opened ArtworkSettles
  import opened ArtworkChoices

  // ----- the album's images -----

  ghost predicate SeveralImages(tracks: seq<Track>) {
    exists s, t :: s in tracks && t in tracks && s.art.Some? && t.art.Some? && s.art.value.digest != t.art.value.digest
  }

  lemma SeveralIsPerTrack(tracks: seq<Track>)
    ensures PerTrack(Before(tracks)) <==> SeveralImages(tracks)
  {
    var before := Before(tracks);
    var held := set c | c in before && c.digest.Some? :: c.digest.value;
    forall t | t in tracks && t.art.Some? ensures t.art.value.digest in held {
      var i :| 0 <= i < |tracks| && tracks[i] == t;
      assert before[i] in before;
    }
    if SeveralImages(tracks) {
      var s, t :| s in tracks && t in tracks && s.art.Some? && t.art.Some? && s.art.value.digest != t.art.value.digest;
      SubsetSize({s.art.value.digest, t.art.value.digest}, held);
    } else if held != {} {
      var d :| d in held;
      forall e | e in held ensures e == d {
        var x, y :| x in before && x.digest == Some(d) && y in before && y.digest == Some(e);
        var i, j :| 0 <= i < |before| && before[i] == x && 0 <= j < |before| && before[j] == y;
        assert tracks[i] in tracks && tracks[j] in tracks;
      }
      assert held == {d};
    }
  }

  ghost predicate NoneOn(tracks: seq<Track>) {
    forall i :: 0 <= i < |tracks| ==> tracks[i].art.None?
  }

  /** The image of the first track that has one. */
  ghost predicate FirstOn(tracks: seq<Track>, image: Image) {
    exists i :: 0 <= i < |tracks| && tracks[i].art == Some(image) && forall j :: 0 <= j < i ==> tracks[j].art.None?
  }

  lemma {:induction false} FirstArtIs(tracks: seq<Track>, image: Image)
    ensures FirstArt(tracks).None? <==> NoneOn(tracks)
    ensures FirstArt(tracks) == Some(image) <==> FirstOn(tracks, image)
  {
    if tracks != [] {
      FirstArtIs(tracks[1..], image);
      assert forall i :: 0 < i < |tracks| ==> tracks[i] == tracks[1..][i - 1];
      if FirstOn(tracks[1..], image) && tracks[0].art.None? {
        var i :| 0 <= i < |tracks| - 1 && tracks[1..][i].art == Some(image) && forall j :: 0 <= j < i ==> tracks[1..][j].art.None?;
        assert tracks[i + 1].art == Some(image) && forall j :: 0 <= j < i + 1 ==> tracks[j].art.None?;
      }
      if FirstOn(tracks, image) && tracks[0].art.None? {
        var i :| 0 <= i < |tracks| && tracks[i].art == Some(image) && forall j :: 0 <= j < i ==> tracks[j].art.None?;
        assert tracks[1..][i - 1].art == Some(image) && forall j :: 0 <= j < i - 1 ==> tracks[1..][j] == tracks[j + 1];
      }
    }
  }

  /** The bytes of the images the tracks hold. */
  ghost function BytesOn(tracks: seq<Track>): nat {
    if tracks == [] then 0 else (if tracks[0].art.Some? then tracks[0].art.value.length else 0) + BytesOn(tracks[1..])
  }

  lemma {:induction false} GrowthIs(tracks: seq<Track>, image: Image)
    ensures Growth(tracks, image) == |tracks| * image.length - BytesOn(tracks)
  {
    if tracks != [] {
      GrowthIs(tracks[1..], image);
    }
  }

  ghost predicate Larger(x: Image, y: Image) {
    && x.size.Some? && y.size.Some?
    && x.size.value.width > y.size.value.width && x.size.value.height > y.size.value.height
  }

  /** A suffix is compared with its capitals made small, and nothing else of it changed. */
  lemma LowerIs(s: string, i: nat, k: nat)
    requires i < |s| && k < 26
    ensures var capitals, small := "ABCDEFGHIJKLMNOPQRSTUVWXYZ", "abcdefghijklmnopqrstuvwxyz";
      && |Lower(s)| == |s|
      && (s[i] == capitals[k] ==> Lower(s)[i] == small[k])
      && (s[i] !in capitals ==> Lower(s)[i] == s[i])
  {
    var capitals := "ABCDEFGHIJKLMNOPQRSTUVWXYZ";
    if 'A' <= s[i] <= 'Z' {
      assert capitals[s[i] as int - 'A' as int] == s[i];
    }
  }

  // ----- the size rule -----

  /** The front may displace the tracks' image: no folder cover, and lossless audio or at most a tenth of it added. */
  ghost predicate WorthEmbedding(a: AlbumState, front: Image, own: Image, o: Options) {
    && a.cover.None? && Larger(front, own)
    && (o.lossless || (o.audioBytes.Some? && o.audioBytes.value != 0
                       && 10 * (|a.tracks| * front.length - BytesOn(a.tracks)) <= o.audioBytes.value))
  }

  /** For the tracks: their own image, unless the front may displace it; else the folder cover's, else the front. */
  ghost predicate ForTracks(a: AlbumState, front: Option<Image>, o: Options, image: Image) {
    if NoneOn(a.tracks) then (if a.cover.Some? then image == a.cover.value.image else front == Some(image))
    else exists own :: FirstOn(a.tracks, own) &&
                       image == if front.Some? && WorthEmbedding(a, front.value, own, o) then front.value else own
  }

  /** The best the album has for its folder cover: the tracks' image where that is larger, or where there is no cover. */
  ghost predicate LocalForCover(a: AlbumState, image: Image) {
    if NoneOn(a.tracks) then a.cover.Some? && image == a.cover.value.image
    else exists own :: FirstOn(a.tracks, own) &&
                       image == if a.cover.None? || Larger(own, a.cover.value.image) then own else a.cover.value.image
  }

  /** For the folder cover: the front where it is larger than that, or where the album has nothing. */
  ghost predicate ForCover(a: AlbumState, front: Option<Image>, image: Image) {
    if front.Some? && (forall x :: LocalForCover(a, x) ==> Larger(front.value, x)) then image == front.value
    else LocalForCover(a, image)
  }

  lemma ForTracksIs(a: AlbumState, front: Option<Image>, o: Options, image: Image)
    ensures var best := BestForTracks(a.tracks, a.cover, front, o);
      ForTracks(a, front, o, image) <==> best.Some? && best.value.image == image
  {
    FirstArtIs(a.tracks, image);
    if FirstArt(a.tracks).Some? {
      var own := FirstArt(a.tracks).value;
      FirstArtIs(a.tracks, own);
      forall x | FirstOn(a.tracks, x) ensures x == own {
        FirstArtIs(a.tracks, x);
      }
      if front.Some? {
        GrowthIs(a.tracks, front.value);
      }
    }
  }

  lemma LocalForCoverIs(a: AlbumState, image: Image)
    ensures var best := Better(CoverOf(a.cover), FirstArt(a.tracks), FromAlbum);
      LocalForCover(a, image) <==> best.Some? && best.value.image == image
  {
    FirstArtIs(a.tracks, image);
    if FirstArt(a.tracks).Some? {
      var own := FirstArt(a.tracks).value;
      FirstArtIs(a.tracks, own);
      forall x | FirstOn(a.tracks, x) ensures x == own {
        FirstArtIs(a.tracks, x);
      }
    }
  }

  lemma ForCoverIs(a: AlbumState, front: Option<Image>, image: Image)
    ensures var best := BestCover(a.cover, FirstArt(a.tracks), front);
      ForCover(a, front, image) <==> best.Some? && best.value.image == image
  {
    forall x ensures LocalForCover(a, x) <==>
      var best := Better(CoverOf(a.cover), FirstArt(a.tracks), FromAlbum); best.Some? && best.value.image == x
    {
      LocalForCoverIs(a, x);
    }
    var local := Better(CoverOf(a.cover), FirstArt(a.tracks), FromAlbum);
    if local.Some? {
      assert LocalForCover(a, local.value.image);
    }
  }

  // ----- what the suggestion wants -----

  /** The archive's front, where it may be suggested. */
  ghost function Front(archive: Option<Image>, o: Options): Option<Image> {
    if o.excluded then None else archive
  }

  ghost predicate Picked(archive: Option<Image>, o: Options) {
    o.chosen == Some(FromArchive) && archive.Some?
  }

  ghost predicate SuggestedOnTracks(a: AlbumState, archive: Option<Image>, o: Options, image: Image) {
    if o.overwrite then a.cover.Some? && image == a.cover.value.image
    else
      && !SeveralImages(a.tracks)
      && if Picked(archive, o) then image == archive.value else ForTracks(a, Front(archive, o), o, image)
  }

  ghost predicate SuggestedOnCover(a: AlbumState, archive: Option<Image>, o: Options, image: Image) {
    if o.overwrite then a.cover.Some? && image == a.cover.value.image
    else
      && (a.cover.Some? || o.policy == IfMissing)
      && if Picked(archive, o) then image == archive.value
         else if !SeveralImages(a.tracks) then ForCover(a, Front(archive, o), image)
         else if a.cover.None? then Front(archive, o) == Some(image)
         else image == a.cover.value.image && image.length > 20_000_000
  }

  /** Writing the image would change nothing: it is held, and not too large for players, or a shrunk copy of it is. */
  ghost predicate Needless(held: Option<Digest>, image: Image, originals: map<Digest, Digest>) {
    held.Some? && if held.value == image.digest then image.length <= 20_000_000
                  else held.value in originals && originals[held.value] == image.digest
  }

  /** The write that gives a track the image wanted of it, if any. */
  ghost predicate TrackGets(write: Option<Change>, path: Path, held: Option<Digest>, image: Option<Image>, originals: map<Digest, Digest>) {
    write == if image.Some? && !Needless(held, image.value, originals)
             then Some(Change(path, held, image.value.digest, false, None, false)) else None
  }

  ghost predicate IsPngImage(image: Image) {
    image.kind == IsPng || image.kind == Claims(true)
  }

  /** The suffix a folder cover's name should have: one too large for players is shrunk to a JPEG. */
  ghost function SuffixFor(image: Image): string {
    if IsPngImage(image) && image.length <= 20_000_000 then ".png" else ".jpg"
  }

  /** A new cover is made in the album's folder; an old one stays where it is, or is renamed there where the name is free. */
  ghost predicate LandsAt(write: Change, a: AlbumState, suffix: string) {
    if a.cover.None? then write.target == Path(a.dir, Name("cover", suffix)) && write.renameTo.None?
    else
      && write.target == (if a.cover.value.path.Some? then a.cover.value.path.value else Path(a.dir, a.cover.value.name))
      && write.renameTo == if Lower(write.target.name.suffix) == suffix || Name("cover", suffix) in a.cover.value.beside then None
                           else Some(Path(write.target.dir, Name("cover", suffix)))
  }

  ghost predicate Replaces(write: Change, a: AlbumState, image: Image) {
    && write.after == image.digest && write.before == CoverDigest(a) && !write.renameOnly
    && LandsAt(write, a, SuffixFor(image))
  }

  /** The write that gives the folder cover the image wanted of it, if any; a rename on its own aside. */
  ghost predicate CoverGets(write: Option<Change>, a: AlbumState, image: Option<Image>, originals: map<Digest, Digest>) {
    && (write.Some? <==> image.Some? && !Needless(CoverDigest(a), image.value, originals))
    && (write.Some? ==> Replaces(write.value, a, image.value))
  }

  ghost predicate Gets(a: AlbumState, s: Plan, i: nat, forTracks: Option<Image>, forCover: Option<Image>, originals: map<Digest, Digest>)
  {
    && (i < |a.tracks| ==>
          TrackGets(ChangeAt(s.changes, a.tracks[i].path), a.tracks[i].path, DigestOf(a.tracks[i].art), forTracks, originals))
    && CoverGets(CoverChange(s.changes), a, forCover, originals)
  }

  lemma PlanForGets(a: AlbumState, winner: Incoming, forCover: Incoming, preserves: bool, policy: Policy, originals: map<Digest, Digest>, i: nat)
    requires WellFormed(a)
    ensures Gets(a, PlanFor(a.dir, Before(a.tracks), a.cover, winner, forCover, Before(a.tracks), preserves, policy, originals), i,
                 Some(winner.image), if a.cover.None? && policy == Never then None else Some(forCover.image), originals)
  {
    var tracks := TrackChanges(Before(a.tracks), winner.image, originals);
    var cover := CoverChanges(a.dir, a.cover, forCover.image, policy, originals);
    if i < |a.tracks| {
      TrackChangeAt(Before(a.tracks), i, winner.image, originals);
      CoverChangesHideNothing(tracks, cover, a.tracks[i].path);
    }
    CoverChangeBehind(tracks, cover);
  }

  lemma CoverOnlyGets(a: AlbumState, winner: Incoming, policy: Policy, originals: map<Digest, Digest>, i: nat)
    requires WellFormed(a)
    ensures Gets(a, PlanFor(a.dir, [], a.cover, winner, winner, Before(a.tracks), true, policy, originals), i,
                 None, if a.cover.None? && policy == Never then None else Some(winner.image), originals)
  {
    var cover := CoverChanges(a.dir, a.cover, winner.image, policy, originals);
    if i < |a.tracks| {
      CoverChangesHideNothing([], cover, a.tracks[i].path);
    }
    assert [] + cover == cover;
  }

  /** The suggestion is for exactly these images. */
  ghost predicate SuggestedAre(a: AlbumState, archive: Option<Image>, o: Options, forTracks: Option<Image>, forCover: Option<Image>) {
    && (forall x :: SuggestedOnTracks(a, archive, o, x) <==> forTracks == Some(x))
    && (forall x :: SuggestedOnCover(a, archive, o, x) <==> forCover == Some(x))
  }

  ghost predicate SuggestedGets(a: AlbumState, archive: Option<Image>, o: Options, i: nat, forTracks: Option<Image>, forCover: Option<Image>)
  {
    && Gets(a, Suggest(a, Weighed(archive, o), o), i, forTracks, forCover, o.originals)
    && SuggestedAre(a, archive, o, forTracks, forCover)
  }

  lemma OverrideGets(a: AlbumState, archive: Option<Image>, o: Options, i: nat)
    requires WellFormed(a) && !o.unreadable && o.overwrite
    ensures exists forTracks, forCover :: SuggestedGets(a, archive, o, i, forTracks, forCover)
  {
    if a.cover.Some? {
      var winner := Incoming(a.cover.value.image, FromFolder);
      PlanForGets(a, winner, winner, false, IfMissing, o.originals, i);
      assert SuggestedGets(a, archive, o, i, Some(winner.image), Some(winner.image));
    } else {
      assert SuggestedGets(a, archive, o, i, None, None);
    }
  }

  lemma PerTrackGets(a: AlbumState, archive: Option<Image>, o: Options, i: nat)
    requires WellFormed(a) && !o.unreadable && !o.overwrite && SeveralImages(a.tracks)
    ensures exists forTracks, forCover :: SuggestedGets(a, archive, o, i, forTracks, forCover)
  {
    SeveralIsPerTrack(a.tracks);
    var picked := if o.chosen == Some(FromArchive) then archive else None;
    var front := Weighed(archive, o);
    var wanted := if picked.Some? then picked else if a.cover.None? then front else None;
    var candidate := if a.cover.None? && o.policy == Never then None else wanted;
    if candidate.Some? {
      CoverOnlyGets(a, Incoming(candidate.value, FromArchive), o.policy, o.originals, i);
      assert SuggestedGets(a, archive, o, i, None, candidate);
    } else if a.cover.Some? && TooLarge(a.cover.value.image) {
      CoverOnlyGets(a, Incoming(a.cover.value.image, FromFolder), o.policy, o.originals, i);
      assert SuggestedGets(a, archive, o, i, None, Some(a.cover.value.image));
    } else {
      assert SuggestedGets(a, archive, o, i, None, None);
    }
  }

  lemma PickedGets(a: AlbumState, archive: Option<Image>, o: Options, i: nat)
    requires WellFormed(a) && !o.unreadable && !o.overwrite && !SeveralImages(a.tracks) && Picked(archive, o)
    ensures exists forTracks, forCover :: SuggestedGets(a, archive, o, i, forTracks, forCover)
  {
    SeveralIsPerTrack(a.tracks);
    var winner := Incoming(archive.value, FromArchive);
    PlanForGets(a, winner, winner, false, o.policy, o.originals, i);
    assert SuggestedGets(a, archive, o, i, archive, if a.cover.None? && o.policy == Never then None else archive);
  }

  /** The images the size rule is for. */
  lemma BySizeAre(a: AlbumState, archive: Option<Image>, o: Options)
    requires !o.overwrite && !SeveralImages(a.tracks) && !Picked(archive, o)
    ensures var best, forTracks := BestCover(a.cover, FirstArt(a.tracks), Front(archive, o)), BestForTracks(a.tracks, a.cover, Front(archive, o), o);
      && (best.Some? <==> forTracks.Some?)
      && SuggestedAre(a, archive, o, if forTracks.Some? then Some(forTracks.value.image) else None,
                      if best.None? || (a.cover.None? && o.policy == Never) then None else Some(best.value.image))
  {
    var front := Front(archive, o);
    forall x ensures ForTracks(a, front, o, x) <==> var best := BestForTracks(a.tracks, a.cover, front, o); best.Some? && best.value.image == x {
      ForTracksIs(a, front, o, x);
    }
    forall x ensures ForCover(a, front, x) <==> var best := BestCover(a.cover, FirstArt(a.tracks), front); best.Some? && best.value.image == x {
      ForCoverIs(a, front, x);
    }
  }

  lemma BySizeGets(a: AlbumState, archive: Option<Image>, o: Options, i: nat)
    requires WellFormed(a) && !o.unreadable && !o.overwrite && !SeveralImages(a.tracks) && !Picked(archive, o)
    ensures exists forTracks, forCover :: SuggestedGets(a, archive, o, i, forTracks, forCover)
  {
    SeveralIsPerTrack(a.tracks);
    BySizeAre(a, archive, o);
    var front := Front(archive, o);
    var best, forTracks := BestCover(a.cover, FirstArt(a.tracks), front), BestForTracks(a.tracks, a.cover, front, o);
    if forTracks.None? {
      assert SuggestedGets(a, archive, o, i, None, None);
    } else {
      PlanForGets(a, forTracks.value, best.value, false, o.policy, o.originals, i);
      assert SuggestedGets(a, archive, o, i, Some(forTracks.value.image), if a.cover.None? && o.policy == Never then None else Some(best.value.image));
    }
  }

  /** The suggestion writes to each track, and to the folder cover, the one image suggested for it, where that is needed. */
  lemma SuggestionGets(a: AlbumState, archive: Option<Image>, o: Options, i: nat)
    requires WellFormed(a) && !o.unreadable
    ensures exists forTracks, forCover :: SuggestedGets(a, archive, o, i, forTracks, forCover)
  {
    if o.overwrite {
      OverrideGets(a, archive, o, i);
    } else if SeveralImages(a.tracks) {
      PerTrackGets(a, archive, o, i);
    } else if Picked(archive, o) {
      PickedGets(a, archive, o, i);
    } else {
      BySizeGets(a, archive, o, i);
    }
  }

  // ----- the choices over the suggestion -----

  /** The choice names the image, which is in hand. */
  ghost predicate Names(choice: Choice, archive: Option<Image>, picks: map<string, Image>, image: Image) {
    match choice
    case Keep => false
    case UseArchive => archive == Some(image)
    case Pick(id) => id in picks && picks[id] == image
  }

  ghost predicate CanBeHonoured(choice: Choice, archive: Option<Image>, picks: map<string, Image>) {
    choice == Keep || exists image :: Names(choice, archive, picks, image)
  }

  /** The carrier still holds a stand-in that the archive's front may replace. */
  ghost predicate AwaitsFront(held: Option<Digest>, archive: Option<Image>, o: Options) {
    && held.Some? && held.value in o.standIns
    && archive.Some? && held.value != archive.value.digest && !o.excluded
  }

  /**
   The image a carrier is to hold: the one its own choice names; for want of a choice the archive's front, where it holds
   a stand-in; and else the suggestion's. An override takes no choices.
   */
  ghost predicate Wanted(carrier: Carrier, held: Option<Digest>, archive: Option<Image>, o: Options, suggested: bool, image: Image) {
    if o.unreadable then false
    else if o.overwrite then suggested
    else if carrier in o.choices && CanBeHonoured(o.choices[carrier], archive, o.picks)
    then Names(o.choices[carrier], archive, o.picks, image)
    else if carrier !in o.choices && AwaitsFront(held, archive, o) then archive == Some(image)
    else suggested
  }

  ghost predicate WantedOnTrack(a: AlbumState, archive: Option<Image>, o: Options, i: nat, image: Image)
    requires i < |a.tracks|
  {
    var held := DigestOf(a.tracks[i].art);
    Wanted(if held.Some? then Sharing(held.value) else Gap, held, archive, o, SuggestedOnTracks(a, archive, o, image), image)
  }

  ghost predicate WantedOnCover(a: AlbumState, archive: Option<Image>, o: Options, image: Image) {
    Wanted(CoverCarrier, CoverDigest(a), archive, o, SuggestedOnCover(a, archive, o, image), image)
  }

  lemma NamesImage(choice: Choice, archive: Option<Image>, picks: map<string, Image>, image: Image)
    ensures Names(choice, archive, picks, image) <==> ImageOf(choice, archive, picks) == Some(image)
    ensures CanBeHonoured(choice, archive, picks) <==> choice == Keep || ImageOf(choice, archive, picks).Some?
  {
    if ImageOf(choice, archive, picks).Some? {
      assert Names(choice, archive, picks, ImageOf(choice, archive, picks).value);
    }
  }

  /** A carrier of the album's awaits the front exactly when it is given it. */
  lemma GivenExactly(a: AlbumState, archive: Option<Image>, o: Options)
    ensures forall i :: 0 <= i < |a.tracks| ==>
              var held := DigestOf(a.tracks[i].art);
              CarrierOfDigest(held) in Given(a, archive, o) <==> AwaitsFront(held, archive, o)
    ensures CoverCarrier in Given(a, archive, o) <==> AwaitsFront(CoverDigest(a), archive, o)
    ensures forall c :: c in Given(a, archive, o) ==> Given(a, archive, o)[c] == UseArchive
  {
    forall i | 0 <= i < |a.tracks|
      ensures var held := DigestOf(a.tracks[i].art);
              CarrierOfDigest(held) in Given(a, archive, o) <==> AwaitsFront(held, archive, o)
    {
      assert a.tracks[i] in a.tracks;
    }
  }

  lemma InForceForTrack(a: AlbumState, archive: Option<Image>, o: Options, i: nat)
    requires i < |a.tracks|
    ensures var held := DigestOf(a.tracks[i].art);
      var carrier := CarrierOfDigest(held);
      && (carrier in InForce(a, archive, o) <==>
          if carrier in o.choices then CanBeHonoured(o.choices[carrier], archive, o.picks) else AwaitsFront(held, archive, o))
      && (carrier in InForce(a, archive, o) ==>
          InForce(a, archive, o)[carrier] == if carrier in o.choices then o.choices[carrier] else UseArchive)
  {
    GivenExactly(a, archive, o);
    var carrier := CarrierOfDigest(DigestOf(a.tracks[i].art));
    assert Before(a.tracks)[i] in Before(a.tracks);
    assert carrier in Carriers(Before(a.tracks));
    if carrier in o.choices {
      forall image ensures Names(o.choices[carrier], archive, o.picks, image) <==> ImageOf(o.choices[carrier], archive, o.picks) == Some(image) {
        NamesImage(o.choices[carrier], archive, o.picks, image);
      }
    }
  }

  lemma InForceForCover(a: AlbumState, archive: Option<Image>, o: Options)
    ensures
      && (CoverCarrier in InForce(a, archive, o) <==>
          if CoverCarrier in o.choices then CanBeHonoured(o.choices[CoverCarrier], archive, o.picks)
          else AwaitsFront(CoverDigest(a), archive, o))
      && (CoverCarrier in InForce(a, archive, o) ==>
          InForce(a, archive, o)[CoverCarrier] == if CoverCarrier in o.choices then o.choices[CoverCarrier] else UseArchive)
  {
    GivenExactly(a, archive, o);
    if CoverCarrier in o.choices {
      forall image ensures Names(o.choices[CoverCarrier], archive, o.picks, image)
                           <==> ImageOf(o.choices[CoverCarrier], archive, o.picks) == Some(image) {
        NamesImage(o.choices[CoverCarrier], archive, o.picks, image);
      }
    }
  }

  // ----- what a plan writes -----

  /** Each track's write is for the one image wanted of it, where that is needed; a track nothing is wanted of gets none. */
  ghost predicate TrackPlanned(a: AlbumState, archive: Option<Image>, o: Options, i: nat, image: Option<Image>)
    requires i < |a.tracks|
  {
    && (forall x :: WantedOnTrack(a, archive, o, i, x) <==> image == Some(x))
    && TrackGets(ChangeAt(MakePlan(a, archive, o).changes, a.tracks[i].path), a.tracks[i].path, DigestOf(a.tracks[i].art), image, o.originals)
  }

  lemma SuggestedTrackPlanned(a: AlbumState, archive: Option<Image>, o: Options, i: nat)
    requires WellFormed(a) && i < |a.tracks| && !o.unreadable
    requires ChangeAt(MakePlan(a, archive, o).changes, a.tracks[i].path) == ChangeAt(Suggest(a, Weighed(archive, o), o).changes, a.tracks[i].path)
    requires forall x :: WantedOnTrack(a, archive, o, i, x) <==> SuggestedOnTracks(a, archive, o, x)
    ensures exists image :: TrackPlanned(a, archive, o, i, image)
  {
    SuggestionGets(a, archive, o, i);
    var forTracks, forCover :| SuggestedGets(a, archive, o, i, forTracks, forCover);
    assert TrackPlanned(a, archive, o, i, forTracks);
  }

  lemma UnchosenWritesAreSuggested(a: AlbumState, archive: Option<Image>, o: Options, i: nat)
    requires WellFormed(a) && i < |a.tracks| && (o.overwrite || o.unreadable)
    ensures ChangeAt(MakePlan(a, archive, o).changes, a.tracks[i].path) == ChangeAt(Suggest(a, Weighed(archive, o), o).changes, a.tracks[i].path)
  {
    var s := Suggest(a, Weighed(archive, o), o);
    SuggestionLaidOut(a, Weighed(archive, o), o);
    RenamedLaidOut(a, s);
    assert Writes(Renamed(s, a.cover))[i] == Writes(s)[i];
  }

  lemma TrackIsPlannedExactly(a: AlbumState, archive: Option<Image>, o: Options, i: nat)
    requires WellFormed(a) && i < |a.tracks|
    ensures exists image :: TrackPlanned(a, archive, o, i, image)
  {
    var held := DigestOf(a.tracks[i].art);
    var carrier := CarrierOfDigest(held);
    if o.unreadable {
      UnchosenWritesAreSuggested(a, archive, o, i);
      assert TrackPlanned(a, archive, o, i, None);
    } else if o.overwrite {
      UnchosenWritesAreSuggested(a, archive, o, i);
      SuggestedTrackPlanned(a, archive, o, i);
    } else {
      WriteInForce(a, archive, o, i);
      InForceForTrack(a, archive, o, i);
      if carrier in InForce(a, archive, o) {
        ChosenTrackPlanned(a, archive, o, i);
      } else {
        SuggestedTrackPlanned(a, archive, o, i);
      }
    }
  }

  /** A choice in force wants the image it names. */
  lemma ChosenIsWanted(carrier: Carrier, held: Option<Digest>, archive: Option<Image>, o: Options, choice: Choice, suggested: bool, x: Image)
    requires !o.unreadable && !o.overwrite
    requires if carrier in o.choices then CanBeHonoured(o.choices[carrier], archive, o.picks) && choice == o.choices[carrier]
             else AwaitsFront(held, archive, o) && choice == UseArchive
    ensures Wanted(carrier, held, archive, o, suggested, x) <==> ImageOf(choice, archive, o.picks) == Some(x)
  {
    NamesImage(choice, archive, o.picks, x);
  }

  lemma ChosenTrackGets(c: Carried, s: Plan, honoured: map<Carrier, Choice>, archive: Option<Image>, picks: map<string, Image>,
                        originals: map<Digest, Digest>)
    requires CarrierOfDigest(c.digest) in honoured
    ensures TrackGets(ChosenForTrack(c, s, honoured, archive, picks, originals), c.path, c.digest,
                      ImageOf(honoured[CarrierOfDigest(c.digest)], archive, picks), originals)
  {
  }

  lemma ChosenCoverGets(a: AlbumState, s: Plan, honoured: map<Carrier, Choice>, archive: Option<Image>, picks: map<string, Image>,
                        originals: map<Digest, Digest>)
    requires CoverCarrier in honoured
    ensures CoverGets(ChosenForCover(a.dir, a.cover, s, honoured, archive, picks, originals), a,
                      ImageOf(honoured[CoverCarrier], archive, picks), originals)
  {
  }

  lemma ChosenTrackWants(a: AlbumState, archive: Option<Image>, o: Options, i: nat)
    requires i < |a.tracks| && !o.unreadable && !o.overwrite
    requires CarrierOfDigest(DigestOf(a.tracks[i].art)) in InForce(a, archive, o)
    ensures forall x :: WantedOnTrack(a, archive, o, i, x)
                        <==> ImageOf(InForce(a, archive, o)[CarrierOfDigest(DigestOf(a.tracks[i].art))], archive, o.picks) == Some(x)
  {
    var held := DigestOf(a.tracks[i].art);
    InForceForTrack(a, archive, o, i);
    var choice := InForce(a, archive, o)[CarrierOfDigest(held)];
    forall x ensures WantedOnTrack(a, archive, o, i, x) <==> ImageOf(choice, archive, o.picks) == Some(x) {
      ChosenIsWanted(CarrierOfDigest(held), held, archive, o, choice, SuggestedOnTracks(a, archive, o, x), x);
    }
  }

  lemma ChosenCoverWants(a: AlbumState, archive: Option<Image>, o: Options)
    requires !o.unreadable && !o.overwrite && CoverCarrier in InForce(a, archive, o)
    ensures forall x :: WantedOnCover(a, archive, o, x) <==> ImageOf(InForce(a, archive, o)[CoverCarrier], archive, o.picks) == Some(x)
  {
    InForceForCover(a, archive, o);
    var choice := InForce(a, archive, o)[CoverCarrier];
    forall x ensures WantedOnCover(a, archive, o, x) <==> ImageOf(choice, archive, o.picks) == Some(x) {
      ChosenIsWanted(CoverCarrier, CoverDigest(a), archive, o, choice, SuggestedOnCover(a, archive, o, x), x);
    }
  }

  lemma ChosenTrackPlanned(a: AlbumState, archive: Option<Image>, o: Options, i: nat)
    requires WellFormed(a) && i < |a.tracks| && !o.unreadable && !o.overwrite
    requires CarrierOfDigest(DigestOf(a.tracks[i].art)) in InForce(a, archive, o)
    ensures exists image :: TrackPlanned(a, archive, o, i, image)
  {
    var s, honoured := Suggest(a, Weighed(archive, o), o), InForce(a, archive, o);
    WriteInForce(a, archive, o, i);
    ChosenTrackGets(Before(a.tracks)[i], s, honoured, archive, o.picks, o.originals);
    ChosenTrackWants(a, archive, o, i);
    assert TrackPlanned(a, archive, o, i, ImageOf(honoured[CarrierOfDigest(DigestOf(a.tracks[i].art))], archive, o.picks));
  }

  /** The user asked for the folder cover to be kept as it is. */
  ghost predicate CoverKept(o: Options) {
    !o.unreadable && !o.overwrite && CoverCarrier in o.choices && o.choices[CoverCarrier] == Choice.Keep
  }

  /** The folder cover is named for another type than its image's, and the right name is free. */
  ghost predicate Misnamed(a: AlbumState) {
    a.cover.Some? &&
    var suffix := if IsPngImage(a.cover.value.image) then ".png" else ".jpg";
    var name := if a.cover.value.path.Some? then a.cover.value.path.value.name else a.cover.value.name;
    Lower(name.suffix) != suffix && Name("cover", suffix) !in a.cover.value.beside
  }

  /** The folder cover's write is for the one image wanted of it, where that is needed; else it is renamed where misnamed. */
  ghost predicate CoverPlanned(a: AlbumState, archive: Option<Image>, o: Options, image: Option<Image>) {
    && (forall x :: WantedOnCover(a, archive, o, x) <==> image == Some(x))
    && CoverEnds(CoverChange(MakePlan(a, archive, o).changes), a, o, image)
  }

  ghost predicate CoverEnds(write: Option<Change>, a: AlbumState, o: Options, image: Option<Image>) {
    if image.Some? && !Needless(CoverDigest(a), image.value, o.originals) then write.Some? && Replaces(write.value, a, image.value)
    else
      && (write.Some? <==> Misnamed(a) && !CoverKept(o))
      && (write.Some? ==> Renames(write.value, a))
  }

  ghost predicate Renames(write: Change, a: AlbumState) {
    && a.cover.Some? && write.before == CoverDigest(a) == Some(write.after) && write.renameOnly
    && LandsAt(write, a, if IsPngImage(a.cover.value.image) then ".png" else ".jpg")
  }

  lemma RenamedEnds(a: AlbumState, p: Plan, o: Options, image: Option<Image>)
    requires WellFormed(a) && LaidOut(a, p) && CoverGets(CoverChange(p.changes), a, image, o.originals)
    requires CoverKept(o) <==> CoverCarrier in p.choices && p.choices[CoverCarrier] == Choice.Keep
    ensures CoverEnds(CoverChange(Renamed(p, a.cover).changes), a, o, image)
  {
    RenamedLaidOut(a, p);
  }

  lemma SuggestionsHaveNoChoices(a: AlbumState, archive: Option<Image>, o: Options)
    ensures Suggest(a, archive, o).choices == map[] && Suggest(a, archive, o).before == Before(a.tracks)
  {
  }

  lemma KeptIsRecorded(a: AlbumState, archive: Option<Image>, o: Options)
    requires !o.unreadable && !o.overwrite
    ensures var p := WithChoices(Suggest(a, Weighed(archive, o), o), a.cover, archive, Given(a, archive, o) + o.choices, o.picks, o.originals);
      CoverKept(o) <==> CoverCarrier in p.choices && p.choices[CoverCarrier] == Choice.Keep
  {
    SuggestionsHaveNoChoices(a, Weighed(archive, o), o);
    InForceForCover(a, archive, o);
  }

  lemma SuggestedCoverPlanned(a: AlbumState, archive: Option<Image>, o: Options, p: Plan)
    requires WellFormed(a) && !o.unreadable && LaidOut(a, p)
    requires CoverChange(p.changes) == CoverChange(Suggest(a, Weighed(archive, o), o).changes)
    requires MakePlan(a, archive, o) == Renamed(p, a.cover)
    requires CoverKept(o) <==> CoverCarrier in p.choices && p.choices[CoverCarrier] == Choice.Keep
    requires forall x :: WantedOnCover(a, archive, o, x) <==> SuggestedOnCover(a, archive, o, x)
    ensures exists image :: CoverPlanned(a, archive, o, image)
  {
    SuggestionGets(a, archive, o, 0);
    var forTracks, forCover :| SuggestedGets(a, archive, o, 0, forTracks, forCover);
    RenamedEnds(a, p, o, forCover);
    assert CoverPlanned(a, archive, o, forCover);
  }

  lemma ChosenCoverPlanned(a: AlbumState, archive: Option<Image>, o: Options, p: Plan)
    requires WellFormed(a) && !o.unreadable && !o.overwrite && LaidOut(a, p) && CoverCarrier in InForce(a, archive, o)
    requires CoverChange(p.changes) == ChosenForCover(a.dir, a.cover, Suggest(a, Weighed(archive, o), o), InForce(a, archive, o), archive, o.picks, o.originals)
    requires MakePlan(a, archive, o) == Renamed(p, a.cover)
    requires CoverKept(o) <==> CoverCarrier in p.choices && p.choices[CoverCarrier] == Choice.Keep
    ensures exists image :: CoverPlanned(a, archive, o, image)
  {
    var s, honoured := Suggest(a, Weighed(archive, o), o), InForce(a, archive, o);
    ChosenCoverGets(a, s, honoured, archive, o.picks, o.originals);
    ChosenCoverWants(a, archive, o);
    var image := ImageOf(honoured[CoverCarrier], archive, o.picks);
    RenamedEnds(a, p, o, image);
    assert CoverPlanned(a, archive, o, image);
  }

  lemma CoverIsPlannedExactly(a: AlbumState, archive: Option<Image>, o: Options)
    requires WellFormed(a)
    ensures exists image :: CoverPlanned(a, archive, o, image)
  {
    var s := Suggest(a, Weighed(archive, o), o);
    SuggestionLaidOut(a, Weighed(archive, o), o);
    if o.unreadable {
      RenamedEnds(a, s, o, None);
      assert CoverPlanned(a, archive, o, None);
    } else if o.overwrite {
      SuggestedCoverPlanned(a, archive, o, s);
    } else {
      var choices := Given(a, archive, o) + o.choices;
      var p := WithChoices(s, a.cover, archive, choices, o.picks, o.originals);
      ChosenLaidOut(a, s, archive, choices, o.picks, o.originals);
      InForceForCover(a, archive, o);
      KeptIsRecorded(a, archive, o);
      if CoverCarrier in InForce(a, archive, o) {
        ChosenCoverPlanned(a, archive, o, p);
      } else {
        SuggestedCoverPlanned(a, archive, o, p);
      }
    }
  }

  /** A plan says it preserves per-track artwork exactly when there is some and it writes to no track. */
  lemma PreservesExactly(a: AlbumState, archive: Option<Image>, o: Options)
    ensures MakePlan(a, archive, o).preserves
       <==> SeveralImages(a.tracks) && !o.unreadable && !o.overwrite && forall c :: c in MakePlan(a, archive, o).changes ==> c.folderCover
  {
    SeveralIsPerTrack(a.tracks);
    var s := Suggest(a, Weighed(archive, o), o);
    assert s.preserves <==> SeveralImages(a.tracks) && !o.unreadable && !o.overwrite;
    assert s.preserves ==> forall c :: c in s.changes ==> c.folderCover;
    if !o.overwrite && !o.unreadable {
      var p := WithChoices(s, a.cover, archive, Given(a, archive, o) + o.choices, o.picks, o.originals);
      assert p.preserves <==> s.preserves && forall c :: c in p.changes ==> c.folderCover;
      RenamedPreserves(p, a.cover);
    } else {
      RenamedPreserves(s, a.cover);
    }
  }

  lemma RenamedPreserves(p: Plan, cover: Option<FolderCover>)
    ensures Renamed(p, cover).preserves == p.preserves
    ensures (forall c :: c in Renamed(p, cover).changes ==> c.folderCover) <==> (forall c :: c in p.changes ==> c.folderCover)
  {
    var r := Rename(p, cover);
    if r.Some? {
      assert forall c :: c in p.changes + [r.value] <==> c in p.changes || c == r.value;
    }
  }

  // ----- what carrying it out leaves -----

  /** A track ends up holding the image wanted of it, or is left as it was. */
  lemma TrackEndsExactly(a: AlbumState, archive: Option<Image>, o: Options, i: nat)
    requires WellFormed(a) && i < |a.tracks|
    ensures Complete(MakePlan(a, archive, o))
    ensures var b := Apply(a, MakePlan(a, archive, o), Everything).tracks[i];
      exists image: Option<Image> ::
        && (forall x :: WantedOnTrack(a, archive, o, i, x) <==> image == Some(x))
        && if image.Some? && !Needless(DigestOf(a.tracks[i].art), image.value, o.originals)
           then b.path == a.tracks[i].path && DigestOf(b.art) == Some(image.value.digest)
           else b == a.tracks[i]
  {
    TableIsExact(a, archive, o);
    TrackIsPlannedExactly(a, archive, o, i);
    var image :| TrackPlanned(a, archive, o, i, image);
    assert forall x :: WantedOnTrack(a, archive, o, i, x) <==> image == Some(x);
  }

  lemma CoverAfter(a: AlbumState, p: Plan, o: Options, image: Option<Image>)
    requires Complete(p) && CoverEnds(CoverChange(p.changes), a, o, image)
    ensures CoverDigest(Apply(a, p, Everything))
         == if image.Some? && !Needless(CoverDigest(a), image.value, o.originals) then Some(image.value.digest) else CoverDigest(a)
  {
    assert Scoped(p.changes, Everything) == p.changes;
  }

  lemma PlansAreComplete(a: AlbumState, archive: Option<Image>, o: Options)
    requires WellFormed(a)
    ensures Complete(MakePlan(a, archive, o))
  {
    TableIsExact(a, archive, o);
  }

  /** So does the folder cover, which may be renamed where it keeps its image. */
  lemma CoverEndsExactly(a: AlbumState, archive: Option<Image>, o: Options)
    requires WellFormed(a)
    ensures Complete(MakePlan(a, archive, o))
    ensures var b := Apply(a, MakePlan(a, archive, o), Everything);
      exists image: Option<Image> ::
        && (forall x :: WantedOnCover(a, archive, o, x) <==> image == Some(x))
        && CoverDigest(b) == if image.Some? && !Needless(CoverDigest(a), image.value, o.originals) then Some(image.value.digest) else CoverDigest(a)
  {
    PlansAreComplete(a, archive, o);
    CoverIsPlannedExactly(a, archive, o);
    var image :| CoverPlanned(a, archive, o, image);
    CoverAfter(a, MakePlan(a, archive, o), o, image);
  }
}

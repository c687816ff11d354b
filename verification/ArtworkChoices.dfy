/** The user's choices are laid over the suggestion carrier by carrier, and touch nothing else. */
module ArtworkChoices {
  import opened Common
  import opened Artwork
  import opened ArtworkSettles

  // ----- a plan as one possible write per track, then the folder cover's -----

  function Flatten(writes: seq<Option<Change>>): seq<Change> {
    if writes == [] then [] else Listed(writes[0]) + Flatten(writes[1..])
  }

  /** One possible write for each track, in album order. */
  ghost predicate PerTrackWrites(before: seq<Carried>, writes: seq<Option<Change>>) {
    && |writes| == |before|
    && (forall i, j :: 0 <= i < j < |before| ==> before[i].path != before[j].path)
    && forall i :: 0 <= i < |writes| && writes[i].Some? ==>
         var c := writes[i].value;
         c.target == before[i].path && c.before == before[i].digest && !c.folderCover && !c.renameOnly && c.renameTo.None?
  }

  lemma {:induction false} NotWritten(writes: seq<Option<Change>>, path: Path)
    requires forall i :: 0 <= i < |writes| && writes[i].Some? ==> writes[i].value.target != path
    ensures ChangeAt(Flatten(writes), path).None?
  {
    if writes != [] {
      NotWritten(writes[1..], path);
      assert writes[0].Some? ==> Flatten(writes)[1..] == Flatten(writes[1..]);
      assert writes[0].None? ==> Flatten(writes) == Flatten(writes[1..]);
    }
  }

  lemma {:induction false} WrittenAt(before: seq<Carried>, writes: seq<Option<Change>>, i: nat)
    requires PerTrackWrites(before, writes) && i < |before|
    ensures ChangeAt(Flatten(writes), before[i].path) == writes[i]
  {
    assert writes[0].Some? ==> Flatten(writes)[1..] == Flatten(writes[1..]);
    assert writes[0].None? ==> Flatten(writes) == Flatten(writes[1..]);
    if i == 0 {
      NotWritten(writes[1..], before[0].path);
    } else {
      WrittenAt(before[1..], writes[1..], i - 1);
      assert before[1..][i - 1] == before[i];
    }
  }

  /** Every flattened write is one of the possible ones. */
  lemma {:induction false} FlattenedFrom(before: seq<Carried>, writes: seq<Option<Change>>, c: Change)
    requires PerTrackWrites(before, writes) && c in Flatten(writes)
    ensures exists i :: 0 <= i < |writes| && writes[i] == Some(c)
  {
    if writes[0] == Some(c) {
      assert writes[0] == Some(c);
    } else {
      FlattenedFrom(before[1..], writes[1..], c);
      var i :| 0 <= i < |writes[1..]| && writes[1..][i] == Some(c);
      assert writes[i + 1] == Some(c);
    }
  }

  /** No target is written twice. */
  ghost predicate TargetsOnce(changes: seq<Change>) {
    forall i, j :: 0 <= i < j < |changes| ==> changes[i].target != changes[j].target
  }

  lemma {:induction false} FlattenedOnce(before: seq<Carried>, writes: seq<Option<Change>>)
    requires PerTrackWrites(before, writes)
    ensures TargetsOnce(Flatten(writes))
  {
    if writes != [] {
      var others := Flatten(writes[1..]);
      FlattenedOnce(before[1..], writes[1..]);
      if writes[0].Some? {
        assert Flatten(writes) == [writes[0].value] + others;
        forall j | 0 <= j < |others| ensures others[j].target != writes[0].value.target {
          FlattenedFrom(before[1..], writes[1..], others[j]);
        }
      } else {
        assert Flatten(writes) == others;
      }
    }
  }

  // ----- plans are laid out so -----

  ghost function Writes(p: Plan): seq<Option<Change>> {
    seq(|p.before|, i requires 0 <= i < |p.before| => ChangeAt(p.changes, p.before[i].path))
  }

  function CoverDigest(a: AlbumState): Option<Digest> {
    if a.cover.Some? then Some(a.cover.value.image.digest) else None
  }

  /** Where a folder cover's write lands: on the one there is, or on one of the two names it may be given. */
  ghost predicate CoverWrite(a: AlbumState, c: Change) {
    && c.folderCover && c.before == CoverDigest(a)
    && (c.renameOnly ==> c.before == Some(c.after))
    && if a.cover.Some? then c.target == CoverTarget(a.dir, a.cover.value)
       else c.target in {Path(a.dir, JPG), Path(a.dir, PNG)}
  }

  /** At most one write per track, in album order, each over what the track holds; then at most one to the cover. */
  ghost predicate LaidOut(a: AlbumState, p: Plan) {
    && p.before == Before(a.tracks) && p.dir == a.dir
    && PerTrackWrites(p.before, Writes(p))
    && p.changes == Flatten(Writes(p)) + Listed(CoverChange(p.changes))
    && (CoverChange(p.changes).Some? ==> CoverWrite(a, CoverChange(p.changes).value))
  }

  lemma LayOut(a: AlbumState, p: Plan, writes: seq<Option<Change>>, cover: Option<Change>)
    requires p.before == Before(a.tracks) && p.dir == a.dir && PerTrackWrites(p.before, writes)
    requires p.changes == Flatten(writes) + Listed(cover)
    requires cover.Some? ==> CoverWrite(a, cover.value)
    ensures LaidOut(a, p) && Writes(p) == writes && CoverChange(p.changes) == cover
  {
    forall i | 0 <= i < |writes| ensures Writes(p)[i] == writes[i] {
      WrittenAt(p.before, writes, i);
      CoverChangesHideNothing(Flatten(writes), Listed(cover), p.before[i].path);
    }
    assert Writes(p) == writes;
    forall c | c in Flatten(writes) ensures !c.folderCover {
      FlattenedFrom(p.before, writes, c);
    }
    CoverChangeBehind(Flatten(writes), Listed(cover));
  }

  ghost function SettlingWrites(targets: seq<Carried>, winner: Image, originals: map<Digest, Digest>): seq<Option<Change>> {
    seq(|targets|, i requires 0 <= i < |targets| =>
      if Settled(targets[i].digest, winner, originals) then None
      else Some(Change(targets[i].path, targets[i].digest, winner.digest, false, None, false)))
  }

  lemma {:induction false} TrackChangesFlatten(targets: seq<Carried>, winner: Image, originals: map<Digest, Digest>)
    ensures TrackChanges(targets, winner, originals) == Flatten(SettlingWrites(targets, winner, originals))
  {
    if targets != [] {
      TrackChangesFlatten(targets[1..], winner, originals);
      assert SettlingWrites(targets, winner, originals)[1..] == SettlingWrites(targets[1..], winner, originals);
    }
  }

  function Untouched(n: nat): seq<Option<Change>> {
    seq(n, i => None)
  }

  lemma {:induction false} NoWrites(n: nat)
    ensures Flatten(Untouched(n)) == []
  {
    if n > 0 {
      NoWrites(n - 1);
      assert Untouched(n)[1..] == Untouched(n - 1);
    }
  }

  lemma PlanForLaidOut(a: AlbumState, targets: seq<Carried>, winner: Incoming, forCover: Incoming, preserves: bool,
                       policy: Policy, originals: map<Digest, Digest>)
    requires WellFormed(a) && (targets == Before(a.tracks) || targets == [])
    ensures LaidOut(a, PlanFor(a.dir, targets, a.cover, winner, forCover, Before(a.tracks), preserves, policy, originals))
  {
    var p := PlanFor(a.dir, targets, a.cover, winner, forCover, Before(a.tracks), preserves, policy, originals);
    var own := CoverChanges(a.dir, a.cover, forCover.image, policy, originals);
    var cover := if own == [] then None else Some(own[0]);
    if targets == [] {
      NoWrites(|a.tracks|);
      LayOut(a, p, Untouched(|a.tracks|), cover);
    } else {
      TrackChangesFlatten(targets, winner.image, originals);
      LayOut(a, p, SettlingWrites(targets, winner.image, originals), cover);
    }
  }

  lemma NoChangesLaidOut(a: AlbumState, preserves: bool)
    requires WellFormed(a)
    ensures LaidOut(a, NoChanges(a.dir, Before(a.tracks), preserves))
  {
    NoWrites(|a.tracks|);
    LayOut(a, NoChanges(a.dir, Before(a.tracks), preserves), Untouched(|a.tracks|), None);
  }

  lemma PerTrackLaidOut(a: AlbumState, picked: Option<Image>, archive: Option<Image>, o: Options)
    requires WellFormed(a)
    ensures LaidOut(a, SuggestPerTrack(a, picked, archive, o))
  {
    var before := Before(a.tracks);
    var wanted := if picked.Some? then picked else if a.cover.None? then archive else None;
    var candidate := if a.cover.None? && o.policy == Never then None else wanted;
    if candidate.Some? {
      var winner := Incoming(candidate.value, FromArchive);
      PlanForLaidOut(a, [], winner, winner, true, o.policy, o.originals);
    } else if a.cover.Some? && TooLarge(a.cover.value.image) {
      var winner := Incoming(a.cover.value.image, FromFolder);
      PlanForLaidOut(a, [], winner, winner, true, o.policy, o.originals);
    } else {
      NoChangesLaidOut(a, true);
    }
  }

  lemma BySizeLaidOut(a: AlbumState, archive: Option<Image>, o: Options)
    requires WellFormed(a)
    ensures LaidOut(a, SuggestBySize(a, archive, o))
  {
    var forTracks := BestForTracks(a.tracks, a.cover, archive, o);
    if forTracks.None? {
      NoChangesLaidOut(a, false);
    } else {
      var best := BestCover(a.cover, FirstArt(a.tracks), archive);
      PlanForLaidOut(a, Before(a.tracks), forTracks.value, if best.Some? then best.value else forTracks.value,
                     false, o.policy, o.originals);
    }
  }

  lemma SuggestionLaidOut(a: AlbumState, archive: Option<Image>, o: Options)
    requires WellFormed(a)
    ensures LaidOut(a, Suggest(a, archive, o))
  {
    var picked := if o.chosen == Some(FromArchive) then archive else None;
    NoChangesLaidOut(a, false);
    PerTrackLaidOut(a, picked, archive, o);
    BySizeLaidOut(a, archive, o);
    if o.overwrite && a.cover.Some? {
      var winner := Incoming(a.cover.value.image, FromFolder);
      PlanForLaidOut(a, Before(a.tracks), winner, winner, false, IfMissing, o.originals);
    } else if picked.Some? {
      var winner := Incoming(picked.value, FromArchive);
      PlanForLaidOut(a, Before(a.tracks), winner, winner, false, o.policy, o.originals);
    }
  }

  // ----- the choices' own layout -----

  ghost function ChosenWrites(carried: seq<Carried>, s: Plan, honoured: map<Carrier, Choice>, archive: Option<Image>,
                              picks: map<string, Image>, originals: map<Digest, Digest>): seq<Option<Change>>
  {
    seq(|carried|, i requires 0 <= i < |carried| => ChosenForTrack(carried[i], s, honoured, archive, picks, originals))
  }

  lemma {:induction false} ChosenFlatten(carried: seq<Carried>, s: Plan, honoured: map<Carrier, Choice>, archive: Option<Image>,
                                         picks: map<string, Image>, originals: map<Digest, Digest>)
    ensures ChosenForTracks(carried, s, honoured, archive, picks, originals)
            == Flatten(ChosenWrites(carried, s, honoured, archive, picks, originals))
  {
    if carried != [] {
      ChosenFlatten(carried[1..], s, honoured, archive, picks, originals);
      assert ChosenWrites(carried, s, honoured, archive, picks, originals)[1..]
          == ChosenWrites(carried[1..], s, honoured, archive, picks, originals);
    }
  }

  lemma ChosenWritesPerTrack(a: AlbumState, s: Plan, honoured: map<Carrier, Choice>, archive: Option<Image>,
                             picks: map<string, Image>, originals: map<Digest, Digest>)
    requires WellFormed(a) && LaidOut(a, s)
    ensures PerTrackWrites(s.before, ChosenWrites(s.before, s, honoured, archive, picks, originals))
  {
    var writes := ChosenWrites(s.before, s, honoured, archive, picks, originals);
    forall i | 0 <= i < |writes| && writes[i].Some?
      ensures var c := writes[i].value;
        c.target == s.before[i].path && c.before == s.before[i].digest && !c.folderCover && !c.renameOnly && c.renameTo.None?
    {
      assert Writes(s)[i] == ChangeAt(s.changes, s.before[i].path);
    }
  }

  lemma ChosenCoverWrite(a: AlbumState, s: Plan, honoured: map<Carrier, Choice>, archive: Option<Image>,
                         picks: map<string, Image>, originals: map<Digest, Digest>)
    requires LaidOut(a, s)
    ensures var c := ChosenForCover(a.dir, a.cover, s, honoured, archive, picks, originals); c.Some? ==> CoverWrite(a, c.value)
  {
  }

  /** Choosing changes the write of an honoured carrier and no other. */
  lemma ChosenLaidOut(a: AlbumState, s: Plan, archive: Option<Image>, choices: map<Carrier, Choice>,
                      picks: map<string, Image>, originals: map<Digest, Digest>)
    requires WellFormed(a) && LaidOut(a, s)
    ensures var honoured := Honoured(choices, s.before, archive, picks);
      var p := WithChoices(s, a.cover, archive, choices, picks, originals);
      && LaidOut(a, p)
      && Writes(p) == ChosenWrites(s.before, s, honoured, archive, picks, originals)
      && CoverChange(p.changes) == ChosenForCover(a.dir, a.cover, s, honoured, archive, picks, originals)
  {
    var honoured := Honoured(choices, s.before, archive, picks);
    var p := WithChoices(s, a.cover, archive, choices, picks, originals);
    var writes := ChosenWrites(s.before, s, honoured, archive, picks, originals);
    if honoured == map[] {
      assert Writes(s) == writes;
    } else {
      ChosenWritesPerTrack(a, s, honoured, archive, picks, originals);
      ChosenCoverWrite(a, s, honoured, archive, picks, originals);
      ChosenFlatten(s.before, s, honoured, archive, picks, originals);
      LayOut(a, p, writes, ChosenForCover(a.dir, a.cover, s, honoured, archive, picks, originals));
    }
  }

  /** A rename on its own comes last, when the cover has no other write. */
  lemma RenamedLaidOut(a: AlbumState, p: Plan)
    requires WellFormed(a) && LaidOut(a, p)
    ensures LaidOut(a, Renamed(p, a.cover)) && Writes(Renamed(p, a.cover)) == Writes(p)
    ensures var after := CoverChange(Renamed(p, a.cover).changes);
      if CoverChange(p.changes).Some? then after == CoverChange(p.changes) else after == Rename(p, a.cover)
  {
    var r := Rename(p, a.cover);
    if r.Some? {
      assert p.changes == Flatten(Writes(p));
      LayOut(a, Renamed(p, a.cover), Writes(p), r);
    }
  }

  lemma PlansLaidOut(a: AlbumState, archive: Option<Image>, o: Options)
    requires WellFormed(a)
    ensures LaidOut(a, MakePlan(a, archive, o))
  {
    var s := Suggest(a, Weighed(archive, o), o);
    SuggestionLaidOut(a, Weighed(archive, o), o);
    if !o.overwrite && !o.unreadable {
      var choices := Given(a, archive, o) + o.choices;
      ChosenLaidOut(a, s, archive, choices, o.picks, o.originals);
      RenamedLaidOut(a, WithChoices(s, a.cover, archive, choices, o.picks, o.originals));
    } else {
      RenamedLaidOut(a, s);
    }
  }

  // ----- completeness of the image table -----

  ghost predicate Names(images: map<Digest, Incoming>) {
    forall d :: d in images ==> images[d].image.digest == d
  }

  lemma {:induction false} TakeAllKeeps(images: map<Digest, Incoming>, carried: seq<Carried>, honoured: map<Carrier, Choice>,
                                        archive: Option<Image>, picks: map<string, Image>)
    requires Names(images)
    ensures var taken := TakeAll(images, carried, honoured, archive, picks);
      && Names(taken) && images.Keys <= taken.Keys
      && forall c :: c in carried ==>
           var image := Taken(honoured, CarrierOfDigest(c.digest), archive, picks);
           image.Some? ==> image.value.digest in taken
    decreases |carried|
  {
    if carried != [] {
      var first := Take(images, Taken(honoured, CarrierOfDigest(carried[0].digest), archive, picks));
      TakeAllKeeps(first, carried[1..], honoured, archive, picks);
    }
  }

  /** The table's keys are exactly the digests the changes write, each naming its own image. */
  ghost predicate ExactTable(p: Plan) {
    Complete(p) && p.images.Keys == Afters(p.changes)
  }

  lemma PlanForTable(dir: string, targets: seq<Carried>, cover: Option<FolderCover>, winner: Incoming,
                     forCover: Incoming, before: seq<Carried>, preserves: bool, policy: Policy,
                     originals: map<Digest, Digest>)
    ensures ExactTable(PlanFor(dir, targets, cover, winner, forCover, before, preserves, policy, originals))
  {
    PlanForIsComplete(dir, targets, cover, winner, forCover, before, preserves, policy, originals);
  }

  lemma SuggestionTable(a: AlbumState, archive: Option<Image>, o: Options)
    ensures ExactTable(Suggest(a, archive, o))
  {
    forall targets, cover, winner, forCover, preserves, policy
      ensures ExactTable(PlanFor(a.dir, targets, cover, winner, forCover, Before(a.tracks), preserves, policy, o.originals))
    {
      PlanForTable(a.dir, targets, cover, winner, forCover, Before(a.tracks), preserves, policy, o.originals);
    }
    TablesWithoutChanges(a);
    assert ExactTable(SuggestPerTrack(a, if o.chosen == Some(FromArchive) then archive else None, archive, o));
    assert ExactTable(SuggestBySize(a, archive, o));
  }

  lemma TablesWithoutChanges(a: AlbumState)
    ensures ExactTable(NoChanges(a.dir, Before(a.tracks), true)) && ExactTable(NoChanges(a.dir, Before(a.tracks), false))
  {
  }

  lemma ChosenImageTaken(a: AlbumState, s: Plan, honoured: map<Carrier, Choice>, archive: Option<Image>,
                         picks: map<string, Image>, originals: map<Digest, Digest>, i: nat)
    requires ExactTable(s) && i < |s.before|
    requires ChosenForTrack(s.before[i], s, honoured, archive, picks, originals).Some?
    ensures ChosenForTrack(s.before[i], s, honoured, archive, picks, originals).value.after
            in TakeAll(s.images, s.before, honoured, archive, picks)
  {
    TakeAllKeeps(s.images, s.before, honoured, archive, picks);
    assert s.before[i] in s.before;
  }

  lemma ChosenCoverTaken(a: AlbumState, s: Plan, honoured: map<Carrier, Choice>, archive: Option<Image>,
                         picks: map<string, Image>, originals: map<Digest, Digest>)
    requires ExactTable(s)
    requires ChosenForCover(a.dir, a.cover, s, honoured, archive, picks, originals).Some?
    ensures ChosenForCover(a.dir, a.cover, s, honoured, archive, picks, originals).value.after
            in Take(TakeAll(s.images, s.before, honoured, archive, picks), Taken(honoured, CoverCarrier, archive, picks))
  {
    TakeAllKeeps(s.images, s.before, honoured, archive, picks);
  }

  lemma ChosenImagesTaken(a: AlbumState, s: Plan, honoured: map<Carrier, Choice>, archive: Option<Image>,
                          picks: map<string, Image>, originals: map<Digest, Digest>, c: Change)
    requires WellFormed(a) && LaidOut(a, s) && ExactTable(s)
    requires c in ChosenForTracks(s.before, s, honoured, archive, picks, originals)
                  + Listed(ChosenForCover(a.dir, a.cover, s, honoured, archive, picks, originals))
    ensures c.after in Take(TakeAll(s.images, s.before, honoured, archive, picks), Taken(honoured, CoverCarrier, archive, picks))
  {
    var writes := ChosenWrites(s.before, s, honoured, archive, picks, originals);
    ChosenFlatten(s.before, s, honoured, archive, picks, originals);
    if c in Flatten(writes) {
      ChosenWritesPerTrack(a, s, honoured, archive, picks, originals);
      FlattenedFrom(s.before, writes, c);
      var i :| 0 <= i < |writes| && writes[i] == Some(c);
      ChosenImageTaken(a, s, honoured, archive, picks, originals, i);
    } else {
      ChosenCoverTaken(a, s, honoured, archive, picks, originals);
    }
  }

  lemma AssembledTable(s: Plan, changes: seq<Change>, images: map<Digest, Incoming>, honoured: map<Carrier, Choice>)
    requires Names(images) && forall c :: c in changes ==> c.after in images
    ensures ExactTable(Assembled(s, changes, images, honoured))
  {
    var p := Assembled(s, changes, images, honoured);
    forall d | d in Afters(changes) ensures d in p.images {
      var c :| c in changes && c.after == d;
    }
  }

  function ChosenChanges(a: AlbumState, s: Plan, archive: Option<Image>, honoured: map<Carrier, Choice>,
                         picks: map<string, Image>, originals: map<Digest, Digest>): seq<Change>
  {
    ChosenForTracks(s.before, s, honoured, archive, picks, originals)
    + Listed(ChosenForCover(a.dir, a.cover, s, honoured, archive, picks, originals))
  }

  /** The table, before what no write names is left out. */
  function ChosenImages(s: Plan, archive: Option<Image>, honoured: map<Carrier, Choice>, picks: map<string, Image>): map<Digest, Incoming> {
    Take(TakeAll(s.images, s.before, honoured, archive, picks), Taken(honoured, CoverCarrier, archive, picks))
  }

  lemma ChosenImagesNamed(s: Plan, archive: Option<Image>, honoured: map<Carrier, Choice>, picks: map<string, Image>)
    requires Names(s.images)
    ensures Names(ChosenImages(s, archive, honoured, picks))
  {
    TakeAllKeeps(s.images, s.before, honoured, archive, picks);
  }

  lemma ChosenImagesHold(a: AlbumState, s: Plan, archive: Option<Image>, honoured: map<Carrier, Choice>,
                         picks: map<string, Image>, originals: map<Digest, Digest>, c: Change)
    requires WellFormed(a) && LaidOut(a, s) && ExactTable(s) && c in ChosenChanges(a, s, archive, honoured, picks, originals)
    ensures c.after in ChosenImages(s, archive, honoured, picks)
  {
    ChosenImagesTaken(a, s, honoured, archive, picks, originals, c);
  }

  lemma TableNames(s: Plan)
    requires ExactTable(s)
    ensures Names(s.images)
  {
    forall d | d in s.images ensures s.images[d].image.digest == d {
      assert d in Afters(s.changes);
      var c :| c in s.changes && c.after == d;
    }
  }

  lemma ChosenTable(a: AlbumState, s: Plan, archive: Option<Image>, choices: map<Carrier, Choice>,
                    picks: map<string, Image>, originals: map<Digest, Digest>)
    requires WellFormed(a) && LaidOut(a, s) && ExactTable(s)
    ensures ExactTable(WithChoices(s, a.cover, archive, choices, picks, originals))
  {
    var honoured := Honoured(choices, s.before, archive, picks);
    if honoured != map[] {
      var changes := ChosenChanges(a, s, archive, honoured, picks, originals);
      var images := ChosenImages(s, archive, honoured, picks);
      TableNames(s);
      ChosenImagesNamed(s, archive, honoured, picks);
      forall c | c in changes ensures c.after in images {
        ChosenImagesHold(a, s, archive, honoured, picks, originals, c);
      }
      AssembledTable(s, changes, images, honoured);
    }
  }

  lemma TableIsExact(a: AlbumState, archive: Option<Image>, o: Options)
    requires WellFormed(a)
    ensures ExactTable(MakePlan(a, archive, o))
  {
    var s := Suggest(a, Weighed(archive, o), o);
    SuggestionLaidOut(a, Weighed(archive, o), o);
    SuggestionTable(a, Weighed(archive, o), o);
    if !o.overwrite && !o.unreadable {
      var choices := Given(a, archive, o) + o.choices;
      ChosenTable(a, s, archive, choices, o.picks, o.originals);
      RenamedTable(WithChoices(s, a.cover, archive, choices, o.picks, o.originals), a.cover);
    } else {
      RenamedTable(s, a.cover);
    }
  }

  lemma RenamedTable(p: Plan, cover: Option<FolderCover>)
    requires ExactTable(p)
    ensures ExactTable(Renamed(p, cover))
  {
  }

  // ----- the theorems -----

  /** The choices in force: the user's own, over those given to the carriers still holding a stand-in. */
  function InForce(a: AlbumState, archive: Option<Image>, o: Options): map<Carrier, Choice> {
    Honoured(Given(a, archive, o) + o.choices, Before(a.tracks), archive, o.picks)
  }

  /**
   A track nobody chose for gets exactly the suggestion's write, a kept one gets none, and an image chosen
   for a carrier reaches exactly those of its tracks that are not settled with it already.
   */
  lemma TrackChoicesAreAFrame(a: AlbumState, archive: Option<Image>, o: Options, i: nat)
    requires WellFormed(a) && !o.overwrite && !o.unreadable && i < |a.tracks|
    ensures var held := DigestOf(a.tracks[i].art);
      var carrier := CarrierOfDigest(held);
      var honoured := InForce(a, archive, o);
      var write := ChangeAt(MakePlan(a, archive, o).changes, a.tracks[i].path);
      if carrier !in honoured then write == ChangeAt(Suggest(a, Weighed(archive, o), o).changes, a.tracks[i].path)
      else
        var image := ImageOf(honoured[carrier], archive, o.picks);
        && (honoured[carrier].Keep? <==> image.None?)
        && (write.Some? <==> image.Some? && !Settled(held, image.value, o.originals))
        && (write.Some? ==> write.value.before == held && write.value.after == image.value.digest)
  {
    var s := Suggest(a, Weighed(archive, o), o);
    WriteInForce(a, archive, o, i);
    assert s.before[i] == Carried(a.tracks[i].path, DigestOf(a.tracks[i].art)) by {
      SuggestionLaidOut(a, Weighed(archive, o), o);
    }
  }

  lemma WriteInForce(a: AlbumState, archive: Option<Image>, o: Options, i: nat)
    requires WellFormed(a) && !o.overwrite && !o.unreadable && i < |a.tracks|
    ensures var s := Suggest(a, Weighed(archive, o), o);
      && s.before == Before(a.tracks)
      && ChangeAt(MakePlan(a, archive, o).changes, a.tracks[i].path)
         == ChosenForTrack(s.before[i], s, InForce(a, archive, o), archive, o.picks, o.originals)
  {
    var s := Suggest(a, Weighed(archive, o), o);
    var choices := Given(a, archive, o) + o.choices;
    var c := WithChoices(s, a.cover, archive, choices, o.picks, o.originals);
    SuggestionLaidOut(a, Weighed(archive, o), o);
    ChosenLaidOut(a, s, archive, choices, o.picks, o.originals);
    RenamedLaidOut(a, c);
    assert Writes(Renamed(c, a.cover))[i] == Writes(c)[i];
  }

  /** The same for the folder cover, whose one other write can be a rename that keeps its image. */
  lemma CoverChoicesAreAFrame(a: AlbumState, archive: Option<Image>, o: Options)
    requires WellFormed(a) && !o.overwrite && !o.unreadable
    ensures var honoured := InForce(a, archive, o);
      var write := CoverChange(MakePlan(a, archive, o).changes);
      var image := Taken(honoured, CoverCarrier, archive, o.picks);
      if CoverCarrier !in honoured then
        var suggested := CoverChange(Suggest(a, Weighed(archive, o), o).changes);
        write == suggested || (suggested.None? && write.value.renameOnly)
      else if honoured[CoverCarrier].Keep? then write.None?
      else if a.cover.Some? && Settled(CoverDigest(a), image.value, o.originals) then write.Some? ==> write.value.renameOnly
      else write.Some? && !write.value.renameOnly && write.value.after == image.value.digest
  {
    var s := Suggest(a, Weighed(archive, o), o);
    var choices := Given(a, archive, o) + o.choices;
    var c := WithChoices(s, a.cover, archive, choices, o.picks, o.originals);
    SuggestionLaidOut(a, Weighed(archive, o), o);
    ChosenLaidOut(a, s, archive, choices, o.picks, o.originals);
    RenamedLaidOut(a, c);
  }

  /** No audio file bears the folder cover's name, or one it may be given. */
  ghost predicate CoverApart(a: AlbumState) {
    forall t :: t in a.tracks ==>
      && t.path != Path(a.dir, JPG) && t.path != Path(a.dir, PNG)
      && (a.cover.Some? ==> t.path != CoverTarget(a.dir, a.cover.value))
  }

  lemma LaidOutOnce(a: AlbumState, p: Plan)
    requires WellFormed(a) && CoverApart(a) && LaidOut(a, p)
    ensures TargetsOnce(p.changes)
  {
    var tracks := Flatten(Writes(p));
    FlattenedOnce(p.before, Writes(p));
    forall i | 0 <= i < |tracks| && CoverChange(p.changes).Some?
      ensures tracks[i].target != CoverChange(p.changes).value.target
    {
      FlattenedFrom(p.before, Writes(p), tracks[i]);
      var k :| 0 <= k < |Writes(p)| && Writes(p)[k] == Some(tracks[i]);
      assert a.tracks[k] in a.tracks && p.before[k].path == a.tracks[k].path;
    }
    assert p.changes == tracks + Listed(CoverChange(p.changes));
    OnceMore(tracks, CoverChange(p.changes));
  }

  lemma OnceMore(changes: seq<Change>, c: Option<Change>)
    requires TargetsOnce(changes)
    requires c.Some? ==> forall i :: 0 <= i < |changes| ==> changes[i].target != c.value.target
    ensures TargetsOnce(changes + Listed(c))
  {
  }

  /** Whatever the options and the choices, no target is written twice. */
  lemma EachTargetOnce(a: AlbumState, archive: Option<Image>, o: Options)
    requires WellFormed(a) && CoverApart(a)
    ensures TargetsOnce(MakePlan(a, archive, o).changes)
  {
    PlansLaidOut(a, archive, o);
    LaidOutOnce(a, MakePlan(a, archive, o));
  }

  /** The folder cover's one write among the changes, when it has one. */
  lemma OneCoverWrite(a: AlbumState, s: Plan, c: Change)
    requires LaidOut(a, s) && c in s.changes && c.folderCover
    ensures CoverChange(s.changes) == Some(c)
  {
    if c in Flatten(Writes(s)) {
      FlattenedFrom(s.before, Writes(s), c);
    }
  }

  /** Whatever the options and the choices, writing only a plan's additions loses no image the album carries. */
  lemma AdditionsLoseNothing(a: AlbumState, archive: Option<Image>, o: Options)
    requires WellFormed(a)
    ensures Complete(MakePlan(a, archive, o))
    ensures var b := Apply(a, MakePlan(a, archive, o), Additions);
      && (forall i :: 0 <= i < |a.tracks| && a.tracks[i].art.Some? ==> b.tracks[i] == a.tracks[i])
      && (a.cover.Some? ==> b.cover.Some? && b.cover.value.image.digest == a.cover.value.image.digest)
    // What is added is what writing everything would have added.
    ensures var b, all := Apply(a, MakePlan(a, archive, o), Additions), Apply(a, MakePlan(a, archive, o), Everything);
      && (forall i :: 0 <= i < |a.tracks| && a.tracks[i].art.None? ==> b.tracks[i] == all.tracks[i])
      && (a.cover.None? || OnlyRenamed(MakePlan(a, archive, o)) ==> b.cover == all.cover)
  {
    PlansLaidOut(a, archive, o);
    TableIsExact(a, archive, o);
    AdditionsAddAll(a, MakePlan(a, archive, o));
    AdditionsLoseNoTrack(a, MakePlan(a, archive, o));
    AdditionsKeepTheCover(a, MakePlan(a, archive, o));
  }

  lemma {:induction false} ScopedTrack(changes: seq<Change>, path: Path)
    requires forall c :: c in changes && !c.folderCover && c.target == path ==> c.before.None?
    ensures ChangeAt(Scoped(changes, Additions), path) == ChangeAt(changes, path)
  {
    if changes != [] {
      ScopedTrack(changes[1..], path);
      var rest := Scoped(changes[1..], Additions);
      assert changes[0] in changes;
      assert ([changes[0]] + rest)[1..] == rest;
      assert [] + rest == rest;
    }
  }

  lemma {:induction false} ScopedCover(changes: seq<Change>)
    requires forall c :: c in changes && c.folderCover ==> c.before.None? || c.renameOnly
    ensures CoverChange(Scoped(changes, Additions)) == CoverChange(changes)
  {
    if changes != [] {
      ScopedCover(changes[1..]);
      var rest := Scoped(changes[1..], Additions);
      assert changes[0] in changes;
      assert ([changes[0]] + rest)[1..] == rest;
      assert [] + rest == rest;
    }
  }

  /** The plan renames the folder cover and keeps its image. */
  ghost predicate OnlyRenamed(p: Plan) {
    CoverChange(p.changes).Some? && CoverChange(p.changes).value.renameOnly
  }

  lemma AdditionsAddAll(a: AlbumState, p: Plan)
    requires WellFormed(a) && LaidOut(a, p) && Complete(p)
    ensures forall i :: 0 <= i < |a.tracks| && a.tracks[i].art.None? ==> Written(a.tracks[i], p, Additions) == Written(a.tracks[i], p, Everything)
    ensures a.cover.None? || OnlyRenamed(p) ==> WrittenCover(a.cover, p, Additions) == WrittenCover(a.cover, p, Everything)
  {
    forall i | 0 <= i < |a.tracks| && a.tracks[i].art.None? ensures Written(a.tracks[i], p, Additions) == Written(a.tracks[i], p, Everything) {
      forall c | c in p.changes && !c.folderCover && c.target == a.tracks[i].path ensures c.before.None? {
        FlattenedFrom(p.before, Writes(p), c);
      }
      ScopedTrack(p.changes, a.tracks[i].path);
    }
    if a.cover.None? || OnlyRenamed(p) {
      forall c | c in p.changes && c.folderCover ensures c.before.None? || c.renameOnly {
        OneCoverWrite(a, p, c);
      }
      ScopedCover(p.changes);
    }
  }

  lemma AdditionsLoseNoTrack(a: AlbumState, p: Plan)
    requires WellFormed(a) && LaidOut(a, p) && Complete(p)
    ensures forall i :: 0 <= i < |a.tracks| && a.tracks[i].art.Some? ==> Written(a.tracks[i], p, Additions) == a.tracks[i]
  {
    forall i | 0 <= i < |a.tracks| && a.tracks[i].art.Some? ensures Written(a.tracks[i], p, Additions) == a.tracks[i] {
      var c := ChangeAt(Scoped(p.changes, Additions), a.tracks[i].path);
      if c.Some? {
        assert c.value in Flatten(Writes(p));
        FlattenedFrom(p.before, Writes(p), c.value);
        assert false;
      }
    }
  }

  lemma AdditionsKeepTheCover(a: AlbumState, p: Plan)
    requires LaidOut(a, p) && Complete(p)
    ensures a.cover.Some? ==> WrittenCover(a.cover, p, Additions).Some?
                              && WrittenCover(a.cover, p, Additions).value.image.digest == a.cover.value.image.digest
  {
    var cover := CoverChange(Scoped(p.changes, Additions));
    if cover.Some? {
      OneCoverWrite(a, p, cover.value);
    }
  }

  // ----- the loops that lay the choices over the suggestion -----

  ghost predicate IsKept(kept: map<Path, Change>, changes: seq<Change>, honoured: map<Carrier, Choice>) {
    && (forall c :: c in changes && CarrierOf(c) !in honoured ==> c.target in kept && kept[c.target] == c)
    && forall path :: path in kept ==> kept[path] in changes && kept[path].target == path && CarrierOf(kept[path]) !in honoured
  }

  /** `chosen` holds, by path, the writes of the honoured carriers' tracks. */
  ghost predicate IsChosen(chosen: map<Path, Change>, s: Plan, honoured: map<Carrier, Choice>, archive: Option<Image>,
                           picks: map<string, Image>, originals: map<Digest, Digest>)
  {
    forall c :: c in s.before ==>
      && (c.path in chosen <==> CarrierOfDigest(c.digest) in honoured
                                && ChosenForTrack(c, s, honoured, archive, picks, originals).Some?)
      && (c.path in chosen ==> Some(chosen[c.path]) == ChosenForTrack(c, s, honoured, archive, picks, originals))
  }

  /** The suggestion's own changes for the carriers nobody chose for, by target. */
  method KeptChanges(changes: seq<Change>, honoured: map<Carrier, Choice>) returns (kept: map<Path, Change>)
    requires TargetsOnce(changes)
    ensures IsKept(kept, changes, honoured)
  {
    kept := map[];
    for k := 0 to |changes|
      invariant forall i :: 0 <= i < k && CarrierOf(changes[i]) !in honoured
                  ==> changes[i].target in kept && kept[changes[i].target] == changes[i]
      invariant forall path :: path in kept ==> kept[path] in changes[..k] && kept[path].target == path && CarrierOf(kept[path]) !in honoured
    {
      if CarrierOf(changes[k]) !in honoured {
        kept := kept[changes[k].target := changes[k]];
      }
    }
  }

  lemma {:induction false} FoundAt(changes: seq<Change>, c: Change)
    requires TargetsOnce(changes)
    requires c in changes && !c.folderCover
    ensures ChangeAt(changes, c.target) == Some(c)
  {
    if changes[0] != c {
      assert c in changes[1..];
      var i :| 0 < i < |changes| && changes[i] == c;
      assert changes[0].target != changes[i].target;
      FoundAt(changes[1..], c);
    }
  }

  /** The first loop over the tracks: the writes chosen for them, by path, and every image taken on the way. */
  method TakeForTracks(s: Plan, honoured: map<Carrier, Choice>, archive: Option<Image>, picks: map<string, Image>,
                       originals: map<Digest, Digest>)
    returns (chosen: map<Path, Change>, images: map<Digest, Incoming>)
    requires forall i, j :: 0 <= i < j < |s.before| ==> s.before[i].path != s.before[j].path
    ensures IsChosen(chosen, s, honoured, archive, picks, originals)
    ensures images == TakeAll(s.images, s.before, honoured, archive, picks)
  {
    var before := s.before;
    chosen, images := map[], s.images;
    for i := 0 to |before|
      invariant TakeAll(images, before[i..], honoured, archive, picks) == TakeAll(s.images, before, honoured, archive, picks)
      invariant forall j :: 0 <= j < i ==> (before[j].path in chosen <==>
                  CarrierOfDigest(before[j].digest) in honoured
                  && ChosenForTrack(before[j], s, honoured, archive, picks, originals).Some?)
      invariant forall j :: 0 <= j < i && before[j].path in chosen
                  ==> Some(chosen[before[j].path]) == ChosenForTrack(before[j], s, honoured, archive, picks, originals)
      invariant forall j :: i <= j < |before| ==> before[j].path !in chosen
    {
      assert before[i..][0] == before[i] && before[i..][1..] == before[i + 1..];
      var image := Taken(honoured, CarrierOfDigest(before[i].digest), archive, picks);
      if image.Some? {
        images := images[image.value.digest := Incoming(image.value, FromArchive)];
        if !Settled(before[i].digest, image.value, originals) {
          chosen := chosen[before[i].path := Change(before[i].path, before[i].digest, image.value.digest, false, None, false)];
        }
      }
    }
  }

  /** A track's write: the chosen one, or the kept one, unless that is the folder cover's. */
  function WriteFor(path: Path, chosen: map<Path, Change>, kept: map<Path, Change>): Option<Change> {
    var c := if path in chosen then Some(chosen[path]) else if path in kept then Some(kept[path]) else None;
    if c.Some? && !c.value.folderCover then c else None
  }

  /** The second loop: each track's write, in album order. */
  method ListForTracks(s: Plan, chosen: map<Path, Change>, kept: map<Path, Change>, ghost honoured: map<Carrier, Choice>,
                       ghost archive: Option<Image>, ghost picks: map<string, Image>, ghost originals: map<Digest, Digest>)
    returns (changes: seq<Change>)
    requires forall i :: 0 <= i < |s.before|
               ==> WriteFor(s.before[i].path, chosen, kept) == ChosenForTrack(s.before[i], s, honoured, archive, picks, originals)
    ensures changes == ChosenForTracks(s.before, s, honoured, archive, picks, originals)
  {
    changes := [];
    assert s.before[0..] == s.before;
    for i := 0 to |s.before|
      invariant changes + ChosenForTracks(s.before[i..], s, honoured, archive, picks, originals)
             == ChosenForTracks(s.before, s, honoured, archive, picks, originals)
    {
      var write := Listed(WriteFor(s.before[i].path, chosen, kept));
      ChosenStep(s, honoured, archive, picks, originals, i);
      Regroup(changes, write, ChosenForTracks(s.before[i + 1..], s, honoured, archive, picks, originals));
      changes := changes + write;
    }
  }

  lemma ChosenStep(s: Plan, honoured: map<Carrier, Choice>, archive: Option<Image>, picks: map<string, Image>,
                   originals: map<Digest, Digest>, i: nat)
    requires i < |s.before|
    ensures ChosenForTracks(s.before[i..], s, honoured, archive, picks, originals)
            == Listed(ChosenForTrack(s.before[i], s, honoured, archive, picks, originals))
               + ChosenForTracks(s.before[i + 1..], s, honoured, archive, picks, originals)
  {
    assert s.before[i..][0] == s.before[i] && s.before[i..][1..] == s.before[i + 1..];
  }

  lemma WriteIsChosen(a: AlbumState, s: Plan, chosen: map<Path, Change>, kept: map<Path, Change>,
                      honoured: map<Carrier, Choice>, archive: Option<Image>, picks: map<string, Image>,
                      originals: map<Digest, Digest>, i: nat)
    requires WellFormed(a) && CoverApart(a) && LaidOut(a, s) && i < |s.before|
    requires IsKept(kept, s.changes, honoured) && IsChosen(chosen, s, honoured, archive, picks, originals)
    ensures WriteFor(s.before[i].path, chosen, kept) == ChosenForTrack(s.before[i], s, honoured, archive, picks, originals)
  {
    KeptForTrack(a, s, kept, honoured, i);
    assert s.before[i] in s.before;
  }

  lemma WritesAreChosen(a: AlbumState, s: Plan, chosen: map<Path, Change>, kept: map<Path, Change>,
                        honoured: map<Carrier, Choice>, archive: Option<Image>, picks: map<string, Image>,
                        originals: map<Digest, Digest>)
    requires WellFormed(a) && CoverApart(a) && LaidOut(a, s)
    requires IsKept(kept, s.changes, honoured) && IsChosen(chosen, s, honoured, archive, picks, originals)
    ensures forall i :: 0 <= i < |s.before|
              ==> WriteFor(s.before[i].path, chosen, kept) == ChosenForTrack(s.before[i], s, honoured, archive, picks, originals)
  {
    forall i | 0 <= i < |s.before|
      ensures WriteFor(s.before[i].path, chosen, kept) == ChosenForTrack(s.before[i], s, honoured, archive, picks, originals)
    {
      WriteIsChosen(a, s, chosen, kept, honoured, archive, picks, originals, i);
    }
  }

  /** What was kept at a track's path is the suggestion's write there, unless its carrier was chosen for. */
  lemma KeptForTrack(a: AlbumState, s: Plan, kept: map<Path, Change>, honoured: map<Carrier, Choice>, i: nat)
    requires WellFormed(a) && CoverApart(a) && LaidOut(a, s) && i < |s.before|
    requires IsKept(kept, s.changes, honoured)
    ensures var path := s.before[i].path;
      && (path in kept ==> !kept[path].folderCover)
      && (if CarrierOfDigest(s.before[i].digest) in honoured then path !in kept
          else ChangeAt(s.changes, path) == if path in kept then Some(kept[path]) else None)
  {
    var path := s.before[i].path;
    LaidOutOnce(a, s);
    assert a.tracks[i] in a.tracks && a.tracks[i].path == path;
    assert Writes(s)[i] == ChangeAt(s.changes, path);
    if path in kept {
      var c := kept[path];
      if c.folderCover {
        OneCoverWrite(a, s, c);
      } else {
        FoundAt(s.changes, c);
      }
    }
  }

  /** The folder cover's write, if it has one, and its image. */
  method ListForCover(ghost a: AlbumState, s: Plan, cover: Option<FolderCover>, kept: map<Path, Change>,
                      taken: map<Digest, Incoming>, honoured: map<Carrier, Choice>, archive: Option<Image>,
                      picks: map<string, Image>, originals: map<Digest, Digest>)
    returns (covers: seq<Change>, images: map<Digest, Incoming>)
    requires LaidOut(a, s) && IsKept(kept, s.changes, honoured)
    ensures covers == Listed(ChosenForCover(s.dir, cover, s, honoured, archive, picks, originals))
    ensures images == Take(taken, Taken(honoured, CoverCarrier, archive, picks))
  {
    covers, images := [], taken;
    var own := CoverChange(s.changes);
    if own.Some? && own.value.target in kept && kept[own.value.target] == own.value {
      covers := [own.value];
    }
    var image := Taken(honoured, CoverCarrier, archive, picks);
    if image.Some? {
      images := images[image.value.digest := Incoming(image.value, FromArchive)];
      match cover
      case None => covers := covers + [Creating(s.dir, image.value)];
      case Some(c) =>
        if !Settled(Some(c.image.digest), image.value, originals) {
          covers := covers + [Replacing(s.dir, c, image.value)];
        }
    }
  }

  /** The whole of it, as the program builds it: two dictionaries of writes and one of images. */
  method LayChoices(ghost a: AlbumState, s: Plan, cover: Option<FolderCover>, archive: Option<Image>,
                    choices: map<Carrier, Choice>, picks: map<string, Image>, originals: map<Digest, Digest>)
    returns (p: Plan)
    requires WellFormed(a) && CoverApart(a) && LaidOut(a, s)
    ensures p == WithChoices(s, cover, archive, choices, picks, originals)
  {
    var honoured := Honoured(choices, s.before, archive, picks);
    if honoured == map[] {
      return s;
    }
    LaidOutOnce(a, s);
    var kept := KeptChanges(s.changes, honoured);
    var chosen, taken := TakeForTracks(s, honoured, archive, picks, originals);
    WritesAreChosen(a, s, chosen, kept, honoured, archive, picks, originals);
    var tracks := ListForTracks(s, chosen, kept, honoured, archive, picks, originals);
    var covers, images := ListForCover(a, s, cover, kept, taken, honoured, archive, picks, originals);
    p := Assembled(s, tracks + covers, images, honoured);
  }
}

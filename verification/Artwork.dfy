/**
 The artwork plan: what an album's images become, decided once.

 Digests are strings compared for equality only. An image is described, never carried. A mapping that
 the program keeps in insertion order is a sequence here, so the order of the writes is modelled too.
 */
module Artwork {
  import opened Common

  type Digest = string

  datatype Size = Size(width: nat, height: nat)

  /** An image's type: said by its own bytes, or only claimed by a label or a file name. */
  datatype Type = IsPng | IsJpeg | Claims(png: bool)

  datatype Image = Image(digest: Digest, kind: Type, length: nat, size: Option<Size>)

  datatype Name = Name(stem: string, suffix: string)

  datatype Path = Path(dir: string, name: Name)

  datatype Track = Track(path: Path, art: Option<Image>)

  /** The `cover.*` beside the audio; `beside` names the other covers a rename must not land on. */
  datatype FolderCover = FolderCover(name: Name, image: Image, path: Option<Path>, beside: set<Name>)

  datatype Source = FromFolder | FromAlbum | FromArchive

  datatype Incoming = Incoming(image: Image, source: Source)

  datatype Policy = Never | IfMissing

  datatype Scope = Additions | Everything

  datatype Operation = Addition | Replacement

  /** What a choice names: the folder cover, the tracks with no image, or the tracks sharing one. */
  datatype Carrier = CoverCarrier | Gap | Sharing(digest: Digest)

  datatype Choice = Keep | UseArchive | Pick(id: string)

  datatype Change = Change(target: Path, before: Option<Digest>, after: Digest, folderCover: bool,
                           renameTo: Option<Path>, renameOnly: bool)
  {
    function Does(): Operation {
      if before.None? || renameOnly then Addition else Replacement
    }
  }

  /** What one readable track holds now. */
  datatype Carried = Carried(path: Path, digest: Option<Digest>)

  datatype Plan = Plan(dir: string, before: seq<Carried>, images: map<Digest, Incoming>,
                       changes: seq<Change>, preserves: bool, choices: map<Carrier, Choice>)

  /** The keyword arguments of a plan. */
  datatype Options = Options(overwrite: bool, unreadable: bool, chosen: Option<Source>,
                             choices: map<Carrier, Choice>, picks: map<string, Image>,
                             standIns: set<Digest>, excluded: bool, policy: Policy,
                             lossless: bool, audioBytes: Option<nat>, originals: map<Digest, Digest>)

  /** What a plan reads of an album. */
  datatype AlbumState = AlbumState(dir: string, tracks: seq<Track>, cover: Option<FolderCover>)

  // ----- the rules about one image -----

  const PLAYER_MAX_BYTES: nat := 20_000_000

  predicate TooLarge(image: Image) {
    image.length > PLAYER_MAX_BYTES
  }

  /** Strictly larger on both axes; an unmeasured image neither beats nor is beaten. */
  predicate Beats(mine: Option<Size>, theirs: Option<Size>) {
    mine.Some? && theirs.Some? && mine.value.width > theirs.value.width && mine.value.height > theirs.value.height
  }

  predicate Holds(carried: Option<Digest>, wanted: Digest, originals: map<Digest, Digest>) {
    carried.Some? &&
    (carried.value == wanted || (carried.value in originals && originals[carried.value] == wanted))
  }

  predicate Settled(carried: Option<Digest>, wanted: Image, originals: map<Digest, Digest>) {
    Holds(carried, wanted.digest, originals) && !(carried == Some(wanted.digest) && TooLarge(wanted))
  }

  function DigestOf(art: Option<Image>): Option<Digest> {
    if art.Some? then Some(art.value.digest) else None
  }

  function Before(tracks: seq<Track>): (carried: seq<Carried>)
    ensures |carried| == |tracks|
    ensures forall i :: 0 <= i < |tracks| ==> carried[i] == Carried(tracks[i].path, DigestOf(tracks[i].art))
  {
    seq(|tracks|, i requires 0 <= i < |tracks| => Carried(tracks[i].path, DigestOf(tracks[i].art)))
  }

  /** The tracks carry different images, which a re-tag must not destroy. */
  predicate PerTrack(before: seq<Carried>) {
    |set c | c in before && c.digest.Some? :: c.digest.value| > 1
  }

  /** The image of the first track that has one. */
  function FirstArt(tracks: seq<Track>): Option<Image> {
    if tracks == [] then None
    else if tracks[0].art.Some? then tracks[0].art
    else FirstArt(tracks[1..])
  }

  /** How many bytes `image` in every track would add. */
  function Growth(tracks: seq<Track>, image: Image): int {
    if tracks == [] then 0
    else image.length - (if tracks[0].art.Some? then tracks[0].art.value.length else 0) + Growth(tracks[1..], image)
  }

  /** At most a tenth of the audio; an album of unknown or no size never qualifies. */
  predicate CheapToEmbed(tracks: seq<Track>, image: Image, audioBytes: Option<nat>) {
    audioBytes.Some? && audioBytes.value != 0 && 10 * Growth(tracks, image) <= audioBytes.value
  }

  // ----- naming the folder cover -----

  const JPG := Name("cover", ".jpg")
  const PNG := Name("cover", ".png")

  function TypeName(image: Image): Name {
    if image.kind == IsPng || image.kind == Claims(true) then PNG else JPG
  }

  /** Named for the image as it will be written: one over the limit is written as a JPEG. */
  function CoverName(image: Image): Name {
    if TooLarge(image) then JPG else TypeName(image)
  }

  function LowerChar(c: char): char {
    if 'A' <= c <= 'Z' then c - 'A' + 'a' else c
  }

  function Lower(s: string): string {
    seq(|s|, i requires 0 <= i < |s| => LowerChar(s[i]))
  }

  function CoverTarget(dir: string, cover: FolderCover): Path {
    if cover.path.Some? then cover.path.value else Path(dir, cover.name)
  }

  /** Whether a cover at `target` would move to `name`: another type's suffix, and a free name. */
  predicate Moves(target: Path, name: Name, beside: set<Name>) {
    name.suffix != Lower(target.name.suffix) && name !in beside
  }

  function Replacing(dir: string, cover: FolderCover, image: Image): Change {
    var target := CoverTarget(dir, cover);
    var name := CoverName(image);
    Change(target, Some(cover.image.digest), image.digest, true,
           if Moves(target, name, cover.beside) then Some(Path(target.dir, name)) else None, false)
  }

  function Creating(dir: string, image: Image): Change {
    Change(Path(dir, CoverName(image)), None, image.digest, true, None, false)
  }

  // ----- from a winner to the writes -----

  function TrackChanges(targets: seq<Carried>, winner: Image, originals: map<Digest, Digest>): (changes: seq<Change>)
    ensures forall c :: c in changes ==> c.after == winner.digest && !c.folderCover && !c.renameOnly && c.renameTo.None?
  {
    if targets == [] then []
    else
      var others := TrackChanges(targets[1..], winner, originals);
      if Settled(targets[0].digest, winner, originals) then others
      else [Change(targets[0].path, targets[0].digest, winner.digest, false, None, false)] + others
  }

  function CoverChanges(dir: string, cover: Option<FolderCover>, image: Image, policy: Policy,
                        originals: map<Digest, Digest>): (changes: seq<Change>)
    ensures |changes| <= 1
    ensures forall c :: c in changes ==> c.after == image.digest && c.folderCover && !c.renameOnly
  {
    match cover
    case None => if policy == Never then [] else [Creating(dir, image)]
    case Some(c) => if Settled(Some(c.image.digest), image, originals) then [] else [Replacing(dir, c, image)]
  }

  function Afters(changes: seq<Change>): set<Digest> {
    set c | c in changes :: c.after
  }

  function Restrict(images: map<Digest, Incoming>, digests: set<Digest>): map<Digest, Incoming> {
    map d | d in digests && d in images :: images[d]
  }

  /** Every write that puts `winner` on `targets` and `forCover` on the folder cover. */
  function PlanFor(dir: string, targets: seq<Carried>, cover: Option<FolderCover>, winner: Incoming,
                   forCover: Incoming, before: seq<Carried>, preserves: bool, policy: Policy,
                   originals: map<Digest, Digest>): Plan
  {
    var changes := TrackChanges(targets, winner.image, originals)
                   + CoverChanges(dir, cover, forCover.image, policy, originals);
    var images := map[forCover.image.digest := forCover][winner.image.digest := winner];
    Plan(dir, before, Restrict(images, Afters(changes)), changes, preserves, map[])
  }

  function NoChanges(dir: string, before: seq<Carried>, preserves: bool): Plan {
    Plan(dir, before, map[], [], preserves, map[])
  }

  // ----- the size rule's suggestion -----

  /** The candidate, when there is nothing yet or it beats what there is. */
  function Better(best: Option<Incoming>, candidate: Option<Image>, source: Source): Option<Incoming> {
    if candidate.Some? && (best.None? || Beats(candidate.value.size, best.value.image.size))
    then Some(Incoming(candidate.value, source)) else best
  }

  function CoverOf(cover: Option<FolderCover>): Option<Incoming> {
    if cover.Some? then Some(Incoming(cover.value.image, FromFolder)) else None
  }

  /** The image the folder cover should hold: the best of the three. */
  function BestCover(cover: Option<FolderCover>, own: Option<Image>, archive: Option<Image>): Option<Incoming> {
    Better(Better(CoverOf(cover), own, FromAlbum), archive, FromArchive)
  }

  /** The loop that picks it, ties keeping what is already there: nothing on offer beats the pick. */
  method PickCover(cover: Option<FolderCover>, own: Option<Image>, archive: Option<Image>) returns (best: Option<Incoming>)
    ensures best == BestCover(cover, own, archive)
    ensures best.Some? ==> forall i :: i in [own, archive] && i.Some? ==> !Beats(i.value.size, best.value.image.size)
    ensures best.Some? && cover.Some? ==> !Beats(cover.value.image.size, best.value.image.size)
  {
    best := CoverOf(cover);
    var candidates := [(own, FromAlbum), (archive, FromArchive)];
    var i := 0;
    while i < |candidates|
      invariant 0 <= i <= 2
      invariant best == if i == 0 then CoverOf(cover)
                        else if i == 1 then Better(CoverOf(cover), own, FromAlbum)
                        else BestCover(cover, own, archive)
    {
      var (candidate, source) := candidates[i];
      if candidate.Some? && (best.None? || Beats(candidate.value.size, best.value.image.size)) {
        best := Some(Incoming(candidate.value, source));
      }
      i := i + 1;
    }
  }

  /** The archive's front may displace the tracks' own image. */
  predicate Embiggens(tracks: seq<Track>, cover: Option<FolderCover>, archive: Option<Image>, o: Options) {
    var own := FirstArt(tracks);
    cover.None? && own.Some? && archive.Some? && Beats(archive.value.size, own.value.size)
    && (o.lossless || CheapToEmbed(tracks, archive.value, o.audioBytes))
  }

  /** The image the tracks should hold. */
  function BestForTracks(tracks: seq<Track>, cover: Option<FolderCover>, archive: Option<Image>, o: Options): Option<Incoming> {
    var own := FirstArt(tracks);
    if Embiggens(tracks, cover, archive, o) then Some(Incoming(archive.value, FromArchive))
    else if own.Some? then Some(Incoming(own.value, FromAlbum))
    else if cover.Some? then Some(Incoming(cover.value.image, FromFolder))
    else if archive.Some? then Some(Incoming(archive.value, FromArchive))
    else None
  }

  /** The suggestion for an album whose tracks carry different images. */
  function SuggestPerTrack(a: AlbumState, picked: Option<Image>, archive: Option<Image>, o: Options): Plan {
    var before := Before(a.tracks);
    var wanted := if picked.Some? then picked else if a.cover.None? then archive else None;
    var candidate := if a.cover.None? && o.policy == Never then None else wanted;
    if candidate.Some? then
      var winner := Incoming(candidate.value, FromArchive);
      PlanFor(a.dir, [], if picked.Some? then a.cover else None, winner, winner, before, true, o.policy, o.originals)
    else if a.cover.Some? && TooLarge(a.cover.value.image) then
      var winner := Incoming(a.cover.value.image, FromFolder);
      PlanFor(a.dir, [], a.cover, winner, winner, before, true, o.policy, o.originals)
    else NoChanges(a.dir, before, true)
  }

  /** The suggestion by size alone, for an album whose tracks carry at most one image. */
  function SuggestBySize(a: AlbumState, archive: Option<Image>, o: Options): Plan {
    var before := Before(a.tracks);
    var forTracks := BestForTracks(a.tracks, a.cover, archive, o);
    if forTracks.None? then NoChanges(a.dir, before, false)
    else
      var best := BestCover(a.cover, FirstArt(a.tracks), archive);
      PlanFor(a.dir, before, a.cover, forTracks.value, if best.Some? then best.value else forTracks.value,
              before, false, o.policy, o.originals)
  }

  function Suggest(a: AlbumState, archive: Option<Image>, o: Options): Plan {
    var before := Before(a.tracks);
    var picked := if o.chosen == Some(FromArchive) then archive else None;
    if o.unreadable then NoChanges(a.dir, before, false)
    else if o.overwrite then
      if a.cover.None? then NoChanges(a.dir, before, false)
      else
        var winner := Incoming(a.cover.value.image, FromFolder);
        PlanFor(a.dir, before, a.cover, winner, winner, before, false, IfMissing, o.originals)
    else if PerTrack(before) then SuggestPerTrack(a, picked, archive, o)
    else if picked.Some? then
      var winner := Incoming(picked.value, FromArchive);
      PlanFor(a.dir, before, a.cover, winner, winner, before, false, o.policy, o.originals)
    else SuggestBySize(a, archive, o)
  }

  // ----- the user's choices over the suggestion -----

  function CarrierOfDigest(digest: Option<Digest>): Carrier {
    if digest.Some? then Sharing(digest.value) else Gap
  }

  function CarrierOf(c: Change): Carrier {
    if c.folderCover then CoverCarrier else CarrierOfDigest(c.before)
  }

  function Carriers(before: seq<Carried>): set<Carrier> {
    (set c | c in before :: CarrierOfDigest(c.digest)) + {CoverCarrier}
  }

  /** The image a choice names, when it is in hand. */
  function ImageOf(choice: Choice, archive: Option<Image>, picks: map<string, Image>): Option<Image> {
    match choice
    case Keep => None
    case UseArchive => archive
    case Pick(id) => if id in picks then Some(picks[id]) else None
  }

  function Honoured(choices: map<Carrier, Choice>, before: seq<Carried>, archive: Option<Image>,
                    picks: map<string, Image>): map<Carrier, Choice>
  {
    map c | c in choices && c in Carriers(before) && (choices[c].Keep? || ImageOf(choices[c], archive, picks).Some?)
      :: choices[c]
  }

  /** The image `carrier` was chosen to take, if any. */
  function Taken(honoured: map<Carrier, Choice>, carrier: Carrier, archive: Option<Image>,
                 picks: map<string, Image>): Option<Image>
  {
    if carrier in honoured then ImageOf(honoured[carrier], archive, picks) else None
  }

  function ChangeAt(changes: seq<Change>, path: Path): (c: Option<Change>)
    ensures c.Some? ==> c.value in changes && c.value.target == path && !c.value.folderCover
  {
    if changes == [] then None
    else if changes[0].target == path && !changes[0].folderCover then Some(changes[0])
    else ChangeAt(changes[1..], path)
  }

  function CoverChange(changes: seq<Change>): (c: Option<Change>)
    ensures c.Some? ==> c.value in changes && c.value.folderCover
    ensures c.None? ==> forall d :: d in changes ==> !d.folderCover
  {
    if changes == [] then None
    else if changes[0].folderCover then Some(changes[0])
    else CoverChange(changes[1..])
  }

  /** The write one track gets: the choice's for an honoured carrier, else the suggestion's. */
  function ChosenForTrack(c: Carried, suggested: Plan, honoured: map<Carrier, Choice>, archive: Option<Image>,
                          picks: map<string, Image>, originals: map<Digest, Digest>): Option<Change>
  {
    var carrier := CarrierOfDigest(c.digest);
    if carrier !in honoured then ChangeAt(suggested.changes, c.path)
    else
      var image := Taken(honoured, carrier, archive, picks);
      if image.Some? && !Settled(c.digest, image.value, originals)
      then Some(Change(c.path, c.digest, image.value.digest, false, None, false)) else None
  }

  function Listed(c: Option<Change>): seq<Change> {
    if c.Some? then [c.value] else []
  }

  function ChosenForTracks(carried: seq<Carried>, suggested: Plan, honoured: map<Carrier, Choice>,
                           archive: Option<Image>, picks: map<string, Image>, originals: map<Digest, Digest>): seq<Change>
  {
    if carried == [] then []
    else Listed(ChosenForTrack(carried[0], suggested, honoured, archive, picks, originals))
         + ChosenForTracks(carried[1..], suggested, honoured, archive, picks, originals)
  }

  function ChosenForCover(dir: string, cover: Option<FolderCover>, suggested: Plan, honoured: map<Carrier, Choice>,
                          archive: Option<Image>, picks: map<string, Image>, originals: map<Digest, Digest>): Option<Change>
  {
    if CoverCarrier !in honoured then CoverChange(suggested.changes)
    else
      var image := Taken(honoured, CoverCarrier, archive, picks);
      if image.None? then None
      else
        match cover
        case None => Some(Creating(dir, image.value))
        case Some(c) =>
          if Settled(Some(c.image.digest), image.value, originals) then None
          else Some(Replacing(dir, c, image.value))
  }

  /** The image table with every taken image added, in the order the carriers are visited. */
  function TakeAll(images: map<Digest, Incoming>, carried: seq<Carried>, honoured: map<Carrier, Choice>,
                   archive: Option<Image>, picks: map<string, Image>): map<Digest, Incoming>
    decreases |carried|
  {
    if carried == [] then images
    else TakeAll(Take(images, Taken(honoured, CarrierOfDigest(carried[0].digest), archive, picks)),
                 carried[1..], honoured, archive, picks)
  }

  function Take(images: map<Digest, Incoming>, image: Option<Image>): map<Digest, Incoming> {
    if image.Some? then images[image.value.digest := Incoming(image.value, FromArchive)] else images
  }

  function WithChoices(suggested: Plan, cover: Option<FolderCover>, archive: Option<Image>,
                       choices: map<Carrier, Choice>, picks: map<string, Image>,
                       originals: map<Digest, Digest>): Plan
  {
    var before := suggested.before;
    var honoured := Honoured(choices, before, archive, picks);
    if honoured == map[] then suggested
    else
      var changes := ChosenForTracks(before, suggested, honoured, archive, picks, originals)
                     + Listed(ChosenForCover(suggested.dir, cover, suggested, honoured, archive, picks, originals));
      var images := Take(TakeAll(suggested.images, before, honoured, archive, picks),
                         Taken(honoured, CoverCarrier, archive, picks));
      Assembled(suggested, changes, images, honoured)
  }

  /** The tracks' images are still preserved only while no track is being written. */
  function Assembled(suggested: Plan, changes: seq<Change>, images: map<Digest, Incoming>, honoured: map<Carrier, Choice>): Plan {
    Plan(suggested.dir, suggested.before, Restrict(images, Afters(changes)), changes,
         suggested.preserves && forall c :: c in changes ==> c.folderCover, honoured)
  }

  // ----- the rename-only write -----

  /** The rename a folder cover needs when nothing else is written to it. */
  function Rename(p: Plan, cover: Option<FolderCover>): Option<Change> {
    if cover.None? || CoverChange(p.changes).Some? then None
    else if CoverCarrier in p.choices && p.choices[CoverCarrier] == Choice.Keep then None
    else
      var target := CoverTarget(p.dir, cover.value);
      var name := TypeName(cover.value.image);
      if !Moves(target, name, cover.value.beside) then None
      else
        var d := cover.value.image.digest;
        Some(Change(target, Some(d), d, true, Some(Path(target.dir, name)), true))
  }

  function Renamed(p: Plan, cover: Option<FolderCover>): Plan {
    var r := Rename(p, cover);
    if r.None? then p
    else
      p.(changes := p.changes + [r.value],
         images := p.images[cover.value.image.digest := Incoming(cover.value.image, FromFolder)])
  }

  // ----- the plan -----

  /** The archive's front, unless the user excluded it and did not then choose it. */
  function Weighed(archive: Option<Image>, o: Options): Option<Image> {
    if !o.excluded || o.chosen == Some(FromArchive) then archive else None
  }

  /** The choices given for the carriers that still hold a stand-in. */
  function Given(a: AlbumState, archive: Option<Image>, o: Options): map<Carrier, Choice> {
    if o.standIns == {} || archive.None? || o.excluded then map[]
    else
      var waiting := o.standIns - {archive.value.digest};
      (map t | t in a.tracks && t.art.Some? && t.art.value.digest in waiting :: Sharing(t.art.value.digest) := UseArchive)
      + (if a.cover.Some? && a.cover.value.image.digest in waiting then map[CoverCarrier := UseArchive] else map[])
  }

  function MakePlan(a: AlbumState, archive: Option<Image>, o: Options): Plan {
    var suggested := Suggest(a, Weighed(archive, o), o);
    if o.overwrite || o.unreadable then Renamed(suggested, a.cover)
    else
      var choices := Given(a, archive, o) + o.choices;
      Renamed(WithChoices(suggested, a.cover, archive, choices, o.picks, o.originals), a.cover)
  }

  // ----- narrowing and carrying out a plan -----

  function Scoped(changes: seq<Change>, scope: Scope): (scoped: seq<Change>)
    ensures forall c :: c in scoped <==> c in changes && (scope == Everything || c.Does() == Addition)
  {
    if scope == Everything || changes == [] then changes
    else (if changes[0].Does() == Addition then [changes[0]] else []) + Scoped(changes[1..], scope)
  }

  /** Every image a change names is in the plan's table, so looking it up is total. */
  predicate Complete(p: Plan) {
    forall c :: c in p.changes ==> c.after in p.images && p.images[c.after].image.digest == c.after
  }

  function ImageFor(p: Plan, c: Change): (i: Incoming)
    requires Complete(p) && c in p.changes
    ensures i.image.digest == c.after
  {
    p.images[c.after]
  }

  /** One track after the writes of `scope`. */
  function Written(t: Track, p: Plan, scope: Scope): Track
    requires Complete(p)
  {
    var c := ChangeAt(Scoped(p.changes, scope), t.path);
    if c.Some? then Track(t.path, Some(ImageFor(p, c.value).image)) else t
  }

  /** A folder cover's image as it is read back: where its bytes say nothing, its file name claims its type. */
  function ReadBack(image: Image, name: Name): Image {
    if image.kind.Claims? then image.(kind := Claims(Lower(name.suffix) == ".png")) else image
  }

  /** The folder cover after the writes of `scope`: created, overwritten, moved or left alone. */
  function WrittenCover(cover: Option<FolderCover>, p: Plan, scope: Scope): Option<FolderCover>
    requires Complete(p)
  {
    var c := CoverChange(Scoped(p.changes, scope));
    if c.None? then cover
    else
      var path := if c.value.renameTo.Some? then c.value.renameTo.value else c.value.target;
      Some(FolderCover(path.name, ReadBack(ImageFor(p, c.value).image, path.name), Some(path), if cover.Some? then cover.value.beside else {}))
  }

  /** The album once `scope` of the plan has been written, every image as it was planned. */
  function Apply(a: AlbumState, p: Plan, scope: Scope): AlbumState
    requires Complete(p)
  {
    AlbumState(a.dir, seq(|a.tracks|, i requires 0 <= i < |a.tracks| => Written(a.tracks[i], p, scope)),
               WrittenCover(a.cover, p, scope))
  }

  /** An album's files are distinct. */
  ghost predicate WellFormed(a: AlbumState) {
    forall i, j :: 0 <= i < j < |a.tracks| ==> a.tracks[i].path != a.tracks[j].path
  }
}

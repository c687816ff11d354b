/**
 Where the track table states each per-track tag: a column, a line under the track, the band under the table,
 or inside another tag that already says it.
 */
module TrackColumns {
  import opened Common

  // ----- tags -----

  datatype Owned =
    | Title | Artist | ArtistSort | Artists | Works | Composers | Lyricists | Writers | ComposerSort | Isrcs
    | DiscSubtitle | Media | TrackTotal | DiscNum | ArtistIds | RecordingId | ReleaseTrackId | WorkIds | ComposerIds
    // the album's own, which three of the others are measured against
    | AlbumArtist | AlbumArtistSort | AlbumArtistIds

  /** Every per-track tag but the track number, in column order. */
  const CANDIDATES: seq<Owned> := [
    Title, Artist, ArtistSort, Artists, Works, Composers, Lyricists, Writers, ComposerSort, Isrcs,
    DiscSubtitle, Media, TrackTotal, DiscNum, ArtistIds, RecordingId, ReleaseTrackId, WorkIds, ComposerIds]

  const MAX_EARNED_COLUMNS := 3

  predicate MediumDerived(c: Owned) {
    c == DiscSubtitle || c == Media || c == TrackTotal
  }

  predicate Identifier(c: Owned) {
    c == Isrcs || c == RecordingId || c == ReleaseTrackId || c == ArtistIds || c == WorkIds || c == ComposerIds
  }

  predicate Listable(c: Owned) {
    c == Works || c == Composers || c == Lyricists || c == Writers
  }

  function SubsumedBy(c: Owned): Option<Owned> {
    match c
    case Artists => Some(Artist)
    case WorkIds => Some(Works)
    case ComposerSort => Some(Composers)
    case ComposerIds => Some(Composers)
    case _ => None
  }

  function AlbumCounterpart(c: Owned): Option<Owned> {
    match c
    case Artist => Some(AlbumArtist)
    case ArtistSort => Some(AlbumArtistSort)
    case ArtistIds => Some(AlbumArtistIds)
    case _ => None
  }

  /** Each tag as displayed; None where it is absent. */
  type Reading = Owned -> Option<string>

  predicate CreditedApart(reading: Reading, c: Owned, album: Owned) {
    reading(c).Some? && reading(album).Some? && reading(c) != reading(album)
  }

  /** A readable file under its track, and MusicBrainz's reading of that track. A video has none. */
  datatype Present = Present(disk: Reading, mb: Option<Reading>)
  {
    /** A re-tag would change this tag of this file. */
    predicate Changes(c: Owned) {
      mb.Some? && disk(c) != mb.value(c)
    }

    /** MusicBrainz has a value here to compare with. */
    predicate Compared(c: Owned) {
      mb.Some? && mb.value(c).Some?
    }

    /** Credited, on either side, to somebody the album is not. */
    predicate Featured(c: Owned, album: Owned) {
      CreditedApart(disk, c, album) || (mb.Some? && CreditedApart(mb.value, c, album))
    }
  }

  // ----- earning a column -----

  predicate OneReadingOnDisk(c: Owned, present: seq<Present>) {
    forall i, j :: 0 <= i < |present| && 0 <= j < |present| ==> present[i].disk(c) == present[j].disk(c)
  }

  predicate OneReadingInMb(c: Owned, present: seq<Present>) {
    forall i, j :: 0 <= i < |present| && 0 <= j < |present| && present[i].mb.Some? && present[j].mb.Some?
                   ==> present[i].mb.value(c) == present[j].mb.value(c)
  }

  /** Differs from MusicBrainz, and not in the same way on every track MusicBrainz has a value for. */
  predicate PartsCompany(c: Owned, present: seq<Present>) {
    && (exists i, j :: 0 <= i < |present| && 0 <= j < |present| && present[i].Compared(c) && present[j].Compared(c)
                       && (present[i].disk(c) != present[j].disk(c) || present[i].mb.value(c) != present[j].mb.value(c)))
    && (exists i :: 0 <= i < |present| && present[i].Compared(c) && present[i].Changes(c))
  }

  predicate Earns(c: Owned, present: seq<Present>, multiDisc: bool) {
    || PartsCompany(c, present)
    || (!(OneReadingOnDisk(c, present) && OneReadingInMb(c, present)) && !(multiDisc && MediumDerived(c)))
    || (AlbumCounterpart(c).Some? && exists i :: 0 <= i < |present| && present[i].Featured(c, AlbumCounterpart(c).value))
  }

  /** The companion changes only on tracks where the column does. */
  predicate InStep(companion: Owned, column: Owned, present: seq<Present>) {
    forall i :: 0 <= i < |present| && present[i].Changes(companion) ==> present[i].Changes(column)
  }

  // ----- the band under the table -----

  datatype CollapsedField = CollapsedField(field: Owned, value: Option<string>, mb: Option<string>, differs: bool)

  function FirstSaid(values: seq<Option<string>>): Option<string> {
    if values == [] then None else if values[0].Some? then values[0] else FirstSaid(values[1..])
  }

  function MbReadings(c: Owned, present: seq<Present>): seq<Option<string>> {
    if present == [] then []
    else if present[0].mb.Some? then [present[0].mb.value(c)] + MbReadings(c, present[1..])
    else MbReadings(c, present[1..])
  }

  function DiskReadings(c: Owned, present: seq<Present>): seq<Option<string>> {
    seq(|present|, i requires 0 <= i < |present| => present[i].disk(c))
  }

  function Collapse(c: Owned, present: seq<Present>): CollapsedField {
    var disk, mb := DiskReadings(c, present), MbReadings(c, present);
    var uniform := OneReadingOnDisk(c, present) && OneReadingInMb(c, present);
    var differs := uniform && exists i :: 0 <= i < |present| && present[i].Changes(c);
    CollapsedField(c,
                   if differs && disk != [] then disk[0] else FirstSaid(disk + mb),
                   if mb != [] && uniform then mb[0] else None,
                   differs)
  }

  lemma {:induction false} MbReadingsAre(c: Owned, present: seq<Present>, i: nat)
    requires i < |present| && present[i].mb.Some?
    ensures present[i].mb.value(c) in MbReadings(c, present)
    ensures MbReadings(c, present)[0] == present[i].mb.value(c) || !OneReadingInMb(c, present)
  {
    if i > 0 {
      var rest := present[1..];
      MbReadingsAre(c, rest, i - 1);
      assert rest[i - 1] == present[i];
      if present[0].mb.Some? {
        assert present[0].mb.value(c) == present[i].mb.value(c) || !OneReadingInMb(c, present);
      } else if OneReadingInMb(c, present) {
        assert OneReadingInMb(c, rest);
      }
    }
  }

  /** What the band states of a difference holds on every track: one value on disk, one in MusicBrainz. */
  lemma BandStatesEveryTrack(c: Owned, present: seq<Present>, i: nat)
    requires i < |present| && Collapse(c, present).differs
    ensures present[i].disk(c) == Collapse(c, present).value
    ensures present[i].mb.Some? ==> present[i].mb.value(c) == Collapse(c, present).mb
  {
    assert DiskReadings(c, present)[0] == present[0].disk(c);
    if present[i].mb.Some? {
      MbReadingsAre(c, present, i);
    }
  }

  /** It marks a change exactly when some track would change and both sides read one way throughout. */
  lemma BandMarksExactly(c: Owned, present: seq<Present>)
    ensures Collapse(c, present).differs
       <==> OneReadingOnDisk(c, present) && OneReadingInMb(c, present) && exists i :: 0 <= i < |present| && present[i].Changes(c)
  {
  }

  // ----- choosing -----

  datatype Choice = Choice(kept: seq<Owned>, collapsed: seq<CollapsedField>, absorbed: map<Owned, seq<Owned>>,
                           overflowed: seq<Owned>, listed: seq<Owned>, riders: seq<Owned>, earned: nat)
  {
    function Absorbed(host: Owned): seq<Owned> {
      if host in absorbed then absorbed[host] else []
    }
  }

  const NOTHING := Choice([], [], map[], [], [], [], 0)

  /** The places a tag can be stated. */
  datatype Surface = NumberColumn | DiscHeading | Column | Band | Absorption | Credit | Rider | Overflow

  predicate Capped(c: Owned) {
    c != Title && !Identifier(c)
  }

  /** Where the next candidate goes, given what is placed already. */
  function Decide(ch: Choice, c: Owned, present: seq<Present>, multiDisc: bool, rolledUp: bool): Surface {
    var host := SubsumedBy(c);
    if multiDisc && c == DiscNum then NumberColumn
    else if rolledUp && MediumDerived(c) then DiscHeading
    else if c == Title then Column
    else if !Earns(c, present, multiDisc) then Band
    else if host.Some? && (host.value in ch.listed || host.value in ch.kept) && InStep(c, host.value, present) then Absorption
    else if host.Some? && host.value in ch.listed then Rider
    else if Listable(c) then Credit
    else if Identifier(c) then Column
    else if ch.earned < MAX_EARNED_COLUMNS then Column
    else Overflow
  }

  function Put(ch: Choice, c: Owned, place: Surface, band: CollapsedField): Choice {
    match place
    case NumberColumn => ch
    case DiscHeading => ch
    case Column => ch.(kept := ch.kept + [c], earned := ch.earned + if Capped(c) then 1 else 0)
    case Band => ch.(collapsed := ch.collapsed + [band])
    case Absorption =>
      if SubsumedBy(c).None? then ch
      else ch.(absorbed := ch.absorbed[SubsumedBy(c).value := ch.Absorbed(SubsumedBy(c).value) + [c]])
    case Credit => ch.(listed := ch.listed + [c])
    case Rider => ch.(riders := ch.riders + [c])
    case Overflow => ch.(overflowed := ch.overflowed + [c])
  }

  function Placed(ch: Choice, c: Owned, present: seq<Present>, multiDisc: bool, rolledUp: bool): Choice {
    Put(ch, c, Decide(ch, c, present, multiDisc, rolledUp), Collapse(c, present))
  }

  function Chosen(todo: seq<Owned>, present: seq<Present>, multiDisc: bool, rolledUp: bool): Choice {
    if todo == [] then NOTHING
    else Placed(Chosen(todo[..|todo| - 1], present, multiDisc, rolledUp), todo[|todo| - 1], present, multiDisc, rolledUp)
  }

  /** One turn of the loop over the candidates: the first test that holds says where the tag goes. */
  method DecideOne(ch: Choice, c: Owned, present: seq<Present>, multiDisc: bool, rolledUp: bool) returns (place: Surface)
    ensures place == Decide(ch, c, present, multiDisc, rolledUp)
  {
    if multiDisc && c == DiscNum {
      return NumberColumn;
    }
    if rolledUp && MediumDerived(c) {
      return DiscHeading;
    }
    if c == Title {
      return Column;
    }
    if !Earns(c, present, multiDisc) {
      return Band;
    }
    var host := SubsumedBy(c);
    var listed := host.Some? && host.value in ch.listed;
    if host.Some? && (listed || host.value in ch.kept) {
      if InStep(c, host.value, present) {
        return Absorption;
      }
      if listed {
        return Rider;
      }
    }
    if Listable(c) {
      return Credit;
    }
    if Identifier(c) || ch.earned < MAX_EARNED_COLUMNS {
      return Column;
    }
    return Overflow;
  }

  method ChooseAmong(todo: seq<Owned>, present: seq<Present>, multiDisc: bool, rolledUp: bool) returns (choice: Choice)
    ensures choice == Chosen(todo, present, multiDisc, rolledUp)
  {
    choice := NOTHING;
    for i := 0 to |todo|
      invariant choice == Chosen(todo[..i], present, multiDisc, rolledUp)
    {
      var place := DecideOne(choice, todo[i], present, multiDisc, rolledUp);
      choice := Put(choice, todo[i], place, Collapse(todo[i], present));
      assert todo[..i + 1][..i] == todo[..i];
    }
    assert todo[..|todo|] == todo;
  }

  method ChooseColumns(present: seq<Present>, multiDisc: bool, rolledUp: bool) returns (choice: Choice)
    ensures choice == Chosen(CANDIDATES, present, multiDisc, rolledUp)
  {
    choice := ChooseAmong(CANDIDATES, present, multiDisc, rolledUp);
  }

  // ----- one place each -----

  ghost predicate On(ch: Choice, multiDisc: bool, rolledUp: bool, place: Surface, c: Owned) {
    match place
    case NumberColumn => multiDisc && c == DiscNum
    case DiscHeading => rolledUp && MediumDerived(c)
    case Column => c in ch.kept
    case Band => exists b :: b in ch.collapsed && b.field == c
    case Absorption => exists host :: AbsorbedBy(ch, c, host)
    case Credit => c in ch.listed
    case Rider => c in ch.riders
    case Overflow => c in ch.overflowed
  }

  ghost predicate OnOnePlace(ch: Choice, multiDisc: bool, rolledUp: bool, c: Owned) {
    && (exists place :: On(ch, multiDisc, rolledUp, place, c))
    && (forall p, q :: On(ch, multiDisc, rolledUp, p, c) && On(ch, multiDisc, rolledUp, q, c) ==> p == q)
  }

  ghost predicate NowhereYet(ch: Choice, c: Owned) {
    && c !in ch.kept && c !in ch.listed && c !in ch.riders && c !in ch.overflowed
    && (forall b :: b in ch.collapsed ==> b.field != c)
    && (forall host :: !AbsorbedBy(ch, c, host))
  }

  /** What can be said of the surface a candidate goes to without asking why it goes there. */
  ghost predicate Fits(c: Owned, place: Surface, multiDisc: bool, rolledUp: bool) {
    && (place == NumberColumn <==> multiDisc && c == DiscNum)
    && (place == DiscHeading <==> rolledUp && MediumDerived(c))
    && (place == Absorption ==> SubsumedBy(c).Some?)
  }

  lemma PutThere(ch: Choice, c: Owned, place: Surface, band: CollapsedField, multiDisc: bool, rolledUp: bool)
    requires band.field == c && Fits(c, place, multiDisc, rolledUp)
    ensures On(Put(ch, c, place, band), multiDisc, rolledUp, place, c)
  {
    var ch' := Put(ch, c, place, band);
    if place == Band {
      assert band in ch'.collapsed;
    } else if place == Absorption {
      assert AbsorbedBy(ch', c, SubsumedBy(c).value);
    }
  }

  lemma PutNowhereElse(ch: Choice, c: Owned, place: Surface, band: CollapsedField, multiDisc: bool, rolledUp: bool, p: Surface)
    requires band.field == c && Fits(c, place, multiDisc, rolledUp) && NowhereYet(ch, c) && p != place
    ensures !On(Put(ch, c, place, band), multiDisc, rolledUp, p, c)
  {
    var ch' := Put(ch, c, place, band);
    forall host | place != Absorption ensures !AbsorbedBy(ch', c, host) {
      assert !AbsorbedBy(ch, c, host);
    }
  }

  lemma PutListsNoOther(ch: Choice, c: Owned, place: Surface, band: CollapsedField, d: Owned)
    requires d != c
    ensures d in Put(ch, c, place, band).kept <==> d in ch.kept
    ensures d in Put(ch, c, place, band).listed <==> d in ch.listed
    ensures d in Put(ch, c, place, band).riders <==> d in ch.riders
    ensures d in Put(ch, c, place, band).overflowed <==> d in ch.overflowed
  {
  }

  lemma PutBandsNoOther(ch: Choice, c: Owned, place: Surface, band: CollapsedField, d: Owned)
    requires band.field == c && d != c
    ensures (exists b :: b in Put(ch, c, place, band).collapsed && b.field == d) <==> exists b :: b in ch.collapsed && b.field == d
  {
    assert forall b :: b in Put(ch, c, place, band).collapsed <==> b in ch.collapsed || (place == Band && b == band);
  }

  lemma PutAbsorbsNoOther(ch: Choice, c: Owned, place: Surface, band: CollapsedField, d: Owned)
    requires d != c
    ensures (exists host :: AbsorbedBy(Put(ch, c, place, band), d, host)) <==> exists host :: AbsorbedBy(ch, d, host)
  {
    forall host ensures AbsorbedBy(Put(ch, c, place, band), d, host) <==> AbsorbedBy(ch, d, host) {
    }
  }

  /** The same places of `d`, in both. */
  ghost predicate SamePlaces(ch: Choice, ch': Choice, d: Owned) {
    && (d in ch'.kept <==> d in ch.kept) && (d in ch'.listed <==> d in ch.listed)
    && (d in ch'.riders <==> d in ch.riders) && (d in ch'.overflowed <==> d in ch.overflowed)
    && ((exists b :: b in ch'.collapsed && b.field == d) <==> exists b :: b in ch.collapsed && b.field == d)
    && ((exists host :: AbsorbedBy(ch', d, host)) <==> exists host :: AbsorbedBy(ch, d, host))
  }

  lemma SamePlacesSameOn(ch: Choice, ch': Choice, multiDisc: bool, rolledUp: bool, d: Owned, p: Surface)
    requires SamePlaces(ch, ch', d)
    ensures On(ch', multiDisc, rolledUp, p, d) <==> On(ch, multiDisc, rolledUp, p, d)
  {
  }

  lemma PutLeavesOthers(ch: Choice, c: Owned, place: Surface, band: CollapsedField, multiDisc: bool, rolledUp: bool,
                        d: Owned, p: Surface)
    requires band.field == c && d != c
    ensures On(Put(ch, c, place, band), multiDisc, rolledUp, p, d) <==> On(ch, multiDisc, rolledUp, p, d)
  {
    PutListsNoOther(ch, c, place, band, d);
    PutBandsNoOther(ch, c, place, band, d);
    PutAbsorbsNoOther(ch, c, place, band, d);
    SamePlacesSameOn(ch, Put(ch, c, place, band), multiDisc, rolledUp, d, p);
  }

  lemma PlacedSettlesOne(ch: Choice, c: Owned, present: seq<Present>, multiDisc: bool, rolledUp: bool)
    requires NowhereYet(ch, c)
    ensures OnOnePlace(Placed(ch, c, present, multiDisc, rolledUp), multiDisc, rolledUp, c)
  {
    var place, band := Decide(ch, c, present, multiDisc, rolledUp), Collapse(c, present);
    PutThere(ch, c, place, band, multiDisc, rolledUp);
    forall p | p != place ensures !On(Put(ch, c, place, band), multiDisc, rolledUp, p, c) {
      PutNowhereElse(ch, c, place, band, multiDisc, rolledUp, p);
    }
  }

  lemma PlacedLeavesOthers(ch: Choice, c: Owned, present: seq<Present>, multiDisc: bool, rolledUp: bool, d: Owned, place: Surface)
    requires d != c
    ensures On(Placed(ch, c, present, multiDisc, rolledUp), multiDisc, rolledUp, place, d) <==> On(ch, multiDisc, rolledUp, place, d)
  {
    PutLeavesOthers(ch, c, Decide(ch, c, present, multiDisc, rolledUp), Collapse(c, present), multiDisc, rolledUp, d, place);
  }

  lemma NowhereMeans(ch: Choice, c: Owned, multiDisc: bool, rolledUp: bool)
    ensures NowhereYet(ch, c)
       <==> forall place :: On(ch, multiDisc, rolledUp, place, c) ==> place == NumberColumn || place == DiscHeading
  {
    if forall place :: On(ch, multiDisc, rolledUp, place, c) ==> place == NumberColumn || place == DiscHeading {
      assert !On(ch, multiDisc, rolledUp, Column, c) && !On(ch, multiDisc, rolledUp, Band, c)
             && !On(ch, multiDisc, rolledUp, Absorption, c) && !On(ch, multiDisc, rolledUp, Credit, c)
             && !On(ch, multiDisc, rolledUp, Rider, c) && !On(ch, multiDisc, rolledUp, Overflow, c);
    }
  }

  lemma {:induction false} ChosenSorts(todo: seq<Owned>, present: seq<Present>, multiDisc: bool, rolledUp: bool, c: Owned)
    requires Distinct(todo)
    ensures c in todo ==> OnOnePlace(Chosen(todo, present, multiDisc, rolledUp), multiDisc, rolledUp, c)
    ensures c !in todo ==> NowhereYet(Chosen(todo, present, multiDisc, rolledUp), c)
  {
    if todo != [] {
      var init, last := todo[..|todo| - 1], todo[|todo| - 1];
      assert todo == init + [last];
      ChosenSorts(init, present, multiDisc, rolledUp, c);
      var ch := Chosen(init, present, multiDisc, rolledUp);
      var ch' := Chosen(todo, present, multiDisc, rolledUp);
      if c == last {
        assert c !in init;
        PlacedSettlesOne(ch, c, present, multiDisc, rolledUp);
      } else {
        forall place ensures On(ch', multiDisc, rolledUp, place, c) <==> On(ch, multiDisc, rolledUp, place, c) {
          PlacedLeavesOthers(ch, last, present, multiDisc, rolledUp, c, place);
        }
        NowhereMeans(ch, c, multiDisc, rolledUp);
        NowhereMeans(ch', c, multiDisc, rolledUp);
      }
    }
  }

  /** A tag's place in column order. */
  function Rank(c: Owned): int {
    match c
    case Title => 0 case Artist => 1 case ArtistSort => 2 case Artists => 3 case Works => 4
    case Composers => 5 case Lyricists => 6 case Writers => 7 case ComposerSort => 8 case Isrcs => 9
    case DiscSubtitle => 10 case Media => 11 case TrackTotal => 12 case DiscNum => 13 case ArtistIds => 14
    case RecordingId => 15 case ReleaseTrackId => 16 case WorkIds => 17 case ComposerIds => 18
    case _ => -1
  }

  lemma CandidatesDiffer()
    ensures Distinct(CANDIDATES)
  {
    assert forall i :: 0 <= i < |CANDIDATES| ==> Rank(CANDIDATES[i]) == i;
  }

  /** Every per-track tag is stated in exactly one place. */
  lemma EachTagInOnePlace(present: seq<Present>, multiDisc: bool, rolledUp: bool, c: Owned)
    requires c in CANDIDATES
    ensures OnOnePlace(Chosen(CANDIDATES, present, multiDisc, rolledUp), multiDisc, rolledUp, c)
  {
    CandidatesDiffer();
    ChosenSorts(CANDIDATES, present, multiDisc, rolledUp, c);
  }

  lemma PlacedInBand(ch: Choice, c: Owned, present: seq<Present>, multiDisc: bool, rolledUp: bool)
    requires NowhereYet(ch, c)
    ensures On(Placed(ch, c, present, multiDisc, rolledUp), multiDisc, rolledUp, Band, c)
       <==> c != Title && !(multiDisc && c == DiscNum) && !(rolledUp && MediumDerived(c)) && !Earns(c, present, multiDisc)
  {
    var place, band := Decide(ch, c, present, multiDisc, rolledUp), Collapse(c, present);
    DecidedBand(ch, c, present, multiDisc, rolledUp);
    if place == Band {
      PutThere(ch, c, place, band, multiDisc, rolledUp);
    } else {
      PutNowhereElse(ch, c, place, band, multiDisc, rolledUp, Band);
    }
  }

  lemma DecidedBand(ch: Choice, c: Owned, present: seq<Present>, multiDisc: bool, rolledUp: bool)
    ensures Fits(c, Decide(ch, c, present, multiDisc, rolledUp), multiDisc, rolledUp)
    ensures Decide(ch, c, present, multiDisc, rolledUp) == Band
       <==> c != Title && !(multiDisc && c == DiscNum) && !(rolledUp && MediumDerived(c)) && !Earns(c, present, multiDisc)
  {
  }

  /**
   A tag is named in the band exactly when it earns nothing: not the title, which always has its column, nor what
   the number column or the disc headings state, nor a tag that answers which track.
   */
  lemma {:induction false} BandExactly(todo: seq<Owned>, present: seq<Present>, multiDisc: bool, rolledUp: bool, c: Owned)
    requires Distinct(todo) && c in todo
    ensures On(Chosen(todo, present, multiDisc, rolledUp), multiDisc, rolledUp, Band, c)
       <==> c != Title && !(multiDisc && c == DiscNum) && !(rolledUp && MediumDerived(c)) && !Earns(c, present, multiDisc)
  {
    var init, last := todo[..|todo| - 1], todo[|todo| - 1];
    assert todo == init + [last];
    var ch := Chosen(init, present, multiDisc, rolledUp);
    if last == c {
      assert c !in init;
      ChosenSorts(init, present, multiDisc, rolledUp, c);
      PlacedInBand(ch, c, present, multiDisc, rolledUp);
    } else {
      BandExactly(init, present, multiDisc, rolledUp, c);
      PlacedLeavesOthers(ch, last, present, multiDisc, rolledUp, c, Band);
    }
  }

  function CappedIn(kept: seq<Owned>): nat {
    if kept == [] then 0 else CappedIn(kept[..|kept| - 1]) + if Capped(kept[|kept| - 1]) then 1 else 0
  }

  ghost predicate WithinCap(ch: Choice) {
    && CappedIn(ch.kept) == ch.earned <= MAX_EARNED_COLUMNS
    && (ch.overflowed != [] ==> ch.earned == MAX_EARNED_COLUMNS)
  }

  lemma PutWithinCap(ch: Choice, c: Owned, place: Surface, band: CollapsedField)
    requires WithinCap(ch)
    requires place == Column && Capped(c) ==> ch.earned < MAX_EARNED_COLUMNS
    requires place == Overflow ==> ch.earned >= MAX_EARNED_COLUMNS
    ensures WithinCap(Put(ch, c, place, band))
  {
    if place == Column {
      assert (ch.kept + [c])[..|ch.kept|] == ch.kept;
    }
  }

  /** At most three columns are earned, and a tag overflows only once three are. */
  lemma {:induction false} AtMostThreeEarned(todo: seq<Owned>, present: seq<Present>, multiDisc: bool, rolledUp: bool)
    ensures WithinCap(Chosen(todo, present, multiDisc, rolledUp))
  {
    if todo != [] {
      var init, c := todo[..|todo| - 1], todo[|todo| - 1];
      AtMostThreeEarned(init, present, multiDisc, rolledUp);
      var ch := Chosen(init, present, multiDisc, rolledUp);
      DecideWithinCap(ch, c, present, multiDisc, rolledUp);
      PutWithinCap(ch, c, Decide(ch, c, present, multiDisc, rolledUp), Collapse(c, present));
    }
  }

  lemma DecideWithinCap(ch: Choice, c: Owned, present: seq<Present>, multiDisc: bool, rolledUp: bool)
    ensures Decide(ch, c, present, multiDisc, rolledUp) == Column && Capped(c) ==> ch.earned < MAX_EARNED_COLUMNS
    ensures Decide(ch, c, present, multiDisc, rolledUp) == Overflow ==> ch.earned >= MAX_EARNED_COLUMNS
  {
  }

  // ----- why each is where it is -----

  ghost predicate BandJustified(ch: Choice, present: seq<Present>, multiDisc: bool) {
    forall b :: b in ch.collapsed ==> b == Collapse(b.field, present) && !Earns(b.field, present, multiDisc)
  }

  ghost predicate AbsorptionJustified(ch: Choice, present: seq<Present>) {
    forall host, c :: AbsorbedBy(ch, c, host) ==> Hosted(ch, present, c, host)
  }

  ghost predicate AbsorbedBy(ch: Choice, c: Owned, host: Owned) {
    host in ch.absorbed && c in ch.absorbed[host]
  }

  /** The host is stated somewhere, and changes wherever the tag it absorbed does. */
  ghost predicate Hosted(ch: Choice, present: seq<Present>, c: Owned, host: Owned) {
    SubsumedBy(c) == Some(host) && InStep(c, host, present) && (host in ch.kept || host in ch.listed)
  }

  ghost predicate RidersJustified(ch: Choice) {
    forall c :: c in ch.riders ==> SubsumedBy(c).Some? && SubsumedBy(c).value in ch.listed
  }

  ghost predicate Justified(ch: Choice, present: seq<Present>, multiDisc: bool) {
    BandJustified(ch, present, multiDisc) && AbsorptionJustified(ch, present) && RidersJustified(ch)
  }

  lemma PutIsJustified(ch: Choice, c: Owned, place: Surface, present: seq<Present>, multiDisc: bool)
    requires Justified(ch, present, multiDisc)
    requires place == Band ==> !Earns(c, present, multiDisc)
    requires place == Rider ==> SubsumedBy(c).Some? && SubsumedBy(c).value in ch.listed
    requires place == Absorption ==> SubsumedBy(c).Some? && InStep(c, SubsumedBy(c).value, present)
                                     && (SubsumedBy(c).value in ch.kept || SubsumedBy(c).value in ch.listed)
    ensures Justified(Put(ch, c, place, Collapse(c, present)), present, multiDisc)
  {
    var ch' := Put(ch, c, place, Collapse(c, present));
    forall host, d | AbsorbedBy(ch', d, host) ensures Hosted(ch', present, d, host) {
      if AbsorbedBy(ch, d, host) {
        assert Hosted(ch, present, d, host);
      } else {
        assert d == c;
      }
    }
  }

  lemma {:induction false} ChosenIsJustified(todo: seq<Owned>, present: seq<Present>, multiDisc: bool, rolledUp: bool)
    ensures Justified(Chosen(todo, present, multiDisc, rolledUp), present, multiDisc)
  {
    if todo != [] {
      var init, c := todo[..|todo| - 1], todo[|todo| - 1];
      ChosenIsJustified(init, present, multiDisc, rolledUp);
      var ch := Chosen(init, present, multiDisc, rolledUp);
      PutIsJustified(ch, c, Decide(ch, c, present, multiDisc, rolledUp), present, multiDisc);
    }
  }

  // ----- cells and lines -----

  datatype What = Number | Tag(owned: Owned) | Length | MbLength | Format

  /** A value as shown: text, a track's position, or a duration in whole seconds. */
  datatype Value = Text(text: string) | Position(disc: Option<int>, track: int) | Duration(seconds: int)

  datatype Agreement = Matches | Differs | OnlyDisk | OnlyMb | Unread

  datatype Cell = Cell(what: What, agreement: Agreement, disk: Option<Value>, mb: Option<Value>, comparable: bool)
  {
    /** Something the user should look at, and a re-tag would change. */
    predicate Finding() {
      comparable && !agreement.Matches?
    }

    /** A real difference that nothing on the page can change. */
    predicate Advisory() {
      agreement.Differs? && !comparable
    }
  }

  function Shown(s: Option<string>): Option<Value> {
    if s.None? then None else Some(Text(s.value))
  }

  function Compare(what: What, disk: Option<Value>, mb: Option<Value>, unreadable: bool): Cell {
    if unreadable then Cell(what, Unread, None, mb, true)
    else if disk.None? && mb.None? then Cell(what, Matches, None, None, true)
    else if disk.None? then Cell(what, OnlyMb, None, mb, true)
    else if mb.None? then Cell(what, OnlyDisk, disk, None, true)
    else if disk == mb then Cell(what, Matches, disk, mb, true)
    else Cell(what, Differs, disk, mb, true)
  }

  /** One tag of one readable file, as a cell or as a line under the track. */
  function Line(c: Owned, p: Present): Cell {
    Compare(Tag(c), Shown(p.disk(c)), if p.mb.Some? then Shown(p.mb.value(c)) else None, false).(comparable := p.mb.Some?)
  }

  lemma LineFindsChanges(c: Owned, p: Present)
    ensures Line(c, p).Finding() <==> p.Changes(c)
    ensures p.Changes(c) ==> Line(c, p).disk.Some? || Line(c, p).mb.Some?
  {
  }

  function OverflowLines(p: Present, overflowed: seq<Owned>): seq<Cell> {
    if overflowed == [] then []
    else
      var line := Line(overflowed[0], p);
      if line.disk.None? && line.mb.None? then OverflowLines(p, overflowed[1..])
      else [line] + OverflowLines(p, overflowed[1..])
  }

  /** The credit line of one tag, if the track has one. A rider has one only where it changes and its credit does not. */
  function CreditLine(p: Present, ch: Choice, c: Owned): seq<Cell> {
    var line := Line(c, p);
    if (c !in ch.listed && c !in ch.riders) || (line.disk.None? && line.mb.None?) then []
    else if c in ch.riders && SubsumedBy(c).Some?
            && (!line.Finding() || p.disk(SubsumedBy(c).value) != (if p.mb.Some? then p.mb.value(SubsumedBy(c).value) else None))
    then []
    else [line]
  }

  function CreditLines(p: Present, ch: Choice, order: seq<Owned>): seq<Cell> {
    if order == [] then [] else CreditLines(p, ch, order[..|order| - 1]) + CreditLine(p, ch, order[|order| - 1])
  }

  method ListCredits(p: Present, ch: Choice) returns (lines: seq<Cell>)
    requires RidersJustified(ch)
    ensures lines == CreditLines(p, ch, CANDIDATES)
  {
    var order := CANDIDATES;
    lines := [];
    for i := 0 to |order|
      invariant lines == CreditLines(p, ch, order[..i])
    {
      var c := order[i];
      assert order[..i + 1][..i] == order[..i];
      if c !in ch.listed && c !in ch.riders {
        continue;
      }
      var line := Line(c, p);
      if line.disk.None? && line.mb.None? {
        continue;
      }
      if c in ch.riders {
        var credit := SubsumedBy(c).value;
        var theirs := if p.mb.Some? then p.mb.value(credit) else None;
        if !line.Finding() || p.disk(credit) != theirs {
          continue;
        }
      }
      lines := lines + [line];
    }
    assert order[..|order|] == order;
  }

  function ColumnCells(p: Present, kept: seq<Owned>): (cells: seq<Cell>)
    ensures |cells| == |kept|
  {
    seq(|kept|, i requires 0 <= i < |kept| => Line(kept[i], p))
  }

  // ----- no pending change is invisible -----

  /** The tag whose cell or line speaks for `c`: itself, or the one it was absorbed by or rides on. */
  ghost predicate SpeaksFor(ch: Choice, o: Owned, c: Owned) {
    o == c || (SubsumedBy(c) == Some(o) && (c in ch.Absorbed(o) || c in ch.riders))
  }

  ghost predicate MarkedIn(cells: seq<Cell>, ch: Choice, c: Owned) {
    exists f, o :: f in cells && f.what == Tag(o) && SpeaksFor(ch, o, c) && f.Finding()
  }

  ghost predicate MarkedInBand(ch: Choice, c: Owned) {
    exists b :: b in ch.collapsed && b.field == c && b.differs
  }

  lemma KeptIsMarked(p: Present, ch: Choice, o: Owned, c: Owned)
    requires o in ch.kept && p.Changes(o) && SpeaksFor(ch, o, c)
    ensures MarkedIn(ColumnCells(p, ch.kept), ch, c)
  {
    var i :| 0 <= i < |ch.kept| && ch.kept[i] == o;
    LineFindsChanges(o, p);
    assert ColumnCells(p, ch.kept)[i] == Line(o, p);
  }

  lemma {:induction false} OverflowIsMarked(p: Present, overflowed: seq<Owned>, c: Owned)
    requires c in overflowed && p.Changes(c)
    ensures Line(c, p) in OverflowLines(p, overflowed)
  {
    LineFindsChanges(c, p);
    if overflowed[0] != c {
      OverflowIsMarked(p, overflowed[1..], c);
    }
  }

  lemma {:induction false} CreditIsThere(p: Present, ch: Choice, o: Owned, order: seq<Owned>)
    requires o in order && CreditLine(p, ch, o) == [Line(o, p)]
    ensures Line(o, p) in CreditLines(p, ch, order)
  {
    var init, last := order[..|order| - 1], order[|order| - 1];
    assert order == init + [last];
    if last != o {
      CreditIsThere(p, ch, o, init);
    }
  }

  lemma ListedIsMarked(p: Present, ch: Choice, o: Owned, c: Owned, order: seq<Owned>)
    requires o in order && o in ch.listed && o !in ch.riders && p.Changes(o) && SpeaksFor(ch, o, c)
    ensures MarkedIn(CreditLines(p, ch, order), ch, c)
  {
    LineFindsChanges(o, p);
    CreditIsThere(p, ch, o, order);
    assert Line(o, p).what == Tag(o);
  }

  lemma RiderIsMarked(p: Present, ch: Choice, c: Owned, order: seq<Owned>)
    requires c in ch.riders && p.Changes(c) && c in order && RidersJustified(ch)
    requires SubsumedBy(c).value in order && SubsumedBy(c).value !in ch.riders
    ensures MarkedIn(CreditLines(p, ch, order), ch, c)
  {
    var o := SubsumedBy(c).value;
    LineFindsChanges(c, p);
    if p.Changes(o) {
      ListedIsMarked(p, ch, o, c, order);
    } else {
      CreditIsThere(p, ch, c, order);
      assert Line(c, p).what == Tag(c) && SpeaksFor(ch, c, c);
    }
  }

  /** Tags a reader may miss a change of: the disc number and the medium's own tags, on a release of several discs. */
  predicate Exempt(c: Owned, multiDisc: bool) {
    multiDisc && (c == DiscNum || MediumDerived(c))
  }

  lemma BandIsMarked(ch: Choice, present: seq<Present>, multiDisc: bool, i: nat, b: CollapsedField)
    requires b in ch.collapsed && BandJustified(ch, present, multiDisc) && !Exempt(b.field, multiDisc)
    requires i < |present| && present[i].Changes(b.field)
    ensures MarkedInBand(ch, b.field)
  {
    BandMarksExactly(b.field, present);
  }

  /** The change of tag `c` is marked on this track's row, under it, or in the band. */
  ghost predicate Marked(ch: Choice, p: Present, c: Owned, order: seq<Owned>) {
    || MarkedIn(ColumnCells(p, ch.kept), ch, c)
    || MarkedIn(OverflowLines(p, ch.overflowed), ch, c)
    || MarkedIn(CreditLines(p, ch, order), ch, c)
    || MarkedInBand(ch, c)
  }

  ghost predicate Listings(ch: Choice, order: seq<Owned>) {
    forall o :: o in ch.listed ==> o in order && o !in ch.riders
  }

  lemma AbsorbedIsMarked(ch: Choice, present: seq<Present>, i: nat, c: Owned, host: Owned, order: seq<Owned>)
    requires i < |present| && present[i].Changes(c) && Listings(ch, order)
    requires AbsorbedBy(ch, c, host) && Hosted(ch, present, c, host)
    ensures Marked(ch, present[i], c, order)
  {
    var p := present[i];
    assert p.Changes(host);
    assert SpeaksFor(ch, host, c);
    if host in ch.kept {
      KeptIsMarked(p, ch, host, c);
    } else {
      ListedIsMarked(p, ch, host, c, order);
    }
  }

  lemma MarkedWhereItStands(ch: Choice, present: seq<Present>, multiDisc: bool, rolledUp: bool, i: nat, c: Owned,
                            place: Surface, order: seq<Owned>)
    requires i < |present| && c in order && present[i].Changes(c)
    requires Justified(ch, present, multiDisc) && On(ch, multiDisc, rolledUp, place, c) && Listings(ch, order)
    requires place != NumberColumn && place != DiscHeading && (place == Band ==> !Exempt(c, multiDisc))
    ensures Marked(ch, present[i], c, order)
  {
    var p := present[i];
    match place
    case Column => KeptIsMarked(p, ch, c, c);
    case Overflow =>
      OverflowIsMarked(p, ch.overflowed, c);
      LineFindsChanges(c, p);
      assert Line(c, p).what == Tag(c) && SpeaksFor(ch, c, c);
    case Credit => ListedIsMarked(p, ch, c, c, order);
    case Rider => RiderIsMarked(p, ch, c, order);
    case Absorption =>
      var host :| AbsorbedBy(ch, c, host);
      AbsorbedIsMarked(ch, present, i, c, host, order);
    case Band =>
      var b :| b in ch.collapsed && b.field == c;
      BandIsMarked(ch, present, multiDisc, i, b);
  }

  lemma {:induction false} ListedComesFrom(todo: seq<Owned>, present: seq<Present>, multiDisc: bool, rolledUp: bool, o: Owned)
    requires Distinct(todo) && o in Chosen(todo, present, multiDisc, rolledUp).listed
    ensures o in todo && o !in Chosen(todo, present, multiDisc, rolledUp).riders
  {
    ChosenSorts(todo, present, multiDisc, rolledUp, o);
    var ch := Chosen(todo, present, multiDisc, rolledUp);
    if o in todo && o in ch.riders {
      assert On(ch, multiDisc, rolledUp, Credit, o) && On(ch, multiDisc, rolledUp, Rider, o);
    }
  }

  lemma ChoiceMarks(todo: seq<Owned>, present: seq<Present>, multiDisc: bool, rolledUp: bool, i: nat, c: Owned)
    requires Distinct(todo) && (rolledUp ==> multiDisc)
    requires i < |present| && c in todo && present[i].Changes(c)
    requires !Exempt(c, multiDisc)
    ensures Marked(Chosen(todo, present, multiDisc, rolledUp), present[i], c, todo)
  {
    var ch := Chosen(todo, present, multiDisc, rolledUp);
    ChosenIsJustified(todo, present, multiDisc, rolledUp);
    ChosenSorts(todo, present, multiDisc, rolledUp, c);
    forall o | o in ch.listed ensures o in todo && o !in ch.riders {
      ListedComesFrom(todo, present, multiDisc, rolledUp, o);
    }
    var place :| On(ch, multiDisc, rolledUp, place, c);
    MarkedWhereItStands(ch, present, multiDisc, rolledUp, i, c, place, todo);
  }

  /** A change of tag `c` of one file is marked on its row, under it, or in the band under the table. */
  ghost predicate Reported(present: seq<Present>, multiDisc: bool, rolledUp: bool, i: nat, c: Owned)
    requires i < |present|
  {
    Marked(Chosen(CANDIDATES, present, multiDisc, rolledUp), present[i], c, CANDIDATES)
  }

  /**
   No pending change is invisible: where a file's tag would change, its row marks it — in a column, on a line, or
   through the tag that absorbed it — or the band under the table does.
   */
  lemma NoPendingChangeIsInvisible(present: seq<Present>, multiDisc: bool, rolledUp: bool, i: nat, c: Owned)
    requires rolledUp ==> multiDisc
    requires i < |present| && c in CANDIDATES && !Exempt(c, multiDisc)
    requires present[i].Changes(c)
    ensures Reported(present, multiDisc, rolledUp, i, c)
  {
    CandidatesDiffer();
    ChoiceMarks(CANDIDATES, present, multiDisc, rolledUp, i, c);
  }

  // ----- the medium's tags on a release of several discs -----

  lemma MediumMarks(todo: seq<Owned>, present: seq<Present>, i: nat, c: Owned)
    requires Distinct(todo) && c in todo && i < |present| && MediumDerived(c) && present[i].Changes(c)
    ensures Marked(Chosen(todo, present, true, false), present[i], c, todo)
       <==> PartsCompany(c, present) || (OneReadingOnDisk(c, present) && OneReadingInMb(c, present))
  {
    var ch := Chosen(todo, present, true, false);
    ChosenIsJustified(todo, present, true, false);
    ChosenSorts(todo, present, true, false, c);
    forall o | o in ch.listed ensures o in todo && o !in ch.riders {
      ListedComesFrom(todo, present, true, false, o);
    }
    if On(ch, true, false, Band, c) {
      MediumInBand(ch, present, i, c, todo);
    } else {
      var place :| On(ch, true, false, place, c);
      BandExactly(todo, present, true, false, c);
      MarkedWhereItStands(ch, present, true, false, i, c, place, todo);
    }
  }

  /**
   The medium's tags on a release of several discs, when no heading took them: a change of one is marked exactly
   when the tag earns a column, or both sides read it one way on every track.
   */
  lemma MediumTagsAreMarkedExactly(present: seq<Present>, i: nat, c: Owned)
    requires i < |present| && MediumDerived(c) && present[i].Changes(c)
    ensures Reported(present, true, false, i, c)
       <==> PartsCompany(c, present) || (OneReadingOnDisk(c, present) && OneReadingInMb(c, present))
  {
    CandidatesDiffer();
    MediumMarks(CANDIDATES, present, i, c);
  }

  lemma {:induction false} OverflowComesFrom(p: Present, overflowed: seq<Owned>, f: Cell)
    requires f in OverflowLines(p, overflowed)
    ensures f.what.Tag? && f.what.owned in overflowed
  {
    if f != Line(overflowed[0], p) {
      OverflowComesFrom(p, overflowed[1..], f);
    }
  }

  lemma {:induction false} CreditComesFrom(p: Present, ch: Choice, order: seq<Owned>, f: Cell)
    requires f in CreditLines(p, ch, order)
    ensures f.what.Tag? && (f.what.owned in ch.listed || f.what.owned in ch.riders)
  {
    if f !in CreditLine(p, ch, order[|order| - 1]) {
      CreditComesFrom(p, ch, order[..|order| - 1], f);
    }
  }

  /** A tag with no host and no cell or line of its own is marked by no cell and no line. */
  lemma NoCellMarks(ch: Choice, p: Present, c: Owned, order: seq<Owned>)
    requires SubsumedBy(c).None?
    requires c !in ch.kept && c !in ch.overflowed && c !in ch.listed && c !in ch.riders
    ensures !MarkedIn(ColumnCells(p, ch.kept), ch, c) && !MarkedIn(OverflowLines(p, ch.overflowed), ch, c)
    ensures !MarkedIn(CreditLines(p, ch, order), ch, c)
  {
    forall f | f in ColumnCells(p, ch.kept) ensures f.what != Tag(c) {
    }
    forall f | f in OverflowLines(p, ch.overflowed) ensures f.what != Tag(c) {
      OverflowComesFrom(p, ch.overflowed, f);
    }
    forall f | f in CreditLines(p, ch, order) ensures f.what != Tag(c) {
      CreditComesFrom(p, ch, order, f);
    }
  }

  lemma MediumInBand(ch: Choice, present: seq<Present>, i: nat, c: Owned, order: seq<Owned>)
    requires BandJustified(ch, present, true) && OnOnePlace(ch, true, false, c) && On(ch, true, false, Band, c)
    requires i < |present| && MediumDerived(c) && present[i].Changes(c)
    ensures Marked(ch, present[i], c, order) <==> OneReadingOnDisk(c, present) && OneReadingInMb(c, present)
    ensures !PartsCompany(c, present)
  {
    assert !On(ch, true, false, Column, c) && !On(ch, true, false, Credit, c)
           && !On(ch, true, false, Rider, c) && !On(ch, true, false, Overflow, c);
    NoCellMarks(ch, present[i], c, order);
    BandMarksExactly(c, present);
  }

}

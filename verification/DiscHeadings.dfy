/** The headings above each disc of a release of several, which state the medium's three tags where every file of a disc agrees. */
module DiscHeadings {
  import opened Common
  import A = TrackAssign
  import opened TrackColumns
  import opened TrackTable
  import opened TrackMarks

  /** One disc of the release, as the release's own list of media describes it. */
  datatype Medium = Medium(position: int, title: Option<string>, format: Option<string>)

  datatype Heading = Heading(subtitle: Cell, media: Cell, trackTotal: Cell)
  {
    function Of(c: Owned): Cell
      requires MediumDerived(c)
    {
      if c == DiscSubtitle then subtitle else if c == Media then media else trackTotal
    }
  }

  /** Where two media share a position the later one is known by it. */
  function Known(media: seq<Medium>): map<int, Medium> {
    if media == [] then map[]
    else Known(media[..|media| - 1])[media[|media| - 1].position := media[|media| - 1]]
  }

  function TracksOn(mb: seq<MbTrack>, d: int): nat {
    if mb == [] then 0
    else TracksOn(mb[..|mb| - 1], d) + if A.DiscOr1(mb[|mb| - 1].id.disc) == d then 1 else 0
  }

  /** What MusicBrainz says of a disc, in the headings: its name, its format, and how many tracks are on it. */
  function MbSays(media: seq<Medium>, mb: seq<MbTrack>, d: int, c: Owned): Option<string>
    requires MediumDerived(c)
  {
    if c == TrackTotal then (if TracksOn(mb, d) > 0 then Some(Decimal(TracksOn(mb, d))) else None)
    else if d !in Known(media) then None
    else if c == Media then Known(media)[d].format else Known(media)[d].title
  }

  /** Each disc's first file of those a heading may state. */
  function FirstOn(files: seq<FileTags>, mb: seq<MbTrack>, placed: map<nat, nat>, n: nat): map<int, nat>
    requires n <= |mb| && forall s :: s in placed ==> placed[s] < |files|
  {
    if n == 0 then map[]
    else
      var rest, d := FirstOn(files, mb, placed, n - 1), A.DiscOr1(mb[n - 1].id.disc);
      if OnDisc(files, placed, n - 1) && d !in rest then rest[d := placed[n - 1]] else rest
  }

  /** The file is under a track of disc `d`, and a heading may state its tags. */
  ghost predicate IsOnDisc(files: seq<FileTags>, mb: seq<MbTrack>, placed: map<nat, nat>, d: int, i: nat)
    requires forall s :: s in placed ==> placed[s] < |files|
  {
    exists s :: 0 <= s < |mb| && OnDisc(files, placed, s) && A.DiscOr1(mb[s].id.disc) == d && placed[s] == i
  }

  lemma {:induction false} FirstOnIs(files: seq<FileTags>, mb: seq<MbTrack>, placed: map<nat, nat>, n: nat)
    requires n <= |mb| && forall s :: s in placed ==> placed[s] < |files|
    ensures forall d :: d in FirstOn(files, mb, placed, n) ==> IsOnDisc(files, mb, placed, d, FirstOn(files, mb, placed, n)[d])
    ensures forall s: nat :: s < n && OnDisc(files, placed, s) ==> A.DiscOr1(mb[s].id.disc) in FirstOn(files, mb, placed, n)
  {
    if n > 0 {
      FirstOnIs(files, mb, placed, n - 1);
    }
  }

  function StateOf(c: Owned, f: FileTags, says: Option<string>): Cell {
    Compare(Tag(c), Shown(f.disk(c)), Shown(says), false)
  }

  function HeadingOf(media: seq<Medium>, mb: seq<MbTrack>, d: int, f: FileTags): Heading {
    Heading(StateOf(DiscSubtitle, f, MbSays(media, mb, d, DiscSubtitle)), StateOf(Media, f, MbSays(media, mb, d, Media)),
            StateOf(TrackTotal, f, MbSays(media, mb, d, TrackTotal)))
  }

  ghost function Laid(files: seq<FileTags>, mb: seq<MbTrack>, media: seq<Medium>, first: map<int, nat>): map<int, Heading>
    requires forall d :: d in first ==> first[d] < |files|
  {
    map d | d in first :: HeadingOf(media, mb, d, files[first[d]])
  }

  /** The headings by disc: none unless every disc's files agree about all three tags. */
  ghost function HeadingsOf(files: seq<FileTags>, mb: seq<MbTrack>, placed: map<nat, nat>, media: seq<Medium>, multiDisc: bool): map<int, Heading>
    requires forall s :: s in placed ==> placed[s] < |files|
  {
    FirstOnIs(files, mb, placed, |mb|);
    if !RolledUp(files, mb, placed, multiDisc) then map[] else Laid(files, mb, media, FirstOn(files, mb, placed, |mb|))
  }

  // ----- the loops that build them -----

  method GatherKnown(media: seq<Medium>) returns (known: map<int, Medium>)
    ensures known == Known(media)
  {
    known := map[];
    for i := 0 to |media|
      invariant known == Known(media[..i])
    {
      assert media[..i + 1][..i] == media[..i];
      known := known[media[i].position := media[i]];
    }
    assert media[..|media|] == media;
  }

  ghost predicate Counts(totals: map<int, nat>, mb: seq<MbTrack>) {
    forall d :: (if d in totals then totals[d] else 0) == TracksOn(mb, d)
  }

  method CountTracks(mb: seq<MbTrack>) returns (totals: map<int, nat>)
    ensures Counts(totals, mb)
  {
    totals := map[];
    for i := 0 to |mb|
      invariant Counts(totals, mb[..i])
    {
      assert mb[..i + 1][..i] == mb[..i];
      var d := A.DiscOr1(mb[i].id.disc);
      totals := totals[d := (if d in totals then totals[d] else 0) + 1];
    }
    assert mb[..|mb|] == mb;
  }

  /** The first file of each disc, and the discs in the order they were met. */
  method FirstFiles(files: seq<FileTags>, mb: seq<MbTrack>, placed: map<nat, nat>) returns (first: map<int, nat>, discs: seq<int>)
    requires forall s :: s in placed ==> placed[s] < |files|
    ensures first == FirstOn(files, mb, placed, |mb|) && first.Keys == Elements(discs)
  {
    first, discs := map[], [];
    for s := 0 to |mb|
      invariant first == FirstOn(files, mb, placed, s) && first.Keys == Elements(discs)
    {
      var d := A.DiscOr1(mb[s].id.disc);
      if OnDisc(files, placed, s) && d !in first {
        first, discs := first[d := placed[s]], discs + [d];
      }
    }
  }

  method HeadingFrom(known: map<int, Medium>, totals: map<int, nat>, d: int, f: FileTags, ghost media: seq<Medium>, ghost mb: seq<MbTrack>)
    returns (h: Heading)
    requires known == Known(media) && Counts(totals, mb)
    ensures h == HeadingOf(media, mb, d, f)
  {
    var medium := if d in known then Some(known[d]) else None;
    var total := if d in totals then totals[d] else 0;
    h := Heading(StateOf(DiscSubtitle, f, if medium.Some? then medium.value.title else None),
                 StateOf(Media, f, if medium.Some? then medium.value.format else None),
                 StateOf(TrackTotal, f, if total > 0 then Some(Decimal(total)) else None));
  }

  ghost predicate LaidSoFar(files: seq<FileTags>, mb: seq<MbTrack>, media: seq<Medium>, first: map<int, nat>, headings: map<int, Heading>)
    requires forall d :: d in first ==> first[d] < |files|
  {
    forall d :: d in headings ==> d in first && headings[d] == HeadingOf(media, mb, d, files[first[d]])
  }

  lemma OneMoreDisc(discs: seq<int>, k: nat)
    requires k < |discs|
    ensures discs[k] in Elements(discs) && Elements(discs[..k + 1]) == Elements(discs[..k]) + {discs[k]}
  {
    assert discs[..k + 1] == discs[..k] + [discs[k]];
  }

  method LayHeadings(files: seq<FileTags>, mb: seq<MbTrack>, media: seq<Medium>, first: map<int, nat>, discs: seq<int>)
    returns (headings: map<int, Heading>)
    requires first.Keys == Elements(discs) && forall d :: d in first ==> first[d] < |files|
    ensures headings.Keys == first.Keys && LaidSoFar(files, mb, media, first, headings)
  {
    var known := GatherKnown(media);
    var totals := CountTracks(mb);
    headings := map[];
    for k := 0 to |discs|
      invariant headings.Keys == Elements(discs[..k])
      invariant LaidSoFar(files, mb, media, first, headings)
    {
      var d := discs[k];
      OneMoreDisc(discs, k);
      var h := HeadingFrom(known, totals, d, files[first[d]], media, mb);
      headings := headings[d := h];
    }
    assert discs[..|discs|] == discs;
  }

  method BuildHeadings(files: seq<FileTags>, mb: seq<MbTrack>, placed: map<nat, nat>, media: seq<Medium>, multiDisc: bool)
    returns (headings: map<int, Heading>)
    requires forall s :: s in placed ==> placed[s] < |files|
    ensures headings == HeadingsOf(files, mb, placed, media, multiDisc)
    ensures headings != map[] <==> RolledUp(files, mb, placed, multiDisc)
  {
    if !RolledUp(files, mb, placed, multiDisc) {
      return map[];
    }
    var first, discs := FirstFiles(files, mb, placed);
    FirstOnIs(files, mb, placed, |mb|);
    SomeDiscHasOne(files, mb, placed);
    headings := LayHeadings(files, mb, media, first, discs);
    AllLaid(files, mb, media, first, headings);
  }

  lemma AllLaid(files: seq<FileTags>, mb: seq<MbTrack>, media: seq<Medium>, first: map<int, nat>, headings: map<int, Heading>)
    requires first.Keys == headings.Keys != {} && forall d :: d in first ==> first[d] < |files|
    requires LaidSoFar(files, mb, media, first, headings)
    ensures headings == Laid(files, mb, media, first) && headings != map[]
  {
  }

  lemma SomeDiscHasOne(files: seq<FileTags>, mb: seq<MbTrack>, placed: map<nat, nat>)
    requires forall s :: s in placed ==> placed[s] < |files|
    requires exists s :: 0 <= s < |mb| && OnDisc(files, placed, s)
    ensures FirstOn(files, mb, placed, |mb|).Keys != {}
  {
    var s :| 0 <= s < |mb| && OnDisc(files, placed, s);
    FirstOnIs(files, mb, placed, |mb|);
    assert A.DiscOr1(mb[s].id.disc) in FirstOn(files, mb, placed, |mb|);
  }

  // ----- what a heading says is true of every file below it -----

  function DiscAt(p: Plan, s: nat): int
    requires s < |p.mb|
  {
    A.DiscOr1(p.mb[s].id.disc)
  }

  /** The headings of a planned table. */
  ghost function HeadingsFor(p: Plan, media: seq<Medium>): map<int, Heading>
    requires InBounds(p)
  {
    HeadingsOf(p.files, p.mb, p.placed, media, p.multiDisc)
  }

  /**
   A heading reads for every compared file of its disc what that file reads, and marks one of the medium's tags exactly
   where the file differs from what the release's media say of the disc.
   */
  lemma HeadingSpeaksForEveryFile(p: Plan, media: seq<Medium>, s: nat, c: Owned)
    requires InBounds(p) && Compared(p, s) && RolledUp(p.files, p.mb, p.placed, p.multiDisc) && MediumDerived(c)
    ensures DiscAt(p, s) in HeadingsFor(p, media)
    ensures var cell := HeadingsFor(p, media)[DiscAt(p, s)].Of(c);
      && cell.disk == Shown(FileAt(p, s).disk(c)) && cell.mb == Shown(MbSays(media, p.mb, DiscAt(p, s), c))
      && (cell.Finding() <==> FileAt(p, s).disk(c) != MbSays(media, p.mb, DiscAt(p, s), c))
  {
    FirstOnIs(p.files, p.mb, p.placed, |p.mb|);
    assert OnDisc(p.files, p.placed, s);
    var i := FirstOn(p.files, p.mb, p.placed, |p.mb|)[DiscAt(p, s)];
    var t :| 0 <= t < |p.mb| && OnDisc(p.files, p.placed, t) && DiscAt(p, t) == DiscAt(p, s) && p.placed[t] == i;
    assert c in {DiscSubtitle, Media, TrackTotal} && p.files[i].disk(c) == FileAt(p, s).disk(c);
    HeadingStates(media, p.mb, DiscAt(p, s), p.files[i], c);
  }

  lemma HeadingStates(media: seq<Medium>, mb: seq<MbTrack>, d: int, f: FileTags, c: Owned)
    requires MediumDerived(c)
    ensures HeadingOf(media, mb, d, f).Of(c) == StateOf(c, f, MbSays(media, mb, d, c))
    ensures var cell := StateOf(c, f, MbSays(media, mb, d, c));
      && cell.disk == Shown(f.disk(c)) && cell.mb == Shown(MbSays(media, mb, d, c))
      && (cell.Finding() <==> f.disk(c) != MbSays(media, mb, d, c))
  {
  }

  /**
   So where the headings state them, a change of the medium's tags is shown exactly when the release's media say of the
   disc what tagging would write on its tracks, or the file agrees with neither.
   */
  lemma HeadingsShowChangesExactly(p: Plan, confirmed: Option<string>, media: seq<Medium>, s: nat, c: Owned)
    requires Planned(p, confirmed) && Compared(p, s) && RolledUp(p.files, p.mb, p.placed, p.multiDisc) && MediumDerived(c)
    ensures DiscAt(p, s) in HeadingsFor(p, media)
    ensures var disk, says, wrote := FileAt(p, s).disk(c), MbSays(media, p.mb, DiscAt(p, s), c), p.mb[s].mb(c);
      (HeadingsFor(p, media)[DiscAt(p, s)].Of(c).Finding() <==> disk != wrote) <==> says == wrote || (disk != says && disk != wrote)
    ensures !ShownOnPage(p, s, c)
  {
    HeadingSpeaksForEveryFile(p, media, s, c);
    ShownExactly(p, confirmed, s, c);
    CandidatesDiffer();
    NoLineForAHeading(CANDIDATES, PresentOf(p.files, p.mb, p.placed, |p.mb|), SideAt(p, s), c, CANDIDATES);
  }

  /** What the headings state is in no column, on no line and not in the band. */
  lemma NoLineForAHeading(todo: seq<Owned>, present: seq<TrackColumns.Present>, side: TrackColumns.Present, c: Owned, order: seq<Owned>)
    requires Distinct(todo) && MediumDerived(c)
    ensures !Marked(Chosen(todo, present, true, true), side, c, order)
  {
    var ch := Chosen(todo, present, true, true);
    ChosenSorts(todo, present, true, true, c);
    assert On(ch, true, true, DiscHeading, c);
    assert !On(ch, true, true, Column, c) && !On(ch, true, true, Credit, c) && !On(ch, true, true, Rider, c)
           && !On(ch, true, true, Overflow, c) && !On(ch, true, true, Band, c);
    NoCellMarks(ch, side, c, order);
  }

  // ----- one release behind both sides of a heading -----

  /**
   One medium of a release, as MusicBrainz gives it: its position, its name and format (empty for none), the track count
   it states if it states one, how many ordinary tracks it lists, and whether it has a pregap.
   */
  datatype ReleaseMedium = ReleaseMedium(position: int, title: string, format: string, count: Option<nat>, listed: nat, pregap: bool)
  {
    /** Its tracks, the pregap among them. */
    function Tracks(): nat {
      listed + if pregap then 1 else 0
    }

    /** What tagging writes as the medium's track total. */
    function Total(): nat {
      (if count.Some? then count.value else listed) + if pregap then 1 else 0
    }

    /** It states no track count, or that of the tracks it lists. */
    predicate CountsWhatItLists() {
      count.None? || count.value == listed
    }
  }

  function Said(text: string): Option<string> {
    if text == "" then None else Some(text)
  }

  /** What the headings are given of the release. */
  function MediaOf(release: seq<ReleaseMedium>): (media: seq<Medium>)
    ensures |media| == |release|
  {
    seq(|release|, i requires 0 <= i < |release| => Medium(release[i].position, Said(release[i].title), Said(release[i].format)))
  }

  /** The last medium of that position. */
  ghost predicate LastAt(release: seq<ReleaseMedium>, d: int, i: nat) {
    i < |release| && release[i].position == d && forall j :: i < j < |release| ==> release[j].position != d
  }

  lemma {:induction false} KnownIsLast(media: seq<Medium>, d: int, i: nat)
    requires i < |media| && media[i].position == d && forall j :: i < j < |media| ==> media[j].position != d
    ensures d in Known(media) && Known(media)[d] == media[i]
  {
    if i < |media| - 1 {
      KnownIsLast(media[..|media| - 1], d, i);
    }
  }

  lemma {:induction false} NoneIsKnown(media: seq<Medium>, d: int)
    requires forall j :: 0 <= j < |media| ==> media[j].position != d
    ensures d !in Known(media)
  {
    if media != [] {
      NoneIsKnown(media[..|media| - 1], d);
    }
  }

  ghost function OnTheDisc(mb: seq<MbTrack>, d: int): set<nat> {
    set s: nat | 0 <= s < |mb| && (if mb[s].id.disc in {None, Some(0)} then d == 1 else mb[s].id.disc == Some(d))
  }

  lemma OneMoreOnTheDisc(init: seq<MbTrack>, last: MbTrack, d: int)
    ensures |OnTheDisc(init + [last], d)| == |OnTheDisc(init, d)| + if A.DiscOr1(last.id.disc) == d then 1 else 0
  {
    var all := init + [last];
    assert |init| in OnTheDisc(all, d) <==> A.DiscOr1(last.id.disc) == d;
    assert OnTheDisc(all, d) == if |init| in OnTheDisc(all, d) then OnTheDisc(init, d) + {|init|} else OnTheDisc(init, d);
  }

  lemma {:induction false} TracksOnAre(mb: seq<MbTrack>, d: int)
    ensures TracksOn(mb, d) == |OnTheDisc(mb, d)|
  {
    if mb == [] {
      assert OnTheDisc(mb, d) == {};
    } else {
      var init, last := mb[..|mb| - 1], mb[|mb| - 1];
      TracksOnAre(init, d);
      OneMoreOnTheDisc(init, last, d);
      assert mb == init + [last];
    }
  }

  /** A heading is given the name and the format of the last medium of its position, where they have any, and the number of tracks on the disc. */
  lemma HeadingIsGiven(release: seq<ReleaseMedium>, mb: seq<MbTrack>, d: int)
    ensures forall i: nat :: LastAt(release, d, i) ==>
      && MbSays(MediaOf(release), mb, d, DiscSubtitle) == (if |release[i].title| == 0 then None else Some(release[i].title))
      && MbSays(MediaOf(release), mb, d, Media) == (if |release[i].format| == 0 then None else Some(release[i].format))
    ensures (forall i: nat :: !LastAt(release, d, i)) ==> MbSays(MediaOf(release), mb, d, DiscSubtitle).None? && MbSays(MediaOf(release), mb, d, Media).None?
    ensures MbSays(MediaOf(release), mb, d, TrackTotal) == (if OnTheDisc(mb, d) == {} then None else Some(Decimal(|OnTheDisc(mb, d)|)))
  {
    TracksOnAre(mb, d);
    forall i: nat | LastAt(release, d, i) ensures d in Known(MediaOf(release)) && Known(MediaOf(release))[d] == MediaOf(release)[i] {
      KnownIsLast(MediaOf(release), d, i);
    }
    if forall i: nat :: !LastAt(release, d, i) {
      NoneOfPosition(release, d, |release|);
      NoneIsKnown(MediaOf(release), d);
    }
  }

  lemma {:induction false} NoneOfPosition(release: seq<ReleaseMedium>, d: int, n: nat)
    requires n <= |release| && (forall i: nat :: !LastAt(release, d, i)) && forall j :: n <= j < |release| ==> release[j].position != d
    ensures forall j :: 0 <= j < |release| ==> release[j].position != d
  {
    if n > 0 {
      assert !LastAt(release, d, n - 1);
      NoneOfPosition(release, d, n - 1);
    }
  }

  /** The medium of each track of the release, in order. */
  function Flat(release: seq<ReleaseMedium>): seq<ReleaseMedium> {
    if release == [] then []
    else Flat(release[..|release| - 1]) + Times(release[|release| - 1], release[|release| - 1].Tracks())
  }

  function Times(m: ReleaseMedium, n: nat): seq<ReleaseMedium> {
    seq(n, _ => m)
  }

  /** What tagging writes of the medium's three tags. */
  function Written(m: ReleaseMedium, c: Owned): Option<string>
    requires MediumDerived(c)
  {
    if c == DiscSubtitle then Said(m.title) else if c == Media then Said(m.format) else Some(Decimal(m.Total()))
  }

  /** The tracks are the release's, each with what tagging writes of its medium. */
  ghost predicate TracksOf(mb: seq<MbTrack>, release: seq<ReleaseMedium>) {
    |mb| == |Flat(release)| && forall s :: 0 <= s < |mb| ==> IsTrackOf(mb[s], Flat(release)[s])
  }

  ghost predicate IsTrackOf(t: MbTrack, m: ReleaseMedium) {
    t.id.disc == Some(m.position) && forall c :: MediumDerived(c) ==> t.mb(c) == Written(m, c)
  }

  /** Every medium has a position of its own, counted from 1. */
  ghost predicate Numbered(release: seq<ReleaseMedium>) {
    && (forall i :: 0 <= i < |release| ==> release[i].position > 0)
    && (forall i, j :: 0 <= i < j < |release| ==> release[i].position != release[j].position)
  }

  function OnPosition(flat: seq<ReleaseMedium>, d: int): nat {
    if flat == [] then 0 else OnPosition(flat[..|flat| - 1], d) + if flat[|flat| - 1].position == d then 1 else 0
  }

  lemma {:induction false} OnPositionSum(a: seq<ReleaseMedium>, b: seq<ReleaseMedium>, d: int)
    ensures OnPosition(a + b, d) == OnPosition(a, d) + OnPosition(b, d)
  {
    if b == [] {
      assert a + b == a;
    } else {
      OnPositionSum(a, b[..|b| - 1], d);
      assert (a + b)[..|a + b| - 1] == a + b[..|b| - 1];
    }
  }

  lemma {:induction false} OnPositionTimes(m: ReleaseMedium, n: nat, d: int)
    ensures OnPosition(Times(m, n), d) == if m.position == d then n else 0
  {
    if n > 0 {
      OnPositionTimes(m, n - 1, d);
      assert Times(m, n)[..n - 1] == Times(m, n - 1);
    }
  }

  /** Each medium has as many tracks at its position as it lists. */
  lemma {:induction false} FlatCounts(release: seq<ReleaseMedium>, d: int)
    requires Numbered(release)
    ensures forall i :: 0 <= i < |release| && release[i].position == d ==> OnPosition(Flat(release), d) == release[i].Tracks()
    ensures (forall i :: 0 <= i < |release| ==> release[i].position != d) ==> OnPosition(Flat(release), d) == 0
  {
    if release != [] {
      var init, last := release[..|release| - 1], release[|release| - 1];
      FlatCounts(init, d);
      OnPositionSum(Flat(init), Times(last, last.Tracks()), d);
      OnPositionTimes(last, last.Tracks(), d);
      assert forall i :: 0 <= i < |init| ==> init[i] == release[i];
    }
  }

  lemma {:induction false} TracksOnFlat(mb: seq<MbTrack>, flat: seq<ReleaseMedium>, d: int)
    requires |mb| == |flat| && forall s :: 0 <= s < |mb| ==> A.DiscOr1(mb[s].id.disc) == flat[s].position
    ensures TracksOn(mb, d) == OnPosition(flat, d)
  {
    if mb != [] {
      TracksOnFlat(mb[..|mb| - 1], flat[..|flat| - 1], d);
    }
  }

  lemma {:induction false} FlatComesFrom(release: seq<ReleaseMedium>, s: nat) returns (i: nat)
    requires s < |Flat(release)|
    ensures i < |release| && Flat(release)[s] == release[i]
  {
    var init := release[..|release| - 1];
    if s < |Flat(init)| {
      i := FlatComesFrom(init, s);
    } else {
      i := |release| - 1;
    }
  }

  lemma {:induction false} KnownByPosition(media: seq<Medium>, i: nat)
    requires i < |media| && forall j, k :: 0 <= j < k < |media| ==> media[j].position != media[k].position
    ensures media[i].position in Known(media) && Known(media)[media[i].position] == media[i]
  {
    if i < |media| - 1 {
      KnownByPosition(media[..|media| - 1], i);
    }
  }

  /** What the headings have MusicBrainz say of a disc: its name and format as tagging writes them, and the tracks it lists. */
  lemma MediaSay(release: seq<ReleaseMedium>, mb: seq<MbTrack>, s: nat, c: Owned)
    requires Numbered(release) && TracksOf(mb, release) && s < |mb| && MediumDerived(c)
    ensures A.DiscOr1(mb[s].id.disc) == Flat(release)[s].position
    ensures MbSays(MediaOf(release), mb, Flat(release)[s].position, c)
         == if c == TrackTotal then Some(Decimal(Flat(release)[s].Tracks())) else Written(Flat(release)[s], c)
  {
    var flat, m := Flat(release), Flat(release)[s];
    forall t | 0 <= t < |mb| ensures A.DiscOr1(mb[t].id.disc) == flat[t].position {
      var j := FlatComesFrom(release, t);
      assert IsTrackOf(mb[t], flat[t]);
    }
    var i := FlatComesFrom(release, s);
    KnownByPosition(MediaOf(release), i);
    TracksOnFlat(mb, flat, m.position);
    FlatCounts(release, m.position);
    CountsItself(flat, s);
  }

  lemma {:induction false} CountsItself(flat: seq<ReleaseMedium>, s: nat)
    requires s < |flat|
    ensures OnPosition(flat, flat[s].position) > 0
  {
    if s < |flat| - 1 {
      CountsItself(flat[..|flat| - 1], s);
    }
  }

  lemma DecimalsDiffer(m: nat, n: nat)
    ensures Decimal(m) == Decimal(n) <==> m == n
  {
    DecimalReadsBack(m);
    DecimalReadsBack(n);
  }

  /** What the heading of the file's disc states of a tag. */
  ghost function HeadingCell(p: Plan, media: seq<Medium>, s: nat, c: Owned): Cell
    requires InBounds(p) && Compared(p, s) && RolledUp(p.files, p.mb, p.placed, p.multiDisc) && MediumDerived(c)
  {
    HeadingSpeaksForEveryFile(p, media, s, c);
    HeadingsFor(p, media)[DiscAt(p, s)].Of(c)
  }

  /**
   Both sides coming from one release, the headings mark exactly the changes a re-tag would make of the medium's tags;
   but for the track total of a medium that states another count than it lists, where a file that agrees with one of the
   two numbers is marked wrongly, or wrongly not marked.
   */
  lemma HeadingsMarkTheChangesExactly(p: Plan, confirmed: Option<string>, release: seq<ReleaseMedium>, s: nat, c: Owned)
    requires Planned(p, confirmed) && Compared(p, s) && RolledUp(p.files, p.mb, p.placed, p.multiDisc) && MediumDerived(c)
    requires Numbered(release) && TracksOf(p.mb, release)
    ensures var m, disk := Flat(release)[s], FileAt(p, s).disk(c);
      (HeadingCell(p, MediaOf(release), s, c).Finding() <==> disk != p.mb[s].mb(c))
      <==> c != TrackTotal || m.CountsWhatItLists() || disk !in {Some(Decimal(m.Tracks())), Some(Decimal(m.Total()))}
    ensures !ShownOnPage(p, s, c)
  {
    var m := Flat(release)[s];
    MediaSay(release, p.mb, s, c);
    assert IsTrackOf(p.mb[s], m);
    DecimalsDiffer(m.Tracks(), m.Total());
    HeadingSpeaksForEveryFile(p, MediaOf(release), s, c);
    HeadingsShowChangesExactly(p, confirmed, MediaOf(release), s, c);
  }

  // ----- a change that a heading misses -----

  /** Two discs with one silent file each. */
  ghost predicate TwoDiscs(files: seq<FileTags>, mb: seq<MbTrack>) {
    && |files| == |mb| == 2
    && (forall i :: 0 <= i < 2 ==> files[i].id == A.Readable(false, None, None, None, None, None))
    && mb[0].id.disc == Some(1) && mb[1].id.disc == Some(2)
  }

  lemma OneFileADisc(files: seq<FileTags>, mb: seq<MbTrack>, placed: map<nat, nat>)
    requires TwoDiscs(files, mb) && placed == OwnPlaces(2)
    ensures SeveralDiscs(files, mb, []) && RolledUp(files, mb, placed, SeveralDiscs(files, mb, []))
  {
    assert A.DiscOr1(mb[1].id.disc) > 1;
    assert OnDisc(files, placed, 0);
  }

  lemma TwoArePlaced(files: seq<FileTags>, mb: seq<MbTrack>) returns (p: Plan)
    requires TwoDiscs(files, mb)
    ensures p.files == files && p.mb == mb && p.placed == OwnPlaces(2) && p.leftover == [] && Planned(p, None)
  {
    forall i | 0 <= i < |files| ensures A.Ladder(A.Identities(Ids(files)), Identities(mb))[i] == Some(i) {
      A.SilentFilesPairByPosition(A.Identities(Ids(files)), Identities(mb), i);
    }
    p := InPlace(files, mb);
    InPlaceIsPlanned(files, mb);
  }

  function ReadingOf(m: ReleaseMedium): Reading {
    c => if MediumDerived(c) then Written(m, c) else None
  }

  lemma FlatOfTwo(one: ReleaseMedium, two: ReleaseMedium)
    requires one.Tracks() == 1 && two.Tracks() == 1
    ensures Flat([one, two]) == [one, two]
  {
    assert [one, two][..1] == [one] && [one][..0] == [];
    assert Flat([one]) == [one];
  }

  lemma TwoTracks(one: ReleaseMedium, two: ReleaseMedium) returns (mb: seq<MbTrack>)
    ensures |mb| == 2 && IsTrackOf(mb[0], one) && IsTrackOf(mb[1], two)
  {
    mb := [MbTrack(A.TrackIdentity(None, Some(one.position), None), ReadingOf(one), None),
           MbTrack(A.TrackIdentity(None, Some(two.position), None), ReadingOf(two), None)];
  }

  lemma TwoFiles() returns (files: seq<FileTags>)
    ensures |files| == 2 && forall i :: 0 <= i < 2 ==> files[i].id == A.Readable(false, None, None, None, None, None)
    ensures files[0].disk(TrackTotal) == Some(Decimal(1))
  {
    var id := A.Readable(false, None, None, None, None, None);
    var disk: Reading := c => if c == TrackTotal then Some(Decimal(1)) else None;
    files := [FileTags(id, disk, None, None, None), FileTags(id, disk, None, None, None)];
  }

  /** Where a medium states another count than it lists, a file with the number of tracks listed has a change that is not marked. */
  lemma StatedCountHides(p: Plan, release: seq<ReleaseMedium>, s: nat)
    requires InBounds(p) && Compared(p, s) && RolledUp(p.files, p.mb, p.placed, p.multiDisc)
    requires Numbered(release) && TracksOf(p.mb, release) && !Flat(release)[s].CountsWhatItLists()
    requires FileAt(p, s).disk(TrackTotal) == Some(Decimal(Flat(release)[s].Tracks()))
    ensures FileAt(p, s).disk(TrackTotal) != p.mb[s].mb(TrackTotal)
    ensures !HeadingCell(p, MediaOf(release), s, TrackTotal).Finding()
  {
    var m := Flat(release)[s];
    assert IsTrackOf(p.mb[s], m);
    DecimalsDiffer(m.Tracks(), m.Total());
    MediaSay(release, p.mb, s, TrackTotal);
    HeadingSpeaksForEveryFile(p, MediaOf(release), s, TrackTotal);
  }

  lemma TwoMedia() returns (files: seq<FileTags>, mb: seq<MbTrack>, release: seq<ReleaseMedium>)
    ensures TwoDiscs(files, mb) && Numbered(release) && TracksOf(mb, release) && !Flat(release)[0].CountsWhatItLists()
    ensures files[0].disk(TrackTotal) == Some(Decimal(Flat(release)[0].Tracks()))
  {
    var one, two := ReleaseMedium(1, "", "", Some(2), 1, false), ReleaseMedium(2, "", "", None, 1, false);
    release := [one, two];
    FlatOfTwo(one, two);
    mb := TwoTracks(one, two);
    files := TwoFiles();
  }

  /** A medium that states two tracks and lists one: a file that says one would be given two, and the heading shows no change. */
  lemma AStatedCountIsMissed() returns (p: Plan, release: seq<ReleaseMedium>, s: nat)
    ensures Planned(p, None) && Compared(p, s) && RolledUp(p.files, p.mb, p.placed, p.multiDisc)
    ensures Numbered(release) && TracksOf(p.mb, release)
    ensures FileAt(p, s).disk(TrackTotal) != p.mb[s].mb(TrackTotal)
    ensures !HeadingCell(p, MediaOf(release), s, TrackTotal).Finding()
  {
    var files, mb, found := TwoMedia();
    OneFileADisc(files, mb, OwnPlaces(2));
    p := TwoArePlaced(files, mb);
    release, s := found, 0;
    StatedCountHides(p, release, s);
  }
}

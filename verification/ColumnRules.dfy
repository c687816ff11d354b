/**
 The rules for where the track table states each tag, said of the readings alone: the loop that places the tags one by
 one, each by what was placed before it, puts every tag where a rule with no memory does.
 */
module ColumnRules {
  import opened Common
  import opened TrackColumns

  // ----- what asks for a place of its own -----

  /** Some two tracks disagree on one side. */
  ghost predicate TracksDisagree(c: Owned, present: seq<Present>) {
    || (exists i, j :: 0 <= i < |present| && 0 <= j < |present| && present[i].disk(c) != present[j].disk(c))
    || (exists i, j :: 0 <= i < |present| && 0 <= j < |present| && present[i].mb.Some? && present[j].mb.Some?
                       && present[i].mb.value(c) != present[j].mb.value(c))
  }

  /** MusicBrainz has a value for this track's tag. */
  ghost predicate Valued(c: Owned, p: Present) {
    p.mb.Some? && p.mb.value(c).Some?
  }

  ghost predicate Unequal(c: Owned, p: Present) {
    Valued(c, p) && p.disk(c) != p.mb.value(c)
  }

  /** Of the tracks MusicBrainz has a value for, one differs from it, and two read otherwise than each other. */
  ghost predicate DiffersUnevenly(c: Owned, present: seq<Present>) {
    && (exists k :: 0 <= k < |present| && Unequal(c, present[k]))
    && (exists i, j :: 0 <= i < |present| && 0 <= j < |present| && Valued(c, present[i]) && Valued(c, present[j])
                       && !(present[i].disk(c) == present[j].disk(c) && present[i].mb.value(c) == present[j].mb.value(c)))
  }

  ghost predicate Apart(reading: Reading, track: Owned, album: Owned) {
    reading(track).Some? && reading(album).Some? && reading(track).value != reading(album).value
  }

  ghost predicate OneSideApart(p: Present, track: Owned, album: Owned) {
    Apart(p.disk, track, album) || (p.mb.Some? && Apart(p.mb.value, track, album))
  }

  /** On some track and one side, an artist, its sort name or its ids are there and are not the album's. */
  ghost predicate CreditedElsewhere(c: Owned, present: seq<Present>) {
    exists i :: 0 <= i < |present| &&
                (|| (c == Artist && OneSideApart(present[i], Artist, AlbumArtist))
                 || (c == ArtistSort && OneSideApart(present[i], ArtistSort, AlbumArtistSort))
                 || (c == ArtistIds && OneSideApart(present[i], ArtistIds, AlbumArtistIds)))
  }

  ghost predicate OfTheMedium(c: Owned) {
    c in {DiscSubtitle, Media, TrackTotal}
  }

  /** The tag answers which track: the medium's own may disagree from disc to disc. */
  ghost predicate Asks(c: Owned, present: seq<Present>, multiDisc: bool) {
    || DiffersUnevenly(c, present)
    || (TracksDisagree(c, present) && !(multiDisc && OfTheMedium(c)))
    || CreditedElsewhere(c, present)
  }

  lemma PartsExactly(c: Owned, present: seq<Present>)
    ensures PartsCompany(c, present) <==> DiffersUnevenly(c, present)
  {
    forall i | 0 <= i < |present|
      ensures present[i].Compared(c) <==> Valued(c, present[i])
      ensures present[i].Compared(c) && present[i].Changes(c) <==> Unequal(c, present[i])
    {
    }
  }

  lemma DisagreeExactly(c: Owned, present: seq<Present>)
    ensures OneReadingOnDisk(c, present) && OneReadingInMb(c, present) <==> !TracksDisagree(c, present)
  {
  }

  lemma FeaturedExactly(c: Owned, present: seq<Present>)
    ensures (AlbumCounterpart(c).Some? && exists i :: 0 <= i < |present| && present[i].Featured(c, AlbumCounterpart(c).value))
       <==> CreditedElsewhere(c, present)
  {
    if AlbumCounterpart(c).Some? {
      forall i | 0 <= i < |present|
        ensures present[i].Featured(c, AlbumCounterpart(c).value) <==> OneSideApart(present[i], c, AlbumCounterpart(c).value)
      {
      }
    }
  }

  lemma EarnsExactly(c: Owned, present: seq<Present>, multiDisc: bool)
    ensures Earns(c, present, multiDisc) <==> Asks(c, present, multiDisc)
  {
    PartsExactly(c, present);
    DisagreeExactly(c, present);
    FeaturedExactly(c, present);
  }

  // ----- what another tag states -----

  /** The tag that says this one, where both are on the page. */
  ghost predicate Says(host: Owned, c: Owned) {
    || (c == Artists && host == Artist)
    || (c == WorkIds && host == Works)
    || (c == ComposerSort && host == Composers)
    || (c == ComposerIds && host == Composers)
  }

  ghost predicate Retagged(c: Owned, p: Present) {
    p.mb.Some? && p.disk(c) != p.mb.value(c)
  }

  /** No track changes the tag and not its host. */
  ghost predicate ChangesOnlyWith(c: Owned, host: Owned, present: seq<Present>) {
    forall i :: 0 <= i < |present| && Retagged(c, present[i]) ==> Retagged(host, present[i])
  }

  ghost predicate Swallowed(c: Owned, present: seq<Present>, multiDisc: bool) {
    exists host :: Says(host, c) && Asks(host, present, multiDisc) && ChangesOnlyWith(c, host, present)
  }

  /** It rides on a credit line, having no line of its own. */
  ghost predicate Rides(c: Owned, present: seq<Present>, multiDisc: bool) {
    exists host :: Says(host, c) && host in {Works, Composers} && Asks(host, present, multiDisc) && !ChangesOnlyWith(c, host, present)
  }

  // ----- the rule with no memory -----

  ghost predicate Elsewhere(c: Owned, multiDisc: bool, rolledUp: bool) {
    (multiDisc && c == DiscNum) || (rolledUp && OfTheMedium(c))
  }

  /** The tags that compete for the three columns. */
  ghost function Competing(): set<Owned> {
    {Artist, ArtistSort, Artists, ComposerSort, DiscSubtitle, Media, TrackTotal, DiscNum}
  }

  ghost predicate Competes(c: Owned, present: seq<Present>, multiDisc: bool, rolledUp: bool) {
    && c in Competing() && Asks(c, present, multiDisc) && !Elsewhere(c, multiDisc, rolledUp)
    && !Swallowed(c, present, multiDisc) && !Rides(c, present, multiDisc)
  }

  /** Those of them that earn one and are not said elsewhere. */
  ghost function AllCompeting(present: seq<Present>, multiDisc: bool, rolledUp: bool): set<Owned> {
    set c | c in Competing() && Competes(c, present, multiDisc, rolledUp)
  }

  ghost function Before(tags: set<Owned>, rank: int): set<Owned> {
    set c | c in tags && Rank(c) < rank
  }

  ghost function PlaceOf(c: Owned, present: seq<Present>, multiDisc: bool, rolledUp: bool): Surface {
    Rule(c, multiDisc, rolledUp, Asks(c, present, multiDisc), Swallowed(c, present, multiDisc), Rides(c, present, multiDisc),
         |Before(AllCompeting(present, multiDisc, rolledUp), Rank(c))| < 3)
  }

  ghost function Rule(c: Owned, multiDisc: bool, rolledUp: bool, asks: bool, swallowed: bool, rides: bool, room: bool): Surface {
    if multiDisc && c == DiscNum then NumberColumn
    else if rolledUp && OfTheMedium(c) then DiscHeading
    else if c == Title then Column
    else if !asks then Band
    else if c in {Works, Composers, Lyricists, Writers} then Credit
    else if swallowed then Absorption
    else if rides then Rider
    else if c in {Isrcs, RecordingId, ReleaseTrackId, ArtistIds, WorkIds, ComposerIds} then Column
    else if room then Column
    else Overflow
  }

  // ----- the loop keeps to it -----

  /** Every candidate but the number, at its place in column order. */
  ghost predicate Ranked(todo: seq<Owned>) {
    |todo| == 19 && forall i :: 0 <= i < 19 ==> Rank(todo[i]) == i
  }

  lemma RankedDiffer(todo: seq<Owned>, n: nat)
    requires Ranked(todo) && n <= 19
    ensures Distinct(todo[..n])
  {
    forall i, j | 0 <= i < j < n ensures todo[..n][i] != todo[..n][j] {
      assert Rank(todo[i]) != Rank(todo[j]);
    }
  }

  /** A tag stays where it was put. */
  lemma {:induction false} StaysWhereDecided(todo: seq<Owned>, n: nat, k: nat, present: seq<Present>, multiDisc: bool, rolledUp: bool, place: Surface)
    requires Ranked(todo) && k < n <= 19
    ensures var c := todo[k];
      On(Chosen(todo[..n], present, multiDisc, rolledUp), multiDisc, rolledUp, place, c)
      <==> place == Decide(Chosen(todo[..k], present, multiDisc, rolledUp), c, present, multiDisc, rolledUp)
  {
    var c := todo[k];
    RankedDiffer(todo, n);
    assert todo[..n][..n - 1] == todo[..n - 1] && todo[..n][n - 1] == todo[n - 1];
    if n == k + 1 {
      RankedDiffer(todo, k);
      var ch := Chosen(todo[..k], present, multiDisc, rolledUp);
      assert c !in todo[..k] by {
        assert forall i :: 0 <= i < k ==> Rank(todo[i]) != Rank(c);
      }
      ChosenSorts(todo[..k], present, multiDisc, rolledUp, c);
      DecidedBand(ch, c, present, multiDisc, rolledUp);
      var decided := Decide(ch, c, present, multiDisc, rolledUp);
      PutThere(ch, c, decided, Collapse(c, present), multiDisc, rolledUp);
      if place != decided {
        PutNowhereElse(ch, c, decided, Collapse(c, present), multiDisc, rolledUp, place);
      }
    } else {
      StaysWhereDecided(todo, n - 1, k, present, multiDisc, rolledUp, place);
      assert Rank(todo[n - 1]) != Rank(c);
      PlacedLeavesOthers(Chosen(todo[..n - 1], present, multiDisc, rolledUp), todo[n - 1], present, multiDisc, rolledUp, c, place);
    }
  }

  ghost predicate EarnedSoFar(earned: nat, n: int, competing: set<Owned>) {
    earned == if |Before(competing, n)| < 3 then |Before(competing, n)| else 3
  }

  lemma NoneBeforeArtist(competing: set<Owned>, n: int)
    requires n <= 1 && competing <= Competing()
    ensures Before(competing, n) == {}
  {
  }

  lemma RanksDiffer(c: Owned, d: Owned)
    requires Rank(c) == Rank(d) >= 0
    ensures c == d
  {
  }

  lemma OneMoreCompeting(c: Owned, competing: set<Owned>)
    requires Rank(c) >= 0
    ensures |Before(competing, Rank(c) + 1)| == |Before(competing, Rank(c))| + if c in competing then 1 else 0
  {
    var was, now := Before(competing, Rank(c)), Before(competing, Rank(c) + 1);
    forall d | d in now ensures d in was || d == c {
      if Rank(d) == Rank(c) {
        RanksDiffer(c, d);
      }
    }
    assert now == if c in competing then was + {c} else was;
  }

  /** The host is on the page where it asks to be. */
  ghost predicate HostIs(ch: Choice, host: Owned, present: seq<Present>, multiDisc: bool) {
    if host == Artist then host !in ch.listed && (host in ch.kept <==> Asks(host, present, multiDisc))
    else host !in ch.kept && (host in ch.listed <==> Asks(host, present, multiDisc))
  }

  ghost predicate HostsAre(ch: Choice, c: Owned, present: seq<Present>, multiDisc: bool) {
    forall host :: Says(host, c) ==> HostIs(ch, host, present, multiDisc)
  }

  lemma SaysIsSubsumed(c: Owned)
    ensures forall host :: Says(host, c) <==> SubsumedBy(c) == Some(host)
  {
  }

  lemma InStepExactly(c: Owned, host: Owned, present: seq<Present>)
    ensures InStep(c, host, present) <==> ChangesOnlyWith(c, host, present)
  {
    forall i | 0 <= i < |present|
      ensures present[i].Changes(c) <==> Retagged(c, present[i])
      ensures present[i].Changes(host) <==> Retagged(host, present[i])
    {
    }
  }

  lemma SwallowedIs(c: Owned, present: seq<Present>, multiDisc: bool)
    ensures SubsumedBy(c).None? ==> !Swallowed(c, present, multiDisc) && !Rides(c, present, multiDisc)
    ensures SubsumedBy(c).Some? ==>
      var host := SubsumedBy(c).value;
      && Says(host, c)
      && (Swallowed(c, present, multiDisc) <==> Asks(host, present, multiDisc) && InStep(c, host, present))
      && (Rides(c, present, multiDisc) <==> host != Artist && Asks(host, present, multiDisc) && !InStep(c, host, present))
  {
    SaysIsSubsumed(c);
    if SubsumedBy(c).Some? {
      InStepExactly(c, SubsumedBy(c).value, present);
    }
  }

  lemma DecidedByRule(ch: Choice, c: Owned, present: seq<Present>, multiDisc: bool, rolledUp: bool, swallowed: bool, rides: bool)
    requires SubsumedBy(c).None? ==> !swallowed && !rides
    requires SubsumedBy(c).Some? ==>
      var host := SubsumedBy(c).value;
      && (swallowed <==> (host in ch.listed || host in ch.kept) && InStep(c, host, present))
      && (rides <==> host in ch.listed && !InStep(c, host, present))
    ensures Decide(ch, c, present, multiDisc, rolledUp)
         == Rule(c, multiDisc, rolledUp, Earns(c, present, multiDisc), swallowed, rides, ch.earned < 3)
  {
  }

  /** Given the hosts and the count, the turn puts the tag where the rule does. */
  lemma DecidesByRule(ch: Choice, c: Owned, present: seq<Present>, multiDisc: bool, rolledUp: bool)
    requires 0 <= Rank(c) && HostsAre(ch, c, present, multiDisc)
    requires EarnedSoFar(ch.earned, Rank(c), AllCompeting(present, multiDisc, rolledUp))
    ensures Decide(ch, c, present, multiDisc, rolledUp) == PlaceOf(c, present, multiDisc, rolledUp)
  {
    EarnsExactly(c, present, multiDisc);
    SwallowedIs(c, present, multiDisc);
    if SubsumedBy(c).Some? {
      assert HostIs(ch, SubsumedBy(c).value, present, multiDisc);
    }
    DecidedByRule(ch, c, present, multiDisc, rolledUp, Swallowed(c, present, multiDisc), Rides(c, present, multiDisc));
  }

  lemma CompetesForColumn(c: Owned, present: seq<Present>, multiDisc: bool, rolledUp: bool)
    requires 0 <= Rank(c)
    ensures c in AllCompeting(present, multiDisc, rolledUp) <==>
      Capped(c) && (PlaceOf(c, present, multiDisc, rolledUp) == Column || PlaceOf(c, present, multiDisc, rolledUp) == Overflow)
    ensures PlaceOf(c, present, multiDisc, rolledUp) == Column && Capped(c) ==> |Before(AllCompeting(present, multiDisc, rolledUp), Rank(c))| < 3
    ensures PlaceOf(c, present, multiDisc, rolledUp) == Overflow ==> |Before(AllCompeting(present, multiDisc, rolledUp), Rank(c))| >= 3
  {
    CompetingAre(c);
  }

  lemma CompetingAre(c: Owned)
    requires 0 <= Rank(c)
    ensures c in Competing() <==> Capped(c) && c !in {Works, Composers, Lyricists, Writers}
    ensures Capped(c) <==> c != Title && c !in {Isrcs, RecordingId, ReleaseTrackId, ArtistIds, WorkIds, ComposerIds}
  {
  }

  lemma EarnsOne(ch: Choice, c: Owned, present: seq<Present>, multiDisc: bool, rolledUp: bool)
    requires 0 <= Rank(c) && EarnedSoFar(ch.earned, Rank(c), AllCompeting(present, multiDisc, rolledUp))
    requires Decide(ch, c, present, multiDisc, rolledUp) == PlaceOf(c, present, multiDisc, rolledUp)
    ensures EarnedSoFar(Placed(ch, c, present, multiDisc, rolledUp).earned, Rank(c) + 1, AllCompeting(present, multiDisc, rolledUp))
  {
    var place := PlaceOf(c, present, multiDisc, rolledUp);
    OneMoreCompeting(c, AllCompeting(present, multiDisc, rolledUp));
    CompetesForColumn(c, present, multiDisc, rolledUp);
    assert Placed(ch, c, present, multiDisc, rolledUp).earned == ch.earned + if place == Column && Capped(c) then 1 else 0;
  }

  lemma HostsOf(c: Owned, host: Owned)
    requires Says(host, c)
    ensures host in {Artist, Works, Composers} && 1 <= Rank(host) < Rank(c)
  {
  }

  lemma {:induction false} TurnByRule(todo: seq<Owned>, n: nat, present: seq<Present>, multiDisc: bool, rolledUp: bool)
    requires Ranked(todo) && n < 19
    ensures EarnedSoFar(Chosen(todo[..n], present, multiDisc, rolledUp).earned, n, AllCompeting(present, multiDisc, rolledUp))
    ensures Decide(Chosen(todo[..n], present, multiDisc, rolledUp), todo[n], present, multiDisc, rolledUp)
         == PlaceOf(todo[n], present, multiDisc, rolledUp)
    decreases n, 1
  {
    var ch, c := Chosen(todo[..n], present, multiDisc, rolledUp), todo[n];
    if n == 0 {
      NoneBeforeArtist(AllCompeting(present, multiDisc, rolledUp), 0);
    } else {
      TurnByRule(todo, n - 1, present, multiDisc, rolledUp);
      assert todo[..n][..n - 1] == todo[..n - 1];
      EarnsOne(Chosen(todo[..n - 1], present, multiDisc, rolledUp), todo[n - 1], present, multiDisc, rolledUp);
    }
    forall host | Says(host, c) ensures HostIs(ch, host, present, multiDisc) {
      HostsOf(c, host);
      HostByRule(todo, n, host, present, multiDisc, rolledUp);
    }
    DecidesByRule(ch, c, present, multiDisc, rolledUp);
  }

  lemma {:induction false} HostByRule(todo: seq<Owned>, n: nat, host: Owned, present: seq<Present>, multiDisc: bool, rolledUp: bool)
    requires Ranked(todo) && n < 19 && Rank(host) < n && host in {Artist, Works, Composers}
    ensures HostIs(Chosen(todo[..n], present, multiDisc, rolledUp), host, present, multiDisc)
    decreases n, 0
  {
    var k := Rank(host);
    assert todo[k] == host by {
      assert Rank(todo[k]) == k;
      RanksDiffer(todo[k], host);
    }
    TurnByRule(todo, k, present, multiDisc, rolledUp);
    StaysWhereDecided(todo, n, k, present, multiDisc, rolledUp, Column);
    StaysWhereDecided(todo, n, k, present, multiDisc, rolledUp, Credit);
    HostPlace(host, present, multiDisc, rolledUp);
  }

  lemma HostPlace(host: Owned, present: seq<Present>, multiDisc: bool, rolledUp: bool)
    requires host in {Artist, Works, Composers}
    ensures PlaceOf(host, present, multiDisc, rolledUp)
         == if !Asks(host, present, multiDisc) then Band else if host == Artist then Column else Credit
  {
    NoneBeforeArtist(AllCompeting(present, multiDisc, rolledUp), 1);
    assert !Swallowed(host, present, multiDisc) && !Rides(host, present, multiDisc);
  }

  /** Every tag is stated exactly where the rule puts it, and where one says another it is the tag that says it. */
  lemma PlacedExactly(present: seq<Present>, multiDisc: bool, rolledUp: bool, c: Owned, place: Surface)
    requires c in CANDIDATES
    ensures var ch := Chosen(CANDIDATES, present, multiDisc, rolledUp);
      && (On(ch, multiDisc, rolledUp, place, c) <==> place == PlaceOf(c, present, multiDisc, rolledUp))
      && (forall host :: AbsorbedBy(ch, c, host) ==> Says(host, c))
  {
    CandidatesAreRanked();
    PlacedByRule(CANDIDATES, present, multiDisc, rolledUp, c, place);
  }

  lemma CandidatesAreRanked()
    ensures Ranked(CANDIDATES)
  {
  }

  lemma PlacedByRule(todo: seq<Owned>, present: seq<Present>, multiDisc: bool, rolledUp: bool, c: Owned, place: Surface)
    requires Ranked(todo) && c in todo
    ensures var ch := Chosen(todo, present, multiDisc, rolledUp);
      && (On(ch, multiDisc, rolledUp, place, c) <==> place == PlaceOf(c, present, multiDisc, rolledUp))
      && (forall host :: AbsorbedBy(ch, c, host) ==> Says(host, c))
  {
    var n :| 0 <= n < |todo| && todo[n] == c;
    assert todo[..19] == todo;
    TurnByRule(todo, n, present, multiDisc, rolledUp);
    StaysWhereDecided(todo, 19, n, present, multiDisc, rolledUp, place);
    ChosenIsJustified(todo, present, multiDisc, rolledUp);
    SaysIsSubsumed(c);
    forall host | AbsorbedBy(Chosen(todo, present, multiDisc, rolledUp), c, host) ensures Says(host, c) {
      assert Hosted(Chosen(todo, present, multiDisc, rolledUp), present, c, host);
    }
  }

  // ----- in column order -----

  ghost predicate Ascending(tags: seq<Owned>) {
    forall i, j :: 0 <= i < j < |tags| ==> Rank(tags[i]) < Rank(tags[j])
  }

  ghost function Fields(band: seq<CollapsedField>): seq<Owned> {
    seq(|band|, i requires 0 <= i < |band| => band[i].field)
  }

  ghost predicate InOrder(ch: Choice, n: int) {
    && Ascending(ch.kept) && Ascending(ch.overflowed) && Ascending(Fields(ch.collapsed))
    && (forall c :: c in ch.kept || c in ch.overflowed || c in Fields(ch.collapsed) ==> Rank(c) < n)
  }

  lemma OneMoreAscends(tags: seq<Owned>, c: Owned)
    requires Ascending(tags) && forall d :: d in tags ==> Rank(d) < Rank(c)
    ensures Ascending(tags + [c])
  {
  }

  lemma PutInOrder(ch: Choice, c: Owned, place: Surface, band: CollapsedField)
    requires InOrder(ch, Rank(c)) && band.field == c
    ensures InOrder(Put(ch, c, place, band), Rank(c) + 1)
  {
    OneMoreAscends(ch.kept, c);
    OneMoreAscends(ch.overflowed, c);
    OneMoreAscends(Fields(ch.collapsed), c);
    assert Fields(ch.collapsed + [band]) == Fields(ch.collapsed) + [c];
  }

  lemma {:induction false} ChosenInOrder(todo: seq<Owned>, n: nat, present: seq<Present>, multiDisc: bool, rolledUp: bool)
    requires Ranked(todo) && n <= 19
    ensures InOrder(Chosen(todo[..n], present, multiDisc, rolledUp), n)
  {
    if n > 0 {
      ChosenInOrder(todo, n - 1, present, multiDisc, rolledUp);
      assert todo[..n][..n - 1] == todo[..n - 1];
      var ch, c := Chosen(todo[..n - 1], present, multiDisc, rolledUp), todo[n - 1];
      PutInOrder(ch, c, Decide(ch, c, present, multiDisc, rolledUp), Collapse(c, present));
    }
  }

  /** The columns, the lines that overflow and the band are each in column order. */
  lemma ListedInOrder(present: seq<Present>, multiDisc: bool, rolledUp: bool)
    ensures InOrder(Chosen(CANDIDATES, present, multiDisc, rolledUp), 19)
  {
    CandidatesAreRanked();
    AllInOrder(CANDIDATES, present, multiDisc, rolledUp);
  }

  lemma AllInOrder(todo: seq<Owned>, present: seq<Present>, multiDisc: bool, rolledUp: bool)
    requires Ranked(todo)
    ensures InOrder(Chosen(todo, present, multiDisc, rolledUp), 19)
  {
    ChosenInOrder(todo, 19, present, multiDisc, rolledUp);
    assert todo[..19] == todo;
  }

  // ----- cells, lines and the band -----

  /** MusicBrainz's reading of one track's tag. */
  ghost function Theirs(c: Owned, p: Present): Option<string> {
    if p.mb.Some? then p.mb.value(c) else None
  }

  /** A cell states both readings and how they compare; with no track to compare with it is no finding. */
  lemma LineStates(c: Owned, p: Present)
    ensures var line, mine, theirs := Line(c, p), p.disk(c), Theirs(c, p);
      && line.what == Tag(c) && (line.comparable <==> p.mb.Some?)
      && (line.disk.Some? <==> mine.Some?) && (mine.Some? ==> line.disk.value == Text(mine.value))
      && (line.mb.Some? <==> theirs.Some?) && (theirs.Some? ==> line.mb.value == Text(theirs.value))
      && (line.agreement == Matches <==> mine == theirs)
      && (line.agreement == OnlyDisk <==> mine.Some? && theirs.None?) && (line.agreement == OnlyMb <==> mine.None? && theirs.Some?)
  {
  }

  ghost predicate Spoken(c: Owned, p: Present) {
    p.disk(c).Some? || Theirs(c, p).Some?
  }

  /** A tag that overflowed has a line under each track where either side has a value. */
  lemma {:induction false} OverflowExactly(p: Present, overflowed: seq<Owned>, line: Cell)
    ensures line in OverflowLines(p, overflowed) <==> exists c :: c in overflowed && Spoken(c, p) && line == Line(c, p)
  {
    if overflowed != [] {
      OverflowExactly(p, overflowed[1..], line);
      assert overflowed == [overflowed[0]] + overflowed[1..];
    }
  }

  /** A credit has its line where either side has a value; a rider has one only where it changes and its credit does not. */
  ghost predicate HasCreditLine(p: Present, ch: Choice, c: Owned) {
    && Spoken(c, p)
    && (c in ch.riders || c in ch.listed)
    && (c in ch.riders ==> Retagged(c, p) && exists host :: Says(host, c) && !Retagged(host, p))
  }

  lemma CreditLineIs(p: Present, ch: Choice, c: Owned)
    requires RidersJustified(ch)
    ensures CreditLine(p, ch, c) == if HasCreditLine(p, ch, c) then [Line(c, p)] else []
  {
    SaysIsSubsumed(c);
    if c in ch.riders {
      assert Says(SubsumedBy(c).value, c) && forall h :: Says(h, c) ==> h == SubsumedBy(c).value;
    }
  }

  lemma {:induction false} CreditsExactly(p: Present, ch: Choice, order: seq<Owned>, line: Cell)
    requires RidersJustified(ch)
    ensures line in CreditLines(p, ch, order) <==> exists c :: c in order && HasCreditLine(p, ch, c) && line == Line(c, p)
  {
    if order != [] {
      var init, last := order[..|order| - 1], order[|order| - 1];
      assert order == init + [last];
      CreditsExactly(p, ch, init, line);
      CreditLineIs(p, ch, last);
    }
  }

  lemma {:induction false} FirstSaidIs(values: seq<Option<string>>)
    ensures FirstSaid(values).None? <==> forall v :: v in values ==> v.None?
    ensures FirstSaid(values).Some? ==> FirstSaid(values) in values
  {
    if values != [] {
      FirstSaidIs(values[1..]);
      assert values == [values[0]] + values[1..];
    }
  }

  lemma {:induction false} MbReadingsExactly(c: Owned, present: seq<Present>, v: Option<string>)
    ensures v in MbReadings(c, present) <==> exists i :: 0 <= i < |present| && present[i].mb.Some? && present[i].mb.value(c) == v
  {
    if present != [] {
      var rest := present[1..];
      MbReadingsExactly(c, rest, v);
      assert forall i :: 0 < i < |present| ==> present[i] == rest[i - 1];
      if exists i :: 0 <= i < |rest| && rest[i].mb.Some? && rest[i].mb.value(c) == v {
        var i :| 0 <= i < |rest| && rest[i].mb.Some? && rest[i].mb.value(c) == v;
        assert present[i + 1].mb.Some? && present[i + 1].mb.value(c) == v;
      }
    }
  }

  ghost predicate SomebodySays(c: Owned, present: seq<Present>, v: Option<string>) {
    exists i :: 0 <= i < |present| && (present[i].disk(c) == v || (present[i].mb.Some? && present[i].mb.value(c) == v))
  }

  /** Where the band marks no change it states a value somebody has, and none only where nobody has one. */
  lemma BandStatesAReading(c: Owned, present: seq<Present>)
    requires !Collapse(c, present).differs
    ensures var value := Collapse(c, present).value;
      if value.Some? then SomebodySays(c, present, value)
      else forall v :: SomebodySays(c, present, v) ==> v.None?
  {
    var all := DiskReadings(c, present) + MbReadings(c, present);
    FirstSaidIs(all);
    forall v ensures v in all <==> SomebodySays(c, present, v) {
      MbReadingsExactly(c, present, v);
      forall i | 0 <= i < |present| ensures present[i].disk(c) in DiskReadings(c, present) {
        assert DiskReadings(c, present)[i] == present[i].disk(c);
      }
    }
  }
}

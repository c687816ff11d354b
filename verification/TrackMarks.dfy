/**
 What the finished table marks of the tags that have no column of their own on every release: the track number, and
 on a release of several discs the disc number and the medium's tags.
 */
module TrackMarks {
  import opened Common
  import A = TrackAssign
  import opened TrackColumns
  import opened TrackTable

  /** A readable audio file under a release track. */
  predicate Compared(p: Plan, s: nat)
    requires InBounds(p)
  {
    s < |p.mb| && s in p.placed && p.files[p.placed[s]].id.Readable? && !p.files[p.placed[s]].Video()
  }

  function FileAt(p: Plan, s: nat): FileTags
    requires InBounds(p) && s in p.placed
  {
    p.files[p.placed[s]]
  }

  function SideAt(p: Plan, s: nat): TrackColumns.Present
    requires InBounds(p) && s < |p.mb| && s in p.placed
  {
    Side(FileAt(p, s), Some(p.mb[s]))
  }

  // ----- the cells of the finished row -----

  predicate Extra(what: What) {
    what == MbLength || what == Format
  }

  lemma InsertedAdds<T>(xs: seq<T>, i: nat, x: T, f: T)
    requires f in Inserted(xs, i, x)
    ensures f in xs || f == x
  {
  }

  /** The finished rows have no cells but the rows' own, MusicBrainz's length and the format. */
  lemma TableAddsOnlyExtras(p: Plan, r: nat, f: Cell)
    requires InBounds(p) && r < |TableOf(p).rows| && f in TableOf(p).rows[r].cells && !Extra(f.what)
    ensures r < |AllRows(p)| && f in AllRows(p)[r].cells
  {
    TableKeepsRows(p);
    WidenedKeepsFiles(p);
    var w := Widened(p);
    if FormatPlaceOf(p.files) == PerFile {
      InsertedAdds(w.rows[r].cells, IndexOfLength(w.columns), FormatCell(p.files, w.rows[r].file), f);
    }
    assert f in w.rows[r].cells;
  }

  /** `r` is the one row of the file under track `s`, in the finished table. */
  ghost predicate IsRowOf(p: Plan, s: nat, r: nat)
    requires InBounds(p) && Compared(p, s)
  {
    && r < |TrackRows(p, |p.mb|)| && r < |AllRows(p)| == |TableOf(p).rows|
    && TrackRows(p, |p.mb|)[r] == FileRow(p, State.Present, p.placed[s], Some(s), Some(p.mb[s]), !Combined(p, s))
    && AllRows(p)[r] == TrackRows(p, |p.mb|)[r]
    && (forall q :: 0 <= q < |TableOf(p).rows| ==> (TableOf(p).rows[q].file == Some(p.placed[s]) <==> q == r))
  }

  lemma RowAt(p: Plan, confirmed: Option<string>, s: nat) returns (r: nat)
    requires Planned(p, confirmed) && Compared(p, s)
    ensures IsRowOf(p, s, r)
  {
    var row := PlainRow(p, s);
    r := RowIsThere(p, |p.mb|, s, row);
    TableKeepsRows(p);
    assert AllRows(p)[r] == row;
    forall q: nat | q < |TableOf(p).rows| ensures TableOf(p).rows[q].file == Some(p.placed[s]) <==> q == r {
      if AllRows(p)[q].file == Some(p.placed[s]) {
        if q < r {
          SameFileSameRow(p, confirmed, p.placed[s], q, r);
        } else {
          SameFileSameRow(p, confirmed, p.placed[s], r, q);
        }
      }
    }
  }

  /** A compared row's cells: the number, the chosen columns' lines, and the length. */
  lemma RowCellsAre(p: Plan, s: nat, f: Cell)
    requires InBounds(p) && Compared(p, s)
    requires f in FileRow(p, State.Present, p.placed[s], Some(s), Some(p.mb[s]), !Combined(p, s)).cells
    ensures f == NumberCell(Some(FileAt(p, s)), Some(p.mb[s]), p.multiDisc, false) || f.what == Length
         || f in ColumnCells(SideAt(p, s), p.choice.kept)
  {
    PlainCellsAre(FileAt(p, s), p.mb[s], p.multiDisc, p.choice.kept, !Combined(p, s), f);
  }

  lemma PlainCellsAre(file: FileTags, t: MbTrack, multiDisc: bool, kept: seq<Owned>, compareLength: bool, f: Cell)
    requires f in PlainCells(Some(file), Some(t), multiDisc, kept, false, compareLength)
    ensures f == NumberCell(Some(file), Some(t), multiDisc, false) || f.what == Length || f in ColumnCells(Side(file, Some(t)), kept)
  {
    var cells := PlainCells(Some(file), Some(t), multiDisc, kept, false, compareLength);
    var k :| 0 <= k < |cells| && cells[k] == f;
    if 0 < k <= |kept| {
      assert f == TagCell(Some(file), Some(t), kept[k - 1], false);
      assert f == ColumnCells(Side(file, Some(t)), kept)[k - 1];
    }
  }

  lemma CellsMarkOnlyLines(p: Plan, s: nat, r: nat, c: Owned)
    requires InBounds(p) && Compared(p, s) && IsRowOf(p, s, r)
    requires MarkedIn(TableOf(p).rows[r].cells, p.choice, c)
    ensures MarkedIn(ColumnCells(SideAt(p, s), p.choice.kept), p.choice, c)
  {
    var f, o :| f in TableOf(p).rows[r].cells && f.what == Tag(o) && SpeaksFor(p.choice, o, c) && f.Finding();
    TableAddsOnlyExtras(p, r, f);
    RowCellsAre(p, s, f);
  }

  lemma RowMarksOnlyThese(p: Plan, s: nat, r: nat, c: Owned)
    requires InBounds(p) && Compared(p, s) && IsRowOf(p, s, r) && RowMarks(TableOf(p).rows[r], p.choice, c)
    ensures Marked(p.choice, SideAt(p, s), c, CANDIDATES)
  {
    TableKeepsRows(p);
    if MarkedIn(TableOf(p).rows[r].cells, p.choice, c) {
      CellsMarkOnlyLines(p, s, r, c);
    }
  }

  lemma RowShows(p: Plan, s: nat, r: nat, c: Owned)
    requires InBounds(p) && Compared(p, s) && IsRowOf(p, s, r)
    ensures ShownOnPage(p, s, c) <==> Marked(p.choice, SideAt(p, s), c, CANDIDATES)
  {
    if Marked(p.choice, SideAt(p, s), c, CANDIDATES) && !MarkedInBand(p.choice, c) {
      FinishedRowMarks(p, s, r, c);
    }
    if ShownOnPage(p, s, c) && !MarkedInBand(p.choice, c) {
      RowMarksOnlyThese(p, s, r, c);
    }
  }

  /** Nothing on the page marks a change but what the choice of columns marks for the file. */
  lemma ShownExactly(p: Plan, confirmed: Option<string>, s: nat, c: Owned)
    requires Planned(p, confirmed) && Compared(p, s)
    ensures ShownOnPage(p, s, c) <==> Marked(p.choice, SideAt(p, s), c, CANDIDATES)
  {
    var r := RowAt(p, confirmed, s);
    RowShows(p, s, r, c);
  }

  // ----- the number -----

  /** The number column reads differently on the two sides: another track, or on a release of several discs another disc. */
  predicate ReadsApart(f: A.File, t: A.TrackIdentity, multiDisc: bool)
    requires f.Readable?
  {
    f.track != t.track || (multiDisc && f.track.Some? && A.DiscOr1(f.disc) != A.DiscOr1(t.disc))
  }

  /** The finished row marks the file's number. */
  ghost predicate NumberShown(p: Plan, s: nat)
    requires InBounds(p) && s in p.placed
  {
    exists r, f :: 0 <= r < |TableOf(p).rows| && TableOf(p).rows[r].file == Some(p.placed[s])
                   && f in TableOf(p).rows[r].cells && f.what == What.Number && f.Finding()
  }

  lemma NumberReads(f: FileTags, t: MbTrack, multiDisc: bool)
    requires f.id.Readable?
    ensures NumberCell(Some(f), Some(t), multiDisc, false).Finding() <==> ReadsApart(f.id, t.id, multiDisc)
  {
  }

  lemma NumberOfRow(p: Plan, s: nat, r: nat, f: Cell)
    requires InBounds(p) && Compared(p, s) && IsRowOf(p, s, r)
    requires f in TableOf(p).rows[r].cells && f.what == What.Number
    ensures f == NumberCell(Some(FileAt(p, s)), Some(p.mb[s]), p.multiDisc, false)
  {
    TableAddsOnlyExtras(p, r, f);
    RowCellsAre(p, s, f);
  }

  lemma RowHasNumber(p: Plan, s: nat, r: nat)
    requires InBounds(p) && Compared(p, s) && IsRowOf(p, s, r)
    ensures NumberCell(Some(FileAt(p, s)), Some(p.mb[s]), p.multiDisc, false) in TableOf(p).rows[r].cells
  {
    TableKeepsRows(p);
    assert AllRows(p)[r].cells[0] == NumberCell(Some(FileAt(p, s)), Some(p.mb[s]), p.multiDisc, false);
  }

  lemma RowShowsNumber(p: Plan, s: nat, r: nat)
    requires InBounds(p) && Compared(p, s) && IsRowOf(p, s, r)
    ensures NumberShown(p, s) <==> NumberCell(Some(FileAt(p, s)), Some(p.mb[s]), p.multiDisc, false).Finding()
  {
    RowHasNumber(p, s, r);
    if NumberShown(p, s) {
      var q, f :| 0 <= q < |TableOf(p).rows| && TableOf(p).rows[q].file == Some(p.placed[s])
                  && f in TableOf(p).rows[q].cells && f.what == What.Number && f.Finding();
      NumberOfRow(p, s, r, f);
    }
  }

  /** So a change of the track number is always shown, whatever the release. */
  lemma NumberIsShownExactly(p: Plan, confirmed: Option<string>, s: nat)
    requires Planned(p, confirmed) && Compared(p, s)
    ensures NumberShown(p, s) <==> ReadsApart(FileAt(p, s).id, p.mb[s].id, p.multiDisc)
  {
    var r := RowAt(p, confirmed, s);
    RowShowsNumber(p, s, r);
    NumberReads(FileAt(p, s), p.mb[s], p.multiDisc);
  }

  /** A choice made for several discs states the disc number nowhere but in the number column. */
  lemma NoLineForTheDisc(todo: seq<Owned>, present: seq<TrackColumns.Present>, rolledUp: bool, side: TrackColumns.Present,
                         order: seq<Owned>)
    requires Distinct(todo)
    ensures !Marked(Chosen(todo, present, true, rolledUp), side, DiscNum, order)
  {
    var ch := Chosen(todo, present, true, rolledUp);
    ChosenSorts(todo, present, true, rolledUp, DiscNum);
    assert On(ch, true, rolledUp, NumberColumn, DiscNum);
    assert !On(ch, true, rolledUp, Column, DiscNum) && !On(ch, true, rolledUp, Credit, DiscNum)
           && !On(ch, true, rolledUp, Rider, DiscNum) && !On(ch, true, rolledUp, Overflow, DiscNum)
           && !On(ch, true, rolledUp, Band, DiscNum);
    NoCellMarks(ch, side, DiscNum, order);
  }

  /**
   On a release of several discs the number column is the only place for the disc number, and it marks a change of the
   disc number exactly when the number reads differently; a disc left out, or 0, reads as the first.
   */
  lemma DiscIsShownExactly(p: Plan, confirmed: Option<string>, s: nat)
    requires Planned(p, confirmed) && Compared(p, s) && p.multiDisc
    ensures !ShownOnPage(p, s, DiscNum)
    ensures NumberShown(p, s) <==> ReadsApart(FileAt(p, s).id, p.mb[s].id, true)
  {
    NumberIsShownExactly(p, confirmed, s);
    ShownExactly(p, confirmed, s, DiscNum);
    CandidatesDiffer();
    NoLineForTheDisc(CANDIDATES, PresentOf(p.files, p.mb, p.placed, |p.mb|), RolledUp(p.files, p.mb, p.placed, true),
                     SideAt(p, s), CANDIDATES);
  }

  // ----- the medium's tags -----

  /**
   The medium's tags on a release of several discs whose headings do not state them: a change of one is shown exactly
   when the tag earns a column, or both sides read it one way on every track.
   */
  lemma MediumTagsAreShownExactly(p: Plan, confirmed: Option<string>, s: nat, c: Owned)
    requires Planned(p, confirmed) && Compared(p, s) && p.multiDisc && !RolledUp(p.files, p.mb, p.placed, true)
    requires MediumDerived(c) && FileAt(p, s).disk(c) != p.mb[s].mb(c)
    ensures var present := PresentOf(p.files, p.mb, p.placed, |p.mb|);
      ShownOnPage(p, s, c) <==> PartsCompany(c, present) || (OneReadingOnDisk(c, present) && OneReadingInMb(c, present))
  {
    ShownExactly(p, confirmed, s, c);
    var k := PresentAt(p, s);
    MediumTagsAreMarkedExactly(PresentOf(p.files, p.mb, p.placed, |p.mb|), k, c);
  }

  lemma PresentAt(p: Plan, s: nat) returns (k: nat)
    requires InBounds(p) && Compared(p, s)
    ensures var present := PresentOf(p.files, p.mb, p.placed, |p.mb|); k < |present| && present[k] == SideAt(p, s)
  {
    var present := PresentOf(p.files, p.mb, p.placed, |p.mb|);
    PresentHas(p.files, p.mb, p.placed, |p.mb|, s);
    k :| 0 <= k < |present| && present[k] == SideAt(p, s);
  }

  // ----- changes that are shown nowhere -----

  function OwnPlaces(n: nat): (placed: map<nat, nat>)
    ensures forall s: nat :: s in placed <==> s < n
    ensures forall s :: s in placed ==> placed[s] == s
  {
    if n == 0 then map[] else OwnPlaces(n - 1)[n - 1 := n - 1]
  }

  /** The plan a release makes of files that are each under the track in their own place. */
  ghost function InPlace(files: seq<FileTags>, mb: seq<MbTrack>): Plan
    requires |files| <= |mb|
  {
    var placed := OwnPlaces(|files|);
    var multiDisc := SeveralDiscs(files, mb, []);
    Plan(files, mb, map[], placed, [], multiDisc,
         Chosen(CANDIDATES, PresentOf(files, mb, placed, |mb|), multiDisc, RolledUp(files, mb, placed, multiDisc)))
  }

  lemma InPlaceIsPlanned(files: seq<FileTags>, mb: seq<MbTrack>)
    requires |files| <= |mb|
    requires forall i :: 0 <= i < |files| ==> A.Ladder(A.Identities(Ids(files)), Identities(mb))[i] == Some(i)
    ensures Planned(InPlace(files, mb), None)
  {
    var slots := A.Reviewed(Ids(files), Identities(mb), None);
    A.UnplacedAre(slots, 0);
    assert forall i :: 0 <= i < |slots| ==> slots[i] == Some(i);
    var unplaced := A.Unplaced(slots, 0);
    assert unplaced != [] ==> unplaced[0] in unplaced;
  }

  lemma NumberPlaces(file: A.TrackIdentity, tracks: seq<A.TrackIdentity>)
    requires file.releaseTrackId.None? && file.track.Some? && tracks != []
    requires A.KeyOf(A.ByNumber, tracks[0]) == A.KeyOf(A.ByNumber, file)
    requires forall s :: 0 < s < |tracks| ==> A.KeyOf(A.ByNumber, tracks[s]) != A.KeyOf(A.ByNumber, file)
    ensures A.Ladder([file], tracks)[0] == Some(0)
  {
    assert A.Names(A.Keys(A.ByNumber, [file]), A.Keys(A.ByNumber, tracks), 0, 0);
    A.SharedNumberDecides([file], tracks, 0, 0);
  }

  /**
   A change of the disc number that is shown nowhere: on a release of two discs, a file that names no disc, under the
   first track of the first.
   */
  lemma ASilentFirstDiscIsMissed() returns (p: Plan)
    ensures Planned(p, None) && p.multiDisc && Compared(p, 0)
    ensures FileAt(p, 0).id.disc != p.mb[0].id.disc && FileAt(p, 0).disk(DiscNum) != p.mb[0].mb(DiscNum)
    ensures !NumberShown(p, 0) && !ShownOnPage(p, 0, DiscNum)
  {
    var file, one, two := OneFile();
    p := PlanOfOne(file, one, two);
    DiscIsShownExactly(p, None, 0);
  }

  lemma OneFile() returns (file: FileTags, one: MbTrack, two: MbTrack)
    ensures file.id == A.Readable(false, None, None, None, None, Some(1)) && file.disk(DiscNum) == None
    ensures one.id == A.TrackIdentity(None, Some(1), Some(1)) && one.mb(DiscNum) == Some("1")
    ensures two.id == A.TrackIdentity(None, Some(2), Some(1))
  {
    var silent: Reading, first: Reading := o => None, o => if o == DiscNum then Some("1") else None;
    file := FileTags(A.Readable(false, None, None, None, None, Some(1)), silent, None, None, None);
    one, two := MbTrack(A.TrackIdentity(None, Some(1), Some(1)), first, None), MbTrack(A.TrackIdentity(None, Some(2), Some(1)), silent, None);
  }

  lemma PlanOfOne(file: FileTags, one: MbTrack, two: MbTrack) returns (p: Plan)
    requires file.id == A.Readable(false, None, None, None, None, Some(1))
    requires one.id == A.TrackIdentity(None, Some(1), Some(1)) && two.id == A.TrackIdentity(None, Some(2), Some(1))
    ensures p.files == [file] && p.mb == [one, two] && Planned(p, None) && p.multiDisc && Compared(p, 0) && FileAt(p, 0) == file
  {
    var files, mb := [file], [one, two];
    assert A.Identities(Ids(files)) == [A.IdentityOf(file.id)] && Identities(mb) == [one.id, two.id];
    NumberPlaces(A.IdentityOf(file.id), [one.id, two.id]);
    p := InPlace(files, mb);
    InPlaceIsPlanned(files, mb);
    assert A.DiscOr1(mb[1].id.disc) > 1;
  }

  /** Nothing on the page can show the change of medium of the file under track `s`. */
  ghost predicate MediumHidden(files: seq<FileTags>, mb: seq<MbTrack>, placed: map<nat, nat>, present: seq<TrackColumns.Present>) {
    && (forall s :: s in placed ==> placed[s] < |files|)
    && SeveralDiscs(files, mb, []) && !RolledUp(files, mb, placed, true) && present == PresentOf(files, mb, placed, |mb|)
    && (forall k :: 0 <= k < |present| && present[k].Compared(Media) ==> !present[k].Changes(Media))
    && !OneReadingInMb(Media, present)
  }

  lemma MediumIsMissed(p: Plan, s: nat, present: seq<TrackColumns.Present>)
    requires Planned(p, None) && Compared(p, s) && p.leftover == [] && MediumHidden(p.files, p.mb, p.placed, present)
    requires FileAt(p, s).disk(Media) != p.mb[s].mb(Media)
    ensures p.multiDisc && !ShownOnPage(p, s, Media)
  {
    MediumTagsAreShownExactly(p, None, s, Media);
  }

  /** Three files that name no track; the first disc's two disagree about its track total. All three are CDs, as far as is known. */
  ghost predicate ThreeDiscs(files: seq<FileTags>, mb: seq<MbTrack>) {
    && |files| == |mb| == 3
    && (forall i :: 0 <= i < 3 ==> files[i].id == A.Readable(false, None, None, None, None, None))
    && mb[0].id.disc == Some(1) && mb[1].id.disc == Some(1) && mb[2].id.disc == Some(2)
    && files[0].disk(TrackTotal) != files[1].disk(TrackTotal)
    && (forall i :: 0 <= i < 3 ==> files[i].disk(Media) == Some("CD"))
    && mb[0].mb(Media) == Some("CD") && mb[1].mb(Media) == Some("CD") && mb[2].mb(Media) == None
  }

  lemma Discs() returns (files: seq<FileTags>, mb: seq<MbTrack>)
    ensures ThreeDiscs(files, mb)
  {
    var said: Reading, other: Reading := o => if o == Media then Some("CD") else None,
                                         o => if o == Media then Some("CD") else if o == TrackTotal then Some("3") else None;
    var silent: Reading := o => None;
    var id := A.Readable(false, None, None, None, None, None);
    files := [FileTags(id, said, None, None, None), FileTags(id, other, None, None, None), FileTags(id, said, None, None, None)];
    var first, second := A.TrackIdentity(None, Some(1), None), A.TrackIdentity(None, Some(2), None);
    mb := [MbTrack(first, said, None), MbTrack(first, said, None), MbTrack(second, silent, None)];
  }

  lemma NoHeadings(files: seq<FileTags>, mb: seq<MbTrack>, placed: map<nat, nat>)
    requires ThreeDiscs(files, mb) && placed == OwnPlaces(3)
    ensures SeveralDiscs(files, mb, []) && !RolledUp(files, mb, placed, true)
  {
    assert A.DiscOr1(mb[2].id.disc) > 1;
    assert OnDisc(files, placed, 0) && OnDisc(files, placed, 1);
  }

  lemma AllArePresent(files: seq<FileTags>, mb: seq<MbTrack>, placed: map<nat, nat>)
    requires ThreeDiscs(files, mb) && placed == OwnPlaces(3)
    ensures PresentOf(files, mb, placed, 3) == [Side(files[0], Some(mb[0])), Side(files[1], Some(mb[1])), Side(files[2], Some(mb[2]))]
  {
    assert PresentOf(files, mb, placed, 0) == [];
    assert PresentOf(files, mb, placed, 1) == [Side(files[0], Some(mb[0]))];
    assert PresentOf(files, mb, placed, 2) == [Side(files[0], Some(mb[0])), Side(files[1], Some(mb[1]))];
  }

  lemma SilentOnTheThird(present: seq<TrackColumns.Present>)
    requires |present| == 3 && forall k :: 0 <= k < 3 ==> present[k].mb.Some?
    requires forall k :: 0 <= k < 2 ==> present[k].disk(Media) == present[k].mb.value(Media) != None
    requires present[2].mb.value(Media) == None
    ensures forall k :: 0 <= k < |present| && present[k].Compared(Media) ==> !present[k].Changes(Media)
    ensures !OneReadingInMb(Media, present)
  {
    assert present[0].mb.value(Media) != present[2].mb.value(Media);
  }

  lemma ThreeAreHidden(files: seq<FileTags>, mb: seq<MbTrack>, placed: map<nat, nat>) returns (present: seq<TrackColumns.Present>)
    requires ThreeDiscs(files, mb) && placed == OwnPlaces(3)
    ensures MediumHidden(files, mb, placed, present)
  {
    present := PresentOf(files, mb, placed, 3);
    NoHeadings(files, mb, placed);
    AllArePresent(files, mb, placed);
    SilentOnTheThird(present);
  }

  lemma ThreeArePlaced(files: seq<FileTags>, mb: seq<MbTrack>) returns (p: Plan)
    requires ThreeDiscs(files, mb)
    ensures p.files == files && p.mb == mb && p.placed == OwnPlaces(3) && p.leftover == [] && Planned(p, None)
  {
    forall i | 0 <= i < |files| ensures A.Ladder(A.Identities(Ids(files)), Identities(mb))[i] == Some(i) {
      A.SilentFilesPairByPosition(A.Identities(Ids(files)), Identities(mb), i);
    }
    p := InPlace(files, mb);
    InPlaceIsPlanned(files, mb);
  }

  /**
   A change of the medium that is shown nowhere: three files, all of them CD. The first disc's two disagree about its
   track total, so no heading states the medium's tags, and MusicBrainz has no medium for the second disc.
   */
  lemma AMediumChangeCanHide() returns (p: Plan, s: nat)
    ensures Planned(p, None) && p.multiDisc && !RolledUp(p.files, p.mb, p.placed, true) && Compared(p, s)
    ensures FileAt(p, s).disk(Media) == Some("CD") && p.mb[s].mb(Media) == None
    ensures !ShownOnPage(p, s, Media)
  {
    var files, mb := Discs();
    var present := ThreeAreHidden(files, mb, OwnPlaces(3));
    s := 2;
    p := ThreeArePlaced(files, mb);
    MediumIsMissed(p, s, present);
  }
}

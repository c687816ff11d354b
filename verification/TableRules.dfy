/** What the finished track table says, said of the files and the release alone: row states, lengths, formats and discs. */
module TableRules {
  import opened Common
  import A = TrackAssign
  import opened TrackColumns
  import opened TrackTable

  // ----- discs -----

  /** The release has several discs when a track of it is past the first, or a file that is no track of it says so. */
  lemma DiscsAreSeveral(files: seq<FileTags>, mb: seq<MbTrack>, leftover: seq<nat>)
    requires forall i :: i in leftover ==> i < |files|
    ensures SeveralDiscs(files, mb, leftover) <==>
      || (exists t :: t in mb && t.id.disc.Some? && t.id.disc.value > 1)
      || (exists i :: i in leftover && files[i].id.Readable? && files[i].id.disc.Some? && files[i].id.disc.value > 1)
  {
    forall s | 0 <= s < |mb| ensures mb[s] in mb {
    }
  }

  /** The columns are chosen over the readable files that are tracks, each beside its track; a video has nothing beside it. */
  lemma {:induction false} PresentAre(files: seq<FileTags>, mb: seq<MbTrack>, placed: map<nat, nat>, n: nat, x: TrackColumns.Present)
    requires n <= |mb| && forall s :: s in placed ==> placed[s] < |files|
    ensures x in PresentOf(files, mb, placed, n) <==>
      exists s :: 0 <= s < n && s in placed && files[placed[s]].id.Readable?
                  && x.disk == files[placed[s]].disk
                  && x.mb == if files[placed[s]].id.video then None else Some(mb[s].mb)
  {
    if n > 0 {
      PresentAre(files, mb, placed, n - 1, x);
      var s := n - 1;
      var rest, all := PresentOf(files, mb, placed, n - 1), PresentOf(files, mb, placed, n);
      if s in placed && files[placed[s]].id.Readable? {
        var last := Side(files[placed[s]], if files[placed[s]].Video() then None else Some(mb[s]));
        assert all == rest + [last];
        assert x == last <==> x.disk == files[placed[s]].disk && x.mb == if files[placed[s]].id.video then None else Some(mb[s].mb);
      }
    }
  }

  /** A readable audio file under track `s`. */
  ghost predicate Compares(files: seq<FileTags>, mb: seq<MbTrack>, placed: map<nat, nat>, s: nat)
    requires forall t :: t in placed ==> placed[t] < |files|
  {
    s < |mb| && s in placed && files[placed[s]].id.Readable? && !files[placed[s]].id.video
  }

  ghost predicate SameDisc(x: Option<int>, y: Option<int>) {
    x == y || (x in {None, Some(0), Some(1)} && y in {None, Some(0), Some(1)})
  }

  ghost predicate AgreeOnMedium(x: FileTags, y: FileTags) {
    x.disk(DiscSubtitle) == y.disk(DiscSubtitle) && x.disk(Media) == y.disk(Media) && x.disk(TrackTotal) == y.disk(TrackTotal)
  }

  /** The headings state the medium's three tags when the release has several discs, some file is compared, and any two of one disc agree. */
  lemma RolledUpExactly(files: seq<FileTags>, mb: seq<MbTrack>, placed: map<nat, nat>, multiDisc: bool)
    requires forall s :: s in placed ==> placed[s] < |files|
    ensures RolledUp(files, mb, placed, multiDisc) <==>
      && multiDisc && (exists s: nat :: Compares(files, mb, placed, s))
      && (forall s: nat, t: nat :: Compares(files, mb, placed, s) && Compares(files, mb, placed, t) && SameDisc(mb[s].id.disc, mb[t].id.disc)
                         ==> AgreeOnMedium(files[placed[s]], files[placed[t]]))
  {
    forall s: nat ensures Compares(files, mb, placed, s) <==> s < |mb| && OnDisc(files, placed, s) {
    }
    forall x, y ensures SameDisc(x, y) <==> A.DiscOr1(x) == A.DiscOr1(y) {
    }
    forall x: FileTags, y: FileTags
      ensures AgreeOnMedium(x, y) <==> forall c :: c in {DiscSubtitle, Media, TrackTotal} ==> x.disk(c) == y.disk(c)
    {
    }
  }

  // ----- the state of a row -----

  ghost predicate StateIs(p: Plan, row: Row) {
    && (row.state == Missing <==> row.file.None?)
    && (row.file.Some? ==> row.file.value < |p.files|)
    && (row.state == Unreadable <==> row.file.Some? && p.files[row.file.value].id.Unreadable?)
    && (row.state == Extra <==> row.file.Some? && p.files[row.file.value].id.Readable? && row.track.None?)
  }

  lemma RowsState(p: Plan, r: nat)
    requires InBounds(p) && r < |AllRows(p)|
    ensures StateIs(p, AllRows(p)[r])
  {
    if r < |TrackRows(p, |p.mb|)| {
      var s := RowComesFrom(p, |p.mb|, r);
      var row := TrackRow(p, s)[0];
      assert StateIs(p, row);
    } else {
      var k := r - |TrackRows(p, |p.mb|)|;
      assert StateIs(p, ExtraRow(p, p.leftover[k]));
    }
  }

  /** A row with no file is missing, one with a file nobody can read is unreadable, and any other with no track is extra. */
  lemma EveryRowsState(p: Plan, r: nat)
    requires InBounds(p) && r < |TableOf(p).rows|
    ensures StateIs(p, TableOf(p).rows[r])
  {
    TableKeepsRows(p);
    RowsState(p, r);
  }

  // ----- what is not compared -----

  /** The finished rows add no cell that finds anything. */
  lemma FinishedCells(p: Plan, r: nat, f: Cell)
    requires InBounds(p) && r < |TableOf(p).rows| && f in TableOf(p).rows[r].cells
    ensures r < |AllRows(p)| && (f in AllRows(p)[r].cells || (!f.Finding() && !f.Advisory()))
  {
    TableKeepsRows(p);
    WidenedKeepsFiles(p);
    var w := Widened(p);
    if FormatPlaceOf(p.files) == PerFile {
      InsertedHas(w.rows[r].cells, IndexOfLength(w.columns), FormatCell(p.files, w.rows[r].file), f);
    }
    assert f in w.rows[r].cells || f == FormatCell(p.files, w.rows[r].file);
  }

  lemma InsertedHas<T>(xs: seq<T>, i: nat, x: T, f: T)
    requires f in Inserted(xs, i, x)
    ensures f in xs || f == x
  {
  }

  ghost predicate FindsNothing(cells: seq<Cell>) {
    forall f :: f in cells ==> !f.Finding() && !f.Advisory()
  }

  lemma {:induction false} LinesFindNothing(side: TrackColumns.Present, ch: Choice, overflowed: seq<Owned>, order: seq<Owned>)
    requires side.mb.None?
    ensures FindsNothing(OverflowLines(side, overflowed)) && FindsNothing(CreditLines(side, ch, order))
    decreases |overflowed| + |order|
  {
    if overflowed != [] {
      LinesFindNothing(side, ch, overflowed[1..], order);
    } else if order != [] {
      LinesFindNothing(side, ch, [], order[..|order| - 1]);
    }
  }

  lemma UncomparedFileRow(p: Plan, state: State, i: nat, track: Option<nat>)
    requires i < |p.files|
    ensures var row := FileRow(p, state, i, track, None, true);
      FindsNothing(row.cells) && FindsNothing(row.overflow) && FindsNothing(row.credits)
  {
    LinesFindNothing(Side(p.files[i], None), p.choice, p.choice.overflowed, CANDIDATES);
    OnlyLengthsAdvise(Some(p.files[i]), None, p.multiDisc, p.choice.kept, false, true);
    var cells := RowCells(Some(p.files[i]), None, p.multiDisc, p.choice.kept, false, true);
    forall f | f in cells ensures !f.Finding() && !f.Advisory() {
      var k :| 0 <= k < |cells| && cells[k] == f;
    }
  }

  ghost predicate IsUncompared(p: Plan, row: Row) {
    row.file.Some? && row.file.value < |p.files| && p.files[row.file.value].id.Readable?
    && (p.files[row.file.value].id.video || row.track.None?)
  }

  lemma UncomparedRow(p: Plan, r: nat)
    requires InBounds(p) && r < |AllRows(p)| && IsUncompared(p, AllRows(p)[r])
    ensures var row := AllRows(p)[r]; FindsNothing(row.cells) && FindsNothing(row.overflow) && FindsNothing(row.credits)
  {
    AllRowsAt(p, r);
    if r < |TrackRows(p, |p.mb|)| {
      var s := RowComesFrom(p, |p.mb|, r);
      UncomparedTrackRow(p, s, AllRows(p)[r]);
    } else {
      UncomparedFileRow(p, Extra, p.leftover[r - |TrackRows(p, |p.mb|)|], None);
    }
  }

  lemma UncomparedTrackRow(p: Plan, s: nat, row: Row)
    requires InBounds(p) && s < |p.mb| && TrackRow(p, s) == [row] && IsUncompared(p, row)
    ensures FindsNothing(row.cells) && FindsNothing(row.overflow) && FindsNothing(row.credits)
  {
    UncomparedFileRow(p, State.Present, row.file.value, Some(s));
    assert row == FileRow(p, State.Present, row.file.value, Some(s), None, true);
  }

  /** A video, and a file that is no track, is compared with nothing: nothing on its row is a finding or an advisory. */
  lemma UncomparedRowsFindNothing(p: Plan, r: nat)
    requires InBounds(p) && r < |TableOf(p).rows| && IsUncompared(p, TableOf(p).rows[r])
    ensures var row := TableOf(p).rows[r]; FindsNothing(row.cells) && FindsNothing(row.overflow) && FindsNothing(row.credits)
  {
    TableKeepsRows(p);
    UncomparedRow(p, r);
    forall f | f in TableOf(p).rows[r].cells ensures !f.Finding() && !f.Advisory() {
      FinishedCells(p, r, f);
    }
  }

  // ----- lengths -----

  /** Two lengths known, and more than four seconds apart. */
  ghost predicate FarApart(disk: Option<int>, mb: Option<int>) {
    disk.Some? && mb.Some? && (disk.value > mb.value + 4000 || mb.value > disk.value + 4000)
  }

  /** A length in whole seconds, half a second and more rounded up. */
  ghost predicate Seconds(ms: Option<int>, shown: Option<Value>) {
    match ms
    case None => shown.None?
    case Some(n) => shown.Some? && shown.value.Duration? && 1000 * shown.value.seconds - 500 <= n < 1000 * shown.value.seconds + 500
  }

  /** A length is never a finding; it is an advisory exactly when both are known and more than four seconds apart. */
  lemma LengthsCompare(disk: Option<int>, mb: Option<int>, unreadable: bool)
    ensures var cell := LengthCell(disk, mb, unreadable);
      && cell.what == Length && !cell.Finding()
      && (cell.Advisory() <==> !unreadable && FarApart(disk, mb))
      && Seconds(if unreadable then None else disk, cell.disk) && Seconds(mb, cell.mb)
  {
  }

  /** No tag's cell and no number is an advisory. */
  lemma OnlyLengthsAdvise(tags: Option<FileTags>, mb: Option<MbTrack>, multiDisc: bool, kept: seq<Owned>, unreadable: bool,
                          compareLength: bool)
    ensures (exists k :: 0 <= k < |RowCells(tags, mb, multiDisc, kept, unreadable, compareLength)|
                         && RowCells(tags, mb, multiDisc, kept, unreadable, compareLength)[k].Advisory())
       <==> !unreadable && compareLength && tags.Some? && mb.Some? && FarApart(tags.value.duration, mb.value.length)
    ensures LengthOf(RowCells(tags, mb, multiDisc, kept, unreadable, compareLength)).Some?
    ensures var length := LengthOf(RowCells(tags, mb, multiDisc, kept, unreadable, compareLength)).value;
      && (length.Advisory() <==> !unreadable && compareLength && tags.Some? && mb.Some? && FarApart(tags.value.duration, mb.value.length))
      && Seconds(if mb.Some? && compareLength then mb.value.length else None, length.mb)
  {
    var plain := PlainCells(tags, mb, multiDisc, kept, unreadable, compareLength);
    var cells := RowCells(tags, mb, multiDisc, kept, unreadable, compareLength);
    var length := LengthCell(if tags.Some? then tags.value.duration else None,
                             if mb.Some? && compareLength then mb.value.length else None, unreadable);
    LengthsCompare(if tags.Some? then tags.value.duration else None, if mb.Some? && compareLength then mb.value.length else None, unreadable);
    var last := |kept| + 1;
    assert |cells| == |plain| == last + 1 && plain[last] == length;
    forall k | 0 <= k < last ensures !cells[k].Advisory() && cells[k].what != Length {
      if k == 0 {
        assert plain[0] == NumberCell(tags, mb, multiDisc, unreadable);
      } else {
        assert plain[k] == TagCell(tags, mb, kept[k - 1], unreadable);
      }
    }
    assert cells[last] == if mb.None? then length.(comparable := false) else length;
    LengthIsLast(cells, last);
  }

  /** Under the heading of MusicBrainz's length a row states it where the file's own is off, and else nothing. */
  lemma MbLengthSays(tags: Option<FileTags>, mb: Option<MbTrack>, multiDisc: bool, kept: seq<Owned>, unreadable: bool, compareLength: bool)
    ensures var cell := MbLengthCell(RowCells(tags, mb, multiDisc, kept, unreadable, compareLength));
      && cell.what == MbLength && cell.mb.None? && !cell.Finding() && !cell.Advisory()
      && Seconds(if !unreadable && compareLength && tags.Some? && mb.Some? && FarApart(tags.value.duration, mb.value.length)
                 then mb.value.length else None, cell.disk)
  {
    OnlyLengthsAdvise(tags, mb, multiDisc, kept, unreadable, compareLength);
  }

  lemma {:induction false} LengthIsLast(cells: seq<Cell>, last: nat)
    requires |cells| == last + 1 && cells[last].what == Length && forall k :: 0 <= k < last ==> cells[k].what != Length
    ensures LengthOf(cells) == Some(cells[last])
  {
    if last > 0 {
      LengthIsLast(cells[1..], last - 1);
    }
  }

  /** No accepted pregap is part of the track's file. */
  ghost predicate OnItsOwn(p: Plan, s: nat)
    requires s < |p.mb|
  {
    var own := if p.mb[s].id.releaseTrackId.Some? then p.mb[s].id.releaseTrackId.value else "";
    forall t :: 0 <= t < |p.mb| && t !in p.placed && p.mb[t].id.releaseTrackId.Some? && p.mb[t].id.releaseTrackId.value in p.included
                ==> p.included[p.mb[t].id.releaseTrackId.value] != own
  }

  /** The file under track `s` plays longer or shorter than the track by more than four seconds, and the two can be compared. */
  ghost predicate OffInLength(p: Plan, s: nat)
    requires InBounds(p) && s < |p.mb|
  {
    && s in p.placed && OnItsOwn(p, s)
    && var f := p.files[p.placed[s]];
       f.id.Readable? && !f.id.video && FarApart(f.duration, p.mb[s].length)
  }

  ghost predicate SomeLengthIsOff(p: Plan)
    requires InBounds(p)
  {
    exists s :: 0 <= s < |p.mb| && OffInLength(p, s)
  }

  ghost predicate Advises(row: Row) {
    exists k :: 0 <= k < |row.cells| && row.cells[k].Advisory()
  }

  lemma TrackRowAdvises(p: Plan, s: nat)
    requires InBounds(p) && s < |p.mb| && TrackRow(p, s) != []
    ensures Advises(TrackRow(p, s)[0]) <==> OffInLength(p, s)
    ensures OffInLength(p, s) ==> TrackRow(p, s)[0].cells == RowCells(Some(p.files[p.placed[s]]), Some(p.mb[s]), p.multiDisc, p.choice.kept, false, true)
  {
    var t, multi, kept := Some(p.mb[s]), p.multiDisc, p.choice.kept;
    OnlyLengthsAdvise(None, t, multi, kept, false, true);
    OnlyLengthsAdvise(None, t, multi, kept, true, true);
    OnItsOwnIs(p, s);
    if s in p.placed {
      OnlyLengthsAdvise(Some(p.files[p.placed[s]]), None, multi, kept, false, true);
      OnlyLengthsAdvise(Some(p.files[p.placed[s]]), t, multi, kept, false, !Combined(p, s));
    }
  }

  lemma OnItsOwnIs(p: Plan, s: nat)
    requires s < |p.mb|
    ensures OnItsOwn(p, s) <==> !Combined(p, s)
  {
  }

  lemma ExtraRowAdvisesNothing(p: Plan, i: nat)
    requires i < |p.files|
    ensures !Advises(ExtraRow(p, i))
  {
    OnlyLengthsAdvise(None, None, p.multiDisc, p.choice.kept, true, true);
    OnlyLengthsAdvise(Some(p.files[i]), None, p.multiDisc, p.choice.kept, false, true);
  }

  lemma OneTrackRowAdvises(p: Plan, s: nat, row: Row)
    requires InBounds(p) && s < |p.mb| && TrackRow(p, s) == [row]
    ensures Advises(row) <==> OffInLength(p, s)
  {
    TrackRowAdvises(p, s);
    assert row == TrackRow(p, s)[0];
  }

  lemma AllRowsAt(p: Plan, r: nat)
    requires InBounds(p) && r < |AllRows(p)|
    ensures AllRows(p)[r] == if r < |TrackRows(p, |p.mb|)| then TrackRows(p, |p.mb|)[r]
                             else ExtraRow(p, p.leftover[r - |TrackRows(p, |p.mb|)|])
  {
  }

  lemma AdvisedTrackRow(p: Plan, r: nat, row: Row) returns (s: nat)
    requires InBounds(p) && r < |TrackRows(p, |p.mb|)| && TrackRows(p, |p.mb|)[r] == row && Advises(row)
    ensures s < |p.mb| && OffInLength(p, s)
  {
    s := RowComesFrom(p, |p.mb|, r);
    OneTrackRowAdvises(p, s, row);
  }

  lemma LaterRowAdvisesNothing(p: Plan, r: nat, k: nat)
    requires InBounds(p) && k < |p.leftover| && r == |TrackRows(p, |p.mb|)| + k
    ensures r < |AllRows(p)| && !Advises(AllRows(p)[r])
  {
    AllRowsAt(p, r);
    ExtraRowAdvisesNothing(p, p.leftover[k]);
  }

  lemma OffRowAdvises(p: Plan, s: nat)
    requires InBounds(p) && s < |p.mb| && OffInLength(p, s)
    ensures exists r :: 0 <= r < |AllRows(p)| && Advises(AllRows(p)[r])
  {
    TrackRowAdvises(p, s);
    var row := TrackRow(p, s)[0];
    var r := RowIsThere(p, |p.mb|, s, row);
    Extended(TrackRows(p, |p.mb|), ExtraRows(p), r);
    assert AllRows(p)[r] == row;
  }

  lemma AnyAdvisoryIs(rows: seq<Row>)
    ensures AnyAdvisory(rows) <==> exists r :: 0 <= r < |rows| && Advises(rows[r])
  {
    if r :| 0 <= r < |rows| && Advises(rows[r]) {
      var k :| 0 <= k < |rows[r].cells| && rows[r].cells[k].Advisory();
    }
    if r, k :| 0 <= r < |rows| && 0 <= k < |rows[r].cells| && rows[r].cells[k].Advisory() {
      assert Advises(rows[r]);
    }
  }

  lemma AdvisoryIsSomewhere(p: Plan)
    requires InBounds(p)
    ensures AnyAdvisory(AllRows(p)) <==> SomeLengthIsOff(p)
  {
    AnyAdvisoryIs(AllRows(p));
    if r :| 0 <= r < |AllRows(p)| && Advises(AllRows(p)[r]) {
      if r >= |TrackRows(p, |p.mb|)| {
        LaterRowAdvisesNothing(p, r, r - |TrackRows(p, |p.mb|)|);
        assert false;
      }
      AllRowsAt(p, r);
      var s := AdvisedTrackRow(p, r, AllRows(p)[r]);
    }
    if s :| 0 <= s < |p.mb| && OffInLength(p, s) {
      OffRowAdvises(p, s);
    }
  }

  // ----- formats -----

  /** Two audio files are in different formats; one nobody can read is in none. */
  ghost predicate FormatsDiffer(files: seq<FileTags>) {
    exists i, j :: 0 <= i < |files| && 0 <= j < |files| && IsAudio(files[i]) && IsAudio(files[j]) && FormatOf(files[i]) != FormatOf(files[j])
  }

  ghost predicate IsAudio(f: FileTags) {
    f.id.Readable? ==> !f.id.video
  }

  ghost function FormatOf(f: FileTags): Option<string> {
    if f.id.Readable? then f.formatKey else None
  }

  lemma FormatsDifferExactly(files: seq<FileTags>)
    ensures FormatPlaceOf(files) == PerFile <==> FormatsDiffer(files)
    ensures FormatPlaceOf(files) == Unsaid <==> forall f :: f in files && IsAudio(f) ==> FormatOf(f).None?
  {
    forall i | 0 <= i < |files| ensures files[i] in files && (Audio(files, i) <==> IsAudio(files[i])) {
    }
    forall i | 0 <= i < |files| ensures FormatKey(files[i]) == FormatOf(files[i]) {
    }
  }

  /** Under the format heading an audio file's row says its format, or that it is unknown; any other row says nothing. */
  lemma FormatCellSays(files: seq<FileTags>, file: Option<nat>)
    requires file.Some? ==> file.value < |files|
    ensures var cell := FormatCell(files, file);
      && cell.what == Format && cell.mb.None? && !cell.comparable && !cell.Advisory()
      && cell.disk == if file.Some? && files[file.value].id.Readable? && !files[file.value].id.video
                      then Some(Text(if files[file.value].formatLabel.Some? then files[file.value].formatLabel.value else "Unknown")) else None
  {
  }

  // ----- the headings of the finished table -----

  /**
   The table is headed by the number, the chosen tags, the formats where audio files differ in them, the length, and where
   some file's length is off its track's, MusicBrainz's length.
   */
  lemma HeadingsExactly(p: Plan)
    requires InBounds(p)
    ensures TableOf(p).columns
         == [What.Number] + Tags(p.choice.kept)
            + (if FormatsDiffer(p.files) then [Format] else []) + [Length]
            + (if SomeLengthIsOff(p) then [MbLength] else [])
  {
    AdvisoryIsSomewhere(p);
    FormatsDifferExactly(p.files);
    TableColumns(p);
    WidenedColumns(p, SomeLengthIsOff(p));
    NoLengthBefore(p.choice.kept);
    HeadingsJoin([What.Number] + Tags(p.choice.kept), Widened(p).columns, TableOf(p).columns, FormatsDiffer(p.files), SomeLengthIsOff(p));
  }

  lemma NoLengthBefore(kept: seq<Owned>)
    ensures Length !in [What.Number] + Tags(kept)
  {
  }

  lemma HeadingsJoin(before: seq<What>, widened: seq<What>, columns: seq<What>, differ: bool, off: bool)
    requires Length !in before && widened == before + [Length] + (if off then [MbLength] else []) && Length in widened
    requires columns == if differ then Inserted(widened, IndexOfLength(widened), Format) else widened
    ensures columns == before + (if differ then [Format] else []) + [Length] + (if off then [MbLength] else [])
  {
    var after := [Length] + (if off then [MbLength] else []);
    assert widened == before + after;
    LengthComesAfter(before, after);
  }

  lemma TableColumns(p: Plan)
    requires InBounds(p)
    ensures Length in Widened(p).columns
    ensures TableOf(p).columns == if FormatPlaceOf(p.files) != PerFile then Widened(p).columns
                                  else Inserted(Widened(p).columns, IndexOfLength(Widened(p).columns), Format)
  {
    WidenedKeepsFiles(p);
  }

  lemma WidenedColumns(p: Plan, off: bool)
    requires InBounds(p) && off == AnyAdvisory(AllRows(p))
    ensures Widened(p).columns == [What.Number] + Tags(p.choice.kept) + [Length] + (if off then [MbLength] else [])
  {
  }

  lemma {:induction false} FirstLength(columns: seq<What>, n: nat)
    requires n < |columns| && columns[n] == Length && forall k :: 0 <= k < n ==> columns[k] != Length
    ensures IndexOfLength(columns) == n
  {
    if n > 0 {
      FirstLength(columns[1..], n - 1);
    }
  }

  lemma LengthComesAfter(before: seq<What>, after: seq<What>)
    requires Length !in before && after != [] && after[0] == Length
    ensures IndexOfLength(before + after) == |before|
    ensures Inserted(before + after, |before|, Format) == before + [Format] + after
  {
    FirstLength(before + after, |before|);
  }
}

/**
 The track table itself: one row a release track and one a file that is none of them, every row with the table's
 columns, and the lines and the band that state what no column does.
 */
module TrackTable {
  import opened Common
  import A = TrackAssign
  import opened TrackColumns

  const LENGTH_TOLERANCE_MS := 4000

  /** One file: what it says it is, its tags as displayed, how long it plays and what format it is in. */
  datatype FileTags = FileTags(id: A.File, disk: Reading, duration: Option<int>,
                               formatKey: Option<string>, formatLabel: Option<string>)
  {
    predicate Video() {
      id.Readable? && id.video
    }

    function Number(multiDisc: bool): Option<Value> {
      if id.Readable? then Numbered(id.disc, id.track, multiDisc) else None
    }
  }

  /** One track of the release, as tagging would write it. */
  datatype MbTrack = MbTrack(id: A.TrackIdentity, mb: Reading, length: Option<int>)

  /** "4", or "2-4" on a release of several discs. */
  function Numbered(disc: Option<int>, track: Option<int>, multiDisc: bool): Option<Value> {
    if track.None? then None
    else Some(Position(if multiDisc then Some(A.DiscOr1(disc)) else None, track.value))
  }

  function Identities(mb: seq<MbTrack>): (ids: seq<A.TrackIdentity>)
    ensures |ids| == |mb|
  {
    seq(|mb|, i requires 0 <= i < |mb| => mb[i].id)
  }

  function Ids(files: seq<FileTags>): (ids: seq<A.File>)
    ensures |ids| == |files|
  {
    seq(|files|, i requires 0 <= i < |files| => files[i].id)
  }

  // ----- the cells of one row -----

  function Rounded(ms: Option<int>): Option<Value> {
    if ms.None? then None else Some(Duration((ms.value + 500) / 1000))
  }

  function Uncomparable(cells: seq<Cell>): (out: seq<Cell>)
    ensures |out| == |cells| && forall i :: 0 <= i < |cells| ==> out[i] == cells[i].(comparable := false)
  {
    seq(|cells|, i requires 0 <= i < |cells| => cells[i].(comparable := false))
  }

  function LengthCell(disk: Option<int>, mb: Option<int>, unreadable: bool): Cell {
    if disk.Some? && mb.Some? && -LENGTH_TOLERANCE_MS <= disk.value - mb.value <= LENGTH_TOLERANCE_MS && !unreadable
    then Cell(Length, Matches, Rounded(disk), Rounded(mb), true)
    else Compare(Length, Rounded(disk), Rounded(mb), unreadable).(comparable := false)
  }

  function TagCell(tags: Option<FileTags>, mb: Option<MbTrack>, c: Owned, unreadable: bool): Cell {
    Compare(Tag(c), if tags.Some? then Shown(tags.value.disk(c)) else None,
            if mb.Some? then Shown(mb.value.mb(c)) else None, unreadable)
  }

  function TagCells(tags: Option<FileTags>, mb: Option<MbTrack>, kept: seq<Owned>, unreadable: bool): (cells: seq<Cell>)
    ensures |cells| == |kept| && forall i :: 0 <= i < |kept| ==> cells[i] == TagCell(tags, mb, kept[i], unreadable)
  {
    seq(|kept|, i requires 0 <= i < |kept| => TagCell(tags, mb, kept[i], unreadable))
  }

  /** A row's cells, the full set whatever the row's state. */
  function RowCells(tags: Option<FileTags>, mb: Option<MbTrack>, multiDisc: bool, kept: seq<Owned>, unreadable: bool,
                    compareLength: bool): seq<Cell>
  {
    var cells := PlainCells(tags, mb, multiDisc, kept, unreadable, compareLength);
    if mb.None? then Uncomparable(cells) else cells
  }

  function NumberCell(tags: Option<FileTags>, mb: Option<MbTrack>, multiDisc: bool, unreadable: bool): Cell {
    Compare(What.Number, if tags.Some? then tags.value.Number(multiDisc) else None,
            if mb.Some? then Numbered(mb.value.id.disc, mb.value.id.track, multiDisc) else None, unreadable)
  }

  function PlainCells(tags: Option<FileTags>, mb: Option<MbTrack>, multiDisc: bool, kept: seq<Owned>, unreadable: bool,
                      compareLength: bool): seq<Cell>
  {
    var length := LengthCell(if tags.Some? then tags.value.duration else None,
                             if mb.Some? && compareLength then mb.value.length else None, unreadable);
    [NumberCell(tags, mb, multiDisc, unreadable)] + TagCells(tags, mb, kept, unreadable) + [length]
  }

  // ----- rows -----

  datatype State = Present | Missing | Unreadable | Extra

  /** A row names its file, and the release track it is for, by position. */
  datatype Row = Row(state: State, file: Option<nat>, track: Option<nat>, cells: seq<Cell>, overflow: seq<Cell>, credits: seq<Cell>)

  /** Everything the rows are built from, once the files are assigned and the columns chosen. */
  datatype Plan = Plan(files: seq<FileTags>, mb: seq<MbTrack>, included: map<string, string>,
                       placed: map<nat, nat>, leftover: seq<nat>, multiDisc: bool, choice: Choice)

  /** The pregap was accepted as part of another track's file. */
  predicate Accepted(t: MbTrack, included: map<string, string>) {
    t.id.releaseTrackId.Some? && t.id.releaseTrackId.value in included
  }

  /** Some pregap with no file of its own was accepted into this track's. */
  predicate Combined(p: Plan, s: nat)
    requires s < |p.mb|
  {
    var id := if p.mb[s].id.releaseTrackId.Some? then p.mb[s].id.releaseTrackId.value else "";
    exists t :: 0 <= t < |p.mb| && t !in p.placed && Accepted(p.mb[t], p.included)
                && p.included[p.mb[t].id.releaseTrackId.value] == id
  }

  predicate InBounds(p: Plan) {
    && (forall s :: s in p.placed ==> s < |p.mb| && p.placed[s] < |p.files|)
    && (forall k :: 0 <= k < |p.leftover| ==> p.leftover[k] < |p.files|)
  }

  function Side(f: FileTags, mb: Option<MbTrack>): TrackColumns.Present {
    TrackColumns.Present(f.disk, if mb.Some? then Some(mb.value.mb) else None)
  }

  /** A row for a file nobody could read, or a file with its lines. */
  function FileRow(p: Plan, state: State, i: nat, track: Option<nat>, mb: Option<MbTrack>, compareLength: bool): Row
    requires i < |p.files|
  {
    var f := p.files[i];
    Row(state, Some(i), track, RowCells(Some(f), mb, p.multiDisc, p.choice.kept, false, compareLength),
        OverflowLines(Side(f, mb), p.choice.overflowed), CreditLines(Side(f, mb), p.choice, CANDIDATES))
  }

  function TrackRow(p: Plan, s: nat): seq<Row>
    requires InBounds(p) && s < |p.mb|
  {
    var t := p.mb[s];
    if s !in p.placed then
      if Accepted(t, p.included) then []
      else [Row(Missing, None, Some(s), RowCells(None, Some(t), p.multiDisc, p.choice.kept, false, true), [], [])]
    else
      var f := p.files[p.placed[s]];
      if f.id.Unreadable? then
        [Row(Unreadable, Some(p.placed[s]), Some(s), RowCells(None, Some(t), p.multiDisc, p.choice.kept, true, true), [], [])]
      else if f.Video() then [FileRow(p, State.Present, p.placed[s], Some(s), None, true)]
      else [FileRow(p, State.Present, p.placed[s], Some(s), Some(t), !Combined(p, s))]
  }

  function ExtraRow(p: Plan, i: nat): Row
    requires i < |p.files|
  {
    if p.files[i].id.Unreadable? then
      Row(Unreadable, Some(i), None, RowCells(None, None, p.multiDisc, p.choice.kept, true, true), [], [])
    else FileRow(p, Extra, i, None, None, true)
  }

  function TrackRows(p: Plan, n: nat): seq<Row>
    requires InBounds(p) && n <= |p.mb|
  {
    if n == 0 then [] else TrackRows(p, n - 1) + TrackRow(p, n - 1)
  }

  function ExtraRows(p: Plan): (rows: seq<Row>)
    requires InBounds(p)
    ensures |rows| == |p.leftover|
  {
    seq(|p.leftover|, k requires 0 <= k < |p.leftover| => ExtraRow(p, p.leftover[k]))
  }

  // ----- the columns the rows decide -----

  function Columns(kept: seq<Owned>): seq<What> {
    [What.Number] + Tags(kept) + [Length]
  }

  function Tags(kept: seq<Owned>): (whats: seq<What>)
    ensures |whats| == |kept|
  {
    seq(|kept|, i requires 0 <= i < |kept| => Tag(kept[i]))
  }

  datatype Table = Table(columns: seq<What>, rows: seq<Row>)

  predicate AnyAdvisory(rows: seq<Row>) {
    exists r, k :: 0 <= r < |rows| && 0 <= k < |rows[r].cells| && rows[r].cells[k].Advisory()
  }

  function LengthOf(cells: seq<Cell>): Option<Cell> {
    if cells == [] then None else if cells[0].what == Length then Some(cells[0]) else LengthOf(cells[1..])
  }

  /** MusicBrainz's length, on the rows whose own differs from it. */
  function MbLengthCell(cells: seq<Cell>): Cell {
    var length := LengthOf(cells);
    Cell(MbLength, Matches, if length.Some? && length.value.Advisory() then length.value.mb else None, None, false)
  }

  function WithMbLength(t: Table): Table {
    if AnyAdvisory(t.rows) then
      Table(t.columns + [MbLength],
            seq(|t.rows|, r requires 0 <= r < |t.rows| => t.rows[r].(cells := t.rows[r].cells + [MbLengthCell(t.rows[r].cells)])))
    else t
  }

  /** Where the files' formats go: nowhere, in the band as one line, or in a column. */
  datatype FormatPlace = Unsaid | Uniform | PerFile

  function FormatKey(f: FileTags): Option<string> {
    if f.id.Unreadable? then None else f.formatKey
  }

  predicate Audio(files: seq<FileTags>, i: nat)
    requires i < |files|
  {
    !files[i].Video()
  }

  function FormatPlaceOf(files: seq<FileTags>): FormatPlace {
    if forall i :: 0 <= i < |files| && Audio(files, i) ==> FormatKey(files[i]).None? then Unsaid
    else if forall i, j :: 0 <= i < |files| && 0 <= j < |files| && Audio(files, i) && Audio(files, j)
                           ==> FormatKey(files[i]) == FormatKey(files[j]) then Uniform
    else PerFile
  }

  function FormatCell(files: seq<FileTags>, file: Option<nat>): Cell
    requires file.Some? ==> file.value < |files|
  {
    var value :=
      if file.Some? && Audio(files, file.value) && files[file.value].id.Readable? then
        Some(Text(if files[file.value].formatLabel.Some? then files[file.value].formatLabel.value else "Unknown"))
      else None;
    Compare(Format, value, None, false).(comparable := false)
  }

  function IndexOfLength(columns: seq<What>): (i: nat)
    requires Length in columns
    ensures i < |columns| && columns[i] == Length && Length !in columns[..i]
  {
    if columns[0] == Length then 0 else 1 + IndexOfLength(columns[1..])
  }

  function Inserted<T>(xs: seq<T>, i: nat, x: T): seq<T> {
    if i <= |xs| then xs[..i] + [x] + xs[i..] else xs + [x]
  }

  function WithFormats(files: seq<FileTags>, t: Table): Table
    requires Length in t.columns
    requires forall r :: 0 <= r < |t.rows| && t.rows[r].file.Some? ==> t.rows[r].file.value < |files|
  {
    if FormatPlaceOf(files) != PerFile then t
    else
      var index := IndexOfLength(t.columns);
      Table(Inserted(t.columns, index, Format),
            seq(|t.rows|, r requires 0 <= r < |t.rows| =>
              t.rows[r].(cells := Inserted(t.rows[r].cells, index, FormatCell(files, t.rows[r].file)))))
  }

  // ----- the table -----

  /** The files under their tracks that the columns are judged over, in track order. */
  function PresentOf(files: seq<FileTags>, mb: seq<MbTrack>, placed: map<nat, nat>, n: nat): seq<TrackColumns.Present>
    requires n <= |mb| && forall s :: s in placed ==> placed[s] < |files|
  {
    if n == 0 then []
    else
      var rest := PresentOf(files, mb, placed, n - 1);
      if n - 1 !in placed || files[placed[n - 1]].id.Unreadable? then rest
      else rest + [Side(files[placed[n - 1]], if files[placed[n - 1]].Video() then None else Some(mb[n - 1]))]
  }

  predicate SeveralDiscs(files: seq<FileTags>, mb: seq<MbTrack>, leftover: seq<nat>)
    requires forall i :: i in leftover ==> i < |files|
  {
    || (exists s :: 0 <= s < |mb| && A.DiscOr1(mb[s].id.disc) > 1)
    || (exists i :: i in leftover && files[i].id.Readable? && A.DiscOr1(files[i].id.disc) > 1)
  }

  /** The file under track `s` is one whose tags a disc heading may state. */
  predicate OnDisc(files: seq<FileTags>, placed: map<nat, nat>, s: nat)
    requires forall t :: t in placed ==> placed[t] < |files|
  {
    s in placed && files[placed[s]].id.Readable? && !files[placed[s]].Video()
  }

  /** There are disc headings, and they state the medium's three tags: each disc's files agree about all of them. */
  predicate RolledUp(files: seq<FileTags>, mb: seq<MbTrack>, placed: map<nat, nat>, multiDisc: bool)
    requires forall s :: s in placed ==> placed[s] < |files|
  {
    && multiDisc
    && (exists s :: 0 <= s < |mb| && OnDisc(files, placed, s))
    && (forall s, t :: 0 <= s < |mb| && 0 <= t < |mb| && OnDisc(files, placed, s) && OnDisc(files, placed, t)
                       && A.DiscOr1(mb[s].id.disc) == A.DiscOr1(mb[t].id.disc)
                       ==> forall c :: c in {DiscSubtitle, Media, TrackTotal}
                                       ==> files[placed[s]].disk(c) == files[placed[t]].disk(c))
  }

  /** The plan is the one the files, the release and the review decide. */
  ghost predicate Planned(p: Plan, confirmed: Option<string>) {
    && InBounds(p)
    && A.HoldsPlaced(p.placed, A.Reviewed(Ids(p.files), Identities(p.mb), confirmed))
    && p.leftover == A.Unplaced(A.Reviewed(Ids(p.files), Identities(p.mb), confirmed), 0)
    && p.multiDisc == SeveralDiscs(p.files, p.mb, p.leftover)
    && p.choice == Chosen(CANDIDATES, PresentOf(p.files, p.mb, p.placed, |p.mb|), p.multiDisc,
                          RolledUp(p.files, p.mb, p.placed, p.multiDisc))
  }

  function AllRows(p: Plan): seq<Row>
    requires InBounds(p)
  {
    TrackRows(p, |p.mb|) + ExtraRows(p)
  }

  lemma RowFilesInBounds(p: Plan, r: nat)
    requires InBounds(p) && r < |AllRows(p)|
    ensures AllRows(p)[r].file.Some? ==> AllRows(p)[r].file.value < |p.files|
  {
    if r < |TrackRows(p, |p.mb|)| {
      TrackRowFiles(p, |p.mb|, r);
    } else {
      assert p.leftover[r - |TrackRows(p, |p.mb|)|] in p.leftover;
    }
  }

  lemma TrackRowFiles(p: Plan, n: nat, r: nat)
    requires InBounds(p) && n <= |p.mb| && r < |TrackRows(p, n)|
    ensures TrackRows(p, n)[r].file.Some? ==> TrackRows(p, n)[r].file.value < |p.files|
  {
    var s := RowComesFrom(p, n, r);
    OneRowEach(p, s);
    assert RowOf(p, TrackRow(p, s)[0], s + 1);
  }

  ghost function Widened(p: Plan): Table
    requires InBounds(p)
  {
    WithMbLength(Table(Columns(p.choice.kept), AllRows(p)))
  }

  lemma WidenedKeepsFiles(p: Plan)
    requires InBounds(p)
    ensures Length in Widened(p).columns
    ensures |Widened(p).rows| == |AllRows(p)|
    ensures forall r :: 0 <= r < |AllRows(p)| ==> Widened(p).rows[r].file == AllRows(p)[r].file
    ensures forall r :: 0 <= r < |AllRows(p)| && Widened(p).rows[r].file.Some? ==> Widened(p).rows[r].file.value < |p.files|
  {
    assert Columns(p.choice.kept)[|p.choice.kept| + 1] == Length;
    assert Widened(p).columns[|p.choice.kept| + 1] == Length;
    forall r | 0 <= r < |AllRows(p)|
      ensures AllRows(p)[r].file.Some? ==> AllRows(p)[r].file.value < |p.files|
    {
      RowFilesInBounds(p, r);
    }
  }

  ghost function TableOf(p: Plan): Table
    requires InBounds(p)
  {
    WidenedKeepsFiles(p);
    WithFormats(p.files, Widened(p))
  }

  /** Assigns the files and chooses the columns, before any row is built. */
  method Prepare(files: seq<FileTags>, mb: seq<MbTrack>, confirmed: Option<string>, included: map<string, string>)
    returns (p: Plan)
    ensures p.files == files && p.mb == mb && p.included == included
    ensures Planned(p, confirmed)
  {
    var placed, leftover := A.AssignFiles(Ids(files), Identities(mb), confirmed);
    A.UnplacedAre(A.Reviewed(Ids(files), Identities(mb), confirmed), 0);
    LeftoverInBounds(leftover, |files|);
    var multiDisc := SeveralDiscs(files, mb, leftover);
    var present := CollectPresent(files, mb, placed);
    var choice := ChooseColumns(present, multiDisc, RolledUp(files, mb, placed, multiDisc));
    p := Plan(files, mb, included, placed, leftover, multiDisc, choice);
  }

  method CollectPresent(files: seq<FileTags>, mb: seq<MbTrack>, placed: map<nat, nat>) returns (present: seq<TrackColumns.Present>)
    requires forall s :: s in placed ==> placed[s] < |files|
    ensures present == PresentOf(files, mb, placed, |mb|)
  {
    present := [];
    for s := 0 to |mb|
      invariant present == PresentOf(files, mb, placed, s)
    {
      if s in placed && !files[placed[s]].id.Unreadable? {
        present := present + [Side(files[placed[s]], if files[placed[s]].Video() then None else Some(mb[s]))];
      }
    }
  }

  method Tracklist(files: seq<FileTags>, mb: seq<MbTrack>, confirmed: Option<string>, included: map<string, string>)
    returns (p: Plan, table: Table)
    ensures p.files == files && p.mb == mb && p.included == included
    ensures Planned(p, confirmed)
    ensures table == TableOf(p)
  {
    p := Prepare(files, mb, confirmed, included);
    var rows := BuildRows(p);
    WidenedKeepsFiles(p);
    table := WithFormats(files, WithMbLength(Table(Columns(p.choice.kept), rows)));
  }

  lemma LeftoverInBounds(leftover: seq<nat>, n: nat)
    requires forall i :: i in leftover ==> i < n
    ensures forall k :: 0 <= k < |leftover| ==> leftover[k] < n
  {
    forall k | 0 <= k < |leftover| ensures leftover[k] < n {
      assert leftover[k] in leftover;
    }
  }

  method BuildRows(p: Plan) returns (rows: seq<Row>)
    requires InBounds(p)
    ensures rows == AllRows(p)
  {
    rows := [];
    for s := 0 to |p.mb|
      invariant rows == TrackRows(p, s)
    {
      rows := rows + TrackRow(p, s);
    }
    for k := 0 to |p.leftover|
      invariant rows == TrackRows(p, |p.mb|) + ExtraRows(p)[..k]
    {
      rows := rows + [ExtraRow(p, p.leftover[k])];
    }
    assert ExtraRows(p)[..|p.leftover|] == ExtraRows(p);
  }

  // ----- every row has the table's columns -----

  function Headings(cells: seq<Cell>): (whats: seq<What>)
    ensures |whats| == |cells|
  {
    seq(|cells|, i requires 0 <= i < |cells| => cells[i].what)
  }

  lemma PlainCellsFit(tags: Option<FileTags>, mb: Option<MbTrack>, multiDisc: bool, kept: seq<Owned>, unreadable: bool,
                      compareLength: bool)
    ensures Headings(PlainCells(tags, mb, multiDisc, kept, unreadable, compareLength)) == Columns(kept)
  {
    var number, tagged := NumberCell(tags, mb, multiDisc, unreadable), TagCells(tags, mb, kept, unreadable);
    var length := LengthCell(if tags.Some? then tags.value.duration else None,
                             if mb.Some? && compareLength then mb.value.length else None, unreadable);
    assert Headings(tagged) == Tags(kept);
    HeadingsSum([number], tagged);
    HeadingsSum([number] + tagged, [length]);
    assert Headings([number]) == [What.Number] && Headings([length]) == [Length];
  }

  lemma HeadingsSum(xs: seq<Cell>, ys: seq<Cell>)
    ensures Headings(xs + ys) == Headings(xs) + Headings(ys)
  {
  }

  lemma CellsFitColumns(tags: Option<FileTags>, mb: Option<MbTrack>, multiDisc: bool, kept: seq<Owned>, unreadable: bool,
                        compareLength: bool)
    ensures Headings(RowCells(tags, mb, multiDisc, kept, unreadable, compareLength)) == Columns(kept)
  {
    PlainCellsFit(tags, mb, multiDisc, kept, unreadable, compareLength);
    var cells := PlainCells(tags, mb, multiDisc, kept, unreadable, compareLength);
    assert Headings(Uncomparable(cells)) == Headings(cells);
  }

  ghost predicate Aligned(rows: seq<Row>, columns: seq<What>) {
    forall r :: 0 <= r < |rows| ==> Headings(rows[r].cells) == columns
  }

  lemma TrackRowFits(p: Plan, s: nat)
    requires InBounds(p) && s < |p.mb|
    ensures Aligned(TrackRow(p, s), Columns(p.choice.kept))
  {
    var t, multi, kept := Some(p.mb[s]), p.multiDisc, p.choice.kept;
    CellsFitColumns(None, t, multi, kept, false, true);
    CellsFitColumns(None, t, multi, kept, true, true);
    if s in p.placed {
      CellsFitColumns(Some(p.files[p.placed[s]]), None, multi, kept, false, true);
      CellsFitColumns(Some(p.files[p.placed[s]]), t, multi, kept, false, !Combined(p, s));
    }
  }

  lemma {:induction false} RowComesFrom(p: Plan, n: nat, r: nat) returns (s: nat)
    requires InBounds(p) && n <= |p.mb| && r < |TrackRows(p, n)|
    ensures s < n && [TrackRows(p, n)[r]] == TrackRow(p, s)
  {
    var before, one := TrackRows(p, n - 1), TrackRow(p, n - 1);
    if r < |before| {
      s := RowComesFrom(p, n - 1, r);
      Extended(before, one, r);
    } else {
      s := n - 1;
      assert |one| <= 1;
      assert one == [one[0]] && (before + one)[r] == one[0];
    }
  }

  lemma TrackRowsFit(p: Plan, n: nat)
    requires InBounds(p) && n <= |p.mb|
    ensures Aligned(TrackRows(p, n), Columns(p.choice.kept))
  {
    var rows, columns := TrackRows(p, n), Columns(p.choice.kept);
    forall r: nat | r < |rows| ensures Headings(rows[r].cells) == columns {
      var s := RowComesFrom(p, n, r);
      OneFits(rows[r], TrackRow(p, s), columns) by {
        TrackRowFits(p, s);
      }
    }
  }

  lemma OneFits(row: Row, one: seq<Row>, columns: seq<What>)
    requires [row] == one && Aligned(one, columns)
    ensures Headings(row.cells) == columns
  {
    assert one[0] == row;
  }

  lemma AlignedSum(xs: seq<Row>, ys: seq<Row>, all: seq<Row>, columns: seq<What>)
    requires Aligned(xs, columns) && Aligned(ys, columns) && all == xs + ys
    ensures Aligned(all, columns)
  {
  }

  lemma ExtraRowsFit(p: Plan)
    requires InBounds(p)
    ensures Aligned(ExtraRows(p), Columns(p.choice.kept))
  {
    forall k | 0 <= k < |p.leftover|
      ensures Headings(ExtraRows(p)[k].cells) == Columns(p.choice.kept)
    {
      CellsFitColumns(None, None, p.multiDisc, p.choice.kept, true, true);
      CellsFitColumns(Some(p.files[p.leftover[k]]), None, p.multiDisc, p.choice.kept, false, true);
    }
  }

  lemma WideningAligns(t: Table)
    requires Aligned(t.rows, t.columns)
    ensures Aligned(WithMbLength(t).rows, WithMbLength(t).columns)
  {
    var out := WithMbLength(t);
    if AnyAdvisory(t.rows) {
      forall r | 0 <= r < |t.rows|
        ensures Headings(out.rows[r].cells) == out.columns
      {
        assert Headings(out.rows[r].cells) == Headings(t.rows[r].cells) + [MbLength];
      }
    }
  }

  lemma InsertedHeadings(cells: seq<Cell>, i: nat, cell: Cell)
    ensures Headings(Inserted(cells, i, cell)) == Inserted(Headings(cells), i, cell.what)
  {
    if i <= |cells| {
      HeadingsSum(cells[..i], [cell]);
      HeadingsSum(cells[..i] + [cell], cells[i..]);
      assert Headings(cells[..i]) == Headings(cells)[..i] && Headings(cells[i..]) == Headings(cells)[i..];
    }
  }

  lemma FormatsAlign(files: seq<FileTags>, t: Table)
    requires Aligned(t.rows, t.columns) && Length in t.columns
    requires forall r :: 0 <= r < |t.rows| && t.rows[r].file.Some? ==> t.rows[r].file.value < |files|
    ensures Aligned(WithFormats(files, t).rows, WithFormats(files, t).columns)
  {
    var out := WithFormats(files, t);
    if FormatPlaceOf(files) == PerFile {
      var index := IndexOfLength(t.columns);
      forall r | 0 <= r < |t.rows|
        ensures Headings(out.rows[r].cells) == out.columns
      {
        InsertedHeadings(t.rows[r].cells, index, FormatCell(files, t.rows[r].file));
      }
    }
  }

  /** Every row has a cell for every column, under its own heading. */
  lemma EveryRowFitsTheColumns(p: Plan)
    requires InBounds(p)
    ensures Aligned(TableOf(p).rows, TableOf(p).columns)
  {
    TrackRowsFit(p, |p.mb|);
    ExtraRowsFit(p);
    AlignedSum(TrackRows(p, |p.mb|), ExtraRows(p), AllRows(p), Columns(p.choice.kept));
    WideningAligns(Table(Columns(p.choice.kept), AllRows(p)));
    WidenedKeepsFiles(p);
    FormatsAlign(p.files, Widened(p));
  }

  // ----- every file and every track has its row -----

  /** The row of a release track below `n`, with its file if it has one. */
  ghost predicate RowOf(p: Plan, row: Row, n: nat) {
    && row.track.Some? && row.track.value < n
    && row.file == if row.track.value in p.placed then Some(p.placed[row.track.value]) else None
  }

  ghost predicate RowsOf(p: Plan, rows: seq<Row>, n: nat) {
    && (forall r :: 0 <= r < |rows| ==> RowOf(p, rows[r], n))
    && (forall r, q :: 0 <= r < q < |rows| ==> rows[r].track.value < rows[q].track.value)
  }

  lemma {:induction false} TrackRowsAre(p: Plan, n: nat)
    requires InBounds(p) && n <= |p.mb|
    ensures RowsOf(p, TrackRows(p, n), n)
  {
    if n > 0 {
      TrackRowsAre(p, n - 1);
      OneRowEach(p, n - 1);
      RowsExtend(p, TrackRows(p, n - 1), TrackRow(p, n - 1), n);
    }
  }

  lemma RowsExtend(p: Plan, before: seq<Row>, one: seq<Row>, n: nat)
    requires n > 0 && RowsOf(p, before, n - 1)
    requires |one| <= 1 && (one != [] ==> RowOf(p, one[0], n) && one[0].track.value == n - 1)
    ensures RowsOf(p, before + one, n)
  {
    forall r | 0 <= r < |before| ensures RowOf(p, before[r], n) {
      assert RowOf(p, before[r], n - 1);
    }
  }

  lemma OneRowEach(p: Plan, s: nat)
    requires InBounds(p) && s < |p.mb|
    ensures var one := TrackRow(p, s); |one| <= 1 && (one != [] ==> RowOf(p, one[0], s + 1) && one[0].track.value == s)
  {
  }

  ghost predicate Shows(rows: seq<Row>, s: nat) {
    exists r :: 0 <= r < |rows| && rows[r].track == Some(s)
  }

  lemma ShowsSum(xs: seq<Row>, ys: seq<Row>, s: nat)
    ensures Shows(xs + ys, s) <==> Shows(xs, s) || Shows(ys, s)
  {
    var all := xs + ys;
    if r :| 0 <= r < |xs| && xs[r].track == Some(s) {
      assert all[r] == xs[r];
    }
    if r :| 0 <= r < |ys| && ys[r].track == Some(s) {
      assert all[|xs| + r] == ys[r];
    }
    if r :| 0 <= r < |all| && all[r].track == Some(s) {
      assert all[r] == if r < |xs| then xs[r] else ys[r - |xs|];
    }
  }

  lemma TrackRowShows(p: Plan, s: nat, t: nat)
    requires InBounds(p) && s < |p.mb|
    ensures Shows(TrackRow(p, s), t) <==> t == s && (s in p.placed || !Accepted(p.mb[s], p.included))
  {
    if s in p.placed || !Accepted(p.mb[s], p.included) {
      assert TrackRow(p, s)[0].track == Some(s);
    }
  }

  /** A release track has a row unless it is an accepted pregap with no file. */
  lemma {:induction false} TrackHasRow(p: Plan, n: nat, s: nat)
    requires InBounds(p) && n <= |p.mb| && s < |p.mb|
    ensures Shows(TrackRows(p, n), s) <==> s < n && (s in p.placed || !Accepted(p.mb[s], p.included))
  {
    if n > 0 {
      TrackHasRow(p, n - 1, s);
      TrackRowShows(p, n - 1, s);
      ShowsSum(TrackRows(p, n - 1), TrackRow(p, n - 1), s);
    }
  }

  ghost predicate FileOnce(rows: seq<Row>, i: nat) {
    && (exists r :: 0 <= r < |rows| && rows[r].file == Some(i))
    && (forall r, q :: 0 <= r < q < |rows| ==> !(rows[r].file == Some(i) && rows[q].file == Some(i)))
  }

  ghost predicate TrackOnce(rows: seq<Row>, s: nat) {
    && Shows(rows, s)
    && (forall r, q :: 0 <= r < q < |rows| ==> !(rows[r].track == Some(s) && rows[q].track == Some(s)))
  }

  /** The finished table has these rows, with more cells at most. */
  ghost predicate SameRows(rows: seq<Row>, out: seq<Row>) {
    |out| == |rows| && forall r :: 0 <= r < |rows| ==>
      && out[r].file == rows[r].file && out[r].track == rows[r].track && out[r].state == rows[r].state
      && out[r].overflow == rows[r].overflow && out[r].credits == rows[r].credits
      && forall f :: f in rows[r].cells ==> f in out[r].cells
  }

  lemma InsertedKeeps<T>(xs: seq<T>, i: nat, x: T, f: T)
    requires f in xs
    ensures f in Inserted(xs, i, x)
  {
    var k :| 0 <= k < |xs| && xs[k] == f;
    if i <= |xs| && i <= k {
      assert Inserted(xs, i, x)[k + 1] == f;
    } else {
      assert Inserted(xs, i, x)[k] == f;
    }
  }

  lemma TableKeepsRows(p: Plan)
    requires InBounds(p)
    ensures SameRows(AllRows(p), TableOf(p).rows)
  {
    WidenedKeepsFiles(p);
    var w := Widened(p);
    forall r, f | 0 <= r < |w.rows| && f in w.rows[r].cells
      ensures f in TableOf(p).rows[r].cells
    {
      InsertedKeeps(w.rows[r].cells, IndexOfLength(w.columns), FormatCell(p.files, w.rows[r].file), f);
    }
  }

  lemma HasRow(p: Plan, n: nat, s: nat) returns (r: nat)
    requires InBounds(p) && s < n <= |p.mb| && s in p.placed
    ensures r < |TrackRows(p, n)| && TrackRows(p, n)[r].track == Some(s) && TrackRows(p, n)[r].file == Some(p.placed[s])
  {
    TrackHasRow(p, n, s);
    TrackRowsAre(p, n);
    r :| 0 <= r < |TrackRows(p, n)| && TrackRows(p, n)[r].track == Some(s);
  }

  lemma ExtraRowsAre(p: Plan)
    requires InBounds(p)
    ensures forall k :: 0 <= k < |p.leftover| ==> ExtraRows(p)[k].file == Some(p.leftover[k]) && ExtraRows(p)[k].track.None?
  {
  }

  lemma FileHasRow(p: Plan, confirmed: Option<string>, i: nat)
    requires Planned(p, confirmed) && i < |p.files|
    ensures exists r :: 0 <= r < |AllRows(p)| && AllRows(p)[r].file == Some(i)
  {
    A.NoFileIsLost(A.Reviewed(Ids(p.files), Identities(p.mb), confirmed), p.placed, i);
    if i in p.leftover {
      LeftoverHasRow(p, i);
    } else {
      var s :| s in p.placed && p.placed[s] == i;
      PlacedHasRow(p, s);
    }
  }

  lemma LeftoverHasRow(p: Plan, i: nat)
    requires InBounds(p) && i in p.leftover
    ensures exists r :: 0 <= r < |AllRows(p)| && AllRows(p)[r].file == Some(i)
  {
    ExtraRowsAre(p);
    var k :| 0 <= k < |p.leftover| && p.leftover[k] == i;
    assert AllRows(p)[|TrackRows(p, |p.mb|)| + k] == ExtraRows(p)[k];
  }

  lemma PlacedHasRow(p: Plan, s: nat)
    requires InBounds(p) && s in p.placed
    ensures exists r :: 0 <= r < |AllRows(p)| && AllRows(p)[r].file == Some(p.placed[s])
  {
    var r := HasRow(p, |p.mb|, s);
    Extended(TrackRows(p, |p.mb|), ExtraRows(p), r);
    assert AllRows(p)[r].file == Some(p.placed[s]);
  }

  /** What a row naming file `i` says of it: it is under the row's track, or among the leftovers. */
  lemma RowNames(p: Plan, i: nat, r: nat)
    requires InBounds(p) && r < |AllRows(p)| && AllRows(p)[r].file == Some(i)
    ensures var tracks := TrackRows(p, |p.mb|);
      if r < |tracks| then tracks[r].track.Some? && tracks[r].track.value in p.placed && p.placed[tracks[r].track.value] == i
      else p.leftover[r - |tracks|] == i
  {
    ExtraRowsAre(p);
    TrackRowsAre(p, |p.mb|);
  }

  lemma SameFileSameRow(p: Plan, confirmed: Option<string>, i: nat, r: nat, q: nat)
    requires Planned(p, confirmed) && i < |p.files| && r <= q < |AllRows(p)|
    requires AllRows(p)[r].file == Some(i) && AllRows(p)[q].file == Some(i)
    ensures r == q
  {
    RowNames(p, i, r);
    RowNames(p, i, q);
    TrackRowsAre(p, |p.mb|);
    A.NoFileIsLost(A.Reviewed(Ids(p.files), Identities(p.mb), confirmed), p.placed, i);
  }

  /** Every file is on exactly one row of the table. */
  lemma EveryFileOnOneRow(p: Plan, confirmed: Option<string>, i: nat)
    requires Planned(p, confirmed) && i < |p.files|
    ensures FileOnce(TableOf(p).rows, i)
  {
    TableKeepsRows(p);
    FileHasRow(p, confirmed, i);
    var r0 :| 0 <= r0 < |AllRows(p)| && AllRows(p)[r0].file == Some(i);
    assert TableOf(p).rows[r0].file == Some(i);
    forall r: nat, q: nat | r <= q < |AllRows(p)| && AllRows(p)[r].file == Some(i) && AllRows(p)[q].file == Some(i)
      ensures r == q
    {
      SameFileSameRow(p, confirmed, i, r, q);
    }
  }

  /** Every release track is on exactly one row, but a pregap accepted into another track's file, which is on none. */
  lemma EveryTrackOnOneRow(p: Plan, s: nat)
    requires InBounds(p) && s < |p.mb|
    ensures s in p.placed || !Accepted(p.mb[s], p.included) ==> TrackOnce(TableOf(p).rows, s)
    ensures s !in p.placed && Accepted(p.mb[s], p.included) ==> !Shows(TableOf(p).rows, s)
  {
    TableKeepsRows(p);
    TrackHasRow(p, |p.mb|, s);
    TrackRowsAre(p, |p.mb|);
    ExtraRowsAre(p);
    var tracks, rows := TrackRows(p, |p.mb|), TableOf(p).rows;
    forall r | 0 <= r < |rows|
      ensures rows[r].track == if r < |tracks| then tracks[r].track else None
    {
    }
    if Shows(tracks, s) {
      var r :| 0 <= r < |tracks| && tracks[r].track == Some(s);
      assert rows[r].track == Some(s);
    }
  }

  // ----- no pending change is invisible -----

  lemma {:induction false} PresentHas(files: seq<FileTags>, mb: seq<MbTrack>, placed: map<nat, nat>, n: nat, s: nat)
    requires n <= |mb| && (forall t :: t in placed ==> placed[t] < |files|)
    requires s < n && s in placed && files[placed[s]].id.Readable? && !files[placed[s]].Video()
    ensures exists k :: 0 <= k < |PresentOf(files, mb, placed, n)|
                        && PresentOf(files, mb, placed, n)[k] == Side(files[placed[s]], Some(mb[s]))
  {
    var all := PresentOf(files, mb, placed, n);
    if s == n - 1 {
      assert all[|all| - 1] == Side(files[placed[s]], Some(mb[s]));
    } else {
      PresentHas(files, mb, placed, n - 1, s);
      var rest := PresentOf(files, mb, placed, n - 1);
      var k :| 0 <= k < |rest| && rest[k] == Side(files[placed[s]], Some(mb[s]));
      assert all[k] == rest[k];
    }
  }

  /** A row's cells hold the columns' lines for its file. */
  lemma CellsHoldLines(f: FileTags, t: MbTrack, multiDisc: bool, kept: seq<Owned>, compareLength: bool, line: Cell)
    requires line in ColumnCells(Side(f, Some(t)), kept)
    ensures line in RowCells(Some(f), Some(t), multiDisc, kept, false, compareLength)
  {
    var k :| 0 <= k < |kept| && ColumnCells(Side(f, Some(t)), kept)[k] == line;
    assert TagCell(Some(f), Some(t), kept[k], false) == line;
    assert RowCells(Some(f), Some(t), multiDisc, kept, false, compareLength)[k + 1] == line;
  }

  lemma MarksCarry(cells: seq<Cell>, more: seq<Cell>, ch: Choice, c: Owned)
    requires MarkedIn(cells, ch, c) && forall f :: f in cells ==> f in more
    ensures MarkedIn(more, ch, c)
  {
    var f, o :| f in cells && f.what == Tag(o) && SpeaksFor(ch, o, c) && f.Finding();
    assert f in more;
  }

  /** The row marks a change of tag `c`, in a cell or on a line under it. */
  ghost predicate RowMarks(row: Row, ch: Choice, c: Owned) {
    MarkedIn(row.cells, ch, c) || MarkedIn(row.overflow, ch, c) || MarkedIn(row.credits, ch, c)
  }

  lemma PlainRow(p: Plan, s: nat) returns (row: Row)
    requires InBounds(p) && s < |p.mb| && s in p.placed
    requires p.files[p.placed[s]].id.Readable? && !p.files[p.placed[s]].Video()
    ensures row == FileRow(p, State.Present, p.placed[s], Some(s), Some(p.mb[s]), !Combined(p, s))
    ensures TrackRow(p, s) == [row]
  {
    row := FileRow(p, State.Present, p.placed[s], Some(s), Some(p.mb[s]), !Combined(p, s));
  }

  lemma {:induction false} RowIsThere(p: Plan, n: nat, s: nat, row: Row) returns (r: nat)
    requires InBounds(p) && s < n <= |p.mb| && TrackRow(p, s) == [row]
    ensures r < |TrackRows(p, n)| && TrackRows(p, n)[r] == row
  {
    var before := TrackRows(p, n - 1);
    if s == n - 1 {
      r := |before|;
    } else {
      r := RowIsThere(p, n - 1, s, row);
      Extended(before, TrackRow(p, n - 1), r);
    }
  }

  lemma Extended(before: seq<Row>, one: seq<Row>, r: nat)
    requires r < |before|
    ensures (before + one)[r] == before[r]
  {
  }

  /** The finished page marks a change of tag `c` of the file under track `s`: on the file's row, or in the band. */
  ghost predicate ShownOnPage(p: Plan, s: nat, c: Owned)
    requires InBounds(p) && s in p.placed
  {
    MarkedInBand(p.choice, c)
    || exists r :: 0 <= r < |TableOf(p).rows| && TableOf(p).rows[r].file == Some(p.placed[s])
                   && RowMarks(TableOf(p).rows[r], p.choice, c)
  }

  /** The choice marks the change, somewhere that speaks for this file. */
  lemma ChangeIsMarked(p: Plan, confirmed: Option<string>, s: nat, c: Owned)
    requires Planned(p, confirmed) && s < |p.mb| && s in p.placed
    requires p.files[p.placed[s]].id.Readable? && !p.files[p.placed[s]].Video()
    requires c in CANDIDATES && !Exempt(c, p.multiDisc)
    requires p.files[p.placed[s]].disk(c) != p.mb[s].mb(c)
    ensures Marked(p.choice, Side(p.files[p.placed[s]], Some(p.mb[s])), c, CANDIDATES)
  {
    var present := PresentOf(p.files, p.mb, p.placed, |p.mb|);
    PresentHas(p.files, p.mb, p.placed, |p.mb|, s);
    var k :| 0 <= k < |present| && present[k] == Side(p.files[p.placed[s]], Some(p.mb[s]));
    NoPendingChangeIsInvisible(present, p.multiDisc, RolledUp(p.files, p.mb, p.placed, p.multiDisc), k, c);
  }

  /**
   The page shows every change a re-tag would make: wherever a readable audio file differs from its release track in
   a tag, the file's one row marks it, or the band under the table does. The track number, and on a release of several
   discs the disc number and the medium's tags, have laws of their own.
   */
  lemma EveryPendingChangeIsShown(p: Plan, confirmed: Option<string>, s: nat, c: Owned)
    requires Planned(p, confirmed) && s < |p.mb| && s in p.placed
    requires p.files[p.placed[s]].id.Readable? && !p.files[p.placed[s]].Video()
    requires c in CANDIDATES && !Exempt(c, p.multiDisc)
    requires p.files[p.placed[s]].disk(c) != p.mb[s].mb(c)
    ensures ShownOnPage(p, s, c)
  {
    ChangeIsMarked(p, confirmed, s, c);
    if !MarkedInBand(p.choice, c) {
      var row := PlainRow(p, s);
      var r := RowIsThere(p, |p.mb|, s, row);
      FinishedRowMarks(p, s, r, c);
    }
  }

  lemma FinishedRowMarks(p: Plan, s: nat, r: nat, c: Owned)
    requires InBounds(p) && s < |p.mb| && s in p.placed && r < |TrackRows(p, |p.mb|)|
    requires TrackRows(p, |p.mb|)[r] == FileRow(p, State.Present, p.placed[s], Some(s), Some(p.mb[s]), !Combined(p, s))
    requires Marked(p.choice, Side(p.files[p.placed[s]], Some(p.mb[s])), c, CANDIDATES) && !MarkedInBand(p.choice, c)
    ensures r < |TableOf(p).rows| && TableOf(p).rows[r].file == Some(p.placed[s]) && RowMarks(TableOf(p).rows[r], p.choice, c)
  {
    var f, t, ch := p.files[p.placed[s]], p.mb[s], p.choice;
    TableKeepsRows(p);
    assert AllRows(p)[r] == TrackRows(p, |p.mb|)[r];
    if MarkedIn(ColumnCells(Side(f, Some(t)), ch.kept), ch, c) {
      forall line | line in ColumnCells(Side(f, Some(t)), ch.kept)
        ensures line in AllRows(p)[r].cells
      {
        CellsHoldLines(f, t, p.multiDisc, ch.kept, !Combined(p, s), line);
      }
      MarksCarry(ColumnCells(Side(f, Some(t)), ch.kept), TableOf(p).rows[r].cells, ch, c);
    }
  }
}

/** Which replaced images the retention promise covers: each album's newest artwork actions, and everything they replaced. */
module Backups {
  import opened Common

  type Digest = string
  type Id = string

  /** What a record of tag changes says about artwork. */
  datatype Payload = Unreadable | Silent | Artwork(before: Option<Digest>, after: Option<Digest>)

  /** One file's record, joined with its event: the album and the action it was recorded under. */
  datatype Row = Row(album: Id, event: nat, action: Option<Id>, payload: Payload)

  /** One artwork change the user would undo: an action on an album, or a record from before actions were kept. */
  datatype Unit = ByAction(album: Id, action: Id) | ByEvent(album: Id, event: nat)

  datatype Backup = Backup(unit: Unit, event: nat, digests: set<Digest>)

  function UnitOf(r: Row): Unit {
    if r.action.Some? && r.action.value != "" then ByAction(r.album, r.action.value) else ByEvent(r.album, r.event)
  }

  /** The image a record says was replaced: not a gain, and not one a rename left where it was. */
  function Replaced(r: Row): Option<Digest> {
    match r.payload
    case Artwork(Some(before), after) => if before == "" || after == Some(before) then None else Some(before)
    case _ => None
  }

  /** Two records are of one change the user would undo: one action on one album, or without an action one event. */
  lemma SameUnitExactly(r: Row, s: Row)
    ensures UnitOf(r) == UnitOf(s) <==>
      && r.album == s.album
      && (if r.action.Some? && r.action.value != "" then s.action == r.action
          else (s.action.None? || s.action.value == "") && s.event == r.event)
  {
  }

  /** A record replaced an image when it names one, and another after it or none. */
  lemma ReplacedExactly(r: Row, d: Digest)
    ensures Replaced(r) == Some(d) <==> d != "" && r.payload.Artwork? && r.payload.before == Some(d) && r.payload.after != Some(d)
  {
  }

  /** Rows as the query gives them: newest event first, and an event belongs to one action of one album. */
  ghost predicate Queried(rows: seq<Row>) {
    && (forall i, j :: 0 <= i < j < |rows| ==> rows[i].event >= rows[j].event)
    && forall i, j :: 0 <= i < j < |rows| && rows[i].event == rows[j].event ==> rows[i].album == rows[j].album && rows[i].action == rows[j].action
  }

  // ----- the actions, independently of how they are gathered -----

  ghost function Units(rows: seq<Row>): set<Unit> {
    set r | r in rows && Replaced(r).Some? :: UnitOf(r)
  }

  ghost function DigestsOf(rows: seq<Row>, u: Unit): set<Digest> {
    set r | r in rows && UnitOf(r) == u && Replaced(r).Some? :: Replaced(r).value
  }

  /** `event` is the newest a unit replaced an image in. */
  ghost predicate NewestEvent(rows: seq<Row>, u: Unit, event: nat) {
    && (exists r :: r in rows && UnitOf(r) == u && Replaced(r).Some? && r.event == event)
    && forall r :: r in rows && UnitOf(r) == u && Replaced(r).Some? ==> r.event <= event
  }

  // ----- gathering them -----

  /** Every unit once, newest first, with all it replaced. */
  ghost predicate Gathered(rows: seq<Row>, backups: seq<Backup>) {
    && (forall i, j :: 0 <= i < j < |backups| ==> backups[i].unit != backups[j].unit && backups[i].event > backups[j].event)
    && (forall u :: u in Units(rows) <==> exists b :: b in backups && b.unit == u)
    && forall b :: b in backups ==> b.digests == DigestsOf(rows, b.unit) && NewestEvent(rows, b.unit, b.event)
  }

  type ByUnit = map<Unit, (nat, set<Digest>)>

  /** What the dictionary and the list hold after `rows`. */
  ghost predicate Holds(rows: seq<Row>, byUnit: ByUnit, order: seq<Unit>) {
    && byUnit.Keys == Units(rows)
    && (forall u :: u in byUnit ==> byUnit[u].1 == DigestsOf(rows, u) && NewestEvent(rows, u, byUnit[u].0))
    && Listing(byUnit, order)
  }

  ghost predicate Listing(byUnit: ByUnit, order: seq<Unit>) {
    && (forall u :: u in order <==> u in byUnit)
    && (forall i, j :: 0 <= i < j < |order| ==> order[i] != order[j] && byUnit[order[i]].0 > byUnit[order[j]].0)
  }

  function Added(byUnit: ByUnit, r: Row): ByUnit
    requires Replaced(r).Some?
  {
    var u := UnitOf(r);
    var was := if u in byUnit then byUnit[u] else (r.event, {});
    byUnit[u := (was.0, was.1 + {Replaced(r).value})]
  }

  lemma AddedUnit(rows: seq<Row>, r: Row, byUnit: ByUnit, u: Unit)
    requires byUnit.Keys == Units(rows) && Replaced(r).Some? && u in Units(rows + [r])
    requires forall v :: v in byUnit ==> byUnit[v].1 == DigestsOf(rows, v) && NewestEvent(rows, v, byUnit[v].0)
    requires forall x :: x in rows ==> x.event >= r.event
    ensures u in Added(byUnit, r)
    ensures Added(byUnit, r)[u].1 == DigestsOf(rows + [r], u) && NewestEvent(rows + [r], u, Added(byUnit, r)[u].0)
  {
    var all := rows + [r];
    assert forall x :: x in all <==> x in rows || x == r;
    if u in byUnit {
      var x :| x in rows && UnitOf(x) == u && Replaced(x).Some? && x.event == byUnit[u].0;
      assert x in all;
    } else {
      assert u == UnitOf(r) && r in all;
      forall x | x in rows && Replaced(x).Some? ensures UnitOf(x) != u {
        assert UnitOf(x) in Units(rows);
      }
    }
  }

  lemma UnitsGrow(rows: seq<Row>, r: Row)
    requires Replaced(r).Some?
    ensures Units(rows + [r]) == Units(rows) + {UnitOf(r)}
  {
    var all := rows + [r];
    assert forall x :: x in all <==> x in rows || x == r;
  }

  /** A unit already met that is not the row's has a newer event than the row's. */
  lemma MetIsNewer(rows: seq<Row>, r: Row, u: Unit, event: nat)
    requires Queried(rows + [r]) && NewestEvent(rows, u, event) && u != UnitOf(r)
    ensures event > r.event
  {
    var all := rows + [r];
    var x :| x in rows && UnitOf(x) == u && Replaced(x).Some? && x.event == event;
    var i :| 0 <= i < |rows| && rows[i] == x;
    assert all[i] == x && all[|rows|] == r;
  }

  lemma ListingGrows(byUnit: ByUnit, more: ByUnit, order: seq<Unit>, u: Unit)
    requires Listing(byUnit, order) && more.Keys == byUnit.Keys + {u}
    requires forall v :: v in byUnit ==> more[v].0 == byUnit[v].0 && (v != u ==> more[v].0 > more[u].0 || u in byUnit)
    ensures Listing(more, if u in byUnit then order else order + [u])
  {
    if u !in byUnit {
      forall i | 0 <= i < |order| ensures order[i] != u && more[order[i]].0 > more[u].0 {
        assert order[i] in order;
      }
    }
  }

  lemma EarlierRowsAreNewer(rows: seq<Row>, r: Row, x: Row)
    requires Queried(rows + [r]) && x in rows
    ensures x.event >= r.event
  {
    var all := rows + [r];
    var i :| 0 <= i < |rows| && rows[i] == x;
    assert all[i] == x && all[|rows|] == r;
  }

  lemma AddedUnits(rows: seq<Row>, r: Row, byUnit: ByUnit, order: seq<Unit>)
    requires Holds(rows, byUnit, order) && Queried(rows + [r]) && Replaced(r).Some?
    ensures var more := Added(byUnit, r);
      && more.Keys == Units(rows + [r])
      && forall u :: u in more ==> more[u].1 == DigestsOf(rows + [r], u) && NewestEvent(rows + [r], u, more[u].0)
  {
    var more := Added(byUnit, r);
    forall x | x in rows ensures x.event >= r.event {
      EarlierRowsAreNewer(rows, r, x);
    }
    UnitsGrow(rows, r);
    forall u | u in more ensures more[u].1 == DigestsOf(rows + [r], u) && NewestEvent(rows + [r], u, more[u].0) {
      AddedUnit(rows, r, byUnit, u);
    }
  }

  lemma AddedListing(rows: seq<Row>, r: Row, byUnit: ByUnit, order: seq<Unit>)
    requires Holds(rows, byUnit, order) && Queried(rows + [r]) && Replaced(r).Some?
    ensures Listing(Added(byUnit, r), if UnitOf(r) in byUnit then order else order + [UnitOf(r)])
  {
    forall u | u in byUnit && u != UnitOf(r) ensures byUnit[u].0 > r.event {
      MetIsNewer(rows, r, u, byUnit[u].0);
    }
    ListingGrows(byUnit, Added(byUnit, r), order, UnitOf(r));
  }

  lemma AddedHolds(rows: seq<Row>, r: Row, byUnit: ByUnit, order: seq<Unit>)
    requires Holds(rows, byUnit, order) && Queried(rows + [r]) && Replaced(r).Some?
    ensures Holds(rows + [r], Added(byUnit, r), if UnitOf(r) in byUnit then order else order + [UnitOf(r)])
  {
    AddedUnits(rows, r, byUnit, order);
    AddedListing(rows, r, byUnit, order);
  }

  lemma IgnoredHolds(rows: seq<Row>, r: Row, byUnit: ByUnit, order: seq<Unit>)
    requires Holds(rows, byUnit, order) && Replaced(r).None?
    ensures Holds(rows + [r], byUnit, order)
  {
    var all := rows + [r];
    assert forall x :: x in all <==> x in rows || x == r;
    assert Units(all) == Units(rows);
    forall u | u in byUnit ensures DigestsOf(all, u) == DigestsOf(rows, u) && NewestEvent(all, u, byUnit[u].0) {
      var x :| x in rows && UnitOf(x) == u && Replaced(x).Some? && x.event == byUnit[u].0;
      assert x in all;
    }
  }

  /** What one row adds, whether or not it replaced an image. */
  lemma RowHolds(rows: seq<Row>, k: nat, byUnit: ByUnit, order: seq<Unit>)
    requires Queried(rows) && k < |rows| && Holds(rows[..k], byUnit, order)
    ensures var r := rows[k];
      if Replaced(r).None? then Holds(rows[..k + 1], byUnit, order)
      else Holds(rows[..k + 1], Added(byUnit, r), if UnitOf(r) in byUnit then order else order + [UnitOf(r)])
  {
    assert rows[..k + 1] == rows[..k] + [rows[k]];
    if Replaced(rows[k]).None? {
      IgnoredHolds(rows[..k], rows[k], byUnit, order);
    } else {
      AddedHolds(rows[..k], rows[k], byUnit, order);
    }
  }

  /** One turn of the loop: the unit's first row sets its place and its event, every row adds its image. */
  method AddRow(was: ByUnit, listed: seq<Unit>, r: Row) returns (byUnit: ByUnit, order: seq<Unit>)
    ensures Replaced(r).None? ==> byUnit == was && order == listed
    ensures Replaced(r).Some? ==> byUnit == Added(was, r) && order == if UnitOf(r) in was then listed else listed + [UnitOf(r)]
  {
    byUnit, order := was, listed;
    var replaced := Replaced(r);
    if replaced.None? {
      return;
    }
    var u := UnitOf(r);
    if u !in byUnit {
      byUnit := byUnit[u := (r.event, {})];
      order := order + [u];
    }
    byUnit := byUnit[u := (byUnit[u].0, byUnit[u].1 + {replaced.value})];
    assert byUnit == Added(was, r);
  }

  /** The loop over the rows, filling one dictionary and one list. */
  method GatherRows(rows: seq<Row>) returns (byUnit: ByUnit, order: seq<Unit>)
    requires Queried(rows)
    ensures Holds(rows, byUnit, order)
  {
    byUnit, order := map[], [];
    var k := 0;
    while k < |rows|
      invariant 0 <= k <= |rows|
      invariant Holds(rows[..k], byUnit, order)
    {
      RowHolds(rows, k, byUnit, order);
      byUnit, order := AddRow(byUnit, order, rows[k]);
      k := k + 1;
    }
    assert rows[..|rows|] == rows;
  }

  /** Every action that replaced artwork, newest first. */
  method ArtworkBackups(rows: seq<Row>) returns (backups: seq<Backup>)
    requires Queried(rows)
    ensures Gathered(rows, backups)
  {
    var byUnit, order := GatherRows(rows);
    ListedIsGathered(rows, byUnit, order);
    backups := Listed(byUnit, order);
  }

  lemma ListedIsGathered(rows: seq<Row>, byUnit: ByUnit, order: seq<Unit>)
    requires Holds(rows, byUnit, order)
    ensures Gathered(rows, Listed(byUnit, order))
  {
    var backups := Listed(byUnit, order);
    forall u ensures u in Units(rows) <==> exists b :: b in backups && b.unit == u {
      if u in Units(rows) {
        var i :| 0 <= i < |order| && order[i] == u;
        assert backups[i].unit == u && backups[i] in backups;
      }
    }
  }

  function Listed(byUnit: ByUnit, order: seq<Unit>): (backups: seq<Backup>)
    requires forall u :: u in order ==> u in byUnit
    ensures |backups| == |order|
    ensures forall i :: 0 <= i < |order| ==> order[i] in byUnit
                                             && backups[i] == Backup(order[i], byUnit[order[i]].0, byUnit[order[i]].1)
  {
    seq(|order|, i requires 0 <= i < |order| => assert order[i] in order; Backup(order[i], byUnit[order[i]].0, byUnit[order[i]].1))
  }

  // ----- the promise -----

  /** How many of the album's actions are newer than `u`. */
  ghost function Newer(rows: seq<Row>, u: Unit): set<Unit> {
    set v | v in Units(rows) && v.album == u.album && NewerThan(rows, v, u)
  }

  ghost predicate NewerThan(rows: seq<Row>, v: Unit, u: Unit) {
    exists e, f :: NewestEvent(rows, v, e) && NewestEvent(rows, u, f) && e > f
  }

  /** The images replaced by each album's `keep` newest actions. */
  ghost predicate Promised(rows: seq<Row>, keep: int, d: Digest) {
    exists u :: u in Units(rows) && d in DigestsOf(rows, u) && |Newer(rows, u)| < keep
  }

  /** The loop that spends each album's allowance on its newest actions. */
  method ProtectedDigests(backups: seq<Backup>, ghost rows: seq<Row>, keep: int) returns (out: set<Digest>)
    requires Gathered(rows, backups)
    ensures forall d :: d in out <==> Promised(rows, keep, d)
  {
    out := {};
    if keep <= 0 {
      return;
    }
    var seen: map<Id, nat> := map[];
    for k := 0 to |backups|
      invariant forall album :: (if album in seen then seen[album] else 0) == Spent(backups[..k], album, keep)
      invariant forall d :: d in out <==> exists i :: 0 <= i < k && d in backups[i].digests && Earlier(backups, i) < keep
    {
      var album := backups[k].unit.album;
      var count := if album in seen then seen[album] else 0;
      assert backups[..k + 1] == backups[..k] + [backups[k]];
      if count >= keep {
        continue;
      }
      seen := seen[album := count + 1];
      out := out + backups[k].digests;
    }
    forall d ensures d in out <==> Promised(rows, keep, d) {
      PromisedByPosition(rows, backups, keep, d);
    }
  }

  /** The actions of one album among `backups`. */
  function Count(backups: seq<Backup>, album: Id): nat {
    if backups == [] then 0
    else Count(backups[..|backups| - 1], album) + if backups[|backups| - 1].unit.album == album then 1 else 0
  }

  function Spent(backups: seq<Backup>, album: Id, keep: int): nat
    requires keep > 0
  {
    var n := Count(backups, album); if n < keep then n else keep
  }

  function Earlier(backups: seq<Backup>, i: nat): nat
    requires i < |backups|
  {
    Count(backups[..i], backups[i].unit.album)
  }

  lemma {:induction false} CountIsCardinality(backups: seq<Backup>, album: Id)
    requires forall i, j :: 0 <= i < j < |backups| ==> backups[i].unit != backups[j].unit
    ensures Count(backups, album) == |set b | b in backups && b.unit.album == album :: b.unit|
  {
    if backups != [] {
      var rest := backups[..|backups| - 1];
      var last := backups[|backups| - 1];
      CountIsCardinality(rest, album);
      var before := set b | b in rest && b.unit.album == album :: b.unit;
      var all := set b | b in backups && b.unit.album == album :: b.unit;
      assert forall b :: b in backups <==> b in rest || b == last;
      if last.unit.album == album {
        assert all == before + {last.unit};
        assert last.unit !in before;
      } else {
        assert all == before;
      }
    }
  }

  lemma NewestIsUnique(rows: seq<Row>, u: Unit, e: nat, f: nat)
    requires NewestEvent(rows, u, e) && NewestEvent(rows, u, f)
    ensures e == f
  {
  }

  /** An action's position among its album's is the number of newer ones. */
  lemma EarlierIsNewer(rows: seq<Row>, backups: seq<Backup>, i: nat)
    requires Gathered(rows, backups) && i < |backups|
    ensures Earlier(backups, i) == |Newer(rows, backups[i].unit)|
  {
    var u := backups[i].unit;
    var earlier := backups[..i];
    CountIsCardinality(earlier, u.album);
    var units := set b | b in earlier && b.unit.album == u.album :: b.unit;
    forall v ensures v in units <==> v in Newer(rows, u) {
      NewerByPosition(rows, backups, i, v);
    }
    assert units == Newer(rows, u);
  }

  lemma NewerByPosition(rows: seq<Row>, backups: seq<Backup>, i: nat, v: Unit)
    requires Gathered(rows, backups) && i < |backups|
    ensures (exists b :: b in backups[..i] && b.unit == v && v.album == backups[i].unit.album)
            <==> v in Newer(rows, backups[i].unit)
  {
    if b :| b in backups[..i] && b.unit == v && v.album == backups[i].unit.album {
      var j :| 0 <= j < i && backups[j] == b;
      AheadIsNewer(rows, backups, j, i);
    }
    if v in Newer(rows, backups[i].unit) {
      var j := NewerIsAhead(rows, backups, i, v);
      assert backups[..i][j].unit == v;
      assert backups[..i][j] in backups[..i];
    }
  }

  lemma AheadIsNewer(rows: seq<Row>, backups: seq<Backup>, j: nat, i: nat)
    requires Gathered(rows, backups) && j < i < |backups| && backups[j].unit.album == backups[i].unit.album
    ensures backups[j].unit in Newer(rows, backups[i].unit)
  {
    assert backups[i] in backups && backups[j] in backups;
    assert NewestEvent(rows, backups[j].unit, backups[j].event) && NewestEvent(rows, backups[i].unit, backups[i].event);
  }

  lemma NewerIsAhead(rows: seq<Row>, backups: seq<Backup>, i: nat, v: Unit) returns (j: nat)
    requires Gathered(rows, backups) && i < |backups| && v in Newer(rows, backups[i].unit)
    ensures j < i && backups[j].unit == v
  {
    var u := backups[i].unit;
    var e, f :| NewestEvent(rows, v, e) && NewestEvent(rows, u, f) && e > f;
    var b :| b in backups && b.unit == v;
    j :| 0 <= j < |backups| && backups[j] == b;
    assert backups[i] in backups;
    NewestIsUnique(rows, v, e, b.event);
    NewestIsUnique(rows, u, f, backups[i].event);
  }

  lemma PromisedByPosition(rows: seq<Row>, backups: seq<Backup>, keep: int, d: Digest)
    requires Gathered(rows, backups)
    ensures Promised(rows, keep, d)
            <==> exists i :: 0 <= i < |backups| && d in backups[i].digests && Earlier(backups, i) < keep
  {
    if Promised(rows, keep, d) {
      var u :| u in Units(rows) && d in DigestsOf(rows, u) && |Newer(rows, u)| < keep;
      var b :| b in backups && b.unit == u;
      var i :| 0 <= i < |backups| && backups[i] == b;
      EarlierIsNewer(rows, backups, i);
    }
    if i :| 0 <= i < |backups| && d in backups[i].digests && Earlier(backups, i) < keep {
      assert backups[i] in backups;
      EarlierIsNewer(rows, backups, i);
    }
  }
}

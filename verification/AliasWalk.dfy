/** The ids an album has had: recording a change of id, following it forward, and gathering it backward. */
module AliasWalk {
  import opened Common

  type Id = string

  /** A recorded event: the row's own id, and the album it was recorded under. */
  datatype Event = Event(row: nat, album: Id)

  // ----- the table, and paths through it -----

  /** After `n` steps from `x`, following the table while it has an answer. */
  ghost predicate Reaches(table: map<Id, Id>, x: Id, n: nat, y: Id)
    decreases n
  {
    if n == 0 then x == y else x in table && Reaches(table, table[x], n - 1, y)
  }

  /** `x` is at backward distance `n` from `y`: it leads there in `n` steps and no fewer. */
  ghost predicate AtDistance(table: map<Id, Id>, x: Id, n: nat, y: Id) {
    Reaches(table, x, n, y) && forall m :: 0 <= m < n ==> !Reaches(table, x, m, y)
  }

  /** The ids within `n` steps back from `y`, itself included. */
  ghost predicate Within(table: map<Id, Id>, x: Id, n: nat, y: Id) {
    exists m :: 0 <= m <= n && Reaches(table, x, m, y)
  }

  lemma {:induction false} StepForward(table: map<Id, Id>, x: Id, n: nat, y: Id)
    requires Reaches(table, x, n, y) && y in table
    ensures Reaches(table, x, n + 1, table[y])
    decreases n
  {
    if n > 0 {
      StepForward(table, table[x], n - 1, y);
    }
  }

  lemma {:induction false} NearestExists(table: map<Id, Id>, x: Id, n: nat, y: Id) returns (m: nat)
    requires Reaches(table, x, n, y)
    ensures m <= n && AtDistance(table, x, m, y)
  {
    if k :| 0 <= k < n && Reaches(table, x, k, y) {
      m := NearestExists(table, x, k, y);
    } else {
      m := n;
    }
  }

  lemma {:induction false} NearestIsWithin(table: map<Id, Id>, x: Id, h: nat, y: Id)
    ensures Within(table, x, h, y) && x != y <==> exists n :: 1 <= n <= h && AtDistance(table, x, n, y)
  {
    if Within(table, x, h, y) && x != y {
      var n :| 0 <= n <= h && Reaches(table, x, n, y);
      var m := NearestExists(table, x, n, y);
      assert AtDistance(table, x, m, y) && m >= 1;
    }
    if exists n :: 1 <= n <= h && AtDistance(table, x, n, y) {
      var n :| 1 <= n <= h && AtDistance(table, x, n, y);
      assert !Reaches(table, x, 0, y);
    }
  }

  /** One step nearer, at every distance but none. */
  lemma OneNearer(table: map<Id, Id>, x: Id, n: nat, y: Id)
    ensures AtDistance(table, x, n + 1, y)
            <==> x in table && AtDistance(table, table[x], n, y) && !Within(table, x, n, y)
  {
    if AtDistance(table, x, n + 1, y) {
      forall m | 0 <= m < n ensures !Reaches(table, table[x], m, y) {
        assert !Reaches(table, x, m + 1, y);
      }
      assert !Within(table, x, n, y);
    }
    if x in table && AtDistance(table, table[x], n, y) && !Within(table, x, n, y) {
      forall m | 0 <= m < n + 1 ensures !Reaches(table, x, m, y) {
      }
    }
  }

  /** What one level of the backward walk adds. */
  lemma Level(table: map<Id, Id>, y: Id, h: nat, frontier: seq<Id>, seen: set<Id>, rows: seq<Id>, next: seq<Id>)
    requires forall x :: x in seen <==> Within(table, x, h, y)
    requires forall x :: x in frontier <==> AtDistance(table, x, h, y)
    requires forall x :: x in rows <==> x in table && table[x] in frontier
    requires forall x :: x in next <==> x in rows && x !in seen
    ensures forall x :: x in next <==> AtDistance(table, x, h + 1, y)
    ensures forall x :: x in seen || x in next <==> Within(table, x, h + 1, y)
  {
    forall x ensures x in next <==> AtDistance(table, x, h + 1, y) {
      OneNearer(table, x, h, y);
    }
    forall x ensures x in seen || x in next <==> Within(table, x, h + 1, y) {
      if Within(table, x, h + 1, y) && !Within(table, x, h, y) {
        assert AtDistance(table, x, h + 1, y);
      }
    }
  }

  /** With nothing at one distance there is nothing further away. */
  lemma {:induction false} NothingFurther(table: map<Id, Id>, y: Id, h: nat, n: nat)
    requires h <= n && forall x :: !AtDistance(table, x, h, y)
    ensures forall x :: !AtDistance(table, x, n, y)
  {
    if h < n {
      NothingFurther(table, y, h, n - 1);
      forall x ensures !AtDistance(table, x, n, y) {
        OneNearer(table, x, n - 1, y);
      }
    }
  }

  lemma NothingMore(table: map<Id, Id>, y: Id, h: nat, all: nat)
    requires h <= all && forall x :: !AtDistance(table, x, h, y)
    ensures forall x :: Within(table, x, h, y) <==> Within(table, x, all, y)
  {
    forall x | Within(table, x, all, y) ensures Within(table, x, h, y) {
      var n :| 0 <= n <= all && Reaches(table, x, n, y);
      var m := NearestExists(table, x, n, y);
      if m >= h {
        NothingFurther(table, y, h, m);
      }
    }
  }

  // ----- the store -----

  const MAX_HOPS: nat := 20

  class AliasStore {
    /** The alias table, each superseded id with the one that took its place. */
    var table: map<Id, Id>
    /** Every event recorded, oldest first. */
    var events: seq<Event>

    constructor ()
      ensures table == map[] && events == []
    {
      table, events := map[], [];
    }

    /** Remembers that `old` became `new`; recording it again changes nothing, another `new` takes its place. */
    method RecordAlias(oldId: Id, newId: Id)
      modifies this
      ensures table == if oldId == "" || newId == "" || oldId == newId then old(table) else old(table)[oldId := newId]
      ensures events == old(events)
    {
      if oldId == "" || newId == "" || oldId == newId {
        return;
      }
      table := table[oldId := newId];
    }

    /** The id an album has now, or none when `x` was never superseded. */
    method ResolveAlias(x: Id) returns (now: Option<Id>)
      ensures now == Resolved(table, x)
    {
      var seen := {x};
      var current := x;
      var hops: nat := 0;
      while hops < MAX_HOPS
        invariant hops <= MAX_HOPS
        invariant Followed(table, current, seen, MAX_HOPS - hops) == Followed(table, x, {x}, MAX_HOPS)
      {
        if current !in table || table[current] in seen {
          break;
        }
        current := table[current];
        seen := seen + {current};
        hops := hops + 1;
      }
      now := if current == x then None else Some(current);
    }

    /** The superseded ids that lead straight to one of `frontier`, each once, in no particular order. */
    method SelectOldIds(frontier: seq<Id>) returns (rows: seq<Id>)
      ensures Distinct(rows)
      ensures forall x :: x in rows <==> x in table && table[x] in frontier
    {
      rows := [];
      var left := table.Keys;
      while left != {}
        invariant left <= table.Keys && Distinct(rows)
        invariant forall x :: x in rows <==> x in table && table[x] in frontier && x !in left
        decreases left
      {
        var x :| x in left;
        if table[x] in frontier {
          rows := rows + [x];
        }
        left := left - {x};
      }
    }

    /** Every id this album used to have, breadth first, walking the table backward. */
    method Ancestors(y: Id) returns (found: seq<Id>)
      ensures Distinct(found)
      ensures forall x :: x in found <==> exists n :: 1 <= n <= MAX_HOPS && AtDistance(table, x, n, y)
      ensures y !in found
    {
      found := [];
      var seen := {y};
      var frontier := [y];
      var hops: nat := 0;
      forall x ensures x in seen <==> Within(table, x, 0, y) {
        assert Reaches(table, x, 0, y) <==> x == y;
      }
      while hops < MAX_HOPS
        invariant hops <= MAX_HOPS && Distinct(found) && y !in found
        invariant forall x :: x in seen <==> Within(table, x, hops, y)
        invariant forall x :: x in frontier <==> AtDistance(table, x, hops, y)
        invariant forall x :: x in found <==> x in seen && x != y
      {
        if frontier == [] {
          NothingMore(table, y, hops, MAX_HOPS);
          break;
        }
        var rows := SelectOldIds(frontier);
        var next := Unseen(rows, seen);
        Level(table, y, hops, frontier, seen, rows, next);
        frontier := next;
        assert forall x :: x in found ==> x !in frontier;
        DistinctTogether(found, frontier);
        seen := seen + Elements(frontier);
        found := found + frontier;
        hops := hops + 1;
      }
      forall x ensures x in found <==> exists n :: 1 <= n <= MAX_HOPS && AtDistance(table, x, n, y) {
        assert Within(table, x, hops, y) <==> Within(table, x, MAX_HOPS, y);
        NearestIsWithin(table, x, MAX_HOPS, y);
      }
    }
  }

  lemma KnownOneMore(table: map<Id, Id>, x: Id, asked: seq<Id>, y: Id)
    ensures Known(table, x, asked + [y]) <==> Known(table, x, asked) || Had(table, y, x)
  {
    assert y in asked + [y];
  }

  /** The ids a history is read under, each once: every id asked for, then what it superseded. */
  method HistoryIds(store: AliasStore, asked: seq<Id>) returns (ids: seq<Id>)
    ensures Distinct(ids)
    ensures forall x :: x in ids <==> Known(store.table, x, asked)
  {
    ids := [];
    for i := 0 to |asked|
      invariant Distinct(ids)
      invariant forall x :: x in ids <==> Known(store.table, x, asked[..i])
    {
      var ancestors := store.Ancestors(asked[i]);
      ghost var was := ids;
      ids := AddUnseen(ids, [asked[i]] + ancestors);
      assert asked[..i + 1] == asked[..i] + [asked[i]];
      forall x ensures x in ids <==> Known(store.table, x, asked[..i + 1]) {
        assert x in ids <==> x in was || x == asked[i] || x in ancestors;
        KnownOneMore(store.table, x, asked[..i], asked[i]);
      }
    }
    assert asked[..|asked|] == asked;
  }

  /** Appends what is not there yet. */
  method AddUnseen(ids: seq<Id>, more: seq<Id>) returns (out: seq<Id>)
    requires Distinct(ids)
    ensures Distinct(out)
    ensures forall x :: x in out <==> x in ids || x in more
  {
    out := ids;
    for i := 0 to |more|
      invariant Distinct(out)
      invariant forall x :: x in out <==> x in ids || x in more[..i]
    {
      if more[i] !in out {
        out := out + [more[i]];
      }
    }
  }

  /** One page of everything recorded under any id the albums asked for have had, newest first. */
  method AlbumHistory(store: AliasStore, album: Id, also: seq<Id>, limit: nat, offset: int) returns (page: seq<Event>)
    ensures var all := Recorded(store.table, store.events, [album] + also);
      var from := if offset < 0 then 0 else offset;
      && |page| <= limit && (|page| < limit ==> from + |page| >= |all|)
      && forall k :: 0 <= k < |page| ==> from + k < |all| && page[k] == all[from + k]
  {
    var ids := HistoryIds(store, [album] + also);
    NewestIsRecorded(store.table, store.events, ids, [album] + also);
    page := Page(Newest(store.events, ids), limit, offset);
  }

  /** Where the forward walk ends. */
  function Followed(table: map<Id, Id>, current: Id, seen: set<Id>, hops: nat): Id
    decreases hops
  {
    if hops == 0 || current !in table || table[current] in seen then current
    else Followed(table, table[current], seen + {table[current]}, hops - 1)
  }

  function Resolved(table: map<Id, Id>, x: Id): Option<Id> {
    var y := Followed(table, x, {x}, MAX_HOPS);
    if y == x then None else Some(y)
  }

  function Unseen(rows: seq<Id>, seen: set<Id>): (out: seq<Id>)
    requires Distinct(rows)
    ensures Distinct(out)
    ensures forall x :: x in out <==> x in rows && x !in seen
  {
    if rows == [] then [] else
      assert forall x :: x in rows <==> x == rows[0] || x in rows[1..];
      var rest := Unseen(rows[1..], seen);
      if rows[0] in seen then rest else [rows[0]] + rest
  }

  // ----- the two walks agree -----

  lemma {:induction false} FollowedReaches(table: map<Id, Id>, current: Id, seen: set<Id>, hops: nat) returns (n: nat)
    ensures n <= hops && Reaches(table, current, n, Followed(table, current, seen, hops))
    decreases hops
  {
    if hops == 0 || current !in table || table[current] in seen {
      n := 0;
    } else {
      var m := FollowedReaches(table, table[current], seen + {table[current]}, hops - 1);
      n := m + 1;
    }
  }

  /** Whatever the table, cycles included, an id that resolves to `y` is among those the backward walk from `y` finds. */
  lemma ResolvedIsAncestor(table: map<Id, Id>, x: Id)
    requires Resolved(table, x).Some?
    ensures exists n :: 1 <= n <= MAX_HOPS && AtDistance(table, x, n, Resolved(table, x).value)
  {
    var y := Resolved(table, x).value;
    var n := FollowedReaches(table, x, {x}, MAX_HOPS);
    assert Within(table, x, MAX_HOPS, y);
    NearestIsWithin(table, x, MAX_HOPS, y);
  }

  /** No id is met twice in the first `n` steps from `x`. */
  ghost predicate NoRepeat(table: map<Id, Id>, x: Id, n: nat) {
    forall i, j, z :: 0 <= i < j <= n && Reaches(table, x, i, z) ==> !Reaches(table, x, j, z)
  }

  ghost predicate Met(table: map<Id, Id>, x: Id, n: nat, z: Id) {
    exists i :: 0 <= i <= n && Reaches(table, x, i, z)
  }

  /** A walk from `x` rests at `y` after `n` steps: none repeated, and the next not there, or met already, or one too many. */
  ghost predicate RestsAt(table: map<Id, Id>, x: Id, n: nat, y: Id, bound: nat) {
    && n <= bound && Reaches(table, x, n, y) && NoRepeat(table, x, n)
    && (n == bound || y !in table || Met(table, x, n, table[y]))
  }

  lemma {:induction false} SameStep(table: map<Id, Id>, x: Id, n: nat, y: Id, z: Id)
    requires Reaches(table, x, n, y) && Reaches(table, x, n, z)
    ensures y == z
    decreases n
  {
    if n > 0 {
      SameStep(table, table[x], n - 1, y, z);
    }
  }

  lemma OneMoreStep(table: map<Id, Id>, x: Id, n: nat, current: Id)
    requires Reaches(table, x, n, current) && NoRepeat(table, x, n) && current in table && !Met(table, x, n, table[current])
    ensures Reaches(table, x, n + 1, table[current]) && NoRepeat(table, x, n + 1)
    ensures forall z :: Met(table, x, n + 1, z) <==> Met(table, x, n, z) || z == table[current]
  {
    var m := n + 1;
    StepForward(table, x, n, current);
    forall z | Reaches(table, x, m, z) ensures z == table[current] {
      SameStep(table, x, m, z, table[current]);
    }
    forall z | Met(table, x, m, z) && !Met(table, x, n, z) ensures z == table[current] {
      var i :| 0 <= i <= m && Reaches(table, x, i, z);
    }
  }

  lemma {:induction false} FollowedRests(table: map<Id, Id>, x: Id, n: nat, current: Id, seen: set<Id>, hops: nat) returns (m: nat)
    requires Reaches(table, x, n, current) && NoRepeat(table, x, n)
    requires forall z :: z in seen <==> Met(table, x, n, z)
    ensures RestsAt(table, x, m, Followed(table, current, seen, hops), n + hops)
    decreases hops
  {
    if hops == 0 || current !in table || table[current] in seen {
      m := n;
    } else {
      OneMoreStep(table, x, n, current);
      m := FollowedRests(table, x, n + 1, table[current], seen + {table[current]}, hops - 1);
    }
  }

  /** An id resolves to where its walk rests within twenty steps, unless that is itself. */
  lemma ResolvedRests(table: map<Id, Id>, x: Id)
    ensures exists n: nat, y: Id :: RestsAt(table, x, n, y, 20) && Resolved(table, x) == if y == x then None else Some(y)
  {
    forall z ensures z in {x} <==> Met(table, x, 0, z) {
      assert Reaches(table, x, 0, z) <==> z == x;
    }
    var n := FollowedRests(table, x, 0, x, {x}, MAX_HOPS);
  }

  lemma {:induction false} Onward(table: map<Id, Id>, x: Id, m: nat, y: Id, n: nat, z: Id)
    requires Reaches(table, x, m, y) && Reaches(table, y, n, z)
    ensures Reaches(table, x, m + n, z)
    decreases m
  {
    if m > 0 {
      Onward(table, table[x], m - 1, y, n, z);
    }
  }

  /** No walk goes past an id that was never superseded. */
  lemma {:induction false} NothingPastTheEnd(table: map<Id, Id>, x: Id, n: nat, y: Id, m: nat, z: Id)
    requires Reaches(table, x, n, y) && y !in table && Reaches(table, x, m, z)
    ensures m <= n
    decreases n
  {
    if n > 0 && m > 0 {
      NothingPastTheEnd(table, table[x], n - 1, y, m - 1, z);
    }
  }

  ghost predicate LeadsTo(table: map<Id, Id>, x: Id, y: Id) {
    exists k: nat :: Reaches(table, x, k, y)
  }

  lemma {:induction false} FollowedToTheEnd(table: map<Id, Id>, current: Id, seen: set<Id>, hops: nat, n: nat, y: Id)
    requires Reaches(table, current, n, y) && y !in table && n <= hops
    requires forall s :: s in seen ==> LeadsTo(table, s, current)
    ensures Followed(table, current, seen, hops) == y
    decreases hops
  {
    if n > 0 {
      var next := table[current];
      if next in seen {
        var k: nat :| Reaches(table, next, k, current);
        Onward(table, next, k, current, n, y);
        NothingPastTheEnd(table, next, n - 1, y, k + n, y);
        assert false;
      }
      forall s | s in seen + {next} ensures LeadsTo(table, s, next) {
        if s == next {
          assert Reaches(table, s, 0, next);
        } else {
          var k: nat :| Reaches(table, s, k, current);
          StepForward(table, s, k, current);
        }
      }
      FollowedToTheEnd(table, next, seen + {next}, hops - 1, n - 1, y);
    }
  }

  /** An id whose chain ends within the bound resolves to the end of it. */
  lemma ResolvesToCurrent(table: map<Id, Id>, x: Id, n: nat, y: Id)
    requires Reaches(table, x, n, y) && y !in table && n <= MAX_HOPS && x != y
    ensures Resolved(table, x) == Some(y)
  {
    assert LeadsTo(table, x, x) by {
      assert Reaches(table, x, 0, x);
    }
    FollowedToTheEnd(table, x, {x}, MAX_HOPS, n, y);
  }

  // ----- history -----

  /** `x` is `y` or an id that `y` took the place of. */
  ghost predicate Had(table: map<Id, Id>, y: Id, x: Id) {
    x == y || exists n :: 1 <= n <= MAX_HOPS && AtDistance(table, x, n, y)
  }

  /** The ids an album's records may sit under: those asked for, and everything they superseded. */
  ghost predicate Known(table: map<Id, Id>, x: Id, asked: seq<Id>) {
    exists y :: y in asked && Had(table, y, x)
  }

  /** The events recorded under any of `ids`, newest first. */
  function Newest(events: seq<Event>, ids: seq<Id>): (found: seq<Event>)
    ensures forall e :: e in found <==> e in events && e.album in ids
  {
    if events == [] then []
    else
      var last := events[|events| - 1];
      assert events == events[..|events| - 1] + [last];
      (if last.album in ids then [last] else []) + Newest(events[..|events| - 1], ids)
  }

  /** One page of a listing. */
  function Page(all: seq<Event>, limit: nat, offset: int): seq<Event> {
    var from := if offset < 0 then 0 else offset;
    if from >= |all| then [] else if from + limit >= |all| then all[from..] else all[from..from + limit]
  }

  /** Everything recorded under the albums asked for, whatever their ids were at the time, newest first. */
  ghost function Recorded(table: map<Id, Id>, events: seq<Event>, asked: seq<Id>): seq<Event> {
    if events == [] then []
    else
      var last := events[|events| - 1];
      (if Known(table, last.album, asked) then [last] else []) + Recorded(table, events[..|events| - 1], asked)
  }

  lemma {:induction false} NewestIsRecorded(table: map<Id, Id>, events: seq<Event>, ids: seq<Id>, asked: seq<Id>)
    requires forall x :: x in ids <==> Known(table, x, asked)
    ensures Newest(events, ids) == Recorded(table, events, asked)
  {
    if events != [] {
      NewestIsRecorded(table, events[..|events| - 1], ids, asked);
    }
  }

  lemma {:induction false} RecordedAre(table: map<Id, Id>, events: seq<Event>, asked: seq<Id>, e: Event)
    ensures e in Recorded(table, events, asked) <==> e in events && Known(table, e.album, asked)
  {
    if events != [] {
      RecordedAre(table, events[..|events| - 1], asked, e);
      assert events == events[..|events| - 1] + [events[|events| - 1]];
    }
  }

  ghost predicate Descending(events: seq<Event>) {
    forall i, j :: 0 <= i < j < |events| ==> events[i].row > events[j].row
  }

  lemma DescendsFrom(last: Event, found: seq<Event>)
    requires Descending(found) && forall e :: e in found ==> e.row < last.row
    ensures Descending([last] + found)
  {
  }

  /** The history is in the order recorded, reversed. */
  lemma {:induction false} HistoryDescends(table: map<Id, Id>, events: seq<Event>, asked: seq<Id>)
    requires forall i, j :: 0 <= i < j < |events| ==> events[i].row < events[j].row
    ensures Descending(Recorded(table, events, asked))
  {
    if events != [] {
      var last, rest := events[|events| - 1], events[..|events| - 1];
      HistoryDescends(table, rest, asked);
      forall e | e in Recorded(table, rest, asked) ensures e.row < last.row {
        RecordedAre(table, rest, asked, e);
      }
      if Known(table, last.album, asked) {
        DescendsFrom(last, Recorded(table, rest, asked));
      } else {
        assert [] + Recorded(table, rest, asked) == Recorded(table, rest, asked);
      }
    }
  }

  /** Everything recorded under an id is in the history of the id it resolves to. */
  lemma HistoryReachesBack(table: map<Id, Id>, events: seq<Event>, x: Id, also: seq<Id>, e: Event)
    requires Resolved(table, x).Some?
    requires e in events && e.album == x
    ensures e in Recorded(table, events, [Resolved(table, x).value] + also)
  {
    var y := Resolved(table, x).value;
    ResolvedIsAncestor(table, x);
    assert y in [y] + also;
    assert Known(table, x, [y] + also);
    RecordedAre(table, events, [y] + also, e);
  }
}

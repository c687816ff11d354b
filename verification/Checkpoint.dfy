/** The collection checkpoint of a Bandcamp sync, which must never bury a purchase a sync left unfinished. */
module Checkpoint {
  import opened Common

  type Id = int

  /** How a purchase's destination answers: free, already holding this very purchase, or holding something else. */
  datatype Destination = Free | Owned | Blocked

  /** What a sync finds out about one purchase. */
  datatype Facts = Facts(
    matched: bool,      // an album on disk carries its URL, or is the one unlinked copy of its release
    sameRelease: bool,  // its release is on disk under another page or purchase
    lookalikes: bool,   // an album shares its slug and is not known to be its release
    hasUrl: bool,
    adopts: bool,       // an unlinked artist-page album takes it by title
    approved: bool,     // the user chose Download for it
    ignored: bool,
    preorder: bool,
    hidden: bool,
    inMedia: bool,      // its id is among the local copies
    local: bool,        // a local copy is found for it
    destination: Destination,
    fetched: bool)      // the download, when there is one, writes it

  datatype Outcome = OnDisk | Adopted | Pending | AlreadyOwned | BlockedAt | OverLimit | NotReleased | Downloaded | Declined

  /** The purchase is still owed: the sync saw it and did not finish with it. */
  predicate LeavesUnfinished(o: Outcome) {
    o == BlockedAt || o == OverLimit || o == NotReleased
  }

  /** A purchase the sync would otherwise have to fetch. */
  predicate Wanted(f: Facts) {
    !f.ignored && !f.hidden && !f.local
  }

  /** What the parent's own loop does with a purchase. */
  predicate ParentDownloads(f: Facts) {
    Wanted(f) && !f.preorder && f.fetched
  }

  function OutcomeOf(f: Facts, linkOnly: bool, newItems: nat, limit: nat): Outcome {
    if f.hasUrl && f.matched then OnDisk
    else if f.hasUrl && f.sameRelease && !f.ignored then OnDisk
    else if linkOnly && !f.approved && f.hasUrl && f.adopts then Adopted
    else if f.hasUrl && f.lookalikes && !f.approved && !f.ignored then Pending
    else if linkOnly && !f.approved then Pending
    else if !f.ignored && !f.preorder && !f.hidden && !f.inMedia && f.destination != Free then
      if f.destination == Owned then AlreadyOwned else BlockedAt
    else if !f.approved && newItems >= limit && Wanted(f) && !f.preorder then OverLimit
    else if ParentDownloads(f) then Downloaded
    else if f.preorder && Wanted(f) then NotReleased
    else Declined
  }

  // ----- the same, said of the facts -----

  /** It is on disk already: under its own URL, or, when not ignored, as the same release elsewhere. */
  ghost predicate Found(f: Facts) {
    f.hasUrl && (f.matched || (f.sameRelease && !f.ignored))
  }

  /** The user is asked about it. */
  ghost predicate AsksUser(f: Facts, linkOnly: bool) {
    && !Found(f) && !f.approved && !(linkOnly && f.hasUrl && f.adopts)
    && (linkOnly || (f.hasUrl && f.lookalikes && !f.ignored))
  }

  /** It goes on to be downloaded: the user chose it, or a full sync found nothing on disk that could be it. */
  ghost predicate Unsettled(f: Facts, linkOnly: bool) {
    !Found(f) && (f.approved || (!linkOnly && !(f.hasUrl && f.lookalikes && !f.ignored)))
  }

  ghost predicate PreorderOwed(f: Facts, linkOnly: bool) {
    Unsettled(f, linkOnly) && f.preorder && !f.ignored && !f.hidden && !f.local
  }

  ghost predicate BlockedOwed(f: Facts, linkOnly: bool) {
    Unsettled(f, linkOnly) && !f.preorder && !f.ignored && !f.hidden && !f.inMedia && f.destination == Blocked
  }

  /** What the limit can put off: new, released, with a free place to go, and not asked for by name. */
  ghost predicate CanBePutOff(f: Facts, linkOnly: bool) {
    && Unsettled(f, linkOnly) && !f.approved
    && !f.preorder && !f.ignored && !f.hidden && !f.local && (f.inMedia || f.destination == Free)
  }

  /** A download of it succeeds, if the limit lets it start. */
  ghost predicate Fetchable(f: Facts, linkOnly: bool) {
    && Unsettled(f, linkOnly) && f.fetched
    && !f.preorder && !f.ignored && !f.hidden && !f.local && (f.inMedia || f.destination == Free)
  }

  /** The sync leaves it owed: unreleased, with its place taken, or after the limit's downloads. */
  ghost predicate LeftOwed(f: Facts, linkOnly: bool, newItems: nat, limit: nat) {
    PreorderOwed(f, linkOnly) || BlockedOwed(f, linkOnly) || (CanBePutOff(f, linkOnly) && limit <= newItems)
  }

  lemma OutcomeIs(f: Facts, linkOnly: bool, newItems: nat, limit: nat)
    ensures var o := OutcomeOf(f, linkOnly, newItems, limit);
      && (o == Downloaded <==> Fetchable(f, linkOnly) && (f.approved || newItems < limit))
      && (LeavesUnfinished(o) <==> LeftOwed(f, linkOnly, newItems, limit))
      && (o == Pending <==> AsksUser(f, linkOnly))
  {
  }

  // ----- positions in the collection -----

  /** A collection is paged newest first, down to the checkpoint and not including it. */
  function Paged(collection: seq<Id>, checkpoint: Option<Id>): seq<Id> {
    if collection == [] || checkpoint == Some(collection[0]) then []
    else [collection[0]] + Paged(collection[1..], checkpoint)
  }

  /** One past the oldest unfinished purchase. */
  function Cut(items: seq<Id>, unfinished: set<Id>): (cut: nat)
    ensures cut <= |items|
    ensures forall i :: cut <= i < |items| ==> items[i] !in unfinished
    ensures cut > 0 ==> items[cut - 1] in unfinished
  {
    if items == [] then 0
    else if items[|items| - 1] in unfinished then |items|
    else
      assert items[..|items| - 1] + [items[|items| - 1]] == items;
      Cut(items[..|items| - 1], unfinished)
  }

  lemma CutIs(items: seq<Id>, unfinished: set<Id>, cut: nat)
    requires cut <= |items| && (cut > 0 ==> items[cut - 1] in unfinished)
    requires forall i :: cut <= i < |items| ==> items[i] !in unfinished
    ensures Cut(items, unfinished) == cut
  {
    var other := Cut(items, unfinished);
    assert other > 0 ==> items[other - 1] in unfinished;
  }

  /** What a run saves: the newest purchase older than everything unfinished, else what was saved before. */
  function NextCheckpoint(linkOnly: bool, items: seq<Id>, unfinished: set<Id>, saved: Option<Id>, parentSaves: bool): Option<Id> {
    var cut := Cut(items, unfinished);
    if linkOnly || !parentSaves || cut == |items| then saved else Some(items[cut])
  }

  // ----- one run -----

  class Syncer {
    const linkOnly: bool
    const limit: nat
    var newItems: nat
    var skippedForLimit: nat
    var deferredPreorders: nat
    var unfinished: set<Id>
    var pendingThisRun: seq<Id>
    /** How many of the downloads the user had not asked for one by one. */
    ghost var unasked: nat

    constructor (linkOnly: bool, limit: nat)
      ensures this.linkOnly == linkOnly && this.limit == limit
      ensures newItems == 0 && skippedForLimit == 0 && deferredPreorders == 0 && unfinished == {} && pendingThisRun == []
      ensures unasked == 0
    {
      this.linkOnly, this.limit := linkOnly, limit;
      newItems, skippedForLimit, deferredPreorders, unfinished, pendingThisRun := 0, 0, 0, {}, [];
      unasked := 0;
    }

    /** The limit holds of every download nobody asked for. */
    ghost predicate WithinLimit()
      reads this
    {
      unasked <= newItems && unasked <= limit
    }

    /** One purchase: linked, deferred, left for the user, or downloaded. */
    method SyncItem(id: Id, f: Facts) returns (downloaded: bool)
      requires WithinLimit()
      modifies this
      ensures WithinLimit()
      ensures downloaded <==> Fetchable(f, linkOnly) && (f.approved || old(newItems) < limit)
      ensures newItems == old(newItems) + (if downloaded then 1 else 0)
      ensures skippedForLimit == old(skippedForLimit) + (if CanBePutOff(f, linkOnly) && limit <= old(newItems) then 1 else 0)
      ensures deferredPreorders == old(deferredPreorders) + (if PreorderOwed(f, linkOnly) then 1 else 0)
      ensures unfinished == old(unfinished) + (if LeftOwed(f, linkOnly, old(newItems), limit) then {id} else {})
      ensures pendingThisRun == old(pendingThisRun) + (if AsksUser(f, linkOnly) || BlockedOwed(f, linkOnly) then [id] else [])
    {
      downloaded := false;
      if f.hasUrl && f.matched {
        return;
      }
      if f.hasUrl && f.sameRelease && !f.ignored {
        return;
      }
      if linkOnly && !f.approved && f.hasUrl && f.adopts {
        return;
      }
      if f.hasUrl && f.lookalikes && !f.approved && !f.ignored {
        pendingThisRun := pendingThisRun + [id];
        return;
      }
      if linkOnly && !f.approved {
        pendingThisRun := pendingThisRun + [id];
        return;
      }
      if !f.ignored && !f.preorder && !f.hidden && !f.inMedia {
        var free := CanDownloadTo(id, f);
        if !free {
          return;
        }
      }
      if !f.approved && newItems >= limit && !f.ignored && !f.preorder && !f.hidden && !f.local {
        skippedForLimit := skippedForLimit + 1;
        unfinished := unfinished + {id};
        return;
      }
      downloaded := ParentDownloads(f);
      if downloaded {
        newItems := newItems + 1;
        if !f.approved {
          unasked := unasked + 1;
        }
      } else {
        NotePreorderDeferral(id, f);
      }
    }

    /** An occupied destination is left alone, and the purchase owed unless it is what the destination holds. */
    method CanDownloadTo(id: Id, f: Facts) returns (free: bool)
      modifies this`unfinished, this`pendingThisRun
      ensures free <==> f.destination == Free
      ensures unfinished == old(unfinished) + (if f.destination == Blocked then {id} else {})
      ensures pendingThisRun == old(pendingThisRun) + (if f.destination == Blocked then [id] else [])
    {
      free := f.destination == Free;
      if f.destination == Blocked {
        unfinished := unfinished + {id};
        pendingThisRun := pendingThisRun + [id];
      }
    }

    method NotePreorderDeferral(id: Id, f: Facts)
      modifies this`unfinished, this`deferredPreorders
      ensures unfinished == old(unfinished) + (if f.preorder && Wanted(f) then {id} else {})
      ensures deferredPreorders == old(deferredPreorders) + (if f.preorder && Wanted(f) then 1 else 0)
    {
      if !f.preorder || f.ignored || f.hidden || f.local {
        return;
      }
      unfinished := unfinished + {id};
      deferredPreorders := deferredPreorders + 1;
    }

    /** Saves as new a checkpoint as leaves everything unfinished above it. */
    method SaveCollectionCheckpoint(items: seq<Id>, saved: Option<Id>, parentSaves: bool) returns (now: Option<Id>)
      ensures now == NextCheckpoint(linkOnly, items, unfinished, saved, parentSaves)
    {
      if linkOnly {
        return saved;
      }
      var cut: int := -1;
      for i := 0 to |items|
        invariant -1 <= cut < i
        invariant cut >= 0 ==> items[cut] in unfinished
        invariant forall j :: cut < j < i ==> items[j] !in unfinished
      {
        if items[i] in unfinished {
          cut := i;
        }
      }
      CutIs(items, unfinished, cut + 1);
      var safe := items[cut + 1..];
      if safe == [] || !parentSaves {
        return saved;
      }
      return Some(safe[0]);
    }

    /** A whole run over what was paged. */
    method SyncItems(items: seq<Id>, facts: Id -> Facts)
      requires newItems == 0 && unfinished == {} && unasked == 0
      modifies this
      ensures unfinished == UnfinishedIn(items, facts, linkOnly, 0, limit)
      ensures WithinLimit()
    {
      for i := 0 to |items|
        invariant WithinLimit()
        invariant unfinished + UnfinishedIn(items[i..], facts, linkOnly, newItems, limit)
               == UnfinishedIn(items, facts, linkOnly, 0, limit)
      {
        OneSynced(items, facts, linkOnly, newItems, limit, i);
        var _ := SyncItem(items[i], facts(items[i]));
      }
    }
  }

  /** What a run leaves unfinished, having downloaded `newItems` already. */
  function UnfinishedIn(items: seq<Id>, facts: Id -> Facts, linkOnly: bool, newItems: nat, limit: nat): set<Id>
    decreases |items|
  {
    if items == [] then {}
    else
      var o := OutcomeOf(facts(items[0]), linkOnly, newItems, limit);
      (if LeavesUnfinished(o) then {items[0]} else {})
      + UnfinishedIn(items[1..], facts, linkOnly, newItems + (if o == Downloaded then 1 else 0), limit)
  }

  lemma {:induction false} OneSynced(items: seq<Id>, facts: Id -> Facts, linkOnly: bool, newItems: nat, limit: nat, n: nat)
    requires n < |items|
    ensures var f := facts(items[n]);
      var more := newItems + if Fetchable(f, linkOnly) && (f.approved || newItems < limit) then 1 else 0;
      UnfinishedIn(items[n..], facts, linkOnly, newItems, limit)
        == (if LeftOwed(f, linkOnly, newItems, limit) then {items[n]} else {}) + UnfinishedIn(items[n + 1..], facts, linkOnly, more, limit)
  {
    assert items[n..][0] == items[n] && items[n..][1..] == items[n + 1..];
    OutcomeIs(facts(items[n]), linkOnly, newItems, limit);
  }

  // ----- runs of syncs -----

  datatype World = World(collection: seq<Id>, checkpoint: Option<Id>, owed: set<Id>)

  datatype Event = Buy(id: Id) | Sync(linkOnly: bool, limit: nat, facts: Id -> Facts, parentSaves: bool)

  /**
   A new purchase goes on top. A sync settles everything it pages but what it leaves unfinished; one that only
   links settles nothing it owed before.
   */
  function After(w: World, e: Event): World {
    match e
    case Buy(id) => if id in w.collection then w else w.(collection := [id] + w.collection)
    case Sync(linkOnly, limit, facts, parentSaves) =>
      var items := Paged(w.collection, w.checkpoint);
      var unfinished := UnfinishedIn(items, facts, linkOnly, 0, limit);
      World(w.collection, NextCheckpoint(linkOnly, items, unfinished, w.checkpoint, parentSaves),
            (if linkOnly then w.owed else w.owed - Elements(items)) + unfinished)
  }

  function Run(w: World, events: seq<Event>): World {
    if events == [] then w else After(Run(w, events[..|events| - 1]), events[|events| - 1])
  }

  /** Everything owed is strictly newer than the checkpoint, so the next full sync pages it. */
  ghost predicate NothingBuried(w: World) {
    && Distinct(w.collection)
    && (w.checkpoint.Some? ==> w.checkpoint.value in w.collection)
    && w.owed <= Elements(Paged(w.collection, w.checkpoint))
  }

  lemma {:induction false} PagedIsPrefix(collection: seq<Id>, checkpoint: Option<Id>)
    ensures Paged(collection, checkpoint) <= collection
    ensures var n := |Paged(collection, checkpoint)|;
      && (n < |collection| ==> checkpoint == Some(collection[n]))
      && forall i :: 0 <= i < n ==> checkpoint != Some(collection[i])
  {
    if collection != [] && checkpoint != Some(collection[0]) {
      PagedIsPrefix(collection[1..], checkpoint);
      var rest := Paged(collection[1..], checkpoint);
      assert collection == [collection[0]] + collection[1..];
      forall i | 0 <= i < |rest| + 1 ensures checkpoint != Some(collection[i]) {
        if i > 0 {
          assert collection[i] == collection[1..][i - 1];
        }
      }
    }
  }

  lemma {:induction false} PagedDownTo(collection: seq<Id>, k: nat)
    requires Distinct(collection) && k < |collection|
    ensures Paged(collection, Some(collection[k])) == collection[..k]
  {
    if k > 0 {
      PagedDownTo(collection[1..], k - 1);
      assert collection[1..][..k - 1] == collection[1..k];
    }
  }

  lemma {:induction false} UnfinishedWasPaged(items: seq<Id>, facts: Id -> Facts, linkOnly: bool, newItems: nat, limit: nat)
    ensures UnfinishedIn(items, facts, linkOnly, newItems, limit) <= Elements(items)
    decreases |items|
  {
    if items != [] {
      var o := OutcomeOf(facts(items[0]), linkOnly, newItems, limit);
      UnfinishedWasPaged(items[1..], facts, linkOnly, newItems + (if o == Downloaded then 1 else 0), limit);
      assert forall x :: x in items[1..] ==> x in items;
    }
  }

  /** One sync moves the checkpoint only to a newer purchase, and only below everything it left unfinished. */
  lemma SavedBelowUnfinished(collection: seq<Id>, saved: Option<Id>, unfinished: set<Id>, linkOnly: bool, parentSaves: bool)
    requires Distinct(collection) && unfinished <= Elements(Paged(collection, saved))
    requires saved.Some? ==> saved.value in collection
    ensures var items := Paged(collection, saved);
      var now := NextCheckpoint(linkOnly, items, unfinished, saved, parentSaves);
      && (now.Some? ==> now.value in collection)
      && Paged(collection, now) <= items
      && unfinished <= Elements(Paged(collection, now))
  {
    var items := Paged(collection, saved);
    var cut := Cut(items, unfinished);
    PagedIsPrefix(collection, saved);
    if !linkOnly && parentSaves && cut < |items| {
      assert items[cut] == collection[cut];
      PagedDownTo(collection, cut);
      forall x | x in unfinished ensures x in collection[..cut] {
        var i :| 0 <= i < |items| && items[i] == x;
        assert i < cut && collection[i] == x;
      }
    }
  }

  lemma StepBuriesNothing(w: World, e: Event)
    requires NothingBuried(w)
    ensures NothingBuried(After(w, e))
  {
    match e
    case Buy(id) =>
      if id !in w.collection {
        var more := [id] + w.collection;
        assert more[1..] == w.collection;
        assert forall x :: x in Paged(w.collection, w.checkpoint) ==> x in Paged(more, w.checkpoint);
      }
    case Sync(linkOnly, limit, facts, parentSaves) =>
      var items := Paged(w.collection, w.checkpoint);
      var unfinished := UnfinishedIn(items, facts, linkOnly, 0, limit);
      UnfinishedWasPaged(items, facts, linkOnly, 0, limit);
      SavedBelowUnfinished(w.collection, w.checkpoint, unfinished, linkOnly, parentSaves);
      assert w.owed - Elements(items) == {};
  }

  /** Over every run of purchases and syncs, nothing left unfinished is ever buried. */
  lemma {:induction false} NoRunBuries(w: World, events: seq<Event>)
    requires NothingBuried(w)
    ensures NothingBuried(Run(w, events))
  {
    if events != [] {
      NoRunBuries(w, events[..|events| - 1]);
      StepBuriesNothing(Run(w, events[..|events| - 1]), events[|events| - 1]);
    }
  }

  /** The next full sync does page everything that is owed. */
  lemma OwedIsPagedAgain(w: World, events: seq<Event>, id: Id)
    requires NothingBuried(w) && id in Run(w, events).owed
    ensures var now := Run(w, events); id in Paged(now.collection, now.checkpoint)
  {
    NoRunBuries(w, events);
  }

  // ----- what is owed, said of the facts -----

  /** The purchases among the first `n` whose download can succeed. */
  ghost function FetchableBefore(items: seq<Id>, facts: Id -> Facts, linkOnly: bool, n: nat): set<nat>
    requires n <= |items|
  {
    set k: nat | 0 <= k < n && Fetchable(facts(items[k]), linkOnly)
  }

  /** A sync leaves the purchase owed: unreleased, with its place taken, or with the limit's downloads met before it. */
  ghost predicate Owes(items: seq<Id>, facts: Id -> Facts, linkOnly: bool, limit: nat, i: nat)
    requires i < |items|
  {
    var f := facts(items[i]);
    || PreorderOwed(f, linkOnly)
    || BlockedOwed(f, linkOnly)
    || (CanBePutOff(f, linkOnly) && limit <= |FetchableBefore(items, facts, linkOnly, i)|)
  }

  lemma OneMoreFetchable(items: seq<Id>, facts: Id -> Facts, linkOnly: bool, n: nat)
    requires n < |items|
    ensures |FetchableBefore(items, facts, linkOnly, n + 1)|
         == |FetchableBefore(items, facts, linkOnly, n)| + (if Fetchable(facts(items[n]), linkOnly) then 1 else 0)
  {
    var was, now := FetchableBefore(items, facts, linkOnly, n), FetchableBefore(items, facts, linkOnly, n + 1);
    assert now == if Fetchable(facts(items[n]), linkOnly) then was + {n} else was;
  }

  /** The downloads are those whose download can succeed, until there are as many as the limit. */
  ghost predicate Counts(newItems: nat, fetchable: nat, limit: nat) {
    if fetchable <= limit then newItems == fetchable else limit <= newItems
  }

  /** Of the items from the `n`th on, the ones owed are left unfinished. */
  lemma {:induction false} UnfinishedAre(items: seq<Id>, facts: Id -> Facts, linkOnly: bool, newItems: nat, limit: nat, n: nat)
    requires n <= |items| && Counts(newItems, |FetchableBefore(items, facts, linkOnly, n)|, limit)
    ensures forall x :: x in UnfinishedIn(items[n..], facts, linkOnly, newItems, limit) <==>
                        exists i :: n <= i < |items| && items[i] == x && Owes(items, facts, linkOnly, limit, i)
    decreases |items| - n
  {
    if n < |items| {
      var f := facts(items[n]);
      var more := newItems + if Fetchable(f, linkOnly) && (f.approved || newItems < limit) then 1 else 0;
      OneMoreFetchable(items, facts, linkOnly, n);
      OneSynced(items, facts, linkOnly, newItems, limit, n);
      UnfinishedAre(items, facts, linkOnly, more, limit, n + 1);
    }
  }

  /** What a sync leaves owed of what it paged is exactly that, and the next full sync pages it. */
  lemma OwedExactly(w: World, linkOnly: bool, limit: nat, facts: Id -> Facts, parentSaves: bool, i: nat)
    requires NothingBuried(w) && i < |Paged(w.collection, w.checkpoint)|
    ensures var items, now := Paged(w.collection, w.checkpoint), After(w, Sync(linkOnly, limit, facts, parentSaves));
      && (items[i] in now.owed <==> Owes(items, facts, linkOnly, limit, i) || (linkOnly && items[i] in w.owed))
      && (items[i] in now.owed ==> items[i] in Paged(now.collection, now.checkpoint))
  {
    var items := Paged(w.collection, w.checkpoint);
    var e := Sync(linkOnly, limit, facts, parentSaves);
    StepBuriesNothing(w, e);
    assert FetchableBefore(items, facts, linkOnly, 0) == {};
    assert items[0..] == items;
    UnfinishedAre(items, facts, linkOnly, 0, limit, 0);
    PagedIsPrefix(w.collection, w.checkpoint);
    assert forall j :: 0 <= j < |items| ==> items[j] == w.collection[j];
    assert forall j :: 0 <= j < |items| && items[j] == items[i] ==> j == i;
    assert items[i] in Elements(items);
    assert items[i] in UnfinishedIn(items, facts, linkOnly, 0, limit) <==> Owes(items, facts, linkOnly, limit, i);
  }

  /** A new purchase is paged by the next full sync, with everything it would have paged before. */
  lemma BoughtIsPaged(w: World, id: Id)
    requires NothingBuried(w) && id !in w.collection
    ensures var now := After(w, Buy(id));
      && now.owed == w.owed && now.checkpoint == w.checkpoint
      && Paged(now.collection, now.checkpoint) == [id] + Paged(w.collection, w.checkpoint)
  {
    assert ([id] + w.collection)[1..] == w.collection;
  }

  /** What is owed stays owed, and is paged, for as long as purchases are only made and linked. */
  lemma {:induction false} OwedUntilFullSync(w: World, events: seq<Event>, id: Id)
    requires NothingBuried(w) && id in w.owed
    requires forall e :: e in events ==> e.Buy? || e.linkOnly
    ensures var now := Run(w, events); id in now.owed && id in Paged(now.collection, now.checkpoint)
  {
    NoRunBuries(w, events);
    if events != [] {
      OwedUntilFullSync(w, events[..|events| - 1], id);
      assert events[|events| - 1] in events;
    }
  }

  /** No newer checkpoint would do: saving any purchase above the cut would bury one left unfinished, held or not. */
  lemma SavedIsNewestSafe(collection: seq<Id>, saved: Option<Id>, unfinished: set<Id>, j: nat)
    requires Distinct(collection) && j < Cut(Paged(collection, saved), unfinished)
    ensures var items := Paged(collection, saved);
      !(unfinished * Elements(items) <= Elements(Paged(collection, Some(items[j]))))
  {
    var items := Paged(collection, saved);
    PagedIsPrefix(collection, saved);
    var k := Cut(items, unfinished);
    assert items[j] == collection[j];
    PagedDownTo(collection, j);
    var owed := items[k - 1];
    assert owed in unfinished * Elements(items);
    assert owed == collection[k - 1] && owed !in collection[..j];
  }

  /** What a full sync saves is the first purchase past the cut; where nothing is past it, the checkpoint is held. */
  lemma SavedIsFirstSafe(collection: seq<Id>, saved: Option<Id>, unfinished: set<Id>)
    requires Distinct(collection)
    ensures var items := Paged(collection, saved);
      var cut := Cut(items, unfinished);
      NextCheckpoint(false, items, unfinished, saved, true) == if cut < |items| then Some(items[cut]) else saved
    ensures var items := Paged(collection, saved);
      var cut := Cut(items, unfinished);
      cut < |items| ==> unfinished * Elements(items) <= Elements(Paged(collection, Some(items[cut])))
  {
    var items := Paged(collection, saved);
    PagedIsPrefix(collection, saved);
    var cut := Cut(items, unfinished);
    if cut < |items| {
      assert items[cut] == collection[cut];
      PagedDownTo(collection, cut);
      forall x | x in unfinished * Elements(items) ensures x in collection[..cut] {
        var i :| 0 <= i < |items| && items[i] == x;
        assert i < cut && collection[i] == x;
      }
    }
  }

  /** The checkpoint never moves to an older purchase: what is above it only shrinks, but for new purchases. */
  lemma NeverOlder(w: World, linkOnly: bool, limit: nat, facts: Id -> Facts, parentSaves: bool)
    requires NothingBuried(w)
    ensures var now := After(w, Sync(linkOnly, limit, facts, parentSaves));
      && Paged(now.collection, now.checkpoint) <= Paged(w.collection, w.checkpoint)
      && (linkOnly ==> now.checkpoint == w.checkpoint)
  {
    var items := Paged(w.collection, w.checkpoint);
    UnfinishedWasPaged(items, facts, linkOnly, 0, limit);
    SavedBelowUnfinished(w.collection, w.checkpoint, UnfinishedIn(items, facts, linkOnly, 0, limit), linkOnly, parentSaves);
  }
}

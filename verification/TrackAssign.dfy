/**
 Which MusicBrainz track each file is: the ladder of identities that `assign` climbs, and what a confirmed
 release says over it.
 */
module TrackAssign {
  import opened Common

  // ----- identities and keys -----

  /** What a file, or a MusicBrainz track, says about which track it is. */
  datatype TrackIdentity = TrackIdentity(releaseTrackId: Option<string>, disc: Option<int>, track: Option<int>)

  datatype Rung = ByReleaseTrack | ByNumber

  datatype Key = Id(id: string) | Position(disc: int, track: int)

  /** A disc left out, or written as 0, is the first. */
  function DiscOr1(disc: Option<int>): int {
    if disc.None? || disc.value == 0 then 1 else disc.value
  }

  function KeyOf(rung: Rung, t: TrackIdentity): Option<Key> {
    match rung
    case ByReleaseTrack => if t.releaseTrackId.None? then None else Some(Id(t.releaseTrackId.value))
    case ByNumber => if t.track.None? then None else Some(Position(DiscOr1(t.disc), t.track.value))
  }

  function Keys(rung: Rung, ts: seq<TrackIdentity>): (keys: seq<Option<Key>>)
    ensures |keys| == |ts|
  {
    seq(|ts|, i requires 0 <= i < |ts| => KeyOf(rung, ts[i]))
  }

  /** Position `i` has a key, and no other position has the same. */
  ghost predicate Sole(keys: seq<Option<Key>>, i: nat)
    requires i < |keys|
  {
    keys[i].Some? && forall j :: 0 <= j < |keys| && keys[j] == keys[i] ==> j == i
  }

  /** File `i` and track `s` share a key that each side says once. */
  ghost predicate Names(fileKeys: seq<Option<Key>>, trackKeys: seq<Option<Key>>, i: nat, s: nat)
    requires i < |fileKeys|
  {
    s < |trackKeys| && Sole(fileKeys, i) && Sole(trackKeys, s) && fileKeys[i] == trackKeys[s]
  }

  ghost function Named(fileKeys: seq<Option<Key>>, trackKeys: seq<Option<Key>>, i: nat): (s: Option<nat>)
    requires i < |fileKeys|
    ensures s.Some? ==> Names(fileKeys, trackKeys, i, s.value)
    ensures s.None? ==> forall t: nat :: !Names(fileKeys, trackKeys, i, t)
  {
    if exists s: nat :: Names(fileKeys, trackKeys, i, s)
    then var s: nat :| Names(fileKeys, trackKeys, i, s); Some(s)
    else None
  }

  // ----- the ladder -----

  type Slots = seq<Option<nat>>

  ghost function Taken(out: Slots): set<nat> {
    set o | o in out && o.Some? :: o.value
  }

  /** One rung: each file not yet placed takes the track it names, unless a better rung gave that away. */
  ghost function Climbed(fileKeys: seq<Option<Key>>, trackKeys: seq<Option<Key>>, before: Slots): (out: Slots)
    requires |before| == |fileKeys|
    ensures |out| == |before|
  {
    seq(|before|, i requires 0 <= i < |before| =>
      if before[i].Some? then before[i]
      else if Named(fileKeys, trackKeys, i) in before then None
      else Named(fileKeys, trackKeys, i))
  }

  function Nowhere(n: nat): Slots {
    seq(n, _ => None)
  }

  ghost function ById(files: seq<TrackIdentity>, tracks: seq<TrackIdentity>): Slots {
    Climbed(Keys(ByReleaseTrack, files), Keys(ByReleaseTrack, tracks), Nowhere(|files|))
  }

  ghost function OnRungs(files: seq<TrackIdentity>, tracks: seq<TrackIdentity>): (out: Slots)
    ensures |out| == |files|
  {
    Climbed(Keys(ByNumber, files), Keys(ByNumber, tracks), ById(files, tracks))
  }

  /** The slots from `lo` on that nobody took, in order. */
  function Free(taken: set<nat>, lo: nat, n: nat): seq<nat>
    decreases n - lo
  {
    if lo >= n then [] else if lo in taken then Free(taken, lo + 1, n) else [lo] + Free(taken, lo + 1, n)
  }

  /** The files still without a slot take the free ones in turn. */
  function Filled(out: Slots, free: seq<nat>): (filled: Slots)
    ensures |filled| == |out|
  {
    if out == [] then []
    else if out[0].Some? then [out[0]] + Filled(out[1..], free)
    else if free == [] then [None] + Filled(out[1..], free)
    else [Some(free[0])] + Filled(out[1..], free[1..])
  }

  /** The whole ladder: release track ids, then disc and number, then file order. */
  ghost function Ladder(files: seq<TrackIdentity>, tracks: seq<TrackIdentity>): (out: Slots)
    ensures |out| == |files|
  {
    var placed := OnRungs(files, tracks);
    Filled(placed, Free(Taken(placed), 0, |tracks|))
  }

  // ----- the loops that climb it -----

  lemma SplitCount(keys: seq<Option<Key>>, i: nat)
    requires i < |keys|
    ensures multiset(keys)[keys[i]] == multiset(keys[..i])[keys[i]] + 1 + multiset(keys[i + 1..])[keys[i]]
  {
    assert keys == keys[..i] + [keys[i]] + keys[i + 1..];
  }

  lemma CountedOnceIsSole(keys: seq<Option<Key>>, i: nat)
    requires i < |keys| && keys[i].Some?
    ensures multiset(keys)[keys[i]] == 1 <==> Sole(keys, i)
  {
    SplitCount(keys, i);
    if Sole(keys, i) {
      assert keys[i] !in keys[..i] && keys[i] !in keys[i + 1..];
    } else {
      var j :| 0 <= j < |keys| && keys[j] == keys[i] && j != i;
      if j < i {
        assert keys[..i][j] == keys[i];
        assert keys[i] in multiset(keys[..i]);
      } else {
        assert keys[i + 1..][j - i - 1] == keys[i];
        assert keys[i] in multiset(keys[i + 1..]);
      }
    }
  }

  /** How many times each key is said. */
  method Tally(keys: seq<Option<Key>>) returns (counts: map<Key, nat>)
    ensures forall k :: k in counts <==> Some(k) in keys
    ensures forall k :: k in counts ==> counts[k] == multiset(keys)[Some(k)]
  {
    counts := map[];
    for i := 0 to |keys|
      invariant forall k :: k in counts <==> Some(k) in keys[..i]
      invariant forall k :: k in counts ==> counts[k] == multiset(keys[..i])[Some(k)]
    {
      assert keys[..i + 1] == keys[..i] + [keys[i]];
      match keys[i]
      case None =>
      case Some(k) => counts := counts[k := (if k in counts then counts[k] else 0) + 1];
    }
    assert keys[..|keys|] == keys;
  }

  /** MusicBrainz's side of one rung, keeping only the keys it says once. */
  method UniqueSlots(keys: seq<Option<Key>>) returns (slots: map<Key, nat>)
    ensures forall k :: k in slots ==> slots[k] < |keys| && Sole(keys, slots[k]) && keys[slots[k]] == Some(k)
    ensures forall i :: 0 <= i < |keys| && Sole(keys, i) ==> keys[i].value in slots && slots[keys[i].value] == i
  {
    var counts := Tally(keys);
    slots := map[];
    for i := 0 to |keys|
      invariant forall k :: k in slots ==> slots[k] < i && Sole(keys, slots[k]) && keys[slots[k]] == Some(k)
      invariant forall j :: 0 <= j < i && Sole(keys, j) ==> keys[j].value in slots && slots[keys[j].value] == j
    {
      if keys[i].Some? {
        CountedOnceIsSole(keys, i);
        if counts[keys[i].value] == 1 {
          slots := slots[keys[i].value := i];
        }
      }
    }
  }

  lemma NamesOnlyOne(fileKeys: seq<Option<Key>>, trackKeys: seq<Option<Key>>, i: nat, s: nat)
    requires i < |fileKeys| && Names(fileKeys, trackKeys, i, s)
    ensures Named(fileKeys, trackKeys, i) == Some(s)
  {
    var t := Named(fileKeys, trackKeys, i).value;
    assert trackKeys[t] == trackKeys[s];
  }

  /** No two files name one track. */
  lemma NamedApart(fileKeys: seq<Option<Key>>, trackKeys: seq<Option<Key>>, i: nat, j: nat)
    requires i < |fileKeys| && j < |fileKeys| && i != j
    requires Named(fileKeys, trackKeys, i).Some?
    ensures Named(fileKeys, trackKeys, i) != Named(fileKeys, trackKeys, j)
  {
    var s := Named(fileKeys, trackKeys, i).value;
    assert Names(fileKeys, trackKeys, i, s);
    assert fileKeys[j] != fileKeys[i];
  }

  /** One turn of the loop over the rungs. */
  method Climb(fileKeys: seq<Option<Key>>, trackKeys: seq<Option<Key>>, before: Slots, alreadyTaken: set<nat>)
    returns (out: Slots, taken: set<nat>)
    requires |before| == |fileKeys| && alreadyTaken == Taken(before)
    ensures out == Climbed(fileKeys, trackKeys, before)
    ensures taken == Taken(out)
  {
    ghost var goal := Climbed(fileKeys, trackKeys, before);
    var slotOf := UniqueSlots(trackKeys);
    var claims := Tally(fileKeys);
    out, taken := before, alreadyTaken;
    for i := 0 to |fileKeys|
      invariant |out| == |before|
      invariant forall j :: 0 <= j < i ==> out[j] == goal[j]
      invariant forall j :: i <= j < |out| ==> out[j] == before[j]
      invariant taken == Taken(out)
    {
      ghost var was := out;
      if out[i].None? && fileKeys[i].Some? {
        var key := fileKeys[i].value;
        CountedOnceIsSole(fileKeys, i);
        if claims[key] == 1 && key in slotOf {
          var slot := slotOf[key];
          NamesOnlyOne(fileKeys, trackKeys, i, slot);
          TakenSoFar(fileKeys, trackKeys, before, out, i);
          if slot !in taken {
            out := out[i := Some(slot)];
            taken := taken + {slot};
            TakenGrows(was, i, slot);
          }
        } else {
          NamesNothing(fileKeys, trackKeys, i);
        }
      } else if out[i].None? {
        NamesNothing(fileKeys, trackKeys, i);
      }
    }
  }

  lemma NamesNothing(fileKeys: seq<Option<Key>>, trackKeys: seq<Option<Key>>, i: nat)
    requires i < |fileKeys|
    requires forall s: nat :: !Names(fileKeys, trackKeys, i, s)
    ensures Named(fileKeys, trackKeys, i) == None
  {
  }

  lemma TakenGrows(out: Slots, i: nat, slot: nat)
    requires i < |out| && out[i].None?
    ensures Taken(out[i := Some(slot)]) == Taken(out) + {slot}
  {
    var out' := out[i := Some(slot)];
    assert forall j :: 0 <= j < |out| && j != i ==> out'[j] == out[j];
    assert out'[i] == Some(slot);
    forall s | s in Taken(out) ensures Some(s) in out' {
      var j :| 0 <= j < |out| && out[j] == Some(s);
      assert out'[j] == Some(s);
    }
  }

  /** What this rung has given away so far is nothing file `i` names: only the rungs above can deny it. */
  lemma TakenSoFar(fileKeys: seq<Option<Key>>, trackKeys: seq<Option<Key>>, before: Slots, out: Slots, i: nat)
    requires |before| == |fileKeys| == |out| && i < |out|
    requires forall j :: 0 <= j < i ==> out[j] == Climbed(fileKeys, trackKeys, before)[j]
    requires forall j :: i <= j < |out| ==> out[j] == before[j]
    requires Named(fileKeys, trackKeys, i).Some?
    ensures Named(fileKeys, trackKeys, i) in out <==> Named(fileKeys, trackKeys, i) in before
  {
    var n := Named(fileKeys, trackKeys, i);
    if n in out {
      var j :| 0 <= j < |out| && out[j] == n;
      if j < i && before[j].None? {
        NamedApart(fileKeys, trackKeys, i, j);
      }
      assert before[j] == n;
    }
    if n in before {
      var j :| 0 <= j < |before| && before[j] == n;
      assert out[j] == n;
    }
  }

  method Assign(files: seq<TrackIdentity>, tracks: seq<TrackIdentity>) returns (out: Slots)
    ensures out == Ladder(files, tracks)
  {
    var nowhere := Nowhere(|files|);
    var byId, taken := Climb(Keys(ByReleaseTrack, files), Keys(ByReleaseTrack, tracks), nowhere, {});
    out, taken := Climb(Keys(ByNumber, files), Keys(ByNumber, tracks), byId, taken);
    out := FillIn(out, Free(taken, 0, |tracks|));
  }

  lemma FilledStep(out: Slots, i: nat, free: seq<nat>)
    requires i < |out|
    ensures out[i].None? && free != [] ==> Filled(out[i..], free) == [Some(free[0])] + Filled(out[i + 1..], free[1..])
    ensures !(out[i].None? && free != []) ==> Filled(out[i..], free) == [out[i]] + Filled(out[i + 1..], free)
  {
    var rest := out[i..];
    assert rest[0] == out[i] && rest[1..] == out[i + 1..];
  }

  /** The last loop of the ladder: file order, for whatever is left. */
  method FillIn(placed: Slots, slots: seq<nat>) returns (out: Slots)
    ensures out == Filled(placed, slots)
  {
    out := placed;
    var free := slots;
    ghost var goal := Filled(placed, slots);
    assert placed[0..] == placed && goal[0..] == goal;
    for i := 0 to |placed|
      invariant |out| == |placed|
      invariant forall k :: 0 <= k < i ==> out[k] == goal[k]
      invariant forall k :: i <= k < |out| ==> out[k] == placed[k]
      invariant goal[i..] == Filled(placed[i..], free)
    {
      FilledStep(placed, i, free);
      assert goal[i] == goal[i..][0] && goal[i + 1..] == goal[i..][1..];
      if out[i].None? && free != [] {
        out, free := out[i := Some(free[0])], free[1..];
      }
    }
  }

  // ----- what the ladder guarantees -----

  ghost predicate Injective(out: Slots) {
    forall i, j :: 0 <= i < j < |out| && out[i].Some? ==> out[i] != out[j]
  }

  ghost predicate InRange(out: Slots, n: nat) {
    forall i :: 0 <= i < |out| && out[i].Some? ==> out[i].value < n
  }

  function Placed(out: Slots): nat {
    if out == [] then 0 else (if out[0].Some? then 1 else 0) + Placed(out[1..])
  }

  lemma ClimbedKeeps(fileKeys: seq<Option<Key>>, trackKeys: seq<Option<Key>>, before: Slots)
    requires |before| == |fileKeys| && Injective(before) && InRange(before, |trackKeys|)
    ensures Injective(Climbed(fileKeys, trackKeys, before))
    ensures InRange(Climbed(fileKeys, trackKeys, before), |trackKeys|)
  {
    var out := Climbed(fileKeys, trackKeys, before);
    forall i, j | 0 <= i < j < |out| && out[i].Some?
      ensures out[i] != out[j]
    {
      if before[i].None? && before[j].None? {
        NamedApart(fileKeys, trackKeys, i, j);
      }
    }
  }

  lemma RungsKeep(files: seq<TrackIdentity>, tracks: seq<TrackIdentity>)
    ensures Injective(OnRungs(files, tracks)) && InRange(OnRungs(files, tracks), |tracks|)
  {
    ClimbedKeeps(Keys(ByReleaseTrack, files), Keys(ByReleaseTrack, tracks), Nowhere(|files|));
    ClimbedKeeps(Keys(ByNumber, files), Keys(ByNumber, tracks), ById(files, tracks));
  }

  ghost predicate Ascending(free: seq<nat>) {
    forall i, j :: 0 <= i < j < |free| ==> free[i] < free[j]
  }

  lemma {:induction false} FreeIsTheRest(taken: set<nat>, lo: nat, n: nat)
    ensures forall s: nat :: s in Free(taken, lo, n) <==> lo <= s < n && s !in taken
    decreases n - lo
  {
    if lo < n {
      FreeIsTheRest(taken, lo + 1, n);
    }
  }

  lemma {:induction false} FreeAscends(taken: set<nat>, lo: nat, n: nat)
    ensures Ascending(Free(taken, lo, n))
    decreases n - lo
  {
    if lo < n {
      FreeAscends(taken, lo + 1, n);
      FreeIsTheRest(taken, lo + 1, n);
      var rest := Free(taken, lo + 1, n);
      forall k | 0 <= k < |rest| ensures lo < rest[k] {
        assert rest[k] in rest;
      }
    }
  }

  /** The files left over take the free slots in order: a later file never gets an earlier one. */
  lemma {:induction false} FilledAt(out: Slots, free: seq<nat>, i: nat)
    requires i < |out|
    ensures out[i].Some? ==> Filled(out, free)[i] == out[i]
    ensures Placed(out[..i]) <= i
    ensures out[i].None? ==> Filled(out, free)[i] == var k := i - Placed(out[..i]); if k < |free| then Some(free[k]) else None
  {
    if i == 0 {
      assert out[..0] == [];
    } else {
      var rest := if out[0].Some? || free == [] then free else free[1..];
      FilledAt(out[1..], rest, i - 1);
      assert out[..i][1..] == out[1..][..i - 1];
      assert Placed(out[..i]) == (if out[0].Some? then 1 else 0) + Placed(out[1..][..i - 1]);
    }
  }

  lemma {:induction false} PlacedGrows(out: Slots, i: nat, j: nat)
    requires i <= j <= |out|
    ensures Placed(out[..i]) <= Placed(out[..j])
    ensures Placed(out[..j]) - Placed(out[..i]) <= j - i
    ensures i < j && out[i].None? ==> Placed(out[..j]) - Placed(out[..i]) < j - i
    decreases j - i
  {
    if i < j {
      PlacedGrows(out, i + 1, j);
      PlacedLast(out[..i + 1]);
      assert out[..i + 1][..i] == out[..i];
    }
  }

  lemma {:induction false} PlacedLast(out: Slots)
    requires out != []
    ensures Placed(out) == Placed(out[..|out| - 1]) + if out[|out| - 1].Some? then 1 else 0
  {
    if |out| > 1 {
      PlacedLast(out[1..]);
      assert out[1..][..|out| - 2] == out[..|out| - 1][1..];
    }
  }

  /** Leftover files in order: the earlier file of two takes the lower slot, and is the last to go without. */
  lemma LeftoversInOrder(files: seq<TrackIdentity>, tracks: seq<TrackIdentity>, i: nat, j: nat)
    requires i < j < |files| && OnRungs(files, tracks)[i].None? && OnRungs(files, tracks)[j].None?
    ensures Ladder(files, tracks)[j].Some? ==> Ladder(files, tracks)[i].Some?
    ensures Ladder(files, tracks)[j].Some? ==> Ladder(files, tracks)[i].value < Ladder(files, tracks)[j].value
  {
    var placed := OnRungs(files, tracks);
    var free := Free(Taken(placed), 0, |tracks|);
    FreeIsTheRest(Taken(placed), 0, |tracks|);
    FreeAscends(Taken(placed), 0, |tracks|);
    FilledAt(placed, free, i);
    FilledAt(placed, free, j);
    PlacedGrows(placed, i, j);
  }

  lemma FilledApart(out: Slots, free: seq<nat>, i: nat, j: nat)
    requires i < j < |out| && Injective(out) && Ascending(free)
    requires forall s :: s in free ==> s !in Taken(out)
    requires Filled(out, free)[i].Some?
    ensures Filled(out, free)[i] != Filled(out, free)[j]
  {
    FilledAt(out, free, i);
    FilledAt(out, free, j);
    PlacedGrows(out, i, j);
    if out[i].Some? && out[j].None? && Filled(out, free)[j].Some? {
      assert out[i] in out && out[i].value in Taken(out);
    } else if out[i].None? && out[j].Some? {
      assert out[j] in out && out[j].value in Taken(out);
    }
  }

  /** Every slot given is a track of the release, and no track is given to two files. */
  lemma LadderIsAnInjection(files: seq<TrackIdentity>, tracks: seq<TrackIdentity>)
    ensures Injective(Ladder(files, tracks)) && InRange(Ladder(files, tracks), |tracks|)
  {
    var placed := OnRungs(files, tracks);
    var free := Free(Taken(placed), 0, |tracks|);
    RungsKeep(files, tracks);
    FreeIsTheRest(Taken(placed), 0, |tracks|);
    FreeAscends(Taken(placed), 0, |tracks|);
    forall i, j | 0 <= i < j < |files| && Ladder(files, tracks)[i].Some?
      ensures Ladder(files, tracks)[i] != Ladder(files, tracks)[j]
    {
      FilledApart(placed, free, i, j);
    }
    forall i | 0 <= i < |files| && Ladder(files, tracks)[i].Some?
      ensures Ladder(files, tracks)[i].value < |tracks|
    {
      FilledAt(placed, free, i);
      if placed[i].None? {
        assert Ladder(files, tracks)[i].value in free;
      }
    }
  }

  lemma {:induction false} FilledCount(out: Slots, free: seq<nat>)
    ensures Placed(Filled(out, free)) == if |free| < |out| - Placed(out) then Placed(out) + |free| else |out|
    ensures Placed(out) <= |out|
  {
    if out != [] {
      var rest := if out[0].Some? || free == [] then free else free[1..];
      FilledCount(out[1..], rest);
      assert Filled(out, free)[1..] == Filled(out[1..], rest);
    }
  }

  lemma {:induction false} TakenCount(out: Slots)
    requires Injective(out)
    ensures |Taken(out)| == Placed(out)
  {
    if out != [] {
      var rest := out[1..];
      assert forall i :: 0 <= i < |rest| ==> rest[i] == out[i + 1];
      TakenCount(rest);
      assert out == [out[0]] + rest;
      if out[0].Some? {
        assert Taken(out) == Taken(rest) + {out[0].value};
        assert out[0].value !in Taken(rest);
      } else {
        assert Taken(out) == Taken(rest);
      }
    }
  }

  lemma {:induction false} FreeCount(taken: set<nat>, lo: nat, n: nat)
    requires lo <= n && forall s :: s in taken ==> lo <= s < n
    ensures |Free(taken, lo, n)| == n - lo - |taken|
    decreases n - lo
  {
    if lo == n {
      assert taken == {};
    } else {
      FreeCount(taken - {lo}, lo + 1, n);
      FreeIgnores(taken, lo, lo + 1, n);
    }
  }

  lemma {:induction false} FreeIgnores(taken: set<nat>, gone: nat, lo: nat, n: nat)
    requires gone < lo
    ensures Free(taken - {gone}, lo, n) == Free(taken, lo, n)
    decreases n - lo
  {
    if lo < n {
      FreeIgnores(taken, gone, lo + 1, n);
    }
  }

  /** As many files are placed as there can be: every file, or every track, whichever runs out first. */
  lemma LadderIsMaximal(files: seq<TrackIdentity>, tracks: seq<TrackIdentity>)
    ensures Placed(Ladder(files, tracks)) == if |files| < |tracks| then |files| else |tracks|
  {
    var placed := OnRungs(files, tracks);
    RungsKeep(files, tracks);
    TakenCount(placed);
    forall s | s in Taken(placed) ensures s < |tracks| {
      var i :| 0 <= i < |placed| && placed[i] == Some(s);
    }
    FreeCount(Taken(placed), 0, |tracks|);
    FilledCount(placed, Free(Taken(placed), 0, |tracks|));
  }

  /** A release track id that both sides say once always decides. */
  lemma SharedIdDecides(files: seq<TrackIdentity>, tracks: seq<TrackIdentity>, i: nat, s: nat)
    requires i < |files| && Names(Keys(ByReleaseTrack, files), Keys(ByReleaseTrack, tracks), i, s)
    ensures Ladder(files, tracks)[i] == Some(s)
  {
    NamesOnlyOne(Keys(ByReleaseTrack, files), Keys(ByReleaseTrack, tracks), i, s);
    FilledAt(OnRungs(files, tracks), Free(Taken(OnRungs(files, tracks)), 0, |tracks|), i);
  }

  /** Failing that, a disc and number both sides say once does, unless an id has already given the track away. */
  lemma SharedNumberDecides(files: seq<TrackIdentity>, tracks: seq<TrackIdentity>, i: nat, s: nat)
    requires i < |files| && Names(Keys(ByNumber, files), Keys(ByNumber, tracks), i, s)
    requires forall j, t :: 0 <= j < |files| && Names(Keys(ByReleaseTrack, files), Keys(ByReleaseTrack, tracks), j, t)
               ==> j != i && t != s
    ensures Ladder(files, tracks)[i] == Some(s)
  {
    NamesOnlyOne(Keys(ByNumber, files), Keys(ByNumber, tracks), i, s);
    var byId := ById(files, tracks);
    assert byId[i].None?;
    forall j | 0 <= j < |byId| ensures byId[j] != Some(s) {
    }
    FilledAt(OnRungs(files, tracks), Free(Taken(OnRungs(files, tracks)), 0, |tracks|), i);
  }

  lemma {:induction false} FreeFrom(lo: nat, n: nat, k: nat)
    requires k < n - lo
    ensures k < |Free({}, lo, n)| && Free({}, lo, n)[k] == lo + k
    ensures |Free({}, lo, n)| == n - lo
    decreases n - lo
  {
    if lo + 1 < n {
      FreeFrom(lo + 1, n, if k == 0 then 0 else k - 1);
    }
  }

  lemma {:induction false} NowherePlacesNone(out: Slots)
    requires forall i :: 0 <= i < |out| ==> out[i].None?
    ensures Placed(out) == 0
  {
    if out != [] {
      NowherePlacesNone(out[1..]);
    }
  }

  /** An album whose files say nothing is paired by position. */
  lemma SilentFilesPairByPosition(files: seq<TrackIdentity>, tracks: seq<TrackIdentity>, i: nat)
    requires i < |files|
    requires forall j :: 0 <= j < |files| ==> files[j].releaseTrackId.None? && files[j].track.None?
    ensures Ladder(files, tracks)[i] == if i < |tracks| then Some(i) else None
  {
    var placed := OnRungs(files, tracks);
    assert forall j :: 0 <= j < |files| ==> placed[j].None?;
    assert Taken(placed) == {};
    FilledAt(placed, Free({}, 0, |tracks|), i);
    NowherePlacesNone(placed[..i]);
    if i < |tracks| {
      FreeFrom(0, |tracks|, i);
    } else if |tracks| > 0 {
      FreeFrom(0, |tracks|, 0);
    }
  }

  // ----- what a confirmed release says over the ladder -----

  /** One file's tags, as far as they say which track it is. A file nobody could read says nothing. */
  datatype File =
    | Unreadable
    | Readable(video: bool, albumId: Option<string>, releaseTrackId: Option<string>, recordingId: Option<string>,
               disc: Option<int>, track: Option<int>)

  function IdentityOf(f: File): TrackIdentity {
    match f
    case Unreadable => TrackIdentity(None, None, None)
    case Readable(_, _, id, _, disc, track) => TrackIdentity(id, disc, track)
  }

  function Identities(files: seq<File>): (ids: seq<TrackIdentity>)
    ensures |ids| == |files|
  {
    seq(|files|, i requires 0 <= i < |files| => IdentityOf(files[i]))
  }

  predicate Says(id: Option<string>) {
    id.Some? && id.value != ""
  }

  /** The file belongs to the release its album was confirmed as, so its ids are decisions. */
  predicate Decided(f: File, confirmed: Option<string>) {
    Says(confirmed) && f.Readable? && !f.video && f.albumId == confirmed
  }

  ghost function Reviewed(files: seq<File>, tracks: seq<TrackIdentity>, confirmed: Option<string>): (out: Slots)
    ensures |out| == |files|
  {
    var ids := Identities(files);
    seq(|files|, i requires 0 <= i < |files| =>
      if !Decided(files[i], confirmed) then Ladder(ids, tracks)[i]
      else if Says(files[i].releaseTrackId) then Named(Keys(ByReleaseTrack, ids), Keys(ByReleaseTrack, tracks), i)
      else if !Says(files[i].recordingId) then None
      else Ladder(ids, tracks)[i])
  }

  method IndexOf(keys: seq<Option<Key>>, key: Option<Key>) returns (i: nat)
    requires key in keys
    ensures i < |keys| && keys[i] == key && key !in keys[..i]
  {
    i := 0;
    while keys[i] != key
      invariant i < |keys| && key !in keys[..i]
      decreases |keys| - i
    {
      i := i + 1;
    }
  }

  /** Each file's final slot: the ladder's, gone over by what a confirmed release's files say. */
  method ReviewSlots(files: seq<File>, tracks: seq<TrackIdentity>, confirmed: Option<string>) returns (slots: Slots)
    ensures slots == Reviewed(files, tracks, confirmed)
  {
    var ids := Identities(files);
    slots := Assign(ids, tracks);
    ghost var ladder := slots;
    if !Says(confirmed) {
      return;
    }
    var trackIds, diskIds := Keys(ByReleaseTrack, tracks), Keys(ByReleaseTrack, ids);
    for i := 0 to |files|
      invariant |slots| == |files|
      invariant forall j :: 0 <= j < i ==> slots[j] == Reviewed(files, tracks, confirmed)[j]
      invariant forall j :: i <= j < |files| ==> slots[j] == ladder[j]
    {
      if Decided(files[i], confirmed) {
        if Says(files[i].releaseTrackId) {
          CountedOnceIsSole(diskIds, i);
          if multiset(trackIds)[diskIds[i]] == 1 && multiset(diskIds)[diskIds[i]] == 1 {
            var s := IndexOf(trackIds, diskIds[i]);
            CountedOnceIsSole(trackIds, s);
            NamesOnlyOne(diskIds, trackIds, i, s);
            slots := slots[i := Some(s)];
          } else {
            NotNamedUnlessCountedOnce(diskIds, trackIds, i);
            slots := slots[i := None];
          }
        } else if !Says(files[i].recordingId) {
          slots := slots[i := None];
        }
      }
    }
  }

  lemma NotNamedUnlessCountedOnce(fileKeys: seq<Option<Key>>, trackKeys: seq<Option<Key>>, i: nat)
    requires i < |fileKeys| && fileKeys[i].Some?
    requires !(multiset(trackKeys)[fileKeys[i]] == 1 && multiset(fileKeys)[fileKeys[i]] == 1)
    ensures Named(fileKeys, trackKeys, i) == None
  {
    CountedOnceIsSole(fileKeys, i);
    forall s: nat ensures !Names(fileKeys, trackKeys, i, s) {
      if s < |trackKeys| && trackKeys[s] == fileKeys[i] {
        CountedOnceIsSole(trackKeys, s);
      }
    }
  }

  /** The review moves no file to a track the ladder had not given it: it can only confirm a slot or clear it. */
  lemma ReviewConfirmsOrClears(files: seq<File>, tracks: seq<TrackIdentity>, confirmed: Option<string>, i: nat)
    requires i < |files|
    ensures Reviewed(files, tracks, confirmed)[i] in {None, Ladder(Identities(files), tracks)[i]}
  {
    var ids := Identities(files);
    var named := Named(Keys(ByReleaseTrack, ids), Keys(ByReleaseTrack, tracks), i);
    if named.Some? {
      SharedIdDecides(ids, tracks, i, named.value);
    }
  }

  lemma ReviewIsAnInjection(files: seq<File>, tracks: seq<TrackIdentity>, confirmed: Option<string>)
    ensures Injective(Reviewed(files, tracks, confirmed)) && InRange(Reviewed(files, tracks, confirmed), |tracks|)
  {
    LadderIsAnInjection(Identities(files), tracks);
    forall i | 0 <= i < |files|
      ensures Reviewed(files, tracks, confirmed)[i] in {None, Ladder(Identities(files), tracks)[i]}
    {
      ReviewConfirmsOrClears(files, tracks, confirmed, i);
    }
  }

  /** The positions of the files with no slot, in file order. */
  function Unplaced(slots: Slots, i: nat): (rest: seq<nat>)
    requires i <= |slots|
    decreases |slots| - i
  {
    if i == |slots| then []
    else if slots[i].None? then [i] + Unplaced(slots, i + 1)
    else Unplaced(slots, i + 1)
  }

  /** `placed` holds exactly the files with a slot, each under its own. */
  ghost predicate HoldsPlaced(placed: map<nat, nat>, slots: Slots) {
    && (forall s :: s in placed ==> placed[s] < |slots| && slots[placed[s]] == Some(s))
    && (forall i :: 0 <= i < |slots| && slots[i].Some? ==> slots[i].value in placed && placed[slots[i].value] == i)
  }

  /** Files under the tracks they are, and the files that are none. A file is named here by its position. */
  method AssignFiles(files: seq<File>, tracks: seq<TrackIdentity>, confirmed: Option<string>)
    returns (placed: map<nat, nat>, leftover: seq<nat>)
    ensures HoldsPlaced(placed, Reviewed(files, tracks, confirmed))
    ensures leftover == Unplaced(Reviewed(files, tracks, confirmed), 0)
    ensures forall s :: s in placed ==> s < |tracks|
  {
    var slots := ReviewSlots(files, tracks, confirmed);
    ReviewIsAnInjection(files, tracks, confirmed);
    placed, leftover := Divide(slots);
  }

  method Divide(slots: Slots) returns (placed: map<nat, nat>, leftover: seq<nat>)
    requires Injective(slots)
    ensures HoldsPlaced(placed, slots) && leftover == Unplaced(slots, 0)
  {
    placed, leftover := map[], [];
    for i := 0 to |slots|
      invariant forall s :: s in placed ==> placed[s] < i && slots[placed[s]] == Some(s)
      invariant forall j :: 0 <= j < i && slots[j].Some? ==> slots[j].value in placed && placed[slots[j].value] == j
      invariant leftover + Unplaced(slots, i) == Unplaced(slots, 0)
    {
      match slots[i]
      case None => leftover := leftover + [i];
      case Some(s) => placed := placed[s := i];
    }
  }

  lemma {:induction false} UnplacedAre(slots: Slots, i: nat)
    requires i <= |slots|
    ensures forall k :: k in Unplaced(slots, i) <==> i <= k < |slots| && slots[k].None?
    ensures Distinct(Unplaced(slots, i))
    decreases |slots| - i
  {
    if i < |slots| {
      UnplacedAre(slots, i + 1);
      var rest := Unplaced(slots, i + 1);
      assert forall k :: 0 <= k < |rest| ==> rest[k] in rest;
    }
  }

  /** No file is lost: each is under exactly one track, or among the leftovers exactly once, and never both. */
  lemma NoFileIsLost(slots: Slots, placed: map<nat, nat>, i: nat)
    requires i < |slots| && HoldsPlaced(placed, slots)
    ensures (exists s :: s in placed && placed[s] == i) <==> i !in Unplaced(slots, 0)
    ensures forall s, t :: s in placed && t in placed && placed[s] == placed[t] ==> s == t
    ensures Distinct(Unplaced(slots, 0))
  {
    UnplacedAre(slots, 0);
    if slots[i].Some? {
      assert slots[i].value in placed && placed[slots[i].value] == i;
    }
  }

  /**
   What a confirmed release's own files say is final: an id both sides say once is the file's track, any other id
   is no track of this release, and a file with no id at all was left unassigned on purpose.
   */
  lemma ConfirmedFilesAreTakenAtTheirWord(files: seq<File>, tracks: seq<TrackIdentity>, confirmed: Option<string>, i: nat)
    requires i < |files| && Decided(files[i], confirmed)
    requires Says(files[i].releaseTrackId) || !Says(files[i].recordingId)
    ensures match Reviewed(files, tracks, confirmed)[i]
            case None => true
            case Some(s) => s < |tracks| && files[i].releaseTrackId.Some? && tracks[s].releaseTrackId == files[i].releaseTrackId
  {
    var ids := Identities(files);
    var named := Named(Keys(ByReleaseTrack, ids), Keys(ByReleaseTrack, tracks), i);
    if named.Some? {
      assert Keys(ByReleaseTrack, ids)[i] == Keys(ByReleaseTrack, tracks)[named.value];
    }
  }
}

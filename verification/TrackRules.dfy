/** Which track each file is, said of the ids and numbers alone. */
module TrackRules {
  import opened Common
  import opened TrackAssign

  // ----- the two identities -----

  /** File and track have the same release track id, and no other file or track has it. */
  ghost predicate SharesId(files: seq<TrackIdentity>, tracks: seq<TrackIdentity>, i: nat, s: nat) {
    && i < |files| && s < |tracks|
    && files[i].releaseTrackId.Some? && tracks[s].releaseTrackId == files[i].releaseTrackId
    && (forall j :: 0 <= j < |files| && files[j].releaseTrackId == files[i].releaseTrackId ==> j == i)
    && (forall t :: 0 <= t < |tracks| && tracks[t].releaseTrackId == files[i].releaseTrackId ==> t == s)
  }

  /** A disc that is not said, or said to be 0, is the first. */
  ghost predicate SameDisc(x: Option<int>, y: Option<int>) {
    || x == y
    || (x in {None, Some(0), Some(1)} && y in {None, Some(0), Some(1)})
  }

  ghost predicate SameNumber(x: TrackIdentity, y: TrackIdentity) {
    x.track.Some? && y.track == x.track && SameDisc(x.disc, y.disc)
  }

  /** File and track have the same number on the same disc, and no other file or track has it. */
  ghost predicate SharesNumber(files: seq<TrackIdentity>, tracks: seq<TrackIdentity>, i: nat, s: nat) {
    && i < |files| && s < |tracks| && SameNumber(files[i], tracks[s])
    && (forall j :: 0 <= j < |files| && SameNumber(files[i], files[j]) ==> j == i)
    && (forall t :: 0 <= t < |tracks| && SameNumber(files[i], tracks[t]) ==> t == s)
  }

  /** The track a file says it is: by its id, or else by a number that no other file's id has taken. */
  ghost predicate SaysItIs(files: seq<TrackIdentity>, tracks: seq<TrackIdentity>, i: nat, s: nat) {
    || SharesId(files, tracks, i, s)
    || (SharesNumber(files, tracks, i, s)
        && (forall t :: !SharesId(files, tracks, i, t)) && (forall j :: !SharesId(files, tracks, j, s)))
  }

  lemma NamesById(files: seq<TrackIdentity>, tracks: seq<TrackIdentity>, i: nat, s: nat)
    requires i < |files|
    ensures Names(Keys(ByReleaseTrack, files), Keys(ByReleaseTrack, tracks), i, s) <==> SharesId(files, tracks, i, s)
  {
    var f, t := Keys(ByReleaseTrack, files), Keys(ByReleaseTrack, tracks);
    forall j | 0 <= j < |files| ensures files[i].releaseTrackId.Some? ==> (f[j] == f[i] <==> files[j].releaseTrackId == files[i].releaseTrackId) {
    }
    forall u | 0 <= u < |tracks| ensures files[i].releaseTrackId.Some? ==> (t[u] == f[i] <==> tracks[u].releaseTrackId == files[i].releaseTrackId) {
    }
  }

  lemma SameNumberIsOneKey(x: TrackIdentity, y: TrackIdentity)
    ensures SameNumber(x, y) <==> KeyOf(ByNumber, x).Some? && KeyOf(ByNumber, y) == KeyOf(ByNumber, x)
  {
  }

  lemma NamesByNumber(files: seq<TrackIdentity>, tracks: seq<TrackIdentity>, i: nat, s: nat)
    requires i < |files|
    ensures Names(Keys(ByNumber, files), Keys(ByNumber, tracks), i, s) <==> SharesNumber(files, tracks, i, s)
  {
    var f, t := Keys(ByNumber, files), Keys(ByNumber, tracks);
    forall j | 0 <= j < |files| ensures SameNumber(files[i], files[j]) <==> f[i].Some? && f[j] == f[i] {
      SameNumberIsOneKey(files[i], files[j]);
    }
    forall u | 0 <= u < |tracks| ensures SameNumber(files[i], tracks[u]) <==> f[i].Some? && t[u] == f[i] {
      SameNumberIsOneKey(files[i], tracks[u]);
    }
  }

  lemma OneName(fileKeys: seq<Option<Key>>, trackKeys: seq<Option<Key>>, i: nat, s: nat)
    requires i < |fileKeys|
    ensures Named(fileKeys, trackKeys, i) == Some(s) <==> Names(fileKeys, trackKeys, i, s)
  {
    if Names(fileKeys, trackKeys, i, s) {
      NamesOnlyOne(fileKeys, trackKeys, i, s);
    }
  }

  lemma ByIdIs(files: seq<TrackIdentity>, tracks: seq<TrackIdentity>, i: nat, s: nat)
    requires i < |files|
    ensures ById(files, tracks)[i] == Some(s) <==> SharesId(files, tracks, i, s)
  {
    OneName(Keys(ByReleaseTrack, files), Keys(ByReleaseTrack, tracks), i, s);
    NamesById(files, tracks, i, s);
    var named := Named(Keys(ByReleaseTrack, files), Keys(ByReleaseTrack, tracks), i);
    assert named !in Nowhere(|files|) || named.None?;
  }

  lemma OnRungsIs(files: seq<TrackIdentity>, tracks: seq<TrackIdentity>, i: nat, s: nat)
    requires i < |files|
    ensures OnRungs(files, tracks)[i] == Some(s) <==> SaysItIs(files, tracks, i, s)
  {
    var byId := ById(files, tracks);
    ByIdIs(files, tracks, i, s);
    OneName(Keys(ByNumber, files), Keys(ByNumber, tracks), i, s);
    NamesByNumber(files, tracks, i, s);
    assert byId[i].None? <==> forall t :: !SharesId(files, tracks, i, t) by {
      if byId[i].Some? {
        ByIdIs(files, tracks, i, byId[i].value);
      } else {
        forall t: nat ensures !SharesId(files, tracks, i, t) {
          ByIdIs(files, tracks, i, t);
        }
      }
    }
    assert Some(s) in byId <==> exists j :: SharesId(files, tracks, j, s) by {
      if Some(s) in byId {
        var j :| 0 <= j < |byId| && byId[j] == Some(s);
        ByIdIs(files, tracks, j, s);
      }
      if j: nat :| SharesId(files, tracks, j, s) {
        ByIdIs(files, tracks, j, s);
        assert byId[j] == Some(s);
      }
    }
  }

  // ----- the rest in file order -----

  /** No file says it is the track. */
  ghost predicate Unclaimed(files: seq<TrackIdentity>, tracks: seq<TrackIdentity>, s: nat) {
    forall i :: !SaysItIs(files, tracks, i, s)
  }

  ghost predicate Silent(files: seq<TrackIdentity>, tracks: seq<TrackIdentity>, i: nat) {
    forall s :: !SaysItIs(files, tracks, i, s)
  }

  ghost function UnclaimedBefore(files: seq<TrackIdentity>, tracks: seq<TrackIdentity>, s: nat): set<nat> {
    set t: nat | 0 <= t < s && Unclaimed(files, tracks, t)
  }

  ghost function SilentBefore(files: seq<TrackIdentity>, tracks: seq<TrackIdentity>, i: nat): set<nat> {
    set j: nat | 0 <= j < i && Silent(files, tracks, j)
  }

  lemma SilentIs(files: seq<TrackIdentity>, tracks: seq<TrackIdentity>, i: nat)
    requires i < |files|
    ensures Silent(files, tracks, i) <==> OnRungs(files, tracks)[i].None?
  {
    var out := OnRungs(files, tracks);
    if out[i].Some? {
      OnRungsIs(files, tracks, i, out[i].value);
    } else {
      forall s: nat ensures !SaysItIs(files, tracks, i, s) {
        OnRungsIs(files, tracks, i, s);
      }
    }
  }

  lemma UnclaimedIs(files: seq<TrackIdentity>, tracks: seq<TrackIdentity>, s: nat)
    ensures Unclaimed(files, tracks, s) <==> s !in Taken(OnRungs(files, tracks))
  {
    var out := OnRungs(files, tracks);
    if s in Taken(out) {
      var i :| 0 <= i < |out| && out[i] == Some(s);
      OnRungsIs(files, tracks, i, s);
    }
    if i: nat :| SaysItIs(files, tracks, i, s) {
      OnRungsIs(files, tracks, i, s);
      assert out[i] in out;
    }
  }

  ghost function FreeBelow(taken: set<nat>, lo: nat, s: nat): set<nat> {
    set t: nat | lo <= t < s && t !in taken
  }

  /** The slots free from `lo` on: the `k`th is the one with `k` free ones before it. */
  lemma {:induction false} FreeAt(taken: set<nat>, lo: nat, n: nat, k: nat, s: nat)
    ensures (k < |Free(taken, lo, n)| && Free(taken, lo, n)[k] == s)
       <==> lo <= s < n && s !in taken && |FreeBelow(taken, lo, s)| == k
    decreases n - lo
  {
    if lo < n {
      var below := FreeBelow(taken, lo, s);
      var above := FreeBelow(taken, lo + 1, s);
      if lo in taken {
        FreeAt(taken, lo + 1, n, k, s);
        assert below == above;
      } else if k == 0 {
        assert s == lo ==> below == {};
        assert s > lo ==> lo in below;
      } else {
        FreeAt(taken, lo + 1, n, k - 1, s);
        assert s > lo ==> below == above + {lo};
        assert s <= lo ==> below == {};
      }
    }
  }

  lemma {:induction false} NotPlacedCount(out: Slots, i: nat)
    requires i <= |out|
    ensures |(set j: nat | 0 <= j < i && out[j].None?)| == i - Placed(out[..i])
  {
    var none := set j: nat | 0 <= j < i && out[j].None?;
    if i > 0 {
      NotPlacedCount(out, i - 1);
      var less := set j: nat | 0 <= j < i - 1 && out[j].None?;
      PlacedLast(out[..i]);
      assert out[..i][..i - 1] == out[..i - 1];
      assert none == if out[i - 1].None? then less + {i - 1} else less;
    } else {
      assert none == {};
    }
  }

  /**
   A file is the track it says it is. The others take, in file order, the tracks no file says it is: the `k`th of the ones
   the `k`th of the others.
   */
  lemma LadderExactly(files: seq<TrackIdentity>, tracks: seq<TrackIdentity>, i: nat, s: nat)
    requires i < |files|
    ensures Ladder(files, tracks)[i] == Some(s) <==>
      if Silent(files, tracks, i) then
        s < |tracks| && Unclaimed(files, tracks, s)
        && |UnclaimedBefore(files, tracks, s)| == |SilentBefore(files, tracks, i)|
      else SaysItIs(files, tracks, i, s)
  {
    var out := OnRungs(files, tracks);
    var taken := Taken(out);
    var free := Free(taken, 0, |tracks|);
    var k := i - Placed(out[..i]);
    FilledAt(out, free, i);
    SilentIs(files, tracks, i);
    OnRungsIs(files, tracks, i, s);
    FreeAt(taken, 0, |tracks|, k, s);
    NotPlacedCount(out, i);
    SilentBeforeIs(files, tracks, i);
    UnclaimedBeforeIs(files, tracks, s);
    UnclaimedIs(files, tracks, s);
  }

  lemma SilentBeforeIs(files: seq<TrackIdentity>, tracks: seq<TrackIdentity>, i: nat)
    requires i < |files|
    ensures SilentBefore(files, tracks, i) == set j: nat | 0 <= j < i && OnRungs(files, tracks)[j].None?
  {
    forall j: nat | j < i ensures Silent(files, tracks, j) <==> OnRungs(files, tracks)[j].None? {
      SilentIs(files, tracks, j);
    }
  }

  lemma UnclaimedBeforeIs(files: seq<TrackIdentity>, tracks: seq<TrackIdentity>, s: nat)
    ensures UnclaimedBefore(files, tracks, s) == FreeBelow(Taken(OnRungs(files, tracks)), 0, s)
  {
    forall t: nat ensures Unclaimed(files, tracks, t) <==> t !in Taken(OnRungs(files, tracks)) {
      UnclaimedIs(files, tracks, t);
    }
  }

  // ----- over it, the files of the confirmed release -----

  ghost predicate HasText(id: Option<string>) {
    id.Some? && |id.value| > 0
  }

  /** A readable audio file tagged with the release its album was confirmed as. */
  ghost predicate OfConfirmed(f: File, confirmed: Option<string>) {
    HasText(confirmed) && f.Readable? && !f.video && f.albumId == confirmed
  }

  /**
   A file of the confirmed release is only the track whose id it has, or with a recording's id alone the ladder's; with
   neither it is none. Any other file is the ladder's.
   */
  lemma ReviewedExactly(files: seq<File>, tracks: seq<TrackIdentity>, confirmed: Option<string>, i: nat, s: nat)
    requires i < |files|
    ensures Reviewed(files, tracks, confirmed)[i] == Some(s) <==>
      var f, ids := files[i], Identities(files);
      if !OfConfirmed(f, confirmed) then Ladder(ids, tracks)[i] == Some(s)
      else if HasText(f.releaseTrackId) then SharesId(ids, tracks, i, s)
      else HasText(f.recordingId) && Ladder(ids, tracks)[i] == Some(s)
  {
    var ids := Identities(files);
    assert OfConfirmed(files[i], confirmed) <==> Decided(files[i], confirmed);
    OneName(Keys(ByReleaseTrack, ids), Keys(ByReleaseTrack, tracks), i, s);
    NamesById(ids, tracks, i, s);
  }

  /** What a file says is what its tags say; one nobody could read says nothing. */
  lemma IdentitiesAre(files: seq<File>, i: nat)
    requires i < |files|
    ensures var f, id := files[i], Identities(files)[i];
      if f.Readable? then id.releaseTrackId == f.releaseTrackId && id.disc == f.disc && id.track == f.track
      else id.releaseTrackId.None? && id.disc.None? && id.track.None?
  {
  }
}

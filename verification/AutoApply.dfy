/**
 The passes that write updates: the unattended tick and the two kinds of selection from the Inbox, as the
 interleaved steps of any number of threads over one pass lock, two queues and two tables of holds.
 */
module AutoApply {
  import opened Common

  type Id = string
  type Thread = nat
  /** What a hold is kept against: a MusicBrainz version, or the fingerprint of an artwork plan. */
  type Version = int

  datatype Kind = Tags | Artwork

  datatype Mark = Queued | Applying

  /** Where one thread stands. Every place but `Idle` holds the pass lock. */
  datatype Place =
    | Idle
    // the tick: the albums whose tags, and whose artwork, it has still to write
    | TickChoosing
    | Ticking(tags: seq<Id>, art: seq<Id>)
    | TickTags(album: Id, tags: seq<Id>, art: seq<Id>)
    | TickArt(album: Id, key: Version, art: seq<Id>)
    | TickEnding
    // a selection: claimed, marked as queued, then written album by album
    | Claimed(kind: Kind, todo: seq<Id>)
    | Between(kind: Kind, todo: seq<Id>)
    | Writing(kind: Kind, album: Id, todo: seq<Id>)
    | Written(kind: Kind, album: Id, todo: seq<Id>, raised: bool)
    | Refreshing(kind: Kind, todo: seq<Id>, raised: bool)
    | Closing(kind: Kind)
    | Releasing(kind: Kind)

  // ----- holds -----

  /** Updates held back, each against the version it was held at, beside every album's version now. */
  datatype Holds = Holds(held: map<Id, Version>, current: Id -> Version)
  {
    /** Held, and the version is still the one it was held at. */
    predicate IsHeld(a: Id) {
      a in held && held[a] == current(a)
    }

    function Hold(a: Id, v: Version): Holds {
      Holds(held[a := v], current)
    }

    function Release(a: Id): Holds {
      Holds(held - {a}, current)
    }

    function Move(a: Id, v: Version): Holds {
      Holds(held, x => if x == a then v else current(x))
    }
  }

  // ----- states and steps -----

  datatype State = State(lock: bool, places: map<Thread, Place>, queue: map<Id, Mark>, artQueue: map<Id, Mark>,
                         tagHolds: Holds, artHolds: Holds)
  {
    function At(t: Thread): Place {
      if t in places then places[t] else Idle
    }

    function Go(t: Thread, p: Place): State {
      this.(places := places[t := p])
    }

    function Queue(kind: Kind): map<Id, Mark> {
      if kind == Tags then queue else artQueue
    }

    function WithQueue(kind: Kind, q: map<Id, Mark>): State {
      if kind == Tags then this.(queue := q) else this.(artQueue := q)
    }
  }

  /** What writing one album on the tick does to its hold. */
  datatype Outcome = HoldIt | ReleaseIt | LeaveIt

  datatype Action =
    | StartTick
    | Choose(tags: seq<Id>, art: seq<Id>)
    | NextTags
    | TagsDone(outcome: Outcome, raised: bool)
    | NextArt
    | ArtDone(outcome: Outcome, raised: bool)
    | EndTick
    | Claim(kind: Kind, todo: seq<Id>)
    | MarkQueued
    | NextAlbum
    | AlbumDone(raised: bool)
    | Unmark
    | Refreshed(raised: bool)
    | Close
    | Unlock
    | MoveVersion(album: Id, version: Version)
    | MovePlan(album: Id, version: Version)

  function Queuing(todo: seq<Id>): map<Id, Mark> {
    map a | a in todo :: Queued
  }

  ghost predicate Enabled(s: State, t: Thread, a: Action) {
    var p := s.At(t);
    match a
    case StartTick => p.Idle? && !s.lock
    case Choose(tags, art) =>
      && p.TickChoosing? && Distinct(tags) && Distinct(art)
      && (forall x :: x in tags ==> !s.tagHolds.IsHeld(x))
      && (forall x :: x in art ==> !s.artHolds.IsHeld(x) && x !in tags)
    case NextTags => p.Ticking? && p.tags != []
    case TagsDone(_, _) => p.TickTags?
    case NextArt => p.Ticking? && p.tags == [] && p.art != []
    case ArtDone(_, _) => p.TickArt?
    case EndTick => p.TickEnding? || p.TickChoosing? || (p.Ticking? && p.tags == [] && p.art == [])
    case Claim(_, _) => p.Idle? && !s.lock
    case MarkQueued => p.Claimed?
    case NextAlbum => p.Between? && p.todo != []
    case AlbumDone(_) => p.Writing?
    case Unmark => p.Written?
    case Refreshed(_) => p.Refreshing?
    case Close => p.Closing? || p.Between?
    case Unlock => p.Releasing?
    case MoveVersion(_, _) => true
    case MovePlan(_, _) => true
  }

  function Settle(h: Holds, o: Outcome, album: Id, v: Version): Holds {
    match o
    case HoldIt => h.Hold(album, v)
    case ReleaseIt => h.Release(album)
    case LeaveIt => h
  }

  /** What a step does; an exception ends the pass, but never before the album's mark is gone. */
  function Do(s: State, t: Thread, a: Action): State {
    var p := s.At(t);
    match a
    case StartTick => s.(lock := true).Go(t, TickChoosing)
    case Choose(tags, art) => s.Go(t, Ticking(tags, art))
    case NextTags => if p.Ticking? && p.tags != [] then s.Go(t, TickTags(p.tags[0], p.tags[1..], p.art)) else s
    case TagsDone(o, raised) =>
      if p.TickTags? then
        s.(tagHolds := Settle(s.tagHolds, o, p.album, s.tagHolds.current(p.album)))
         .Go(t, if raised then TickEnding else Ticking(p.tags, p.art))
      else s
    case NextArt =>
      if p.Ticking? && p.art != [] then s.Go(t, TickArt(p.art[0], s.artHolds.current(p.art[0]), p.art[1..])) else s
    case ArtDone(o, raised) =>
      if p.TickArt? then
        s.(artHolds := Settle(s.artHolds, o, p.album, p.key)).Go(t, if raised then TickEnding else Ticking([], p.art))
      else s
    case EndTick => s.(lock := false).Go(t, Idle)
    case Claim(kind, todo) => s.(lock := true).Go(t, Claimed(kind, todo))
    case MarkQueued =>
      if p.Claimed? then s.WithQueue(p.kind, s.Queue(p.kind) + Queuing(p.todo)).Go(t, Between(p.kind, p.todo)) else s
    case NextAlbum =>
      if p.Between? && p.todo != [] then
        s.WithQueue(p.kind, s.Queue(p.kind)[p.todo[0] := Applying]).Go(t, Writing(p.kind, p.todo[0], p.todo[1..]))
      else s
    case AlbumDone(raised) => if p.Writing? then s.Go(t, Written(p.kind, p.album, p.todo, raised)) else s
    case Unmark =>
      if p.Written? then s.WithQueue(p.kind, s.Queue(p.kind) - {p.album}).Go(t, Refreshing(p.kind, p.todo, p.raised)) else s
    case Refreshed(raised) =>
      if p.Refreshing? then s.Go(t, if raised || p.raised then Closing(p.kind) else Between(p.kind, p.todo)) else s
    case Close =>
      if p.Closing? || p.Between? then s.WithQueue(p.kind, map[]).Go(t, Releasing(p.kind)) else s
    case Unlock => s.(lock := false).Go(t, Idle)
    case MoveVersion(album, v) => s.(tagHolds := s.tagHolds.Move(album, v))
    case MovePlan(album, v) => s.(artHolds := s.artHolds.Move(album, v))
  }

  ghost predicate Init(s: State) {
    !s.lock && s.places == map[] && s.queue == map[] && s.artQueue == map[]
  }

  // ----- the invariant -----

  /** The marks a thread's place accounts for: only its own kind's, and only the album being written as applying. */
  ghost predicate QueueFits(p: Place, kind: Kind, q: map<Id, Mark>) {
    match p
    case Between(k, todo) => if k == kind then q.Keys <= Elements(todo) && NoneApplying(q) else q == map[]
    case Refreshing(k, todo, _) => if k == kind then q.Keys <= Elements(todo) && NoneApplying(q) else q == map[]
    case Writing(k, a, todo) => if k == kind then q.Keys <= Elements(todo) + {a} && OnlyApplying(q, a) else q == map[]
    case Written(k, a, todo, _) => if k == kind then q.Keys <= Elements(todo) + {a} && OnlyApplying(q, a) else q == map[]
    case Closing(k) => if k == kind then NoneApplying(q) else q == map[]
    case _ => q == map[]
  }

  ghost predicate NoneApplying(q: map<Id, Mark>) {
    forall b :: b in q ==> q[b] == Queued
  }

  ghost predicate OnlyApplying(q: map<Id, Mark>, a: Id) {
    a in q && q[a] == Applying && forall b :: b in q && b != a ==> q[b] == Queued
  }

  /** No album is written twice in one tick, nor has both its tags and its artwork written. */
  ghost predicate TickFits(p: Place) {
    match p
    case Ticking(ts, xs) => Distinct(ts) && Distinct(xs) && Elements(ts) !! Elements(xs)
    case TickTags(a, ts, xs) => Distinct([a] + ts) && Distinct(xs) && Elements([a] + ts) !! Elements(xs)
    case TickArt(a, _, xs) => Distinct([a] + xs)
    case _ => true
  }

  ghost predicate Fits(s: State, p: Place) {
    QueueFits(p, Tags, s.queue) && QueueFits(p, Artwork, s.artQueue) && TickFits(p)
  }

  /** Only thread `t` may stand anywhere, and it stands somewhere exactly while the lock is held. */
  ghost predicate Alone(s: State, t: Thread) {
    && (forall u :: u != t ==> s.At(u).Idle?)
    && (s.lock <==> !s.At(t).Idle?)
    && Fits(s, s.At(t))
  }

  ghost predicate Inv(s: State) {
    exists t :: Alone(s, t)
  }

  lemma InitInv(s: State)
    requires Init(s)
    ensures Inv(s)
  {
    assert Alone(s, 0);
  }

  /** A thread whose step needs the lock, or needs it free, is the one thread standing anywhere. */
  lemma StepperIsAlone(s: State, t: Thread)
    requires Inv(s)
    requires !s.At(t).Idle? || !s.lock
    ensures Alone(s, t)
  {
    var u :| Alone(s, u);
    assert s.At(t).Idle? ==> s.At(u).Idle?;
  }

  lemma DistinctTail(a: Id, xs: seq<Id>)
    requires Distinct([a] + xs)
    ensures Distinct(xs) && a !in xs
  {
    var all := [a] + xs;
    assert all[0] == a;
    forall i | 0 <= i < |xs|
      ensures xs[i] == all[i + 1] && xs[i] != a
    {
    }
  }

  /** A step moves no thread but its own, and a change from outside moves none. */
  lemma OthersStay(s: State, t: Thread, a: Action, u: Thread)
    requires u != t || a.MoveVersion? || a.MovePlan?
    ensures Do(s, t, a).At(u) == s.At(u)
  {
  }

  lemma OthersStayIdle(s: State, t: Thread, a: Action)
    requires Alone(s, t)
    ensures forall u :: u != t ==> Do(s, t, a).At(u).Idle?
  {
    forall u | u != t ensures Do(s, t, a).At(u).Idle? {
      OthersStay(s, t, a, u);
    }
  }

  lemma TickStep(s: State, t: Thread, a: Action)
    requires Alone(s, t) && Enabled(s, t, a)
    requires a.StartTick? || a.Choose? || a.NextTags? || a.TagsDone? || a.NextArt? || a.ArtDone? || a.EndTick?
    ensures Alone(Do(s, t, a), t)
  {
    OthersStayIdle(s, t, a);
    var p := s.At(t);
    match a
    case Choose(ts, xs) => assert Elements(ts) !! Elements(xs);
    case NextTags => assert [p.tags[0]] + p.tags[1..] == p.tags;
    case TagsDone(_, _) => DistinctTail(p.album, p.tags);
    case NextArt => assert [p.art[0]] + p.art[1..] == p.art;
    case ArtDone(_, _) => DistinctTail(p.album, p.art);
    case _ =>
  }

  lemma QueueStep(s: State, t: Thread, a: Action)
    requires Alone(s, t) && Enabled(s, t, a)
    requires a.Claim? || a.MarkQueued? || a.NextAlbum? || a.AlbumDone?
    ensures Alone(Do(s, t, a), t)
  {
    OthersStayIdle(s, t, a);
    var p := s.At(t);
    if a.NextAlbum? {
      assert p.todo == [p.todo[0]] + p.todo[1..];
    }
  }

  lemma UnmarkStep(s: State, t: Thread, a: Action)
    requires Alone(s, t) && Enabled(s, t, a)
    requires a.Unmark? || a.Refreshed? || a.Close? || a.Unlock?
    ensures Alone(Do(s, t, a), t)
  {
    OthersStayIdle(s, t, a);
  }

  lemma StepKeepsInv(s: State, t: Thread, a: Action)
    requires Inv(s) && Enabled(s, t, a)
    ensures Inv(Do(s, t, a))
  {
    if a.MoveVersion? || a.MovePlan? {
      var u :| Alone(s, u);
      forall w ensures Do(s, t, a).At(w) == s.At(w) {
        OthersStay(s, t, a, w);
      }
      assert Alone(Do(s, t, a), u);
    } else {
      StepperIsAlone(s, t);
      if a.Claim? || a.MarkQueued? || a.NextAlbum? || a.AlbumDone? {
        QueueStep(s, t, a);
      } else if a.Unmark? || a.Refreshed? || a.Close? || a.Unlock? {
        UnmarkStep(s, t, a);
      } else {
        TickStep(s, t, a);
      }
    }
  }

  // ----- runs -----

  datatype Step = Step(thread: Thread, action: Action)

  ghost predicate Goes(s: State, step: Step, next: State) {
    Enabled(s, step.thread, step.action) && next == Do(s, step.thread, step.action)
  }

  /** A run: its steps, and the states it goes through, from the first on. */
  ghost predicate Runs(states: seq<State>, steps: seq<Step>) {
    |states| == |steps| + 1 && forall n :: 0 <= n < |steps| ==> Goes(states[n], steps[n], states[n + 1])
  }

  lemma GoingKeepsInv(s: State, step: Step, next: State)
    requires Inv(s) && Goes(s, step, next)
    ensures Inv(next)
  {
    StepKeepsInv(s, step.thread, step.action);
  }

  lemma {:induction false} RunKeepsInv(states: seq<State>, steps: seq<Step>, n: nat)
    requires Runs(states, steps) && Inv(states[0]) && n < |states|
    ensures Inv(states[n])
  {
    if n > 0 {
      RunKeepsInv(states, steps, n - 1);
      GoingKeepsInv(states[n - 1], steps[n - 1], states[n]);
    }
  }

  ghost predicate ClaimOf(p: Place, kind: Kind) {
    match p
    case Between(k, _) => k == kind
    case Writing(k, _, _) => k == kind
    case Written(k, _, _, _) => k == kind
    case Refreshing(k, _, _) => k == kind
    case Closing(k) => k == kind
    case _ => false
  }

  ghost predicate MarkedApplying(s: State, kind: Kind, a: Id) {
    a in s.Queue(kind) && s.Queue(kind)[a] == Applying
  }

  ghost predicate OnePass(s: State) {
    forall t, u :: !s.At(t).Idle? && !s.At(u).Idle? ==> t == u && s.lock
  }

  ghost predicate MarksBelongToAClaim(s: State) {
    forall kind :: s.Queue(kind) != map[] ==> s.lock && exists t :: ClaimOf(s.At(t), kind)
  }

  ghost predicate OneApplying(s: State) {
    forall k, l, a, b :: MarkedApplying(s, k, a) && MarkedApplying(s, l, b) ==> k == l && a == b
  }

  ghost predicate NoMarksOutsideASelection(s: State) {
    && (!s.lock ==> s.queue == map[] && s.artQueue == map[])
    && (forall t :: s.At(t).Releasing? || s.At(t).Ticking? || s.At(t).TickTags? || s.At(t).TickArt?
                    ==> s.queue == map[] && s.artQueue == map[])
  }

  lemma InvIsSafe(s: State)
    requires Inv(s)
    ensures OnePass(s) && MarksBelongToAClaim(s) && OneApplying(s) && NoMarksOutsideASelection(s)
  {
    var t :| Alone(s, t);
    forall kind | s.Queue(kind) != map[]
      ensures ClaimOf(s.At(t), kind)
    {
    }
  }

  /**
   At every point of every run of ticks and selections, albums failing or not: one pass at a time; queued albums
   only under a claim of their kind; at most one album being written from the Inbox; and every mark gone before
   the lock is let go.
   */
  lemma EveryRunIsSafe(states: seq<State>, steps: seq<Step>, n: nat)
    requires Runs(states, steps) && Init(states[0]) && n < |states|
    ensures OnePass(states[n]) && MarksBelongToAClaim(states[n]) && OneApplying(states[n]) && NoMarksOutsideASelection(states[n])
  {
    InitInv(states[0]);
    RunKeepsInv(states, steps, n);
    InvIsSafe(states[n]);
  }

  // ----- a hold is not retried -----

  function HoldsOf(s: State, kind: Kind): Holds {
    if kind == Tags then s.tagHolds else s.artHolds
  }

  /** The albums the tick at `p` has still to write, the one being written among them. */
  function Pending(p: Place, kind: Kind): seq<Id> {
    match p
    case Ticking(ts, xs) => if kind == Tags then ts else xs
    case TickTags(a, ts, xs) => if kind == Tags then [a] + ts else xs
    case TickArt(a, _, xs) => if kind == Artwork then [a] + xs else []
    case _ => []
  }

  /** Album `a` is held at version `v`, and no tick has it still to write. */
  ghost predicate HeldBack(s: State, kind: Kind, a: Id, v: Version) {
    && a in HoldsOf(s, kind).held && HoldsOf(s, kind).held[a] == v
    && forall t :: a !in Pending(s.At(t), kind)
  }

  /** The step begins an unattended write of album `a`. */
  ghost predicate Retries(s: State, step: Step, kind: Kind, a: Id) {
    var p := s.At(step.thread);
    && p.Ticking?
    && (if kind == Tags then step.action.NextTags? && p.tags != [] && p.tags[0] == a
        else step.action.NextArt? && p.tags == [] && p.art != [] && p.art[0] == a)
  }

  /** The step holds album `a` back at version `v`. */
  ghost predicate HoldsBack(s: State, step: Step, kind: Kind, a: Id, v: Version) {
    var p := s.At(step.thread);
    if kind == Tags then
      step.action.TagsDone? && step.action.outcome == HoldIt && p.TickTags? && p.album == a && v == s.tagHolds.current(a)
    else
      step.action.ArtDone? && step.action.outcome == HoldIt && p.TickArt? && p.album == a && v == p.key
  }

  lemma HoldingBacksOff(s: State, step: Step, next: State, kind: Kind, a: Id, v: Version)
    requires Inv(s) && Goes(s, step, next) && HoldsBack(s, step, kind, a, v)
    ensures HeldBack(next, kind, a, v)
  {
    StepperIsAlone(s, step.thread);
    var p := s.At(step.thread);
    DistinctTail(p.album, if kind == Tags then p.tags else p.art);
    forall u ensures a !in Pending(next.At(u), kind) {
      if u != step.thread {
        OthersStay(s, step.thread, step.action, u);
      }
    }
  }

  lemma HeldStaysBack(s: State, step: Step, next: State, kind: Kind, a: Id, v: Version)
    requires Inv(s) && Goes(s, step, next)
    requires HeldBack(s, kind, a, v) && HoldsOf(s, kind).current(a) == v
    ensures HeldBack(next, kind, a, v)
  {
    HoldStays(s, step, kind, a, v);
    forall u ensures a !in Pending(next.At(u), kind) {
      if u != step.thread {
        OthersStay(s, step.thread, step.action, u);
      } else {
        PendingAfter(s, step, kind, a, v);
      }
    }
  }

  lemma HeldIsNotWritten(s: State, step: Step, kind: Kind, a: Id, v: Version)
    requires Enabled(s, step.thread, step.action) && HeldBack(s, kind, a, v)
    ensures !Retries(s, step, kind, a)
  {
    assert a !in Pending(s.At(step.thread), kind);
  }

  lemma HoldStays(s: State, step: Step, kind: Kind, a: Id, v: Version)
    requires Enabled(s, step.thread, step.action) && HeldBack(s, kind, a, v)
    ensures var h := HoldsOf(Do(s, step.thread, step.action), kind); a in h.held && h.held[a] == v
  {
    assert a !in Pending(s.At(step.thread), kind);
  }

  lemma PendingAfter(s: State, step: Step, kind: Kind, a: Id, v: Version)
    requires Enabled(s, step.thread, step.action)
    requires HeldBack(s, kind, a, v) && HoldsOf(s, kind).current(a) == v
    ensures a !in Pending(Do(s, step.thread, step.action).At(step.thread), kind)
  {
    var p := s.At(step.thread);
    assert a !in Pending(p, kind);
    match step.action
    case NextTags => assert [p.tags[0]] + p.tags[1..] == p.tags;
    case NextArt => assert [p.art[0]] + p.art[1..] == p.art;
    case _ =>
  }

  ghost predicate Unmoved(states: seq<State>, from: nat, to: nat, kind: Kind, a: Id, v: Version)
    requires to < |states|
  {
    forall m :: from <= m <= to ==> HoldsOf(states[m], kind).current(a) == v
  }

  lemma {:induction false} HeldFrom(states: seq<State>, steps: seq<Step>, i: nat, k: nat, kind: Kind, a: Id, v: Version)
    requires Runs(states, steps) && Inv(states[0]) && i <= k < |states|
    requires HeldBack(states[i], kind, a, v) && Unmoved(states, i, k, kind, a, v)
    ensures HeldBack(states[k], kind, a, v)
    decreases k
  {
    if i < k {
      HeldFrom(states, steps, i, k - 1, kind, a, v);
      RunKeepsInv(states, steps, k - 1);
      HeldStaysBack(states[k - 1], steps[k - 1], states[k], kind, a, v);
    }
  }

  /**
   An update the tick holds is not tried again while its version stays what it was held at: if step `i` holds
   album `a` at version `v` and a later step `k` writes it, its version was something else at some point between.
   */
  lemma HeldIsNotRetried(states: seq<State>, steps: seq<Step>, i: nat, k: nat, kind: Kind, a: Id, v: Version)
    requires Runs(states, steps) && Init(states[0]) && i < k < |steps|
    requires HoldsBack(states[i], steps[i], kind, a, v)
    requires Retries(states[k], steps[k], kind, a)
    ensures !Unmoved(states, i + 1, k, kind, a, v)
  {
    if Unmoved(states, i + 1, k, kind, a, v) {
      InitInv(states[0]);
      RunKeepsInv(states, steps, i);
      RunKeepsInv(states, steps, k);
      HoldingBacksOff(states[i], steps[i], states[i + 1], kind, a, v);
      HeldFrom(states, steps, i + 1, k, kind, a, v);
      HeldIsNotWritten(states[k], steps[k], kind, a, v);
      assert false;
    }
  }

  // ----- and one whose version moves -----

  /** A library at rest: no pass, nothing queued, nothing held. */
  function AtRest(current: Id -> Version): State {
    State(false, map[], map[], map[], Holds(map[], current), Holds(map[], current))
  }

  ghost predicate Free(s: State) {
    !s.lock && s.At(0).Idle?
  }

  /** A tick that finds one album due, as far as the start of its write. */
  lemma TickBegins(s: State, a: Id) returns (s1: State, s2: State, s3: State)
    requires Free(s) && !s.tagHolds.IsHeld(a)
    ensures Goes(s, Step(0, StartTick), s1) && Goes(s1, Step(0, Choose([a], [])), s2) && Goes(s2, Step(0, NextTags), s3)
    ensures s2.At(0) == Ticking([a], []) && s3.At(0) == TickTags(a, [], []) && s3.tagHolds == s.tagHolds
  {
    s1 := Do(s, 0, StartTick);
    s2 := Do(s1, 0, Choose([a], []));
    s3 := Do(s2, 0, NextTags);
    assert [a][1..] == [];
  }

  /** The same tick holding the album back, and ending. */
  lemma TickHolds(s: State, a: Id) returns (s1: State, s2: State)
    requires s.At(0) == TickTags(a, [], [])
    ensures Goes(s, Step(0, TagsDone(HoldIt, false)), s1) && Goes(s1, Step(0, EndTick), s2)
    ensures Free(s2) && s2.tagHolds == s.tagHolds.Hold(a, s.tagHolds.current(a))
  {
    s1 := Do(s, 0, TagsDone(HoldIt, false));
    s2 := Do(s1, 0, EndTick);
  }

  /**
   The hold lapses when the version moves: an album held on one tick, moved, and due on the next is written again.
   What keeps it from being tried is its version, and nothing else.
   */
  lemma AMovedHoldIsRetried(a: Id, current: Id -> Version, w: Version) returns (states: seq<State>, steps: seq<Step>)
    requires current(a) != w
    ensures Runs(states, steps) && Init(states[0]) && |steps| == 9
    ensures HoldsBack(states[3], steps[3], Tags, a, current(a)) && Retries(states[8], steps[8], Tags, a)
  {
    var s := AtRest(current);
    var s1, s2, s3 := TickBegins(s, a);
    var s4, s5 := TickHolds(s3, a);
    var s6 := Moved(s5, a, w);
    var s7, s8, s9 := TickBegins(s6, a);
    states := [s, s1, s2, s3, s4, s5, s6, s7, s8, s9];
    steps := [Step(0, StartTick), Step(0, Choose([a], [])), Step(0, NextTags), Step(0, TagsDone(HoldIt, false)),
              Step(0, EndTick), Step(0, MoveVersion(a, w)), Step(0, StartTick), Step(0, Choose([a], [])), Step(0, NextTags)];
  }

  lemma Moved(s: State, a: Id, w: Version) returns (next: State)
    requires Free(s) && a in s.tagHolds.held && s.tagHolds.held[a] != w
    ensures Goes(s, Step(0, MoveVersion(a, w)), next) && Free(next) && !next.tagHolds.IsHeld(a)
  {
    next := Do(s, 0, MoveVersion(a, w));
  }
}

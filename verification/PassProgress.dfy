/** What a pass gets done: every step brings it nearer its end, and it writes what it took on, in order. */
module PassProgress {
  import opened Common
  import opened AutoApply

  // ----- nearer the end -----

  /** How many steps a pass may still take at this place, once it has chosen its albums. */
  ghost function Left(p: Place): nat {
    match p
    case Idle => 0
    case TickChoosing => 1
    case Ticking(ts, xs) => 2 * (|ts| + |xs|) + 1
    case TickTags(_, ts, xs) => 2 * (|ts| + |xs|) + 2
    case TickArt(_, _, xs) => 2 * |xs| + 2
    case TickEnding => 1
    case Claimed(_, todo) => 4 * |todo| + 3
    case Between(_, todo) => 4 * |todo| + 2
    case Writing(_, _, todo) => 4 * |todo| + 5
    case Written(_, _, todo, _) => 4 * |todo| + 4
    case Refreshing(_, todo, _) => 4 * |todo| + 3
    case Closing(_) => 2
    case Releasing(_) => 1
  }

  ghost predicate Outside(a: Action) {
    a.MoveVersion? || a.MovePlan?
  }

  /** Every step of a pass but the choosing brings it nearer its end, and no step of another thread sets it back. */
  lemma EveryStepIsNearer(s: State, t: Thread, a: Action)
    requires Enabled(s, t, a) && !s.At(t).Idle? && !Outside(a) && !a.Choose?
    ensures Left(Do(s, t, a).At(t)) < Left(s.At(t))
    ensures forall u :: u != t ==> Do(s, t, a).At(u) == s.At(u)
  {
    forall u | u != t ensures Do(s, t, a).At(u) == s.At(u) {
      OthersStay(s, t, a, u);
    }
  }

  /** And a pass is never stuck: some step of its own can always be taken. */
  lemma PassIsNeverStuck(s: State, t: Thread)
    requires !s.At(t).Idle?
    ensures exists a :: Enabled(s, t, a) && !Outside(a) && !a.Choose?
  {
    var p := s.At(t);
    var a := match p
      case Ticking(ts, xs) => if ts != [] then NextTags else if xs != [] then NextArt else EndTick
      case TickTags(_, _, _) => TagsDone(LeaveIt, false)
      case TickArt(_, _, _) => ArtDone(LeaveIt, false)
      case Claimed(_, _) => MarkQueued
      case Between(_, todo) => if todo != [] then NextAlbum else Close
      case Writing(_, _, _) => AlbumDone(false)
      case Written(_, _, _, _) => Unmark
      case Refreshing(_, _, _) => Refreshed(false)
      case Closing(_) => Close
      case Releasing(_) => Unlock
      case _ => EndTick;
    assert Enabled(s, t, a);
  }

  // ----- what is written -----

  /** The albums of a kind that a pass has taken on and not begun; none once it is ending. */
  ghost function StillTo(p: Place, kind: Kind): Option<seq<Id>> {
    match p
    case Ticking(ts, xs) => Some(if kind == Tags then ts else xs)
    case TickTags(_, ts, xs) => Some(if kind == Tags then ts else xs)
    case TickArt(_, _, xs) => Some(if kind == Tags then [] else xs)
    case Claimed(k, todo) => Some(if k == kind then todo else [])
    case Between(k, todo) => Some(if k == kind then todo else [])
    case Writing(k, _, todo) => Some(if k == kind then todo else [])
    case Written(k, _, todo, _) => Some(if k == kind then todo else [])
    case Refreshing(k, todo, _) => Some(if k == kind then todo else [])
    case _ => None
  }

  /** The album a place says is being written, and what of it. */
  ghost predicate Underway(p: Place, kind: Kind, a: Id) {
    match p
    case TickTags(b, _, _) => kind == Tags && a == b
    case TickArt(b, _, _) => kind == Artwork && a == b
    case Writing(k, b, _) => kind == k && a == b
    case _ => false
  }

  /** The step of thread `t` begins a write of that kind. */
  ghost predicate Begins(step: Step, s: State, t: Thread, kind: Kind) {
    step.thread == t &&
    match step.action
    case NextTags => kind == Tags
    case NextArt => kind == Artwork
    case NextAlbum => s.At(t).Between? && s.At(t).kind == kind
    case _ => false
  }

  /** The step of thread `t` ends its pass early or late: something raised, or the closing. */
  ghost predicate Ends(step: Step, s: State, t: Thread) {
    step.thread == t &&
    match step.action
    case TagsDone(_, raised) => raised
    case ArtDone(_, raised) => raised
    case Refreshed(raised) => raised || (s.At(t).Refreshing? && s.At(t).raised)
    case EndTick => true
    case Close => true
    case _ => false
  }

  /** One step: it begins the first album still to be written, or leaves what is still to be written, or ends the pass. */
  ghost predicate Stepped(s: State, step: Step, next: State, t: Thread, kind: Kind) {
    StillTo(s.At(t), kind).Some? ==>
      var was, now := StillTo(s.At(t), kind).value, StillTo(next.At(t), kind);
      if Ends(step, s, t) then now.None?
      else if Begins(step, s, t, kind) then was != [] && now == Some(was[1..]) && Underway(next.At(t), kind, was[0])
      else now == Some(was)
  }

  lemma TickStep(s: State, step: Step, next: State, kind: Kind)
    requires Goes(s, step, next) && !Outside(step.action)
    requires s.At(step.thread).Ticking? || s.At(step.thread).TickTags? || s.At(step.thread).TickArt?
    ensures Stepped(s, step, next, step.thread, kind)
  {
  }

  lemma SelectionStep(s: State, step: Step, next: State, kind: Kind)
    requires Goes(s, step, next) && !Outside(step.action)
    requires s.At(step.thread).Claimed? || s.At(step.thread).Between? || s.At(step.thread).Writing?
             || s.At(step.thread).Written? || s.At(step.thread).Refreshing?
    ensures Stepped(s, step, next, step.thread, kind)
  {
  }

  lemma EveryStep(s: State, step: Step, next: State, t: Thread, kind: Kind)
    requires Goes(s, step, next)
    ensures Stepped(s, step, next, t, kind)
  {
    var p := s.At(t);
    if step.thread != t || Outside(step.action) {
      OthersStay(s, step.thread, step.action, t);
    } else if p.Ticking? || p.TickTags? || p.TickArt? {
      TickStep(s, step, next, kind);
    } else if p.Claimed? || p.Between? || p.Writing? || p.Written? || p.Refreshing? {
      SelectionStep(s, step, next, kind);
    } else {
      assert StillTo(p, kind).None?;
    }
  }

  /** What a step begins to write. */
  ghost function BegunBy(s: State, step: Step, t: Thread, kind: Kind): seq<Id> {
    var still := StillTo(s.At(t), kind);
    if Begins(step, s, t, kind) && still.Some? && still.value != [] then [still.value[0]] else []
  }

  ghost function EachBegun(states: seq<State>, steps: seq<Step>, t: Thread, kind: Kind): seq<seq<Id>>
    requires |states| == |steps| + 1
  {
    seq(|steps|, m requires 0 <= m < |steps| => BegunBy(states[m], steps[m], t, kind))
  }

  ghost function Together(begun: seq<seq<Id>>, i: nat, n: nat): seq<Id>
    requires i <= n <= |begun|
  {
    if i == n then [] else Together(begun, i, n - 1) + begun[n - 1]
  }

  /** The albums of a kind whose write thread `t` begins in the steps from `i` to `n`. */
  ghost function Begun(states: seq<State>, steps: seq<Step>, t: Thread, kind: Kind, i: nat, n: nat): seq<Id>
    requires |states| == |steps| + 1 && i <= n <= |steps|
  {
    Together(EachBegun(states, steps, t, kind), i, n)
  }

  ghost predicate NoneEnds(states: seq<State>, steps: seq<Step>, t: Thread, i: nat, n: nat)
    requires |states| == |steps| + 1 && i <= n <= |steps|
  {
    forall m :: i <= m < n ==> !Ends(steps[m], states[m], t)
  }

  lemma {:induction false} Chained(still: seq<Option<seq<Id>>>, begun: seq<seq<Id>>, i: nat, n: nat)
    requires |still| == |begun| + 1 && i <= n <= |begun| && still[i].Some?
    requires forall m :: i <= m < n && still[m].Some? ==> still[m + 1].Some? && still[m].value == begun[m] + still[m + 1].value
    ensures still[n].Some? && still[i].value == Together(begun, i, n) + still[n].value
    decreases n
  {
    if i < n {
      Chained(still, begun, i, n - 1);
    }
  }

  lemma StepBegins(s: State, step: Step, next: State, t: Thread, kind: Kind)
    requires Stepped(s, step, next, t, kind) && !Ends(step, s, t) && StillTo(s.At(t), kind).Some?
    ensures StillTo(next.At(t), kind).Some?
    ensures StillTo(s.At(t), kind).value == BegunBy(s, step, t, kind) + StillTo(next.At(t), kind).value
  {
  }

  lemma BegunInOrder(states: seq<State>, steps: seq<Step>, t: Thread, kind: Kind, i: nat, n: nat)
    requires |states| == |steps| + 1 && i <= n <= |steps|
    requires forall m :: 0 <= m < |steps| ==> Stepped(states[m], steps[m], states[m + 1], t, kind)
    requires StillTo(states[i].At(t), kind).Some? && NoneEnds(states, steps, t, i, n)
    ensures StillTo(states[n].At(t), kind).Some?
    ensures StillTo(states[i].At(t), kind).value == Begun(states, steps, t, kind, i, n) + StillTo(states[n].At(t), kind).value
  {
    var still := seq(|states|, m requires 0 <= m < |states| => StillTo(states[m].At(t), kind));
    var begun := EachBegun(states, steps, t, kind);
    forall m | i <= m < n && still[m].Some?
      ensures still[m + 1].Some? && still[m].value == begun[m] + still[m + 1].value
    {
      StepBegins(states[m], steps[m], states[m + 1], t, kind);
    }
    Chained(still, begun, i, n);
  }

  /** Until something raises or the pass is closed, what it has begun and what it has still to begin are what it took on, in order. */
  lemma WritesInOrder(states: seq<State>, steps: seq<Step>, t: Thread, kind: Kind, i: nat, n: nat)
    requires Runs(states, steps) && i <= n <= |steps| && StillTo(states[i].At(t), kind).Some? && NoneEnds(states, steps, t, i, n)
    ensures StillTo(states[n].At(t), kind).Some?
    ensures StillTo(states[i].At(t), kind).value == Begun(states, steps, t, kind, i, n) + StillTo(states[n].At(t), kind).value
  {
    AllStep(states, steps, t, kind);
    BegunInOrder(states, steps, t, kind, i, n);
  }

  lemma AllStep(states: seq<State>, steps: seq<Step>, t: Thread, kind: Kind)
    requires Runs(states, steps)
    ensures forall m :: 0 <= m < |steps| ==> Stepped(states[m], steps[m], states[m + 1], t, kind)
  {
    forall m | 0 <= m < |steps| ensures Stepped(states[m], steps[m], states[m + 1], t, kind) {
      assert Goes(states[m], steps[m], states[m + 1]);
      EveryStep(states[m], steps[m], states[m + 1], t, kind);
    }
  }

  lemma TickChooses(s: State, next: State, t: Thread, tags: seq<Id>, art: seq<Id>)
    requires Goes(s, Step(t, Choose(tags, art)), next)
    ensures StillTo(next.At(t), Tags) == Some(tags) && StillTo(next.At(t), Artwork) == Some(art)
  {
  }

  lemma TickEnds(s: State, next: State, t: Thread)
    requires Goes(s, Step(t, EndTick), next)
    ensures next.At(t).Idle? && !next.lock
    ensures forall kind :: StillTo(s.At(t), kind).Some? ==> StillTo(s.At(t), kind).value == []
  {
  }

  lemma SelectionClaims(s: State, next: State, t: Thread, kind: Kind, todo: seq<Id>)
    requires Goes(s, Step(t, Claim(kind, todo)), next)
    ensures StillTo(next.At(t), kind) == Some(todo)
  {
  }

  /** A tick that nothing interrupts writes all it chose: each album's tags, then each album's artwork, in order. */
  lemma TickWritesAllItChose(states: seq<State>, steps: seq<Step>, t: Thread, i: nat, n: nat, tags: seq<Id>, art: seq<Id>)
    requires Runs(states, steps) && i < n < |steps|
    requires steps[i] == Step(t, Choose(tags, art)) && steps[n] == Step(t, EndTick) && NoneEnds(states, steps, t, i, n)
    ensures Begun(states, steps, t, Tags, i + 1, n) == tags && Begun(states, steps, t, Artwork, i + 1, n) == art
    ensures states[n + 1].At(t).Idle?
  {
    TickChooses(states[i], states[i + 1], t, tags, art);
    TickEnds(states[n], states[n + 1], t);
    AllStep(states, steps, t, Tags);
    AllStep(states, steps, t, Artwork);
    TickBegins(states, steps, t, i + 1, n, tags, art);
  }

  lemma TickBegins(states: seq<State>, steps: seq<Step>, t: Thread, i: nat, n: nat, tags: seq<Id>, art: seq<Id>)
    requires |states| == |steps| + 1 && i <= n <= |steps| && NoneEnds(states, steps, t, i, n)
    requires forall m :: 0 <= m < |steps| ==> Stepped(states[m], steps[m], states[m + 1], t, Tags)
    requires forall m :: 0 <= m < |steps| ==> Stepped(states[m], steps[m], states[m + 1], t, Artwork)
    requires StillTo(states[i].At(t), Tags) == Some(tags) && StillTo(states[i].At(t), Artwork) == Some(art)
    requires forall kind :: StillTo(states[n].At(t), kind).Some? ==> StillTo(states[n].At(t), kind).value == []
    ensures Begun(states, steps, t, Tags, i, n) == tags && Begun(states, steps, t, Artwork, i, n) == art
  {
    BegunInOrder(states, steps, t, Tags, i, n);
    BegunInOrder(states, steps, t, Artwork, i, n);
  }

  /** A selection that comes to the end of its list has written all it claimed, in order. */
  lemma SelectionWritesAllItClaimed(states: seq<State>, steps: seq<Step>, t: Thread, kind: Kind, i: nat, n: nat, todo: seq<Id>)
    requires Runs(states, steps) && i < n <= |steps|
    requires steps[i] == Step(t, Claim(kind, todo)) && states[n].At(t) == Between(kind, []) && NoneEnds(states, steps, t, i, n)
    ensures Begun(states, steps, t, kind, i + 1, n) == todo
  {
    SelectionClaims(states[i], states[i + 1], t, kind, todo);
    AllStep(states, steps, t, kind);
    SelectionBegins(states, steps, t, kind, i + 1, n, todo);
  }

  lemma SelectionBegins(states: seq<State>, steps: seq<Step>, t: Thread, kind: Kind, i: nat, n: nat, todo: seq<Id>)
    requires |states| == |steps| + 1 && i <= n <= |steps| && NoneEnds(states, steps, t, i, n)
    requires forall m :: 0 <= m < |steps| ==> Stepped(states[m], steps[m], states[m + 1], t, kind)
    requires StillTo(states[i].At(t), kind) == Some(todo) && StillTo(states[n].At(t), kind) == Some([])
    ensures Begun(states, steps, t, kind, i, n) == todo
  {
    BegunInOrder(states, steps, t, kind, i, n);
  }

  /** Once something has raised, nothing more is begun before the pass is over. */
  lemma NothingAfterTheEnd(s: State, step: Step, next: State, t: Thread, kind: Kind)
    requires Goes(s, step, next) && !s.At(t).Idle? && !s.At(t).TickChoosing? && StillTo(s.At(t), kind).None?
    ensures !Begins(step, s, t, kind) && (next.At(t).Idle? || (!next.At(t).TickChoosing? && StillTo(next.At(t), kind).None?))
  {
    if step.thread != t || Outside(step.action) {
      OthersStay(s, step.thread, step.action, t);
    }
  }

  // ----- holds and marks -----

  ghost predicate HeldAfter(was: map<Id, Version>, now: map<Id, Version>, o: Outcome, a: Id, v: Version) {
    match o
    case HoldIt => now == was[a := v]
    case ReleaseIt => now == was - {a}
    case LeaveIt => now == was
  }

  /** A tag hold changes as the write of its own album decides, and stands for the version it has then. */
  lemma TagHoldsChangeExactly(s: State, step: Step, next: State)
    requires Goes(s, step, next) && step.action.TagsDone?
    ensures s.At(step.thread).TickTags? && next.artHolds.held == s.artHolds.held
    ensures var a := s.At(step.thread).album;
      HeldAfter(s.tagHolds.held, next.tagHolds.held, step.action.outcome, a, s.tagHolds.current(a))
  {
  }

  /** So does an artwork hold, which stands for the plan's version when the write began. */
  lemma ArtHoldsChangeExactly(s: State, step: Step, next: State)
    requires Goes(s, step, next) && step.action.ArtDone?
    ensures s.At(step.thread).TickArt? && next.tagHolds.held == s.tagHolds.held
    ensures var p := s.At(step.thread);
      HeldAfter(s.artHolds.held, next.artHolds.held, step.action.outcome, p.album, p.key)
  {
  }

  ghost predicate SameHolds(s: State, next: State) {
    next.tagHolds.held == s.tagHolds.held && next.artHolds.held == s.artHolds.held
  }

  /** No other step of a tick holds or releases anything, nor does a change from outside. */
  lemma TickKeepsHolds(s: State, step: Step, next: State)
    requires Goes(s, step, next)
    requires var a := step.action; a.StartTick? || a.Choose? || a.NextTags? || a.NextArt? || a.EndTick? || Outside(a)
    ensures SameHolds(s, next)
  {
  }

  /** Nor does a step of a selection. */
  lemma SelectionKeepsHolds(s: State, step: Step, next: State)
    requires Goes(s, step, next)
    requires var a := step.action; a.Claim? || a.MarkQueued? || a.NextAlbum? || a.AlbumDone? || a.Unmark? || a.Refreshed? || a.Close? || a.Unlock?
    ensures SameHolds(s, next)
  {
  }

  /** The key an artwork write is judged by is the plan's version when the write began. */
  lemma KeyIsTheVersion(s: State, step: Step, next: State)
    requires Goes(s, step, next) && step.action.NextArt?
    ensures next.At(step.thread).TickArt? && next.At(step.thread).key == s.artHolds.current(next.At(step.thread).album)
  {
  }

  /** A selection marks all it claimed as queued, the album being written as applying, and unmarks each when it is done. */
  lemma MarksChangeExactly(s: State, step: Step, next: State, kind: Kind, a: Id)
    requires Goes(s, step, next)
    requires step.action.MarkQueued? || step.action.NextAlbum? || step.action.Unmark? || step.action.Close?
    ensures var was, now, p := s.Queue(kind), next.Queue(kind), s.At(step.thread);
      if p.kind != kind then Same(was, now, a)
      else match step.action
        case MarkQueued => if a in p.todo then a in now && now[a] == Queued else Same(was, now, a)
        case NextAlbum => if a == p.todo[0] then a in now && now[a] == Applying else Same(was, now, a)
        case Unmark => if a == p.album then a !in now else Same(was, now, a)
        case _ => a !in now
  {
  }

  /** No other step touches a mark. */
  lemma MarksStay(s: State, step: Step, next: State)
    requires Goes(s, step, next)
    requires !step.action.MarkQueued? && !step.action.NextAlbum? && !step.action.Unmark? && !step.action.Close?
    ensures next.queue == s.queue && next.artQueue == s.artQueue
  {
  }

  ghost predicate Same(was: map<Id, Mark>, now: map<Id, Mark>, a: Id) {
    (a in now <==> a in was) && (a in was ==> now[a] == was[a])
  }
}

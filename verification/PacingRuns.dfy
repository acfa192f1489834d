/** Runs in which pacing does not do what it is for: each is the input behind an exception proved exact elsewhere. */
module PacingRuns {
  import opened Basics
  import opened FrameQueues
  import opened PacingSpec
  import opened PacingLists
  import opened PacingProofs
  import opened PacingLedger
  import opened PacingUnbinding
  import opened PacingUnblocks

  const VIEW: ViewId := 0
  const CLIENT: Client := 7
  const SURFACE: SurfaceId := 3

  function Waits(b: Barrier): Taken { Taken([], [b]) }

  function ShowsOne(b: Barrier): Update { Submit(VIEW, Waits(b), Some([]), false) }

  function OneFrame(seqNo: nat, b: Barrier): seq<Frame> { [Frame(seqNo, 0, [], [], [b], false)] }

  function Bound(seqNo: nat, frames: seq<Frame>): ViewEntry {
    ViewEntry(true, Some(CLIENT), seqNo, frames, false, 0)
  }

  /** The view, a client's, submits a frame with one barrier into an empty queue. */
  lemma OneSubmitted(s: Pacing, n: nat, b: Barrier)
    requires VIEW in s.views && s.views[VIEW] == Bound(n, [])
    ensures var s' := Applied(s, ShowsOne(b), 0, true);
            && s'.views == s.views[VIEW := Bound(n + 1, OneFrame(n + 1, b))]
            && s'.signaled == s.signaled && s'.unblocked == s.unblocked && s'.loose == s.loose
  {
    hide WatchFrames, PushFrame;
    OnePushed(s, n, b);
    var s1 := PushFrame(s, VIEW, [], Waits(b), 0);
    OnlyArmed(s1);
  }

  lemma OnlyArmed(s: Pacing)
    ensures var s' := WatchFrames(s, VIEW, 0, true);
            && s'.views == s.views && s'.signaled == s.signaled && s'.unblocked == s.unblocked && s'.loose == s.loose
  {
    hide ViewWake, ReleaseEverything;
  }

  lemma OnePushed(s: Pacing, n: nat, b: Barrier)
    requires VIEW in s.views && s.views[VIEW] == Bound(n, [])
    ensures var s' := PushFrame(s, VIEW, [], Waits(b), 0);
            && s'.views == s.views[VIEW := Bound(n + 1, OneFrame(n + 1, b))]
            && s'.signaled == s.signaled && s'.unblocked == s.unblocked && s'.loose == s.loose
  {
    var frames := [Entering(n + 1, 0, [], Waits(b))];
    assert [] + frames == frames == OneFrame(n + 1, b);
    assert frames[..0] == [] && frames[0..] == frames;
  }

  /** And has it dropped. */
  lemma OneDropped(s: Pacing, n: nat, b: Barrier)
    requires VIEW in s.views && s.views[VIEW] == Bound(n, OneFrame(n, b))
    ensures var s' := DropFrames(s, VIEW);
            && DropTells(s, VIEW) && s'.views == s.views[VIEW := Bound(n, [])]
            && s'.signaled == s.signaled + multiset{b} && s'.unblocked == s.unblocked + multiset{CLIENT}
            && s'.loose == s.loose
  {
    var frames := OneFrame(n, b);
    assert BarriersOf(frames) == frames[0].barriers + BarriersOf(frames[1..]);
    assert BarriersOf(frames) == [b];
  }

  /** A fifo client with a second update waiting on the first: unbinding its view applies the second. */
  const OPENING: seq<Event> := [
    Event(Create(VIEW, false, []), 0, true),
    Event(Apply(Bind(VIEW, Some(CLIENT))), 0, true),
    Event(Apply(ShowsOne(1)), 0, true)]

  lemma RunOn(states: seq<Pacing>, events: seq<Event>, e: Event) returns (more: seq<Pacing>)
    requires IsRun(states, events) && Enabled(states[|events|], e)
    requires forall i :: 0 <= i < |events| ==> events[i].now <= e.now
    ensures more == states + [Step(states[|events|], e)] && IsRun(more, events + [e])
    ensures |states| == |events| + 1
  {
    hide Step, Enabled;
    more := states + [Step(states[|events|], e)];
  }

  lemma Starts()
    ensures IsRun([INITIAL], [])
  {
  }

  lemma Opened() returns (states: seq<Pacing>)
    ensures IsRun(states, OPENING) && |states| == 4
    ensures var s := states[3];
            && s.views == map[VIEW := Bound(1, OneFrame(1, 1))] && s.loose == []
            && s.signaled == multiset{} && s.unblocked == multiset{}
  {
    hide IsRun, Applied, Bound, CreateView;
    Starts();
    CreatedBound();
    var s1 := Step(INITIAL, OPENING[0]);
    var s2 := Step(s1, OPENING[1]);
    OneSubmitted(s2, 0, 1);
    states := RunOn([INITIAL], [], OPENING[0]);
    assert [] + [OPENING[0]] == OPENING[..1];
    states := RunOn(states, OPENING[..1], OPENING[1]);
    assert OPENING[..1] + [OPENING[1]] == OPENING[..2] && OPENING[..2] + [OPENING[2]] == OPENING;
    states := RunOn(states, OPENING[..2], OPENING[2]);
    assert s2.views[VIEW := Bound(1, OneFrame(1, 1))] == map[VIEW := Bound(1, OneFrame(1, 1))];
  }

  lemma CreatedBound()
    ensures var s := Applied(CreateView(INITIAL, VIEW, false, [], 0, true), Bind(VIEW, Some(CLIENT)), 0, true);
            && s.views == map[VIEW := Bound(0, [])] && s.loose == []
            && s.signaled == multiset{} && s.unblocked == multiset{}
  {
    assert CreateView(INITIAL, VIEW, false, [], 0, true).views == map[VIEW := FRESH_VIEW];
  }

  /** What unbinding the view then comes to. */
  lemma UnboundLate(s: Pacing)
    requires s.views == map[VIEW := Bound(1, OneFrame(1, 1))] && s.signaled == multiset{} && s.unblocked == multiset{}
    requires s.loose == []
    ensures var s' := UnbindView(s, VIEW, false, [ShowsOne(2)], 0, true);
            && s'.views == map[VIEW := ViewEntry(false, None, 2, OneFrame(2, 2), false, 0)]
            && s'.signaled == multiset{1} && s'.unblocked == multiset{CLIENT} && s'.loose == []
  {
    hide Applied, DropFrames, Bound;
    OneDropped(s, 1, 1);
    var s1 := DropFrames(s, VIEW);
    OneSubmitted(s1, 1, 2);
    var us := [ShowsOne(2)];
    assert us[1..] == [] && us[0] == ShowsOne(2);
    assert ApplyEach(s1, us, 0, true) == Applied(s1, us[0], 0, true);
    assert Bound(2, OneFrame(2, 2)) == ViewEntry(true, Some(CLIENT), 2, OneFrame(2, 2), false, 0) by {
      BoundIs(2, OneFrame(2, 2));
    }
  }

  lemma BoundIs(n: nat, frames: seq<Frame>)
    ensures Bound(n, frames) == ViewEntry(true, Some(CLIENT), n, frames, false, 0)
  {
  }

  lemma ReportedLate(s: Pacing)
    requires s.views == map[VIEW := ViewEntry(false, None, 2, OneFrame(2, 2), false, 0)]
    ensures var s' := FramePresented(s, VIEW, Report(2, 0, 0, 0, 0));
            s'.signaled == s.signaled + multiset{2} && s'.unblocked == s.unblocked
  {
    var frames := OneFrame(2, 2);
    assert Replaced(frames, 2) == 1 && frames[..1] == frames;
    assert BarriersOf(frames) == frames[0].barriers + BarriersOf(frames[1..]);
    assert BarriersOf(frames) == [2];
  }

  lemma LeftLate(s: Pacing)
    requires s.views == map[VIEW := Bound(1, OneFrame(1, 1))] && s.signaled == multiset{} && s.unblocked == multiset{}
    requires s.loose == []
    ensures LeftBehind(s, Event(Unbind(VIEW, false, [ShowsOne(2)]), 0, true)) == {2}
  {
    hide Dropping;
    UnboundLate(s);
    var frames := OneFrame(2, 2);
    assert BarriersOf(frames) == frames[0].barriers + BarriersOf(frames[1..]);
    assert BarriersOf(frames) == [2];
    var s1 := Dropping(s, VIEW, [ShowsOne(2)], 0, true);
    assert FramesOf(Broken(s1, VIEW, false), VIEW) == FramesOf(s1, VIEW) == frames;
    assert SeqSet([2 as Barrier]) == {2};
  }

  /** The unbound view is left with a frame. When that is reported its barrier clears and its client is not told. */
  lemma FrameOutlivesBinding() returns (states: seq<Pacing>, events: seq<Event>)
    ensures IsRun(states, events) && |events| == 5 && events[3].action.Unbind? && events[4].action.Present?
    ensures VIEW in states[4].views && !states[4].views[VIEW].bound && states[4].views[VIEW].frames == OneFrame(2, 2)
    ensures Signals(states[4], states[5], 2) && states[5].unblocked == states[4].unblocked
    ensures LeftBehind(states[3], events[3]) == {2}
  {
    hide IsRun, UnbindView, FramePresented, LeftBehind, Bound;
    states := Opened();
    var unbind := Event(Unbind(VIEW, false, [ShowsOne(2)]), 0, true);
    var report := Event(Present(VIEW, Report(2, 0, 0, 0, 0)), 0, true);
    events := OPENING + [unbind, report];
    var s3 := states[3];
    UnboundLate(s3);
    LeftLate(s3);
    ReportedLate(Step(s3, unbind));
    states := RunOn(states, OPENING, unbind);
    states := RunOn(states, OPENING + [unbind], report);
    assert OPENING + [unbind] + [report] == events;
  }

  /** Had the view been disposed of instead, with its link still there, the second barrier would be nowhere: neither
      signaled nor held. */
  lemma FrameGoesWithItsView() returns (states: seq<Pacing>, events: seq<Event>)
    ensures IsRun(states, events) && |events| == 4 && events[3].action.Dispose?
    ensures 2 in Takes(states[3], events[3]).barriers && 2 !in BarrierLedger(states[4])
  {
    hide IsRun, DisposeView, TakenUnbinding, Bound, BarrierLedger;
    states := Opened();
    var dispose := Event(Dispose(VIEW, false, [ShowsOne(2)]), 0, true);
    events := OPENING + [dispose];
    GoneLate(states[3]);
    states := RunOn(states, OPENING, dispose);
  }

  lemma GoneLate(s: Pacing)
    requires s.views == map[VIEW := Bound(1, OneFrame(1, 1))] && s.signaled == multiset{} && s.unblocked == multiset{}
    requires s.loose == []
    ensures 2 in TakenUnbinding(s, VIEW, [ShowsOne(2)], 0, true).barriers
    ensures 2 !in BarrierLedger(DisposeView(s, VIEW, false, [ShowsOne(2)], 0, true))
  {
    hide UnbindView, DropFrames, Applied, BarrierLedger, TakenUnbinding;
    TakenLate(s);
    UnboundLate(s);
    var s' := DisposeView(s, VIEW, false, [ShowsOne(2)], 0, true);
    assert s'.views == map[];
    NothingLeft(s');
  }

  lemma TakenLate(s: Pacing)
    requires s.views == map[VIEW := Bound(1, OneFrame(1, 1))]
    ensures 2 in TakenUnbinding(s, VIEW, [ShowsOne(2)], 0, true).barriers
  {
    OneDropped(s, 1, 1);
    hide DropFrames, Applied, DropTells;
    var us, s1 := [ShowsOne(2)], DropFrames(s, VIEW);
    assert us[0] == ShowsOne(2) && 2 in TakesOf(s1, us[0]).barriers;
  }

  lemma NothingLeft(s: Pacing)
    requires s.views == map[] && s.loose == [] && s.signaled == multiset{1}
    ensures 2 !in BarrierLedger(s)
  {
    assert BarrierRows(s.views) == map[] && LooseBarriers(s.loose) == [];
  }

  /** One commit with a barrier more than the loose list takes: the first is signaled and no one is told. */
  lemma LooseListOverflows() returns (states: seq<Pacing>, events: seq<Event>)
    ensures IsRun(states, events) && |events| == 1
    ensures Signals(states[0], states[1], 0) && states[1].unblocked == states[0].unblocked
    ensures OverflowAt(states[0], events[0]) == {0}
  {
    var barriers := seq(257, i => i);
    var taken := Taken([], barriers);
    events := [Event(Apply(Unshown(Some(CLIENT), taken)), 0, true)];
    states := [INITIAL, Step(INITIAL, events[0])];
    var due := INITIAL.clock.NextVblank(0);
    var all := INITIAL.loose + LooseOf(CLIENT, barriers, due);
    assert |all| == 257 && all[..1] == [Loose(0, CLIENT, due)];
    assert LooseBarriers(all[..1]) == [0];
  }

  /** A timer refused just as an update with a target is committed: everything is released, and then its own timer is
      registered where nothing looks for it. */
  lemma TimerUnwatched() returns (states: seq<Pacing>, events: seq<Event>)
    ensures IsRun(states, events) && |events| == 2 && events[1].action.CommitTimed?
    ensures TimersWatched(states[1]) && !TimersWatched(states[2])
  {
    hide IsRun, TimersWatched, WatchTarget, AddTimer;
    events := [Event(NewSurface(SURFACE, Some(CLIENT)), 0, true), Event(CommitTimed(SURFACE, 1_000_000_000), 0, false)];
    Starts();
    assert TimersWatched(INITIAL) by { NoTimersYet(); }
    var s1 := Step(INITIAL, events[0]);
    TimersStayWatched(INITIAL, events[0]);
    TimersStayWatched(s1, events[1]);
    states := RunOn([INITIAL], [], events[0]);
    assert [] + [events[0]] == events[..1] && events[..1] + [events[1]] == events;
    states := RunOn(states, events[..1], events[1]);
  }
}

/** What unbinding a view leaves behind (src/state.rs, unbind_view; src/pacing.rs, drop_frames). Dropping the view's
    frames tells its client, which applies what waited on them while the view is still bound: an update shown in the
    view then enters a queue that outlives the binding, and goes unnoticed with a view that is gone. */
module PacingUnbinding {
  import opened Basics
  import opened FrameClocks
  import opened FrameQueues
  import opened PacingSpec
  import opened PacingLedger

  /** The update is shown in the view, by a shell that takes the frame. */
  predicate ShowsIn(u: Update, v: ViewId) { u.Submit? && u.view == v && u.shown.Some? }

  /** Dropping the view's frames has an update applied that is shown in it. */
  predicate ShownUnbinding(s: Pacing, v: ViewId, applied: seq<Update>) {
    DropTells(s, v) && exists u :: u in applied && ShowsIn(u, v)
  }

  ghost predicate SameBinding(s: Pacing, s': Pacing, v: ViewId) {
    && (v in s'.views <==> v in s.views)
    && (v in s.views ==> s'.views[v].bound == s.views[v].bound && s'.views[v].client == s.views[v].client)
  }

  /** What the clock leaves of a view's queue and binding. */
  ghost predicate SameQueue(s: Pacing, s': Pacing, v: ViewId) {
    SameBinding(s, s', v) && (v in s.views ==> |s'.views[v].frames| == |s.views[v].frames|)
  }

  lemma ScheduleKeepsQueue(s: Pacing, at: nat, inserted: bool, v: ViewId)
    ensures SameQueue(s, ScheduleTick(s, at, inserted), v)
  {
    hide BarriersOlder, LooseBarriers;
  }

  lemma HoldKeepsQueue(s: Pacing, client: Option<Client>, taken: Taken, now: Instant, inserted: bool, v: ViewId)
    ensures SameQueue(s, NotShown(s, client, taken, now, inserted), v)
  {
    hide ScheduleTick, LooseBarriers, FrameClock.NextVblank;
    var s1 := s.(answers := s.answers + Discards(taken.feedback));
    if taken.barriers != [] && client.Some? {
      var due := s.clock.NextVblank(now);
      var all := s.loose + LooseOf(client.value, taken.barriers, due);
      var excess := if |all| > MAX_LOOSE then |all| - MAX_LOOSE else 0;
      ScheduleKeepsQueue(s1.(loose := all[excess..], signaled := s.signaled + multiset(LooseBarriers(all[..excess]))),
                         due, inserted, v);
    }
  }

  /** A bound view's queue is empty after an update just if it was and the update is not shown in it. */
  lemma UpdateQueue(s: Pacing, u: Update, now: Instant, inserted: bool, v: ViewId)
    requires v in s.views && s.views[v].bound
    ensures var s' := Applied(s, u, now, inserted);
            && v in s'.views && s'.views[v].bound
            && (s'.views[v].frames == [] <==> s.views[v].frames == [] && !ShowsIn(u, v))
  {
    hide PushFrame, WatchFrames, NotShown, Unsubmitted;
    match u
    case Unshown(client, taken) => HoldKeepsQueue(s, client, taken, now, inserted, v);
    case Bind(_, _) =>
    case Submit(x, taken, shown, cleared) =>
      if x in s.views && s.views[x].bound {
        match shown
        case Some(contents) => ShownQueue(s, x, taken, contents, now, inserted, v);
        case None => RefusedQueue(s, x, taken, cleared, now, inserted, v);
      }
  }

  lemma ShownQueue(s: Pacing, x: ViewId, taken: Taken, shown: seq<Content>, now: Instant, inserted: bool, v: ViewId)
    requires x in s.views
    ensures var s' := WatchFrames(PushFrame(s, x, shown, taken, now), x, now, inserted);
            && SameBinding(s, s', v)
            && (v in s.views ==> (s'.views[v].frames == [] <==> s.views[v].frames == [] && x != v))
  {
    hide ScheduleTick, BarriersOf, FeedbackOf, Entering, Select, ViewWake, FrameClock.NextVblank;
    var s1 := PushFrame(s, x, shown, taken, now);
    var wake := ViewWake(s1.views[x], s1.clock.NextVblank(now));
    if wake.Some? { ScheduleKeepsQueue(s1, wake.value, inserted, v); }
  }

  lemma RefusedQueue(s: Pacing, x: ViewId, taken: Taken, cleared: bool, now: Instant, inserted: bool, v: ViewId)
    requires x in s.views && s.views[x].bound
    ensures SameQueue(s, SubmitView(s, x, taken, None, cleared, now, inserted), v)
  {
    hide ScheduleTick, NotShown, FrameClock.NextVblank;
    var s1 := if cleared then s.(views := s.views[x := s.views[x].(seqNo := s.views[x].seqNo + 1)]) else s;
    HoldKeepsQueue(s1, s.views[x].client, taken, now, inserted, v);
    var s2 := NotShown(s1, s.views[x].client, taken, now, inserted);
    var due := s2.clock.NextVblank(now);
    ScheduleKeepsQueue(if exists p :: p in s2.unsubmitted && p.0 == x then s2
                       else s2.(unsubmitted := s2.unsubmitted + [(x, due)]), due, inserted, v);
  }

  /** Only a bound view has a client. */
  ghost predicate ClientsBound(s: Pacing) {
    forall v :: v in s.views && s.views[v].client.Some? ==> s.views[v].bound
  }

  lemma UpdateKeepsBound(s: Pacing, u: Update, now: Instant, inserted: bool)
    requires ClientsBound(s)
    ensures ClientsBound(Applied(s, u, now, inserted))
  {
    hide PushFrame, WatchFrames, NotShown, Unsubmitted;
    var s' := Applied(s, u, now, inserted);
    if !u.Bind? {
      forall v | v in s'.views && s'.views[v].client.Some? ensures s'.views[v].bound {
        assert SameBinding(s, s', v) by { UpdateKeepsBinding(s, u, now, inserted, v); }
      }
    }
  }

  lemma UpdateKeepsBinding(s: Pacing, u: Update, now: Instant, inserted: bool, v: ViewId)
    requires !u.Bind?
    ensures SameBinding(s, Applied(s, u, now, inserted), v)
  {
    hide PushFrame, WatchFrames, NotShown, Unsubmitted;
    match u
    case Unshown(client, taken) => HoldKeepsQueue(s, client, taken, now, inserted, v);
    case Submit(x, taken, shown, cleared) =>
      if x in s.views && s.views[x].bound {
        match shown
        case Some(contents) => ShownQueue(s, x, taken, contents, now, inserted, v);
        case None => RefusedQueue(s, x, taken, cleared, now, inserted, v);
      }
  }

  lemma {:induction false} UpdatesQueue(s: Pacing, us: seq<Update>, now: Instant, inserted: bool, v: ViewId)
    requires v in s.views && s.views[v].bound
    ensures var s' := ApplyEach(s, us, now, inserted);
            && v in s'.views && s'.views[v].bound
            && (s'.views[v].frames == [] <==> s.views[v].frames == [] && forall u :: u in us ==> !ShowsIn(u, v))
    decreases |us|
  {
    hide Applied;
    if us != [] {
      UpdateQueue(s, us[0], now, inserted, v);
      UpdatesQueue(Applied(s, us[0], now, inserted), us[1..], now, inserted, v);
      assert us == [us[0]] + us[1..];
    }
  }

  /** A view is left with an empty queue by its unbinding exactly when no update shown in it was applied as its frames
      were dropped. */
  lemma UnboundEmptyIff(s: Pacing, v: ViewId, cleared: bool, applied: seq<Update>, now: Instant, inserted: bool)
    requires v in s.views
    ensures var s' := UnbindView(s, v, cleared, applied, now, inserted);
            && v in s'.views && !s'.views[v].bound
            && (s'.views[v].frames == [] <==> !ShownUnbinding(s, v, applied))
  {
    hide ApplyEach, BarriersOf, FeedbackOf;
    if DropTells(s, v) { UpdatesQueue(DropFrames(s, v), applied, now, inserted, v); }
  }

  /** So frames go with a view just when it was replaced or disposed of with such an update waiting -- and none do
      once its link to the shell is gone, since the shell takes no frame then. */
  lemma LostIff(s: Pacing, e: Event)
    requires Enabled(s, e)
    ensures Lost(s, e) != [] <==>
              (e.action.Create? || e.action.Dispose?) && ShownUnbinding(s, e.action.view, e.action.applied)
  {
    hide UnbindView;
    if e.action.Create? || e.action.Dispose? {
      var v := e.action.view;
      if v in s.views {
        UnboundEmptyIff(s, v, e.action.cleared, e.action.applied, e.now, e.inserted);
      } else {
        NotThere(s, v, e.action.cleared, e.action.applied, e.now, e.inserted);
      }
    }
  }

  lemma NotThere(s: Pacing, v: ViewId, cleared: bool, applied: seq<Update>, now: Instant, inserted: bool)
    requires v !in s.views
    ensures UnbindView(s, v, cleared, applied, now, inserted) == s
  {
  }

  /** With every view's link gone before the view is, nothing at all is lost. */
  lemma {:induction false} NothingLost(states: seq<Pacing>, events: seq<Event>, i: nat)
    requires IsRun(states, events) && i <= |events|
    requires forall j :: 0 <= j < i && (events[j].action.Create? || events[j].action.Dispose?) ==>
               forall u :: u in events[j].action.applied ==> !ShowsIn(u, events[j].action.view)
    ensures BarrierLedger(states[i]) == BarriersTaken(states, events, i)
    ensures FeedbackLedger(states[i]) == FeedbackTaken(states, events, i)
  {
    hide BarrierLedger, FeedbackLedger, Lost, Step, Takes;
    LedgerHolds(states, events, i);
    NoneLostBy(states, events, i);
  }

  lemma {:induction false} NoneLostBy(states: seq<Pacing>, events: seq<Event>, i: nat)
    requires IsRun(states, events) && i <= |events|
    requires forall j :: 0 <= j < i && (events[j].action.Create? || events[j].action.Dispose?) ==>
               forall u :: u in events[j].action.applied ==> !ShowsIn(u, events[j].action.view)
    ensures BarriersLost(states, events, i) == multiset{} && FeedbackLost(states, events, i) == multiset{}
  {
    hide Step, Lost, DropTells;
    if i > 0 {
      NoneLostBy(states, events, i - 1);
      LostIff(states[i - 1], events[i - 1]);
      NoFramesNoBooks();
    }
  }
}

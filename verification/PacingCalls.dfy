/** When a view's frame callbacks are sent: with each report of the view, at the refresh by which one of its frames
    could not be submitted or has gone unreported for too long, and, should the clock be out of order, at once. */
module PacingCalls {
  import opened Basics
  import opened FrameClocks
  import opened FrameQueues
  import opened MultisetSums
  import opened PacingSpec
  import opened PacingLists
  import opened PacingProofs

  /** The view shows a toplevel, and is in the scene. */
  predicate OnScreen(s: Pacing, v: ViewId) { v in s.views && s.views[v].bound && !s.views[v].suspended }

  predicate Refused(s: Pacing, at: nat, inserted: bool) { !inserted && (s.tick.None? || at < s.tick.value) }

  function Once(sent: bool): nat { if sent then 1 else 0 }

  /** The event sends the view's frame callbacks. */
  ghost predicate Sends(s: Pacing, e: Event, v: ViewId) {
    match e.action
    case Present(w, _) => w == v && v in s.views && s.views[v].bound
    case ClockTick =>
      && OnScreen(s, v)
      && ((exists p :: p in s.unsubmitted && p.0 == v && p.1 <= e.now)
          || exists i :: 0 <= i < |s.views[v].frames| && !s.views[v].frames[i].flushed
                         && Stale(s.views[v].frames[i], e.now))
    case _ => false
  }

  /** Who shows what, and in the scene or not, is as it was, and nothing was sent. */
  ghost predicate SameScene(s: Pacing, s': Pacing) {
    s'.views.Keys == s.views.Keys
    && forall v :: v in s.views ==>
         s'.views[v].bound == s.views[v].bound && s'.views[v].suspended == s.views[v].suspended
  }

  /** Arming the clock sends nothing. Where it is needed sooner than it is armed for and cannot be, it sends the frame
      callbacks of every view on screen, once. */
  lemma ScheduleCalls(s: Pacing, at: nat, inserted: bool, v: ViewId)
    ensures var s' := ScheduleTick(s, at, inserted);
            SameScene(s, s') && s'.called[v] == s.called[v] + Once(Refused(s, at, inserted) && OnScreen(s, v))
  {
    hide WaitingClients, TimersCut, EveryReleasedRows, LooseBarriers, ReleasedOlder, TotalOver;
  }

  // ----- while the clock can be armed -----

  lemma TickSends(s: Pacing, now: Instant, inserted: bool, v: ViewId)
    ensures v in Callable(TickViews(s.views, now), TickCalled(s, now)) <==>
              Sends(s, Event(ClockTick, now, inserted), v)
  {
    UnsubmittedSplit(s.unsubmitted, now);
    hide ReleasedOlder, FlushedOlder, NextStale, UnsubmittedDue;
    if v in s.views { FlushesIff(s.views[v], now); }
    hide TickFlushes, Stale;
    forall p ensures p in UnsubmittedDue(s.unsubmitted, now, true) <==> p in s.unsubmitted && p.1 <= now {}
  }

  lemma FlushesIff(e: ViewEntry, now: Instant)
    ensures TickFlushes(e, now) <==>
              !e.suspended && exists i :: 0 <= i < |e.frames| && !e.frames[i].flushed && Stale(e.frames[i], now)
  {
  }

  lemma TickCalls(s: Pacing, now: Instant, inserted: bool, v: ViewId)
    ensures Tick(s, now, inserted).called[v]
         == s.called[v] + Once(Sends(s, Event(ClockTick, now, inserted), v))
            + Once(!inserted && OnScreen(s, v) && Tick(s, now, true).tick.Some?)
  {
    TickSends(s, now, inserted, v);
    var s1 := TickReleases(s, now);
    TickedScene(s, now);
    TickStarts(s, now);
    hide TickReleases, Callable, Sends, Wakes;
    if Wakes(s1, now) != {} {
      var at := Max(Least(Wakes(s1, now)), now + MIN_DELAY_NS);
      ScheduleCalls(s1, at, inserted, v);
      Armable(s1, at);
      hide ScheduleTick;
    }
  }

  lemma TickStarts(s: Pacing, now: Instant)
    ensures var s' := TickReleases(s, now);
            s'.called == s.called + multiset(Callable(TickViews(s.views, now), TickCalled(s, now))) && s'.tick == None
  {
    hide TickViews, TimersCut, LooseDue, UnsubmittedDue, TickReleasedRows, TickUnblocked, StillTimed, Callable,
      TickCalled, TotalOver, LooseBarriers;
  }

  lemma Armable(s: Pacing, at: nat)
    requires s.tick == None
    ensures ScheduleTick(s, at, true).tick == Some(at)
  {
  }

  lemma TickedScene(s: Pacing, now: Instant)
    ensures SameScene(s, TickReleases(s, now))
  {
    TickedEntries(s.views, now);
    hide TickViews, TimersCut, LooseDue, UnsubmittedDue, TickReleasedRows, TickUnblocked, StillTimed, Callable,
      TotalOver, LooseBarriers, TickCalled;
  }

  lemma TickedEntries(views: map<ViewId, ViewEntry>, now: Instant)
    ensures var ticked := TickViews(views, now);
            && ticked.Keys == views.Keys
            && forall v :: v in views ==> ticked[v].bound == views[v].bound && ticked[v].suspended == views[v].suspended
  {
    forall v | v in views
      ensures TickView(views[v], now).bound == views[v].bound && TickView(views[v], now).suspended == views[v].suspended
    {
      hide ReleasedOlder, FlushedOlder, NextStale;
    }
    hide TickView;
  }

  /** Bindings may be added; nothing is sent but for a clock that cannot be armed, and then to views on screen. */
  ghost predicate SendsNone(s: Pacing, s': Pacing, inserted: bool) {
    && s'.views.Keys == s.views.Keys
    && (forall v :: v in s.views ==>
         s'.views[v].suspended == s.views[v].suspended && (s.views[v].bound ==> s'.views[v].bound))
    && (forall v: ViewId :: s.called[v] <= s'.called[v])
    && (forall v: ViewId :: s.called[v] < s'.called[v] ==> !inserted && OnScreen(s', v))
  }

  lemma SendsNoneOn(a: Pacing, b: Pacing, c: Pacing, inserted: bool)
    requires SendsNone(a, b, inserted) && SendsNone(b, c, inserted)
    ensures SendsNone(a, c, inserted)
  {
    forall v: ViewId
      ensures a.called[v] <= c.called[v] && (a.called[v] < c.called[v] ==> !inserted && OnScreen(c, v))
    {
      assert a.called[v] <= b.called[v] <= c.called[v];
      if a.called[v] < b.called[v] { assert OnScreen(b, v); }
    }
    forall v | v in a.views
      ensures c.views[v].suspended == a.views[v].suspended && (a.views[v].bound ==> c.views[v].bound)
    {
      assert b.views[v].suspended == a.views[v].suspended;
    }
  }

  lemma ScheduleSends(s: Pacing, at: nat, inserted: bool)
    ensures SendsNone(s, ScheduleTick(s, at, inserted), inserted)
  {
    hide ScheduleTick;
    var s' := ScheduleTick(s, at, inserted);
    ScheduleCalls(s, at, inserted, 0);
    forall v: ViewId ensures s'.called[v] == s.called[v] + Once(Refused(s, at, inserted) && OnScreen(s, v)) {
      ScheduleCalls(s, at, inserted, v);
    }
  }

  lemma HoldSends(s: Pacing, client: Option<Client>, taken: Taken, now: Instant, inserted: bool)
    ensures SendsNone(s, NotShown(s, client, taken, now, inserted), inserted)
  {
    hide ScheduleTick, LooseBarriers, FrameClock.NextVblank, SendsNone;
    var s1 := s.(answers := s.answers + Discards(taken.feedback));
    JustSame(s, s1, inserted);
    if taken.barriers != [] {
      if client.None? {
        JustSame(s, NotShown(s, client, taken, now, inserted), inserted);
      } else {
        var due := s.clock.NextVblank(now);
        var all := s1.loose + LooseOf(client.value, taken.barriers, due);
        var excess := if |all| > MAX_LOOSE then |all| - MAX_LOOSE else 0;
        var s2 := s1.(loose := all[excess..], signaled := s1.signaled + multiset(LooseBarriers(all[..excess])));
        JustSame(s, s2, inserted);
        ScheduleSends(s2, due, inserted);
        SendsNoneOn(s, s2, ScheduleTick(s2, due, inserted), inserted);
      }
    }
  }

  lemma JustSame(s: Pacing, s': Pacing, inserted: bool)
    requires s'.views == s.views && s'.called == s.called
    ensures SendsNone(s, s', inserted)
  {
  }

  /** One view's entry changes, in anything but where it is; bound it stays. */
  lemma EntrySends(s: Pacing, s': Pacing, v: ViewId, inserted: bool)
    requires v in s.views && v in s'.views && s'.views == s.views[v := s'.views[v]] && s'.called == s.called
    requires s'.views[v].suspended == s.views[v].suspended && (s.views[v].bound ==> s'.views[v].bound)
    ensures SendsNone(s, s', inserted)
  {
  }

  lemma UnsubmittedSends(s: Pacing, v: ViewId, now: Instant, inserted: bool)
    ensures SendsNone(s, Unsubmitted(s, v, now, inserted), inserted)
  {
    hide ScheduleTick, FrameClock.NextVblank, SendsNone;
    var due := s.clock.NextVblank(now);
    var s1 := if exists p :: p in s.unsubmitted && p.0 == v then s else s.(unsubmitted := s.unsubmitted + [(v, due)]);
    JustSame(s, s1, inserted);
    ScheduleSends(s1, due, inserted);
    SendsNoneOn(s, s1, ScheduleTick(s1, due, inserted), inserted);
  }

  lemma SubmitSends(s: Pacing, v: ViewId, taken: Taken, shown: Option<seq<Content>>, cleared: bool, now: Instant,
                    inserted: bool)
    ensures SendsNone(s, SubmitView(s, v, taken, shown, cleared, now, inserted), inserted)
  {
    hide ScheduleTick, NotShown, Unsubmitted, SendsNone, FrameClock.NextVblank, ViewWake, BarriersOf, FeedbackOf,
      Select, Discards, Entering;
    JustSame(s, s, inserted);
    if v in s.views && s.views[v].bound {
      match shown
      case Some(contents) =>
        var s1 := PushFrame(s, v, contents, taken, now);
        EntrySends(s, s1, v, inserted);
        JustSame(s1, s1, inserted);
        if ViewWake(s1.views[v], s1.clock.NextVblank(now)).Some? {
          ScheduleSends(s1, ViewWake(s1.views[v], s1.clock.NextVblank(now)).value, inserted);
        }
        SendsNoneOn(s, s1, WatchFrames(s1, v, now, inserted), inserted);
      case None =>
        var e := s.views[v];
        var s1 := if cleared then s.(views := s.views[v := e.(seqNo := e.seqNo + 1)]) else s;
        if cleared { EntrySends(s, s1, v, inserted); }
        var s2 := NotShown(s1, e.client, taken, now, inserted);
        HoldSends(s1, e.client, taken, now, inserted);
        SendsNoneOn(s, s1, s2, inserted);
        UnsubmittedSends(s2, v, now, inserted);
        SendsNoneOn(s, s2, Unsubmitted(s2, v, now, inserted), inserted);
    }
  }

  lemma UpdateSends(s: Pacing, u: Update, now: Instant, inserted: bool)
    ensures SendsNone(s, Applied(s, u, now, inserted), inserted)
  {
    hide NotShown, SubmitView;
    match u
    case Unshown(client, taken) => HoldSends(s, client, taken, now, inserted);
    case Submit(v, taken, shown, cleared) => SubmitSends(s, v, taken, shown, cleared, now, inserted);
    case Bind(v, client) =>
  }

  lemma {:induction false} UpdatesSend(s: Pacing, us: seq<Update>, now: Instant, inserted: bool)
    ensures SendsNone(s, ApplyEach(s, us, now, inserted), inserted)
    decreases |us|
  {
    hide Applied, SendsNone;
    if us == [] {
      JustSame(s, s, inserted);
    } else {
      UpdateSends(s, us[0], now, inserted);
      UpdatesSend(Applied(s, us[0], now, inserted), us[1..], now, inserted);
      SendsNoneOn(s, Applied(s, us[0], now, inserted), ApplyEach(s, us, now, inserted), inserted);
    }
  }

  lemma DroppingSends(s: Pacing, v: ViewId, applied: seq<Update>, now: Instant, inserted: bool)
    ensures SendsNone(s, Dropping(s, v, applied, now, inserted), inserted)
    ensures !DropTells(s, v) ==> Dropping(s, v, applied, now, inserted).called == s.called
  {
    hide ApplyEach, BarriersOf, FeedbackOf, Discards, SendsNone;
    var s1 := DropFrames(s, v);
    if v in s.views { EntrySends(s, s1, v, inserted); } else { JustSame(s, s, inserted); }
    if DropTells(s, v) {
      UpdatesSend(s1, applied, now, inserted);
      SendsNoneOn(s, s1, ApplyEach(s1, applied, now, inserted), inserted);
    }
  }

  // ----- every step -----

  /** Frame callbacks are sent once for each view the event sends them for, and with a clock that can be armed for no
      other. One that cannot be has them sent to views on screen only; a tick then sends them once more, if it leaves
      anything to wait for. */
  lemma StepCalls(s: Pacing, e: Event, v: ViewId)
    requires Enabled(s, e)
    ensures var s', sent := Step(s, e), s.called[v] + Once(Sends(s, e, v));
            && sent <= s'.called[v]
            && (e.inserted || e.action.Present? ==> s'.called[v] == sent)
            && (e.action.ClockTick? ==>
                 s'.called[v] == sent + Once(!e.inserted && OnScreen(s, v) && Tick(s, e.now, true).tick.Some?))
            && (sent < s'.called[v] ==> OnScreen(s, v) || OnScreen(s', v))
  {
    hide Applied, Tick, UnbindView, CreateView, DisposeView, ScheduleTick, BarriersOf, FeedbackOf, Answers;
    match e.action
    case Apply(u) => UpdateSends(s, u, e.now, e.inserted);
    case CommitTimed(x, target) =>
      ScheduleSends(if x in s.timed then s else s.(timed := s.timed + [x]), e.now, e.inserted);
    case Suspend(w, suspended) => SuspendSends(s, w, suspended, e.now, e.inserted);
    case ClockTick => TickCalls(s, e.now, e.inserted, v);
    case Unbind(_, _, _) => BreakCalls(s, e, v);
    case Create(_, _, _) => BreakCalls(s, e, v);
    case Dispose(_, _, _) => BreakCalls(s, e, v);
    case _ =>
  }

  lemma BreakCalls(s: Pacing, e: Event, v: ViewId)
    requires Enabled(s, e) && (e.action.Unbind? || e.action.Create? || e.action.Dispose?)
    ensures var s' := Step(s, e);
            && s.called[v] <= s'.called[v] && (e.inserted ==> s'.called[v] == s.called[v])
            && (s.called[v] < s'.called[v] ==> OnScreen(s, v) || OnScreen(s', v))
  {
    hide Dropping, BarriersOf;
    var w, s1, s' := e.action.view, Dropping(s, e.action.view, e.action.applied, e.now, e.inserted), Step(s, e);
    DroppingSends(s, w, e.action.applied, e.now, e.inserted);
    assert s'.called == s1.called && (v != w && v in s1.views ==> v in s'.views && s'.views[v] == s1.views[v]);
  }

  lemma SuspendSends(s: Pacing, v: ViewId, suspended: bool, now: Instant, inserted: bool)
    ensures var s' := ViewSuspended(s, v, suspended, now, inserted);
            forall u: ViewId ::
              s.called[u] <= s'.called[u] && (s.called[u] < s'.called[u] ==> !inserted && OnScreen(s', u))
  {
    hide ScheduleTick, NextStale, FrameClock.NextVblank;
    if v in s.views {
      var e := s.views[v].(suspended := suspended, hiddenReleaseNs := s.clock.NextVblank(now));
      var s1 := s.(views := s.views[v := e]);
      if NextStale(e.frames, !suspended).Some? {
        var at := NextStale(e.frames, !suspended).value;
        ScheduleSends(s1, if suspended then e.hiddenReleaseNs else Max(at, now + STALE_NS), inserted);
      }
    }
  }
}

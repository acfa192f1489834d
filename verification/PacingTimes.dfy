/** When the clock is needed: what the display's refresh is taken to be, by when each thing that waits is due, and at
    what time the clock is armed. */
module PacingTimes {
  import opened Basics
  import opened FrameClocks
  import opened FrameQueues
  import opened MultisetSums
  import opened PacingSpec
  import opened PacingLists
  import opened PacingProofs

  // ----- the display's refresh, by the reports -----

  /** The latest vblank reported, and the last refresh period reported that is known. */
  function LatestVblank(events: seq<Event>): nat {
    if events == [] then 0
    else
      var before := LatestVblank(events[..|events| - 1]);
      match events[|events| - 1].action
      case Present(_, report) => if report.ustNs > before then report.ustNs else before
      case _ => before
  }

  function LastRefresh(events: seq<Event>): nat {
    if events == [] then 16_666_667
    else
      match events[|events| - 1].action
      case Present(_, report) => if report.refreshNs != 0 then report.refreshNs else LastRefresh(events[..|events| - 1])
      case _ => LastRefresh(events[..|events| - 1])
  }

  lemma ScheduleKeepsClock(s: Pacing, at: nat, inserted: bool)
    ensures ScheduleTick(s, at, inserted).clock == s.clock
  {
    hide TimersCut, EveryReleased, EveryReleasedRows, TotalOver, LooseBarriers, Callable, WaitingClients;
  }

  lemma UpdateKeepsClock(s: Pacing, u: Update, now: Instant, inserted: bool)
    ensures Applied(s, u, now, inserted).clock == s.clock
  {
    hide ScheduleTick, NotShown, Unsubmitted, WatchFrames, PushFrame;
    match u
    case Unshown(client, taken) => NotShownKeepsClock(s, client, taken, now, inserted);
    case Submit(v, taken, shown, cleared) =>
      if v in s.views && s.views[v].bound {
        match shown
        case Some(contents) => SubmitKeepsClock(s, v, contents, taken, now, inserted);
        case None =>
          var s1 := if cleared then s.(views := s.views[v := s.views[v].(seqNo := s.views[v].seqNo + 1)]) else s;
          NotShownKeepsClock(s1, s.views[v].client, taken, now, inserted);
          UnsubmittedKeepsClock(NotShown(s1, s.views[v].client, taken, now, inserted), v, now, inserted);
      }
    case Bind(_, _) =>
  }

  lemma NotShownKeepsClock(s: Pacing, client: Option<Client>, taken: Taken, now: Instant, inserted: bool)
    ensures NotShown(s, client, taken, now, inserted).clock == s.clock
  {
    ClockKept();
    hide ScheduleTick, LooseBarriers, LooseOf, Discards, FrameClock.NextVblank;
  }

  lemma UnsubmittedKeepsClock(s: Pacing, v: ViewId, now: Instant, inserted: bool)
    ensures Unsubmitted(s, v, now, inserted).clock == s.clock
  {
    ClockKept();
    hide ScheduleTick, FrameClock.NextVblank;
  }

  lemma SubmitKeepsClock(s: Pacing, v: ViewId, shown: seq<Content>, taken: Taken, now: Instant, inserted: bool)
    requires v in s.views
    ensures WatchFrames(PushFrame(s, v, shown, taken, now), v, now, inserted).clock == s.clock
  {
    ClockKept();
    hide ScheduleTick, ViewWake, BarriersOf, FeedbackOf, Select, Discards, Entering, FrameClock.NextVblank;
  }

  lemma ClockKept()
    ensures forall s, at: nat, inserted :: ScheduleTick(s, at, inserted).clock == s.clock
  {
    forall s, at: nat, inserted ensures ScheduleTick(s, at, inserted).clock == s.clock {
      ScheduleKeepsClock(s, at, inserted);
    }
  }

  lemma {:induction false} UpdatesKeepClock(s: Pacing, us: seq<Update>, now: Instant, inserted: bool)
    ensures ApplyEach(s, us, now, inserted).clock == s.clock
    decreases |us|
  {
    hide Applied;
    if us != [] {
      UpdateKeepsClock(s, us[0], now, inserted);
      UpdatesKeepClock(Applied(s, us[0], now, inserted), us[1..], now, inserted);
    }
  }

  lemma StepClock(s: Pacing, e: Event)
    requires Enabled(s, e)
    ensures Step(s, e).clock == match e.action
                                case Present(_, report) => s.clock.Update(report.ustNs, report.refreshNs)
                                case _ => s.clock
  {
    ClockKept();
    hide FrameClock.Update, ScheduleTick, Applied, ApplyEach, TickViews, TimersCut, LooseDue, UnsubmittedDue,
      StillTimed, TickUnblocked, TickCalled, Callable, TickReleasedRows, TotalOver, LooseBarriers, Wakes, BarriersOf,
      FeedbackOf, Answers, NextStale, FrameClock.NextVblank;
    match e.action
    case Apply(u) => UpdateKeepsClock(s, u, e.now, e.inserted);
    case Unbind(v, _, applied) => UpdatesKeepClock(DropFrames(s, v), applied, e.now, e.inserted);
    case Create(v, _, applied) => UpdatesKeepClock(DropFrames(s, v), applied, e.now, e.inserted);
    case Dispose(v, _, applied) => UpdatesKeepClock(DropFrames(s, v), applied, e.now, e.inserted);
    case _ =>
  }

  /** In every state of every run the clock has the latest vblank reported and the last refresh that was known; 60 Hz
      until there was one. */
  lemma {:induction false} ClockFollows(states: seq<Pacing>, events: seq<Event>, i: nat)
    requires IsRun(states, events) && i <= |events|
    ensures states[i].clock.ustNs == LatestVblank(events[..i]) && states[i].clock.refreshNs == LastRefresh(events[..i])
  {
    if i > 0 {
      hide Step, Enabled;
      ClockFollows(states, events, i - 1);
      StepClock(states[i - 1], events[i - 1]);
      assert events[..i][..i - 1] == events[..i - 1];
    }
  }

  /** A target can be met by the next vblank when it is no more than half a millisecond past it: past every vblank of
      the grid still to come, that is, by no more. */
  lemma DueIff(c: FrameClock, target: U64, now: Instant)
    ensures target <= c.Due(now) <==> forall k: nat :: c.Grid(k) > now ==> target <= c.Grid(k) + 500_000
  {
    NextVblankIsEarliest(c, now);
    if target <= c.Due(now) {
      forall k: nat | c.Grid(k) > now ensures target <= c.Grid(k) + 500_000 {}
    } else {
      assert c.NextVblank(now) != MAX_U64;
      var k: nat :| c.NextVblank(now) == c.Grid(k) > now;
    }
  }

  // ----- what the clock is armed for -----

  /** The clock's time with something more to wake for. */
  function Sooner(tick: Option<nat>, at: nat): Option<nat> {
    if tick.Some? && tick.value <= at then tick else Some(at)
  }

  /** A quarter of a second after the first of the frames that goes unreported, or holds a barrier, was submitted. */
  ghost predicate FirstStale(fs: seq<Frame>, at: nat) {
    exists i :: && 0 <= i < |fs| && (fs[i].barriers != [] || !fs[i].flushed)
                && (forall j :: 0 <= j < i ==> fs[j].barriers == [] && fs[j].flushed)
                && at == Capped(fs[i].submittedNs + 250_000_000)
  }

  function Capped(t: nat): nat { if t < 0xffff_ffff_ffff_ffff then t else 0xffff_ffff_ffff_ffff }

  /** When a view needs the clock. On screen that is for its first frame to go stale; off screen, as long as one of its
      frames holds a barrier, its release time or the next vblank, whichever is later. */
  ghost predicate NeedsAt(e: ViewEntry, vblank: nat, at: nat) {
    if e.suspended then HoldsBarrier(e) && at == if e.hiddenReleaseNs < vblank then vblank else e.hiddenReleaseNs
    else FirstStale(e.frames, at)
  }

  lemma StaleIs(fs: seq<Frame>, at: nat)
    ensures NextStale(fs, true) == Some(at) <==> FirstStale(fs, at)
  {
    NextStaleIsOldest(fs, true);
    hide NextStale;
  }

  lemma WakeIs(e: ViewEntry, vblank: U64, at: nat)
    ensures ViewWake(e, vblank) == Some(at) <==> NeedsAt(e, vblank, at)
  {
    StaleIs(e.frames, at);
    StaleIffPending(e);
    hide NextStale, FirstStale;
  }

  /** The clock is armed for the view as well, if it needs it. */
  ghost predicate ArmedFor(tick: Option<nat>, e: ViewEntry, vblank: nat, tick': Option<nat>) {
    && (forall at: nat :: NeedsAt(e, vblank, at) ==> tick' == Sooner(tick, at))
    && ((forall at: nat :: !NeedsAt(e, vblank, at)) ==> tick' == tick)
  }

  /** A timer that is taken: the clock is armed by the time, and nothing else changes. */
  lemma TakenArms(s: Pacing, at: nat)
    ensures ScheduleTick(s, at, true) == s.(tick := Sooner(s.tick, at))
  {
  }

  lemma AllTakenArm()
    ensures forall s, at: nat :: ScheduleTick(s, at, true) == s.(tick := Sooner(s.tick, at))
  {
    forall s, at: nat ensures ScheduleTick(s, at, true) == s.(tick := Sooner(s.tick, at)) { TakenArms(s, at); }
  }

  lemma FramesArm(s: Pacing, v: ViewId, now: Instant)
    requires v in s.views
    ensures var s' := WatchFrames(s, v, now, true);
            s' == s.(tick := s'.tick) && ArmedFor(s.tick, s.views[v], s.clock.NextVblank(now), s'.tick)
  {
    var e, vblank := s.views[v], s.clock.NextVblank(now);
    forall at: nat ensures ViewWake(e, vblank) == Some(at) <==> NeedsAt(e, vblank, at) { WakeIs(e, vblank, at); }
    AllTakenArm();
    hide ScheduleTick, ViewWake, NeedsAt, FrameClock.NextVblank;
  }

  /** What an update adds to the barriers held loose: those it waits for, due at the next vblank. Of all of them the
      last 256 are held. */
  ghost predicate HoldsMore(loose: seq<Loose>, loose': seq<Loose>, client: Option<Client>, barriers: seq<Barrier>,
                            due: nat) {
    if barriers == [] || client.None? then loose' == loose
    else
      var cut := if |loose| + |barriers| > 256 then |loose| + |barriers| - 256 else 0;
      && |loose'| == |loose| + |barriers| - cut
      && forall i :: 0 <= i < |loose'| ==>
           if i + cut < |loose| then loose'[i] == loose[i + cut]
           else loose'[i].barrier == barriers[i + cut - |loose|] && loose'[i].client == client.value
                && loose'[i].dueNs == due
  }

  /** An update shown nowhere arms the clock for the next vblank if it has a client's barrier to hold until then. */
  lemma NotShownArms(s: Pacing, client: Option<Client>, taken: Taken, now: Instant)
    ensures var s', vblank := NotShown(s, client, taken, now, true), s.clock.NextVblank(now);
            && HoldsMore(s.loose, s'.loose, client, taken.barriers, vblank)
            && s'.tick == (if taken.barriers != [] && client.Some? then Sooner(s.tick, vblank) else s.tick)
            && s'.unsubmitted == s.unsubmitted && s'.clock == s.clock
  {
    AllTakenArm();
    hide ScheduleTick, FrameClock.NextVblank, LooseBarriers;
  }

  /** So does a frame that could not be submitted: its view is listed, once, to have its frame callbacks sent then. A
      frame that is submitted arms the clock for what its view now needs. */
  lemma SubmitArms(s: Pacing, v: ViewId, taken: Taken, shown: Option<seq<Content>>, cleared: bool, now: Instant)
    requires v in s.views && s.views[v].bound
    ensures var s', vblank := SubmitView(s, v, taken, shown, cleared, now, true), s.clock.NextVblank(now);
            if shown.Some? then
              && v in s'.views && ArmedFor(s.tick, s'.views[v], vblank, s'.tick)
              && s'.loose == s.loose && s'.unsubmitted == s.unsubmitted
            else
              && HoldsMore(s.loose, s'.loose, s.views[v].client, taken.barriers, vblank)
              && s'.tick == Sooner(s.tick, vblank)
              && s'.unsubmitted == if exists p :: p in s.unsubmitted && p.0 == v then s.unsubmitted
                                   else s.unsubmitted + [(v, vblank)]
  {
    hide NotShown, PushFrame, WatchFrames, ArmedFor, HoldsMore, FrameClock.NextVblank, ScheduleTick;
    match shown
    case Some(contents) =>
      var s1 := PushFrame(s, v, contents, taken, now);
      PushedOnly(s, v, contents, taken, now);
      FramesArm(s1, v, now);
    case None =>
      var s1 := if cleared then s.(views := s.views[v := s.views[v].(seqNo := s.views[v].seqNo + 1)]) else s;
      var s2 := NotShown(s1, s.views[v].client, taken, now, true);
      NotShownArms(s1, s.views[v].client, taken, now);
      AllTakenArm();
      assert SubmitView(s, v, taken, shown, cleared, now, true) == Unsubmitted(s2, v, now, true);
  }

  lemma PushedOnly(s: Pacing, v: ViewId, shown: seq<Content>, taken: Taken, now: Instant)
    requires v in s.views
    ensures var s' := PushFrame(s, v, shown, taken, now);
            && v in s'.views && s'.tick == s.tick && s'.clock == s.clock
            && s'.loose == s.loose && s'.unsubmitted == s.unsubmitted
  {
    hide BarriersOf, FeedbackOf, Select, Discards, Entering;
  }

  /** A view leaving the scene needs the clock at the next vblank if a frame holds a barrier. One coming into it gives
      its frames a quarter of a second from now at the least. */
  ghost predicate ArmedOnMove(tick: Option<nat>, e: ViewEntry, suspended: bool, vblank: nat, now: nat,
                              tick': Option<nat>) {
    if suspended then tick' == if HoldsBarrier(e) then Sooner(tick, vblank) else tick
    else
      && ((forall at: nat :: !FirstStale(e.frames, at)) ==> tick' == tick)
      && (forall at: nat :: FirstStale(e.frames, at) ==>
           tick' == Sooner(tick, if at < now + 250_000_000 then now + 250_000_000 else at))
  }

  lemma SuspendArms(s: Pacing, v: ViewId, suspended: bool, now: Instant)
    requires v in s.views
    ensures var s', vblank := ViewSuspended(s, v, suspended, now, true), s.clock.NextVblank(now);
            && s'.views == s.views[v := s.views[v].(suspended := suspended, hiddenReleaseNs := vblank)]
            && ArmedOnMove(s.tick, s.views[v], suspended, vblank, now, s'.tick)
  {
    var fs := s.views[v].frames;
    StaleIffPending(s.views[v]);
    forall at: nat ensures NextStale(fs, true) == Some(at) <==> FirstStale(fs, at) { StaleIs(fs, at); }
    AllTakenArm();
    hide ScheduleTick, FrameClock.NextVblank, NextStale, FirstStale, HoldsBarrier;
  }

  /** Unbinding arms the clock for what the updates applied then need, one after the other. */
  ghost function TickUnbound(s: Pacing, v: ViewId, applied: seq<Update>, now: Instant): Option<nat> {
    if DropTells(s, v) then ApplyEach(DropFrames(s, v), applied, now, true).tick else s.tick
  }

  lemma UnbindArms(s: Pacing, v: ViewId, cleared: bool, applied: seq<Update>, now: Instant)
    ensures TickUnbound(s, v, applied, now)
         == UnbindView(s, v, cleared, applied, now, true).tick
         == CreateView(s, v, cleared, applied, now, true).tick
         == DisposeView(s, v, cleared, applied, now, true).tick
  {
    hide ApplyEach, BarriersOf, FeedbackOf, Discards;
  }

  /** What each event but the clock's own tick arms it for, as long as its timers are taken: the reports, a binding and
      surfaces coming and going for nothing, an update held back for its target for right away. */
  lemma StepArms(s: Pacing, e: Event)
    requires Enabled(s, e) && e.inserted && !e.action.ClockTick?
    ensures var s', vblank := Step(s, e), s.clock.NextVblank(e.now);
            match e.action
            case Apply(Unshown(client, taken)) =>
              s'.tick == if taken.barriers != [] && client.Some? then Sooner(s.tick, vblank) else s.tick
            case Apply(Submit(v, _, shown, _)) =>
              if v !in s.views || !s.views[v].bound then s' == s
              else if shown.None? then s'.tick == Sooner(s.tick, vblank)
              else v in s'.views && ArmedFor(s.tick, s'.views[v], vblank, s'.tick)
            case CommitTimed(x, _) => s'.tick == if x in s.surfaces then Sooner(s.tick, e.now) else s.tick
            case Suspend(v, suspended) =>
              if v !in s.views then s' == s
              else ArmedOnMove(s.tick, s.views[v], suspended, vblank, e.now, s'.tick)
            case Unbind(v, _, applied) => s'.tick == TickUnbound(s, v, applied, e.now)
            case Create(v, _, applied) => s'.tick == TickUnbound(s, v, applied, e.now)
            case Dispose(v, _, applied) => s'.tick == TickUnbound(s, v, applied, e.now)
            case _ => s'.tick == s.tick
  {
    AllTakenArm();
    hide NotShown, SubmitView, ScheduleTick, FramePresented, ViewSuspended, UnbindView, CreateView, DisposeView,
      TickUnbound, ArmedFor, ArmedOnMove, FrameClock.NextVblank, Tick;
    match e.action
    case Apply(Unshown(client, taken)) => NotShownArms(s, client, taken, e.now);
    case Apply(Submit(v, taken, shown, cleared)) => SubmitStepArms(s, v, taken, shown, cleared, e.now);
    case Present(v, report) => ReportArms(s, v, report);
    case Suspend(v, suspended) =>
      if v in s.views { SuspendArms(s, v, suspended, e.now); } else { NotMoved(s, v, suspended, e.now); }
    case Unbind(v, cleared, applied) => UnbindArms(s, v, cleared, applied, e.now);
    case Create(v, cleared, applied) => UnbindArms(s, v, cleared, applied, e.now);
    case Dispose(v, cleared, applied) => UnbindArms(s, v, cleared, applied, e.now);
    case _ =>
  }

  lemma SubmitStepArms(s: Pacing, v: ViewId, taken: Taken, shown: Option<seq<Content>>, cleared: bool, now: Instant)
    ensures var s', vblank := SubmitView(s, v, taken, shown, cleared, now, true), s.clock.NextVblank(now);
            if v !in s.views || !s.views[v].bound then s' == s
            else if shown.None? then s'.tick == Sooner(s.tick, vblank)
            else v in s'.views && ArmedFor(s.tick, s'.views[v], vblank, s'.tick)
  {
    hide ArmedFor, FrameClock.NextVblank, HoldsMore;
    if v in s.views && s.views[v].bound {
      hide SubmitView;
      SubmitArms(s, v, taken, shown, cleared, now);
    }
  }

  lemma ReportArms(s: Pacing, v: ViewId, r: Report)
    ensures FramePresented(s, v, r).tick == s.tick
  {
    hide BarriersOf, FeedbackOf, Answers, FrameClock.Update;
  }

  lemma NotMoved(s: Pacing, v: ViewId, suspended: bool, now: Instant)
    requires v !in s.views
    ensures ViewSuspended(s, v, suspended, now, true) == s
  {
  }

  // ----- what a tick arms itself for -----

  /** Something of the state needs the clock at the time: the barriers held loose and the frames that could not be
      submitted when they are due, each surface when the earliest of its targets is to be released, each view by its
      frames. */
  ghost predicate Calls(s: Pacing, now: Instant, at: nat) {
    || (exists l :: l in s.loose && l.dueNs == at)
    || (exists p :: p in s.unsubmitted && p.1 == at)
    || (exists x :: x in s.timed && x in s.surfaces && exists t :: FirstTimer(s.surfaces[x].timers, t)
                                                         && s.clock.ReleaseAt(t) == at)
    || (exists v :: v in s.views && NeedsAt(s.views[v], s.clock.NextVblank(now), at))
  }

  predicate FirstTimer(timers: seq<U64>, t: U64) { t in timers && forall u :: u in timers ==> t <= u }

  lemma {:induction false} EarliestIs(timers: seq<U64>, t: U64)
    requires timers != []
    ensures FirstTimer(timers, t) <==> t == Earliest(timers)
  {
    if |timers| > 1 {
      EarliestIs(timers[1..], Earliest(timers[1..]));
      assert forall u :: u in timers ==> u == timers[0] || u in timers[1..];
      assert Earliest(timers) in timers;
    }
  }

  lemma WakesAre(s: Pacing, now: Instant, at: nat)
    ensures at in Wakes(s, now) <==> Calls(s, now, at)
  {
    TimerWakesAre(s, at);
    var vblank := s.clock.NextVblank(now);
    forall v | v in s.views ensures ViewWake(s.views[v], vblank) == Some(at) <==> NeedsAt(s.views[v], vblank, at) {
      WakeIs(s.views[v], vblank, at);
    }
    hide TimerWakes, ViewWake, NeedsAt, FirstTimer, FrameClock.NextVblank, FrameClock.ReleaseAt;
  }

  lemma TimerWakesAre(s: Pacing, at: nat)
    ensures at in TimerWakes(s.clock, s.surfaces, s.timed) <==>
              exists x :: x in s.timed && x in s.surfaces && exists t :: FirstTimer(s.surfaces[x].timers, t)
                                                                && s.clock.ReleaseAt(t) == at
  {
    hide FrameClock.ReleaseAt, Earliest, FirstTimer;
    forall x, t | x in s.timed && x in s.surfaces
      ensures FirstTimer(s.surfaces[x].timers, t) <==>
                s.surfaces[x].timers != [] && t == Earliest(s.surfaces[x].timers)
    {
      if s.surfaces[x].timers != [] { EarliestIs(s.surfaces[x].timers, t); } else { NoneFirst(t); }
    }
  }

  lemma NoneFirst(t: U64)
    ensures !FirstTimer([], t)
  {
  }

  /** A tick arms the clock again for the first time anything left needs it, though no sooner than a tenth of a
      millisecond from now, and stops it just when nothing is left that does. */
  lemma TickArms(s: Pacing, now: Instant)
    ensures var s' := Tick(s, now, true);
            match s'.tick
            case None => forall at: nat :: !Calls(s', now, at)
            case Some(t) => exists at: nat :: Calls(s', now, at) && (forall b: nat :: Calls(s', now, b) ==> at <= b)
                              && t == if at < now + 100_000 then now + 100_000 else at
  {
    hide TickReleases, Wakes, Calls, Tick;
    var s1, s' := TickReleases(s, now), Tick(s, now, true);
    var wakes := Wakes(s1, now);
    forall at: nat ensures at in wakes <==> Calls(s1, now, at) { WakesAre(s1, now, at); }
    TickIs(s, now);
    SameCalls(s1, s', now);
    if wakes != {} {
      assert Calls(s', now, Least(wakes));
    }
  }

  lemma TickIs(s: Pacing, now: Instant)
    ensures var s1 := TickReleases(s, now);
            && s1.tick == None
            && Tick(s, now, true) == if Wakes(s1, now) == {} then s1
                                     else s1.(tick := Some(Max(Least(Wakes(s1, now)), now + MIN_DELAY_NS)))
  {
    StartsStopped(s, now);
    AllTakenArm();
    hide TickReleases, Wakes, ScheduleTick;
  }

  lemma SameCalls(s: Pacing, s': Pacing, now: Instant)
    requires s'.(tick := None) == s.(tick := None)
    ensures forall at: nat :: Calls(s', now, at) <==> Calls(s, now, at)
  {
    hide NeedsAt, FirstTimer, FrameClock.NextVblank, FrameClock.ReleaseAt;
  }

  lemma StartsStopped(s: Pacing, now: Instant)
    ensures TickReleases(s, now).tick == None
  {
    hide TickViews, TimersCut, LooseDue, UnsubmittedDue, TickReleasedRows, TickUnblocked, StillTimed, Callable,
      TickCalled, TotalOver, LooseBarriers;
  }

  /** A surface that goes takes its timers with it: no later tick waits for them. */
  lemma GoneForgotten(s: Pacing, x: SurfaceId, e: Event)
    requires Enabled(s, e) && e.action == SurfaceGone(x)
    ensures var s' := Step(s, e);
            && x !in s'.surfaces && (forall y :: y in s.surfaces && y != x ==>
                 y in s'.surfaces && s'.surfaces[y] == s.surfaces[y])
            && forall now: Instant :: x !in TickReleases(s', now).timed
  {
    var s' := Step(s, e);
    forall now: Instant ensures x !in TickReleases(s', now).timed {
      GoneUntimed(s', x, now);
    }
  }

  lemma GoneUntimed(s: Pacing, x: SurfaceId, now: Instant)
    requires x !in s.surfaces
    ensures x !in TickReleases(s, now).timed
  {
    StillTimedAre(s.timed, TickReleases(s, now).surfaces);
    hide StillTimed, TickViews, LooseDue, UnsubmittedDue, TickReleasedRows, TickUnblocked, Callable, TickCalled,
      TotalOver, LooseBarriers, FrameClock.Due;
  }
}

/** Frame pacing over whole runs: nothing that waits is ever forgotten, and nothing is released or answered
    twice. */
module PacingProofs {
  import opened Basics
  import opened FrameClocks
  import opened FrameQueues
  import opened MultisetSums
  import opened PacingSpec
  import opened PacingLists

  // ----- never stuck -----

  /** A barrier of a frame of the view is still to be cleared. */
  ghost predicate HoldsBarrier(e: ViewEntry) {
    exists i :: 0 <= i < |e.frames| && e.frames[i].barriers != []
  }

  ghost predicate ViewOk(e: ViewEntry, now: nat) {
    && QueueOk(e.frames)
    && (e.frames != [] ==> e.frames[|e.frames| - 1].seqNo <= e.seqNo)
    && (forall i :: 0 <= i < |e.frames| ==> e.frames[i].submittedNs <= now)
  }

  ghost predicate ArmedBy(s: Pacing, at: nat) {
    s.tick.Some? && s.tick.value <= at
  }

  /** When a frame that goes unreported is released at the latest. On screen it has a stale time, from its submission
      or from the view's return to the screen. Off screen it goes at the first refresh that the view's own release
      time, its submission and the last report leave open; no refresh is longer than 32 bits of nanoseconds. */
  function Deadline(c: FrameClock, e: ViewEntry, f: Frame): nat {
    if e.suspended then Max(Max(e.hiddenReleaseNs, f.submittedNs), c.ustNs) + MAX_U32
    else Max(e.hiddenReleaseNs, f.submittedNs) + 250_000_000
  }

  ghost predicate MetBy(s: Pacing, e: ViewEntry, f: Frame) {
    ArmedBy(s, Deadline(s.clock, e, f) + 100_000)
  }

  /** Every frame of the view that holds a barrier is released in time. */
  ghost predicate BarriersWatched(s: Pacing, e: ViewEntry) {
    forall i :: 0 <= i < |e.frames| && e.frames[i].barriers != [] ==> MetBy(s, e, e.frames[i])
  }

  /** Every frame on screen with its callbacks, or a barrier, still due is released in time. */
  ghost predicate CallbacksWatched(s: Pacing, e: ViewEntry) {
    !e.suspended ==> forall i :: 0 <= i < |e.frames| && e.frames[i].Pending(true) ==> MetBy(s, e, e.frames[i])
  }

  /** The clock is armed for everything that waits on it, no later than the stored deadlines plus the smallest
      delay it is ever given. */
  ghost predicate Watched(s: Pacing) {
    && (s.timed != [] ==> s.tick.Some?)
    && (forall l :: l in s.loose ==> ArmedBy(s, l.dueNs + 100_000))
    && (forall p :: p in s.unsubmitted ==> ArmedBy(s, p.1 + 100_000))
    && (forall v :: v in s.views ==> BarriersWatched(s, s.views[v]))
  }

  /** And for the frame callbacks of frames on screen, which a clock that cannot be armed does not wait for. */
  ghost predicate ReportsWatched(s: Pacing) {
    forall v :: v in s.views ==> CallbacksWatched(s, s.views[v])
  }

  ghost predicate Sound(s: Pacing, now: nat) {
    && |s.loose| <= 256
    && now < MAX_U64
    && OncePerView(s.unsubmitted)
    && forall v :: v in s.views ==> ViewOk(s.views[v], now)
  }

  lemma StaleIffPending(e: ViewEntry)
    ensures NextStale(e.frames, false).Some? <==> HoldsBarrier(e)
  {
    NextStaleIsOldest(e.frames, false);
  }

  lemma LaterStillFine(s: Pacing, t: nat, now: Instant)
    requires Sound(s, t) && t <= now
    ensures Sound(s, now)
  {
  }

  /** A queue stays in order when only barriers and flushed marks change. */
  lemma QueueMapped(fs: seq<Frame>, fs': seq<Frame>)
    requires QueueOk(fs) && |fs'| == |fs|
    requires forall i :: 0 <= i < |fs| ==> fs'[i] == fs[i].(barriers := fs'[i].barriers, flushed := fs'[i].flushed)
    ensures QueueOk(fs')
  {
    forall f | f in fs' ensures AsksForShown(f) {
      var i :| 0 <= i < |fs'| && fs'[i] == f;
      assert AsksForShown(fs[i]);
    }
  }

  /** Releasing frames keeps the queue as it is, without barriers where they were old enough. */
  lemma ReleasedKeepsView(e: ViewEntry, before: nat, now: nat)
    requires ViewOk(e, now)
    ensures ViewOk(e.(frames := ReleasedOlder(e.frames, before)), now)
    ensures before > now ==> !HoldsBarrier(e.(frames := ReleasedOlder(e.frames, before)))
  {
    QueueMapped(e.frames, ReleasedOlder(e.frames, before));
  }

  lemma EverythingReleased(s: Pacing, now: nat)
    requires Sound(s, now)
    ensures Sound(ReleaseEverything(s), now) && Watched(ReleaseEverything(s))
  {
    forall v | v in s.views
      ensures ViewOk(ReleaseEverything(s).views[v], now) && !HoldsBarrier(ReleaseEverything(s).views[v])
    {
      ReleasedKeepsView(s.views[v], MAX_U64, now);
    }
  }

  /** The state as if the clock were armed for the given time, or sooner where it was already. */
  ghost function Armed(s: Pacing, at: nat): Pacing {
    s.(tick := Some(if s.tick.Some? then Min(s.tick.value, at) else at))
  }

  /** Scheduling is enough: either the clock is armed in time, or there is nothing left that needs it. */
  lemma ScheduleWatches(s: Pacing, at: nat, inserted: bool, now: nat)
    requires Sound(s, now) && Watched(Armed(s, at))
    ensures var s' := ScheduleTick(s, at, inserted);
            && Sound(s', now) && Watched(s')
            && (inserted && ReportsWatched(Armed(s, at)) ==> ReportsWatched(s'))
  {
    hide BarriersWatched, CallbacksWatched, ViewOk;
    if !(s.tick.Some? && s.tick.value <= at) && !inserted {
      EverythingReleased(s.(tick := None), now);
    } else {
      assert ScheduleTick(s, at, inserted) == Armed(s, at);
    }
  }

  /** Arming the clock sooner, with later deadlines, keeps what is watched. */
  lemma StillMet(s: Pacing, s': Pacing, e: ViewEntry)
    requires s'.clock.ustNs >= s.clock.ustNs
    requires s.tick.Some? ==> s'.tick.Some? && s'.tick.value <= s.tick.value
    ensures BarriersWatched(s, e) ==> BarriersWatched(s', e)
    ensures CallbacksWatched(s, e) ==> CallbacksWatched(s', e)
  {
  }

  lemma AllStillMet(s: Pacing, s': Pacing)
    requires s'.clock.ustNs >= s.clock.ustNs && s'.views == s.views
    requires s.tick.Some? ==> s'.tick.Some? && s'.tick.value <= s.tick.value
    requires forall v :: v in s.views ==> BarriersWatched(s, s.views[v])
    ensures forall v :: v in s.views ==> BarriersWatched(s', s.views[v])
    ensures ReportsWatched(s) ==> ReportsWatched(s')
  {
    hide BarriersWatched, CallbacksWatched;
    forall v | v in s.views
      ensures BarriersWatched(s', s.views[v]) && (CallbacksWatched(s, s.views[v]) ==> CallbacksWatched(s', s.views[v]))
    {
      StillMet(s, s', s.views[v]);
    }
  }

  /** Giving one view a new entry keeps everything, if that entry is in order and watched. */
  lemma EntryWritten(s: Pacing, v: ViewId, e: ViewEntry, now: nat)
    requires Sound(s, now) && Watched(s) && ViewOk(e, now) && BarriersWatched(s, e)
    ensures Sound(s.(views := s.views[v := e]), now) && Watched(s.(views := s.views[v := e]))
    ensures ReportsWatched(s) && CallbacksWatched(s, e) ==> ReportsWatched(s.(views := s.views[v := e]))
  {
    hide ViewOk, BarriersWatched, CallbacksWatched;
    var s' := s.(views := s.views[v := e]);
    forall u | u in s'.views
      ensures BarriersWatched(s', s'.views[u])
      ensures ReportsWatched(s) && CallbacksWatched(s, e) ==> CallbacksWatched(s', s'.views[u])
    {
      StillMet(s, s', s'.views[u]);
    }
  }

  /** Frames leaving from the front keep a view in order. */
  lemma FramesLeft(s: Pacing, e: ViewEntry, n: nat, now: nat)
    requires ViewOk(e, now) && n <= |e.frames| && BarriersWatched(s, e)
    ensures ViewOk(e.(frames := e.frames[n..]), now) && BarriersWatched(s, e.(frames := e.frames[n..]))
    ensures CallbacksWatched(s, e) ==> CallbacksWatched(s, e.(frames := e.frames[n..]))
  {
    var rest := e.frames[n..];
    assert forall i :: 0 <= i < |rest| ==> rest[i] == e.frames[n + i];
  }

  lemma LooseEntries(loose: seq<Loose>, client: Client, barriers: seq<Barrier>, due: U64, excess: nat)
    requires excess <= |loose| + |barriers|
    ensures forall l :: l in (loose + LooseOf(client, barriers, due))[excess..] ==> l in loose || l.dueNs == due
  {
  }

  lemma HoldLooseWatches(s: Pacing, client: Option<Client>, barriers: seq<Barrier>, now: Instant, inserted: bool)
    requires Sound(s, now) && Watched(s)
    ensures var s' := HoldLoose(s, client, barriers, now, inserted);
            && Sound(s', now) && Watched(s')
            && (inserted && ReportsWatched(s) ==> ReportsWatched(s'))
  {
    hide ScheduleTick, BarriersWatched, CallbacksWatched, ViewOk;
    if barriers != [] && client.Some? {
      var due := s.clock.NextVblank(now);
      var all := s.loose + LooseOf(client.value, barriers, due);
      var excess := if |all| > MAX_LOOSE then |all| - MAX_LOOSE else 0;
      LooseEntries(s.loose, client.value, barriers, due, excess);
      LooseWritten(s, all[excess..], multiset(LooseBarriers(all[..excess])), due, inserted, now);
    } else if barriers != [] {
      AllStillMet(s, s.(signaled := s.signaled + multiset(barriers)));
    }
  }

  /** The clock is armed for what is new in a list, and whatever else was watched stays watched. */
  lemma ListWritten(s: Pacing, s1: Pacing, due: nat, inserted: bool, now: nat)
    requires Sound(s, now) && Watched(s) && Sound(s1, now)
    requires s1.views == s.views && s1.clock == s.clock && s1.tick == s.tick
    requires forall l :: l in s1.loose ==> l in s.loose || l.dueNs + MIN_DELAY_NS >= due
    requires forall p :: p in s1.unsubmitted ==> p in s.unsubmitted || p.1 + MIN_DELAY_NS >= due
    ensures var s' := ScheduleTick(s1, due, inserted);
            && Sound(s', now) && Watched(s')
            && (inserted && ReportsWatched(s) ==> ReportsWatched(s'))
  {
    hide ScheduleTick, BarriersWatched, CallbacksWatched, ViewOk;
    AllStillMet(s, Armed(s1, due));
    ScheduleWatches(s1, due, inserted, now);
  }

  lemma LooseWritten(s: Pacing, loose: seq<Loose>, evicted: multiset<Barrier>, due: U64, inserted: bool, now: Instant)
    requires Sound(s, now) && Watched(s) && |loose| <= MAX_LOOSE
    requires forall l :: l in loose ==> l in s.loose || l.dueNs == due
    ensures var s' := ScheduleTick(s.(loose := loose, signaled := s.signaled + evicted), due, inserted);
            && Sound(s', now) && Watched(s')
            && (inserted && ReportsWatched(s) ==> ReportsWatched(s'))
  {
    hide ScheduleTick, Watched, ReportsWatched, ViewOk;
    ListWritten(s, s.(loose := loose, signaled := s.signaled + evicted), due, inserted, now);
  }

  lemma UnsubmittedWatches(s: Pacing, v: ViewId, now: Instant, inserted: bool)
    requires Sound(s, now) && Watched(s)
    ensures var s' := Unsubmitted(s, v, now, inserted);
            && Sound(s', now) && Watched(s')
            && (inserted && ReportsWatched(s) ==> ReportsWatched(s'))
  {
    hide ScheduleTick, Watched, ReportsWatched, ViewOk;
    var due := s.clock.NextVblank(now);
    var s1 := if exists p :: p in s.unsubmitted && p.0 == v then s else s.(unsubmitted := s.unsubmitted + [(v, due)]);
    assert OncePerView(s1.unsubmitted) by {
      forall i | 0 <= i < |s.unsubmitted| ensures s.unsubmitted[i] in s.unsubmitted {}
    }
    ListWritten(s, s1, due, inserted, now);
  }

  // ----- frames -----

  lemma VblankBound(c: FrameClock, t: nat)
    ensures c.NextVblank(t) <= Max(t, c.ustNs) + MAX_U32
  {
    if c.ustNs <= t { var q := StepOf(c, t); }
  }

  /** A view with something pending wakes the clock in time for all of it, except off screen for what was submitted,
      and was to be released, before: that had the clock armed already. */
  lemma WakeMeets(c: FrameClock, e: ViewEntry, now: Instant, i: nat)
    requires ViewOk(e, now) && i < |e.frames| && e.frames[i].Pending(!e.suspended)
    ensures var wake := ViewWake(e, c.NextVblank(now));
            && wake.Some?
            && (!e.suspended || e.frames[i].submittedNs == now || e.hiddenReleaseNs > now ==>
                 wake.value <= Deadline(c, e, e.frames[i]))
  {
    NextStaleIsOldest(e.frames, !e.suspended);
    VblankBound(c, now);
    hide FrameClock.NextVblank, NextStale;
  }

  /** Every frame with a barrier submitted before now is released in time. */
  ghost predicate OldWatched(s: Pacing, e: ViewEntry, now: nat) {
    forall f :: f in e.frames && f.barriers != [] && f.submittedNs < now ==> MetBy(s, e, f)
  }

  /** All is watched except, perhaps, what a view submitted just now. */
  ghost predicate WatchedBut(s: Pacing, v: ViewId, now: nat) {
    v in s.views && Watched(s.(views := s.views - {v})) && OldWatched(s, s.views[v], now)
  }

  /** Arming the clock for a view's next wake watches the view. */
  lemma EntryWatched(s: Pacing, e: ViewEntry, now: Instant)
    requires ViewOk(e, now) && OldWatched(s, e, now)
    ensures var wake := ViewWake(e, s.clock.NextVblank(now));
            var s' := if wake.Some? then Armed(s, wake.value) else s;
            BarriersWatched(s', e) && CallbacksWatched(s', e)
  {
    hide FrameClock.NextVblank, NextStale;
    var wake := ViewWake(e, s.clock.NextVblank(now));
    forall i | 0 <= i < |e.frames| && e.frames[i].Pending(!e.suspended)
      ensures wake.Some?
      ensures !e.suspended || e.frames[i].submittedNs == now ==> wake.value <= Deadline(s.clock, e, e.frames[i])
    {
      WakeMeets(s.clock, e, now, i);
    }
    hide ViewWake, Deadline;
  }

  lemma WatchFramesWatches(s: Pacing, v: ViewId, now: Instant, inserted: bool)
    requires Sound(s, now) && WatchedBut(s, v, now)
    ensures var s' := WatchFrames(s, v, now, inserted);
            && Sound(s', now) && Watched(s')
            && (inserted && ReportsWatched(s.(views := s.views - {v})) ==> ReportsWatched(s'))
  {
    hide ScheduleTick, ViewWake, BarriersWatched, CallbacksWatched, ViewOk;
    var e := s.views[v];
    EntryWatched(s, e, now);
    var others := s.(views := s.views - {v});
    var s1 := match ViewWake(e, s.clock.NextVblank(now)) case None => s case Some(at) => Armed(s, at);
    forall u | u in s.views
      ensures BarriersWatched(s1, s.views[u])
      ensures ReportsWatched(others) ==> CallbacksWatched(s1, s.views[u])
    {
      if u != v {
        assert others.views[u] == s.views[u];
        StillMet(others, s1, s.views[u]);
      }
    }
    match ViewWake(e, s.clock.NextVblank(now))
    case None =>
    case Some(at) => ScheduleWatches(s, at, inserted, now);
  }

  lemma PushedViewOk(s: Pacing, v: ViewId, shown: seq<Content>, taken: Taken, now: Instant)
    requires v in s.views && ViewOk(s.views[v], now) && BarriersWatched(s, s.views[v])
    ensures var s' := PushFrame(s, v, shown, taken, now); ViewOk(s'.views[v], now) && OldWatched(s', s'.views[v], now)
  {
    hide ViewOk, OldWatched, BarriersWatched, Entering, BarriersOf, FeedbackOf, Select, Discards;
    var e, s' := s.views[v], PushFrame(s, v, shown, taken, now);
    PushedEntryOk(e, shown, taken, now);
    var all := e.frames + [Entering(e.seqNo + 1, now, shown, taken)];
    assert s'.views[v] == e.(seqNo := e.seqNo + 1, frames := all[Excess(|all|)..]);
    OldStillMet(s, e, s', s'.views[v], Entering(e.seqNo + 1, now, shown, taken), Excess(|all|), now);
  }

  lemma PushedEntryOk(e: ViewEntry, shown: seq<Content>, taken: Taken, now: Instant)
    requires ViewOk(e, now)
    ensures var entering := Entering(e.seqNo + 1, now, shown, taken);
            var all := e.frames + [entering];
            ViewOk(e.(seqNo := e.seqNo + 1, frames := all[Excess(|all|)..]), now) && entering.submittedNs == now
  {
    PushKeepsQueue(e.frames, e.seqNo + 1, now, shown, taken);
    hide QueueOk, Select;
    var entering := Entering(e.seqNo + 1, now, shown, taken);
    assert entering.submittedNs == now && entering.seqNo == e.seqNo + 1;
    hide Entering, ViewOk;
    SuffixOk(e, entering, Excess(|e.frames| + 1), now);
  }

  lemma SuffixOk(e: ViewEntry, entering: Frame, n: nat, now: Instant)
    requires ViewOk(e, now) && n <= |e.frames| && entering.submittedNs == now && entering.seqNo == e.seqNo + 1
    requires QueueOk((e.frames + [entering])[n..])
    ensures ViewOk(e.(seqNo := e.seqNo + 1, frames := (e.frames + [entering])[n..]), now)
  {
    hide QueueOk;
    var all := e.frames + [entering];
    assert forall i :: 0 <= i < |all| ==> all[i].submittedNs <= now;
    var rest := all[n..];
    assert forall i :: 0 <= i < |rest| ==> rest[i] == all[n + i];
  }

  lemma OldStillMet(s: Pacing, e: ViewEntry, s': Pacing, e': ViewEntry, entering: Frame, n: nat, now: Instant)
    requires BarriersWatched(s, e) && s'.tick == s.tick && s'.clock == s.clock
    requires e'.suspended == e.suspended && e'.hiddenReleaseNs == e.hiddenReleaseNs && entering.submittedNs == now
    requires n <= |e.frames| + 1 && e'.frames == (e.frames + [entering])[n..]
    ensures OldWatched(s', e', now)
  {
    forall f | f in e'.frames && f.submittedNs < now ensures f in e.frames {}
  }

  lemma SubmittedWatches(s: Pacing, v: ViewId, taken: Taken, shown: seq<Content>, now: Instant, inserted: bool)
    requires Sound(s, now) && Watched(s) && v in s.views
    ensures var s' := WatchFrames(PushFrame(s, v, shown, taken, now), v, now, inserted);
            && Sound(s', now) && Watched(s')
            && (inserted && ReportsWatched(s) ==> ReportsWatched(s'))
  {
    hide WatchFrames, Entering, MetBy, BarriersWatched, CallbacksWatched, ViewOk;
    var s1 := PushFrame(s, v, shown, taken, now);
    PushedViewOk(s, v, shown, taken, now);
    var without, without1 := s.(views := s.views - {v}), s1.(views := s1.views - {v});
    assert without1.views == without.views;
    assert Watched(without) && (ReportsWatched(s) ==> ReportsWatched(without)) by {
      forall u | u in without.views ensures u in s.views && u != v && without.views[u] == s.views[u] {}
      forall u | u in without.views
        ensures BarriersWatched(without, s.views[u])
        ensures CallbacksWatched(s, s.views[u]) ==> CallbacksWatched(without, s.views[u])
      {
        StillMet(s, without, s.views[u]);
      }
    }
    AllStillMet(without, without1);
    WatchFramesWatches(s1, v, now, inserted);
  }

  lemma SubmitWatches(s: Pacing, v: ViewId, taken: Taken, shown: Option<seq<Content>>, cleared: bool, now: Instant,
                      inserted: bool)
    requires Sound(s, now) && Watched(s)
    ensures var s' := SubmitView(s, v, taken, shown, cleared, now, inserted);
            && Sound(s', now) && Watched(s')
            && (inserted && ReportsWatched(s) ==> ReportsWatched(s'))
  {
    hide Watched, ReportsWatched, ViewOk;
    if v in s.views && s.views[v].bound {
      match shown
      case Some(contents) => SubmittedWatches(s, v, taken, contents, now, inserted);
      case None => NotSubmittedWatches(s, v, taken, cleared, now, inserted);
    }
  }

  lemma NumberUsed(s: Pacing, e: ViewEntry, e': ViewEntry, now: nat)
    requires ViewOk(e, now) && BarriersWatched(s, e)
    requires e' == e.(seqNo := e'.seqNo, bound := e'.bound, client := e'.client) && e.seqNo <= e'.seqNo
    ensures ViewOk(e', now) && BarriersWatched(s, e') && (CallbacksWatched(s, e) ==> CallbacksWatched(s, e'))
  {
  }

  lemma NotSubmittedWatches(s: Pacing, v: ViewId, taken: Taken, cleared: bool, now: Instant, inserted: bool)
    requires Sound(s, now) && Watched(s) && v in s.views && s.views[v].bound
    ensures var s' := SubmitView(s, v, taken, None, cleared, now, inserted);
            && Sound(s', now) && Watched(s')
            && (inserted && ReportsWatched(s) ==> ReportsWatched(s'))
  {
    hide NotShown, Unsubmitted, ViewOk, BarriersWatched, CallbacksWatched;
    var e := s.views[v];
    var s1 := if cleared then s.(views := s.views[v := e.(seqNo := e.seqNo + 1)]) else s;
    NumberUsed(s, e, e.(seqNo := e.seqNo + 1), now);
    EntryWritten(s, v, e.(seqNo := e.seqNo + 1), now);
    hide Watched, ReportsWatched;
    NotShownWatches(s1, e.client, taken, now, inserted);
    UnsubmittedWatches(NotShown(s1, e.client, taken, now, inserted), v, now, inserted);
  }

  lemma NotShownWatches(s: Pacing, client: Option<Client>, taken: Taken, now: Instant, inserted: bool)
    requires Sound(s, now) && Watched(s)
    ensures var s' := NotShown(s, client, taken, now, inserted);
            && Sound(s', now) && Watched(s')
            && (inserted && ReportsWatched(s) ==> ReportsWatched(s'))
  {
    hide HoldLoose, ViewOk, BarriersWatched, CallbacksWatched;
    var s1 := s.(answers := s.answers + Discards(taken.feedback));
    AllStillMet(s, s1);
    HoldLooseWatches(s1, client, taken.barriers, now, inserted);
  }

  lemma PresentWatches(s: Pacing, v: ViewId, r: Report, now: nat)
    requires Sound(s, now) && Watched(s)
    ensures var s' := FramePresented(s, v, r);
            && Sound(s', now) && Watched(s')
            && (ReportsWatched(s) ==> ReportsWatched(s'))
  {
    hide ViewOk, BarriersWatched, CallbacksWatched;
    var s1 := s.(clock := s.clock.Update(r.ustNs, r.refreshNs));
    AllStillMet(s, s1);
    if v in s.views {
      var e := s.views[v];
      var n := Replaced(e.frames, r.seqNo);
      FramesLeft(s1, e, n, now);
      EntryWritten(s1, v, e.(frames := e.frames[n..]), now);
      AllStillMet(s1.(views := s1.views[v := e.(frames := e.frames[n..])]), FramePresented(s, v, r));
    }
  }

  lemma SuspendedEntry(s: Pacing, e: ViewEntry, suspended: bool, now: Instant)
    requires ViewOk(e, now)
    ensures var e' := e.(suspended := suspended, hiddenReleaseNs := s.clock.NextVblank(now));
            var stale := NextStale(e.frames, !suspended);
            var s' := if stale.None? then s
                      else Armed(s, if suspended then e'.hiddenReleaseNs else Max(stale.value, now + STALE_NS));
            ViewOk(e', now) && BarriersWatched(s', e') && CallbacksWatched(s', e')
  {
    hide NextStale;
    NextStaleIsOldest(e.frames, !suspended);
    NextVblankIsEarliest(s.clock, now);
    hide FrameClock.NextVblank;
  }

  lemma SuspendWatches(s: Pacing, v: ViewId, suspended: bool, now: Instant, inserted: bool)
    requires Sound(s, now) && Watched(s)
    ensures var s' := ViewSuspended(s, v, suspended, now, inserted);
            && Sound(s', now) && Watched(s')
            && (inserted && ReportsWatched(s) ==> ReportsWatched(s'))
  {
    hide ScheduleTick, NextStale, ViewOk, BarriersWatched, CallbacksWatched, FrameClock.NextVblank;
    if v in s.views {
      var e := s.views[v].(suspended := suspended, hiddenReleaseNs := s.clock.NextVblank(now));
      var s1 := s.(views := s.views[v := e]);
      SuspendedEntry(s, s.views[v], suspended, now);
      if NextStale(e.frames, !suspended).Some? {
        var stale := NextStale(e.frames, !suspended).value;
        var at := if suspended then e.hiddenReleaseNs else Max(stale, now + STALE_NS);
        AllStillMet(s, Armed(s, at));
        EntryWritten(Armed(s, at), v, e, now);
        ScheduleWatches(s1, at, inserted, now);
      } else {
        EntryWritten(s, v, e, now);
      }
    }
  }

  // ----- binding -----

  lemma BindWatches(s: Pacing, v: ViewId, client: Option<Client>, now: nat)
    requires Sound(s, now) && Watched(s)
    ensures var s' := BindView(s, v, client);
            && Sound(s', now) && Watched(s')
            && (ReportsWatched(s) ==> ReportsWatched(s'))
  {
    hide ViewOk, BarriersWatched, CallbacksWatched;
    if v in s.views && !s.views[v].bound {
      var e := s.views[v].(bound := true, client := client);
      NumberUsed(s, s.views[v], e, now);
      EntryWritten(s, v, e, now);
    }
  }

  lemma AppliedWatches(s: Pacing, u: Update, now: Instant, inserted: bool)
    requires Sound(s, now) && Watched(s)
    ensures var s' := Applied(s, u, now, inserted);
            && Sound(s', now) && Watched(s')
            && (inserted && ReportsWatched(s) ==> ReportsWatched(s'))
  {
    hide NotShown, SubmitView, BindView, Sound, Watched, ReportsWatched;
    match u
    case Unshown(client, taken) => NotShownWatches(s, client, taken, now, inserted);
    case Submit(v, taken, shown, cleared) => SubmitWatches(s, v, taken, shown, cleared, now, inserted);
    case Bind(v, owner) => BindWatches(s, v, owner, now);
  }

  lemma {:induction false} ApplyEachWatches(s: Pacing, us: seq<Update>, now: Instant, inserted: bool)
    requires Sound(s, now) && Watched(s)
    ensures var s' := ApplyEach(s, us, now, inserted);
            && Sound(s', now) && Watched(s')
            && (inserted && ReportsWatched(s) ==> ReportsWatched(s'))
    decreases |us|
  {
    hide Applied, Sound, Watched, ReportsWatched;
    if us != [] {
      AppliedWatches(s, us[0], now, inserted);
      ApplyEachWatches(Applied(s, us[0], now, inserted), us[1..], now, inserted);
    }
  }

  lemma DropWatches(s: Pacing, v: ViewId, now: nat)
    requires Sound(s, now) && Watched(s)
    ensures var s' := DropFrames(s, v);
            && Sound(s', now) && Watched(s')
            && (ReportsWatched(s) ==> ReportsWatched(s'))
  {
    hide BarriersWatched, CallbacksWatched;
    if v in s.views {
      var e := s.views[v].(frames := []);
      assert ViewOk(e, now);
      hide ViewOk;
      assert BarriersWatched(s, e) && CallbacksWatched(s, e) by { NoneToWatch(s, e); }
      EntryWritten(s, v, e, now);
      AllStillMet(s.(views := s.views[v := e]), DropFrames(s, v));
    }
  }

  lemma NoneToWatch(s: Pacing, e: ViewEntry)
    requires e.frames == []
    ensures BarriersWatched(s, e) && CallbacksWatched(s, e)
  {
  }

  lemma UnbindWatches(s: Pacing, v: ViewId, cleared: bool, applied: seq<Update>, now: Instant, inserted: bool)
    requires Sound(s, now) && Watched(s)
    ensures var s' := UnbindView(s, v, cleared, applied, now, inserted);
            && Sound(s', now) && Watched(s')
            && (inserted && ReportsWatched(s) ==> ReportsWatched(s'))
  {
    hide DropFrames, ApplyEach, BarriersWatched, CallbacksWatched, ViewOk;
    DropWatches(s, v, now);
    ApplyEachWatches(DropFrames(s, v), applied, now, inserted);
    var s1 := Dropping(s, v, applied, now, inserted);
    hide Dropping;
    if v in s1.views {
      var e := s1.views[v];
      var e' := e.(bound := false, client := None, seqNo := if cleared then e.seqNo + 1 else e.seqNo);
      NumberUsed(s1, e, e', now);
      EntryWritten(s1, v, e', now);
    }
  }

  lemma CreateWatches(s: Pacing, v: ViewId, cleared: bool, applied: seq<Update>, now: Instant, inserted: bool)
    requires Sound(s, now) && Watched(s)
    ensures var s' := CreateView(s, v, cleared, applied, now, inserted);
            && Sound(s', now) && Watched(s')
            && (inserted && ReportsWatched(s) ==> ReportsWatched(s'))
  {
    hide UnbindView, BarriersWatched, CallbacksWatched, Watched, ReportsWatched;
    UnbindWatches(s, v, cleared, applied, now, inserted);
    var s1 := UnbindView(s, v, cleared, applied, now, inserted);
    NoneToWatch(s1, FRESH_VIEW);
    EntryWritten(s1, v, FRESH_VIEW, now);
  }

  lemma DisposeWatches(s: Pacing, v: ViewId, cleared: bool, applied: seq<Update>, now: Instant, inserted: bool)
    requires Sound(s, now) && Watched(s)
    ensures var s' := DisposeView(s, v, cleared, applied, now, inserted);
            && Sound(s', now) && Watched(s')
            && (inserted && ReportsWatched(s) ==> ReportsWatched(s'))
  {
    hide UnbindView, BarriersWatched, CallbacksWatched, ViewOk;
    UnbindWatches(s, v, cleared, applied, now, inserted);
    var s1 := UnbindView(s, v, cleared, applied, now, inserted);
    var s' := s1.(views := s1.views - {v});
    forall u | u in s'.views
      ensures BarriersWatched(s', s'.views[u])
      ensures CallbacksWatched(s1, s'.views[u]) ==> CallbacksWatched(s', s'.views[u])
    {
      StillMet(s1, s', s'.views[u]);
    }
  }

  // ----- the tick -----

  lemma FlushedKeepsView(e: ViewEntry, before: nat, now: nat)
    requires ViewOk(e, now)
    ensures ViewOk(e.(frames := FlushedOlder(e.frames, before)), now)
  {
    QueueMapped(e.frames, FlushedOlder(e.frames, before));
  }

  lemma TickKeepsView(e: ViewEntry, now: Instant)
    requires ViewOk(e, now)
    ensures ViewOk(TickView(e, now), now)
  {
    if e.suspended {
      ReleasedKeepsView(e, MAX_U64, now);
      assert ViewOk(e.(frames := ReleasedOlder(e.frames, MAX_U64)), now);
    } else {
      FlushedKeepsView(e, StaleBefore(now), now);
      ReleasedKeepsView(e.(frames := FlushedOlder(e.frames, StaleBefore(now))), StaleBefore(now), now);
    }
  }

  /** What a view still has pending after the tick is not due yet, and its next wake is in time for it. */
  ghost predicate WakesInTime(c: FrameClock, e: ViewEntry, now: Instant) {
    forall i :: 0 <= i < |e.frames| && e.frames[i].Pending(!e.suspended) ==>
      && ViewWake(e, c.NextVblank(now)).Some?
      && ViewWake(e, c.NextVblank(now)).value <= Deadline(c, e, e.frames[i])
      && now <= Deadline(c, e, e.frames[i])
  }

  lemma TickedViewWakes(c: FrameClock, e: ViewEntry, now: Instant)
    requires ViewOk(e, now)
    ensures ViewOk(TickView(e, now), now) && WakesInTime(c, TickView(e, now), now)
  {
    hide FrameClock.NextVblank, NextStale, ViewWake;
    var e' := TickView(e, now);
    TickKeepsView(e, now);
    StaleIffPending(e);
    forall i | 0 <= i < |e'.frames| && e'.frames[i].Pending(!e'.suspended)
      ensures ViewWake(e', c.NextVblank(now)).Some?
      ensures ViewWake(e', c.NextVblank(now)).value <= Deadline(c, e', e'.frames[i])
      ensures now <= Deadline(c, e', e'.frames[i])
    {
      if e.suspended { assert e.frames[i].barriers != [] && e'.hiddenReleaseNs > now; }
      WakeMeets(c, e', now, i);
    }
  }

  lemma TickWatches(s: Pacing, now: Instant, inserted: bool)
    requires Sound(s, now)
    ensures var s' := Tick(s, now, inserted);
            && Sound(s', now) && Watched(s')
            && (inserted ==> ReportsWatched(s'))
  {
    hide TickView, ViewOk, WakesInTime, Wakes, StillTimed, LooseDue, UnsubmittedDue, FrameClock.Due;
    var s1 := TickReleases(s, now);
    LooseSplit(s.loose, now);
    UnsubmittedSplit(s.unsubmitted, now);
    UnsubmittedOnce(s.unsubmitted, now);
    StillTimedAre(s.timed, s1.surfaces);
    forall v | v in s.views ensures ViewOk(s1.views[v], now) && WakesInTime(s.clock, s1.views[v], now) {
      TickedViewWakes(s.clock, s.views[v], now);
    }
    WakesWatch(s1, now, inserted);
  }

  /** A clock armed by a view's wake, or right away, watches the view. */
  lemma WakeWatches(s: Pacing, e: ViewEntry, now: Instant)
    requires WakesInTime(s.clock, e, now)
    requires ViewWake(e, s.clock.NextVblank(now)).Some? ==>
               ArmedBy(s, Max(ViewWake(e, s.clock.NextVblank(now)).value, now + MIN_DELAY_NS))
    ensures BarriersWatched(s, e) && CallbacksWatched(s, e)
  {
    hide FrameClock.NextVblank, ViewWake, Deadline;
  }

  /** Each deadline wakes the clock, so the earliest is no later than any of them. */
  lemma EarliestFirst(s: Pacing, now: Instant, at: nat)
    requires Wakes(s, now) != {} ==> at == Least(Wakes(s, now))
    ensures forall l :: l in s.loose ==> Wakes(s, now) != {} && at <= l.dueNs
    ensures forall p :: p in s.unsubmitted ==> Wakes(s, now) != {} && at <= p.1
    ensures forall v :: v in s.views && ViewWake(s.views[v], s.clock.NextVblank(now)).Some? ==>
              Wakes(s, now) != {} && at <= ViewWake(s.views[v], s.clock.NextVblank(now)).value
    ensures (exists x :: x in s.timed && x in s.surfaces && s.surfaces[x].timers != []) ==> Wakes(s, now) != {}
  {
    hide ViewWake, FrameClock.NextVblank, FrameClock.ReleaseAt;
    forall l | l in s.loose ensures l.dueNs as nat in Wakes(s, now) {}
    forall p | p in s.unsubmitted ensures p.1 as nat in Wakes(s, now) {}
    forall v | v in s.views && ViewWake(s.views[v], s.clock.NextVblank(now)).Some?
      ensures ViewWake(s.views[v], s.clock.NextVblank(now)).value in Wakes(s, now)
    {
    }
    if x :| x in s.timed && x in s.surfaces && s.surfaces[x].timers != [] {
      assert s.clock.ReleaseAt(Earliest(s.surfaces[x].timers)) as nat in Wakes(s, now);
    }
  }

  /** Arming the clock for the earliest wake watches all that is left. */
  lemma WakesWatch(s: Pacing, now: Instant, inserted: bool)
    requires Sound(s, now) && s.tick.None?
    requires forall l :: l in s.loose ==> l.dueNs > now
    requires forall p :: p in s.unsubmitted ==> p.1 > now
    requires forall x :: x in s.timed ==> x in s.surfaces && s.surfaces[x].timers != []
    requires forall v :: v in s.views ==> WakesInTime(s.clock, s.views[v], now)
    ensures var wakes := Wakes(s, now);
            var s' := if wakes == {} then s else ScheduleTick(s, Max(Least(wakes), now + MIN_DELAY_NS), inserted);
            && Sound(s', now) && Watched(s')
            && (inserted ==> ReportsWatched(s'))
  {
    hide Wakes, WakesInTime, ViewOk, BarriersWatched, CallbacksWatched, FrameClock.NextVblank, ViewWake;
    var wakes := Wakes(s, now);
    if s.timed != [] { assert s.timed[0] in s.timed; }
    EarliestFirst(s, now, if wakes == {} then 0 else Least(wakes));
    var at := Max(if wakes == {} then 0 else Least(wakes), now + MIN_DELAY_NS);
    var s1 := if wakes == {} then s else Armed(s, at);
    forall v | v in s.views ensures BarriersWatched(s1, s.views[v]) && CallbacksWatched(s1, s.views[v]) {
      WakeWatches(s1, s.views[v], now);
    }
    if wakes != {} { ScheduleWatches(s, at, inserted, now); }
  }

  // ----- every step -----

  lemma TimedWatches(s: Pacing, x: SurfaceId, target: U64, now: Instant, inserted: bool)
    requires Sound(s, now) && Watched(s)
    ensures var s' := AddTimer(WatchTarget(s, x, now, inserted), x, target);
            && Sound(s', now) && Watched(s')
            && (inserted && ReportsWatched(s) ==> ReportsWatched(s'))
  {
    hide ScheduleTick, ViewOk, BarriersWatched, CallbacksWatched;
    var s1 := if x in s.timed then s else s.(timed := s.timed + [x]);
    ListWritten(s, s1, now, inserted, now);
    var s2 := ScheduleTick(s1, now, inserted);
    AllStillMet(s2, AddTimer(s2, x, target));
  }

  lemma StepWatches(s: Pacing, e: Event, t: nat)
    requires Sound(s, t) && Watched(s) && t <= e.now && Enabled(s, e)
    ensures Sound(Step(s, e), e.now) && Watched(Step(s, e))
    ensures e.inserted && ReportsWatched(s) ==> ReportsWatched(Step(s, e))
  {
    hide Applied, WatchTarget, AddTimer, FramePresented, ViewSuspended, Tick, UnbindView, CreateView, DisposeView;
    hide Watched, ReportsWatched, ViewOk;
    var now := e.now;
    assert Sound(s, now) by { LaterStillFine(s, t, now); }
    hide Sound;
    match e.action
    case Apply(u) => AppliedWatches(s, u, now, e.inserted);
    case CommitTimed(x, target) => TimedWatches(s, x, target, now, e.inserted);
    case Present(v, report) => PresentWatches(s, v, report, now);
    case Suspend(v, suspended) => SuspendWatches(s, v, suspended, now, e.inserted);
    case Unbind(v, cleared, applied) => UnbindWatches(s, v, cleared, applied, now, e.inserted);
    case Create(v, cleared, applied) => CreateWatches(s, v, cleared, applied, now, e.inserted);
    case Dispose(v, cleared, applied) => DisposeWatches(s, v, cleared, applied, now, e.inserted);
    case NewSurface(x, client) => SurfacesWatch(s, s.surfaces[x := Surface(client, [])], now);
    case SurfaceGone(x) => SurfacesWatch(s, s.surfaces - {x}, now);
    case ClockTick => TickWatches(s, now, e.inserted);
  }

  lemma SurfacesWatch(s: Pacing, surfaces: map<SurfaceId, Surface>, now: nat)
    requires Sound(s, now) && Watched(s)
    ensures Sound(s.(surfaces := surfaces), now) && Watched(s.(surfaces := surfaces))
    ensures ReportsWatched(s) ==> ReportsWatched(s.(surfaces := surfaces))
  {
    hide BarriersWatched, CallbacksWatched, ViewOk;
    AllStillMet(s, s.(surfaces := surfaces));
  }

  function TimeOf(events: seq<Event>, i: nat): nat
    requires i <= |events|
  {
    if i == 0 then 0 else events[i - 1].now
  }

  /** Never stuck. In every state of every run, whatever waits for the clock has it armed: a loose barrier, a view
      whose frame could not be submitted and a frame holding a barrier no later than their own deadline and the
      smallest delay, a surface with a target for some time. As long as the event loop takes the timers, a frame on
      screen whose callbacks are due has it armed by its deadline too. */
  lemma {:induction false} NeverStuck(states: seq<Pacing>, events: seq<Event>, i: nat)
    requires IsRun(states, events) && i <= |events|
    ensures Sound(states[i], TimeOf(events, i)) && Watched(states[i])
    ensures (forall j :: 0 <= j < i ==> events[j].inserted) ==> ReportsWatched(states[i])
  {
    if i > 0 {
      NeverStuck(states, events, i - 1);
      StepWatches(states[i - 1], events[i - 1], TimeOf(events, i - 1));
    }
  }

  // ----- what a tick is for -----

  /** The frame has gone unreported for more than a quarter of a second. */
  predicate Stale(f: Frame, now: Instant) { f.submittedNs + 250_000_000 < now }

  /** A tick does just this to a view. On screen, the frames that went unreported for too long lose their barriers and
      are not waited for any more; the others stay as they are. Off screen, once the view's release time has come every
      frame loses its barriers, if any has one, and the next release is a second away. */
  ghost predicate Ticked(e: ViewEntry, e': ViewEntry, now: Instant) {
    && |e'.frames| == |e.frames|
    && if e.suspended then
         if e.hiddenReleaseNs <= now && HoldsBarrier(e) then
           && e' == e.(hiddenReleaseNs := now + 1_000_000_000, frames := e'.frames)
           && forall i :: 0 <= i < |e.frames| ==> e'.frames[i] == e.frames[i].(barriers := [])
         else e' == e
       else
         && e' == e.(frames := e'.frames)
         && forall i :: 0 <= i < |e.frames| ==>
              e'.frames[i] == if Stale(e.frames[i], now) then e.frames[i].(barriers := [], flushed := true)
                              else e.frames[i]
  }

  lemma TicksView(e: ViewEntry, now: Instant)
    requires ViewOk(e, now)
    ensures Ticked(e, TickView(e, now), now)
  {
    StaleIffPending(e);
  }

  /** Nothing of the view is overdue at the given time. */
  ghost predicate NothingStale(e: ViewEntry, now: Instant) {
    if e.suspended then e.hiddenReleaseNs > now || !HoldsBarrier(e)
    else forall i :: 0 <= i < |e.frames| && Stale(e.frames[i], now) ==> !e.frames[i].Pending(true)
  }

  lemma TickedNotStale(e: ViewEntry, e': ViewEntry, now: Instant)
    requires Ticked(e, e', now)
    ensures NothingStale(e', now)
  {
  }

  /** With a timer to be had, what a tick does beyond releasing is to arm itself. */
  lemma TickOnlyArms(s: Pacing, now: Instant)
    ensures Tick(s, now, true).(tick := None) == TickReleases(s, now)
  {
    hide TickView, TickReleased, Wakes, ReleaseEverything, NextStale;
  }

  /** A timer left pending has its target past what the next vblank can meet, and its release time to come. */
  ghost predicate StillAhead(c: FrameClock, t: U64, now: Instant) {
    t > c.Due(now) && (!c.Saturates(t) ==> c.ReleaseAt(t) > now)
  }

  /** Of a surface's targets those are left that the next vblank cannot meet. */
  ghost predicate TargetsLeft(c: FrameClock, timers: seq<U64>, timers': seq<U64>, now: Instant) {
    && (forall t :: t in timers' <==> t in timers && t > c.Due(now))
    && forall t :: t in timers' ==> StillAhead(c, t, now)
  }

  lemma TimersLeftAhead(c: FrameClock, timers: seq<U64>, now: Instant)
    ensures TargetsLeft(c, timers, TimersAfter(timers, c.Due(now)), now)
  {
    TimersAfterAre(timers, c.Due(now));
    forall t | t in TimersAfter(timers, c.Due(now)) ensures StillAhead(c, t, now) {
      if !c.Saturates(t) && c.ReleaseAt(t) <= now { ReleasedIsDue(c, t, now); }
    }
  }

  /** A tick clears just what is due: of the loose barriers and unsent callbacks those whose time has come, of a view's
      frames those that are stale, of the targets those the next vblank can meet. What it leaves is still to come, and
      no target left was to be released by now -- unless its vblank lies past the end of u64 time. */
  lemma TickClearsDue(s: Pacing, now: Instant)
    requires Sound(s, now)
    ensures var s' := Tick(s, now, true);
            && (forall l :: l in s'.loose <==> l in s.loose && l.dueNs > now)
            && (forall p :: p in s'.unsubmitted <==> p in s.unsubmitted && p.1 > now)
            && s'.views.Keys == s.views.Keys
            && (forall v :: v in s.views ==> Ticked(s.views[v], s'.views[v], now) && NothingStale(s'.views[v], now))
            && (forall x :: x in s'.timed ==> x in s'.surfaces && s'.surfaces[x].timers != [])
            && s'.surfaces.Keys == s.surfaces.Keys
            && (forall x :: x in s.timed && x in s.surfaces ==>
                  TargetsLeft(s.clock, s.surfaces[x].timers, s'.surfaces[x].timers, now))
  {
    hide Tick, TickReleases, TickView, Ticked, NothingStale, ViewOk, LooseDue, UnsubmittedDue, StillTimed, TargetsLeft;
    TickOnlyArms(s, now);
    TickTakes(s, now);
    LooseSplit(s.loose, now);
    UnsubmittedSplit(s.unsubmitted, now);
    TimersCleared(s.clock, s.surfaces, s.timed, now);
    forall v | v in s.views
      ensures Ticked(s.views[v], TickView(s.views[v], now), now) && NothingStale(TickView(s.views[v], now), now)
    {
      TicksView(s.views[v], now);
      TickedNotStale(s.views[v], TickView(s.views[v], now), now);
    }
  }

  lemma TickTakes(s: Pacing, now: Instant)
    ensures var s1 := TickReleases(s, now);
            && s1.loose == LooseDue(s.loose, now, false) && s1.unsubmitted == UnsubmittedDue(s.unsubmitted, now, false)
            && s1.views.Keys == s.views.Keys && (forall v :: v in s.views ==> s1.views[v] == TickView(s.views[v], now))
            && s1.surfaces == TimersCut(s.surfaces, s.timed, s.clock.Due(now))
            && s1.timed == StillTimed(s.timed, s1.surfaces)
  {
    hide TickView, LooseDue, UnsubmittedDue, TimersCut, StillTimed, FrameClock.Due, TickUnblocked, TickCalled, Callable,
      TotalOver, TickReleasedRows, LooseBarriers;
  }

  lemma TimersCleared(c: FrameClock, surfaces: map<SurfaceId, Surface>, timed: seq<SurfaceId>, now: Instant)
    ensures var cut := TimersCut(surfaces, timed, c.Due(now));
            && cut.Keys == surfaces.Keys
            && (forall x :: x in StillTimed(timed, cut) ==> x in cut && cut[x].timers != [])
            && (forall x :: x in timed && x in surfaces ==>
                  TargetsLeft(c, surfaces[x].timers, cut[x].timers, now))
  {
    hide TimersAfter, StillTimed, TargetsLeft, FrameClock.Due;
    StillTimedAre(timed, TimersCut(surfaces, timed, c.Due(now)));
    forall x | x in timed && x in surfaces
      ensures TargetsLeft(c, surfaces[x].timers, TimersAfter(surfaces[x].timers, c.Due(now)), now)
    {
      TimersLeftAhead(c, surfaces[x].timers, now);
    }
  }

  lemma {:induction false} NoneDueKept(timers: seq<U64>, until: U64)
    requires forall i :: 0 <= i < |timers| ==> timers[i] > until
    ensures TimersAfter(timers, until) == timers
  {
    if timers != [] { NoneDueKept(timers[1..], until); }
  }

  lemma DueIffCut(timers: seq<U64>, until: U64)
    ensures (exists t :: t in timers && t <= until) <==> TimersAfter(timers, until) != timers
  {
    TimersAfterAre(timers, until);
    if t :| t in timers && t <= until {
      assert t !in TimersAfter(timers, until);
    } else {
      forall i | 0 <= i < |timers| ensures timers[i] > until {
        assert timers[i] in timers;
      }
      NoneDueKept(timers, until);
    }
  }

  /** Some barrier of the view's frames is cleared by a tick: of a stale one on screen, of any off screen once the
      view's release time has come. */
  ghost predicate ClearsFrame(e: ViewEntry, now: Instant) {
    exists i :: 0 <= i < |e.frames| && e.frames[i].barriers != []
             && if e.suspended then e.hiddenReleaseNs <= now && e.frames[i].submittedNs < 0xffff_ffff_ffff_ffff
                else Stale(e.frames[i], now)
  }

  lemma {:induction false} AnyOlder(fs: seq<Frame>, before: nat)
    ensures BarriersOlder(fs, before) != [] <==>
              exists i :: 0 <= i < |fs| && fs[i].barriers != [] && fs[i].submittedNs < before
  {
    if fs != [] {
      AnyOlder(fs[1..], before);
      if i :| 0 <= i < |fs| && fs[i].barriers != [] && fs[i].submittedNs < before {
        if i > 0 { assert fs[1..][i - 1] == fs[i]; }
      }
    }
  }

  lemma ReleasesIff(e: ViewEntry, now: Instant)
    ensures TickReleased(e, now) != [] <==> ClearsFrame(e, now)
  {
    StaleIffPending(e);
    AnyOlder(e.frames, MAX_U64);
    AnyOlder(e.frames, StaleBefore(now));
    hide BarriersOlder, NextStale;
  }

  /** A tick clears something of the client's: a loose barrier, one of its view's, or a timer. */
  ghost predicate ClearedByTick(s: Pacing, now: Instant, c: Client) {
    || (exists l :: l in s.loose && l.dueNs <= now && l.client == c)
    || (exists v :: v in s.views && s.views[v].client == Some(c) && ClearsFrame(s.views[v], now))
    || (exists x :: x in s.timed && x in s.surfaces && s.surfaces[x].client == Some(c)
                 && exists t :: t in s.surfaces[x].timers && t <= s.clock.Due(now))
  }

  lemma TimersDue(s: Pacing, now: Instant, c: Client)
    ensures c in TimerClients(s.surfaces, s.timed, s.clock.Due(now)) <==>
              exists x :: x in s.timed && x in s.surfaces && s.surfaces[x].client == Some(c)
                && exists t :: t in s.surfaces[x].timers && t <= s.clock.Due(now)
  {
    hide TimersAfter, FrameClock.Due;
    forall x | x in s.timed && x in s.surfaces
      ensures (exists t :: t in s.surfaces[x].timers && t <= s.clock.Due(now))
         <==> TimersAfter(s.surfaces[x].timers, s.clock.Due(now)) != s.surfaces[x].timers
    {
      DueIffCut(s.surfaces[x].timers, s.clock.Due(now));
    }
  }

  /** A client is unblocked by a tick exactly when something of its was cleared, and then once. */
  lemma TickUnblocks(s: Pacing, now: Instant, c: Client)
    ensures Tick(s, now, true).unblocked[c] == s.unblocked[c] + if ClearedByTick(s, now, c) then 1 else 0
  {
    hide Tick, TickUnblocked, ClearedByTick, TickViews, TickCalled, Callable, TimersCut, StillTimed, UnsubmittedDue,
      LooseDue, LooseBarriers, TickReleasedRows, FrameClock.Due;
    TickOnlyArms(s, now);
    UnblockedAre(s, now, c);
    assert TickReleases(s, now).unblocked == s.unblocked + multiset(TickUnblocked(s, now));
  }

  lemma UnblockedAre(s: Pacing, now: Instant, c: Client)
    ensures c in TickUnblocked(s, now) <==> ClearedByTick(s, now, c)
  {
    LooseSplit(s.loose, now);
    TimersDue(s, now, c);
    forall v | v in s.views ensures TickReleased(s.views[v], now) != [] <==> ClearsFrame(s.views[v], now) {
      ReleasesIff(s.views[v], now);
    }
    hide ClearsFrame, TickReleased, LooseDue, TimerClients, FrameClock.Due;
  }

  /** Barriers held loose are the exception: signaled with no one unblocked exactly when their client is gone or
      the list is full. */
  lemma HoldLooseSignals(s: Pacing, client: Option<Client>, barriers: seq<Barrier>, now: Instant)
    ensures var s' := HoldLoose(s, client, barriers, now, true);
            && s'.unblocked == s.unblocked
            && (|s.loose| <= 256 ==>
                 (s'.signaled != s.signaled <==>
                   barriers != [] && (client.None? || |s.loose| + |barriers| > 256)))
  {
    if barriers != [] {
      assert |multiset(barriers)| == |barriers|;
      if client.None? {
        assert |s.signaled + multiset(barriers)| > |s.signaled|;
      } else {
        var all := s.loose + LooseOf(client.value, barriers, s.clock.NextVblank(now));
        var excess := if |all| > MAX_LOOSE then |all| - MAX_LOOSE else 0;
        assert |s.signaled + multiset(LooseBarriers(all[..excess]))| == |s.signaled| + excess;
        if excess == 0 { assert LooseBarriers(all[..excess]) == []; }
      }
    }
  }

  // ----- timers -----

  /** Every update held back for its target has its surface on the list the clock goes through. */
  ghost predicate TimersWatched(s: Pacing) {
    forall x :: x in s.surfaces && s.surfaces[x].timers != [] ==> x in s.timed
  }

  lemma ScheduleKeepsTimers(s: Pacing, at: nat, inserted: bool)
    requires TimersWatched(s)
    ensures TimersWatched(ScheduleTick(s, at, inserted))
  {
    forall x | x in s.surfaces && x in s.timed
      ensures TimersAfter(s.surfaces[x].timers, MAX_U64) == []
    {
      NoTimersAfterMax(s.surfaces[x].timers);
    }
  }

  lemma TickKeepsTimers(s: Pacing, now: Instant, inserted: bool)
    requires TimersWatched(s)
    ensures TimersWatched(Tick(s, now, inserted))
  {
    hide ScheduleTick;
    var s1 := TickReleases(s, now);
    StillTimedAre(s.timed, s1.surfaces);
    var wakes := Wakes(s1, now);
    if wakes != {} { ScheduleKeepsTimers(s1, Max(Least(wakes), now + MIN_DELAY_NS), inserted); }
  }

  lemma SubmitKeepsTimers(s: Pacing, v: ViewId, taken: Taken, shown: Option<seq<Content>>, cleared: bool, now: Instant,
                          inserted: bool)
    requires TimersWatched(s)
    ensures TimersWatched(SubmitView(s, v, taken, shown, cleared, now, inserted))
  {
    hide ScheduleTick;
    if v in s.views && s.views[v].bound {
      match shown
      case Some(contents) =>
        var s1 := PushFrame(s, v, contents, taken, now);
        var wake := ViewWake(s1.views[v], s1.clock.NextVblank(now));
        if wake.Some? { ScheduleKeepsTimers(s1, wake.value, inserted); }
      case None =>
        var s1 := if cleared then s.(views := s.views[v := s.views[v].(seqNo := s.views[v].seqNo + 1)]) else s;
        HoldKeepsTimers(s1, s.views[v].client, taken, now, inserted);
        var s2 := NotShown(s1, s.views[v].client, taken, now, inserted);
        hide NotShown;
        var due := s2.clock.NextVblank(now);
        ScheduleKeepsTimers(if exists p :: p in s2.unsubmitted && p.0 == v then s2
                            else s2.(unsubmitted := s2.unsubmitted + [(v, due)]), due, inserted);
    }
  }

  lemma HoldKeepsTimers(s: Pacing, client: Option<Client>, taken: Taken, now: Instant, inserted: bool)
    requires TimersWatched(s)
    ensures TimersWatched(NotShown(s, client, taken, now, inserted))
  {
    hide ScheduleTick;
    if taken.barriers != [] && client.Some? {
      var due := s.clock.NextVblank(now);
      var all := s.loose + LooseOf(client.value, taken.barriers, due);
      var excess := if |all| > MAX_LOOSE then |all| - MAX_LOOSE else 0;
      ScheduleKeepsTimers(s.(answers := s.answers + Discards(taken.feedback), loose := all[excess..],
                             signaled := s.signaled + multiset(LooseBarriers(all[..excess]))), due, inserted);
    }
  }

  /** If the event commits an update with a target to a surface that is there, its timer is taken or the clock is armed
      for right away. */
  ghost predicate WatchedFrom(s: Pacing, e: Event) {
    e.action.CommitTimed? && e.action.surface in s.surfaces ==>
      e.inserted || ArmedBy(s, e.now)
  }

  /** An update held back for its target is always found again by the clock, with one exception: when the event
      loop takes no timer just as it is about to be applied, everything is released first, and its own timer is
      registered after that. */
  lemma TimersStayWatched(s: Pacing, e: Event)
    requires TimersWatched(s) && Enabled(s, e)
    ensures TimersWatched(Step(s, e)) <==> WatchedFrom(s, e)
  {
    hide Applied, Dropping, Tick, ScheduleTick;
    match e.action
    case Apply(u) => AppliedKeepsTimers(s, u, e.now, e.inserted);
    case CommitTimed(x, target) => if x in s.surfaces { TimedKeepsTimers(s, x, target, e.now, e.inserted); }
    case Suspend(v, suspended) => SuspendKeepsTimers(s, v, suspended, e.now, e.inserted);
    case ClockTick => TickKeepsTimers(s, e.now, e.inserted);
    case Present(v, report) =>
    case Unbind(v, cleared, applied) => DroppingKeepsTimers(s, v, applied, e.now, e.inserted);
    case Create(v, cleared, applied) => DroppingKeepsTimers(s, v, applied, e.now, e.inserted);
    case Dispose(v, cleared, applied) => DroppingKeepsTimers(s, v, applied, e.now, e.inserted);
    case NewSurface(x, client) =>
    case SurfaceGone(x) =>
  }

  /** So in a run where every such timer is taken, or the clock is armed for right away, the surfaces with updates held
      back are all on the list, all along. */
  lemma {:induction false} TimersAlwaysWatched(states: seq<Pacing>, events: seq<Event>, i: nat)
    requires IsRun(states, events) && i <= |events|
    requires forall j :: 0 <= j < i ==> WatchedFrom(states[j], events[j])
    ensures TimersWatched(states[i])
  {
    hide Step, Enabled, TimersWatched;
    if i == 0 {
      assert TimersWatched(INITIAL) by { NoTimersYet(); }
    } else {
      TimersAlwaysWatched(states, events, i - 1);
      TimersStayWatched(states[i - 1], events[i - 1]);
    }
  }

  lemma NoTimersYet()
    ensures TimersWatched(INITIAL)
  {
  }

  lemma AppliedKeepsTimers(s: Pacing, u: Update, now: Instant, inserted: bool)
    requires TimersWatched(s)
    ensures TimersWatched(Applied(s, u, now, inserted))
  {
    hide NotShown, SubmitView;
    match u
    case Unshown(client, taken) => HoldKeepsTimers(s, client, taken, now, inserted);
    case Submit(v, taken, shown, cleared) => SubmitKeepsTimers(s, v, taken, shown, cleared, now, inserted);
    case Bind(v, owner) =>
  }

  lemma {:induction false} EachKeepsTimers(s: Pacing, us: seq<Update>, now: Instant, inserted: bool)
    requires TimersWatched(s)
    ensures TimersWatched(ApplyEach(s, us, now, inserted))
    decreases |us|
  {
    hide Applied, TimersWatched;
    if us != [] {
      AppliedKeepsTimers(s, us[0], now, inserted);
      EachKeepsTimers(Applied(s, us[0], now, inserted), us[1..], now, inserted);
    }
  }

  lemma DroppingKeepsTimers(s: Pacing, v: ViewId, applied: seq<Update>, now: Instant, inserted: bool)
    requires TimersWatched(s)
    ensures TimersWatched(Dropping(s, v, applied, now, inserted))
  {
    hide ApplyEach;
    EachKeepsTimers(DropFrames(s, v), applied, now, inserted);
  }

  lemma TimedKeepsTimers(s: Pacing, x: SurfaceId, target: U64, now: Instant, inserted: bool)
    requires TimersWatched(s) && x in s.surfaces
    ensures TimersWatched(AddTimer(WatchTarget(s, x, now, inserted), x, target)) <==> inserted || ArmedBy(s, now)
  {
    var s1 := if x in s.timed then s else s.(timed := s.timed + [x]);
    ScheduleKeepsTimers(s1, now, inserted);
    var s2 := ScheduleTick(s1, now, inserted);
    assert x in s2.surfaces && AddTimer(s2, x, target).surfaces[x].timers != [];
  }

  lemma SuspendKeepsTimers(s: Pacing, v: ViewId, suspended: bool, now: Instant, inserted: bool)
    requires TimersWatched(s)
    ensures TimersWatched(ViewSuspended(s, v, suspended, now, inserted))
  {
    hide ScheduleTick;
    if v in s.views {
      var e := s.views[v].(suspended := suspended, hiddenReleaseNs := s.clock.NextVblank(now));
      var stale := NextStale(e.frames, !suspended);
      if stale.Some? {
        ScheduleKeepsTimers(s.(views := s.views[v := e]),
                            if suspended then e.hiddenReleaseNs else Max(stale.value, now + STALE_NS), inserted);
      }
    }
  }
}

/** What feedback is answered: presented only by the report of its view's frame, and discarded by everything else. */
module PacingAnswers {
  import opened Basics
  import opened FrameClocks
  import opened FrameQueues
  import opened MultisetSums
  import opened PacingSpec

  /** The frames up to the one reported leave their view's queue, and just their barriers are signaled and their
      feedback answered: as presented, with what the report says, where the frame reported is still queued and shows
      the content. */
  lemma ReportAnswers(s: Pacing, e: Event)
    requires Enabled(s, e) && e.action.Present? && e.action.view in s.views
    requires QueueOk(s.views[e.action.view].frames)
    ensures var s', v, r := Step(s, e), e.action.view, e.action.report;
            var fs := s.views[v].frames;
            && v in s'.views && |s'.views[v].frames| <= |fs|
            && var n := |fs| - |s'.views[v].frames|;
            && s'.views == s.views[v := s.views[v].(frames := fs[n..])]
            && (forall i :: 0 <= i < |fs| ==> (i < n <==> fs[i].seqNo <= r.seqNo))
            && s'.signaled == s.signaled + multiset(BarriersOf(fs[..n]))
            && s.answers <= s'.answers && |s'.answers| == |s.answers| + |FeedbackOf(fs[..n])|
            && TimingFrom(TimingOf(r), r)
            && forall i, j :: 0 <= i < n && 0 <= j < |fs[i].feedback| ==>
                 AnsweredAt(s'.answers, |s.answers| + |FeedbackOf(fs[..i])| + j, TrueAnswer(fs, fs[i].feedback[j], r))
  {
    hide Sorted, AsksForShown, AnsweredAt, TrueAnswer, TimingFrom, TimingOf, FeedbackOf, BarriersOf, ShownBy, Replaced,
      Answers, FrameClock.Update;
    var fs, r := s.views[e.action.view].frames, e.action.report;
    FeedbackTruth(fs, r);
    var n := Replaced(fs, r.seqNo);
    var more := Answers(FeedbackOf(fs[..n]), ShownBy(fs, r.seqNo), TimingOf(r));
    forall i, j | 0 <= i < n && 0 <= j < |fs[i].feedback|
      ensures AnsweredAt(s.answers + more, |s.answers| + |FeedbackOf(fs[..i])| + j,
                         TrueAnswer(fs, fs[i].feedback[j], r))
    {
      AnsweredLater(s.answers, more, |FeedbackOf(fs[..i])| + j, TrueAnswer(fs, fs[i].feedback[j], r));
    }
  }

  lemma AnsweredLater(before: seq<Answer>, more: seq<Answer>, at: nat, a: Answer)
    requires AnsweredAt(more, at, a)
    ensures AnsweredAt(before + more, |before| + at, a)
  {
  }

  // ----- everything else -----

  /** Nothing is answered again, and what is answered is discarded. */
  ghost predicate Discarding(s: Pacing, s': Pacing) {
    && s.answers <= s'.answers
    && forall i :: |s.answers| <= i < |s'.answers| ==> s'.answers[i].Discarded?
  }

  lemma DiscardingOn(a: Pacing, b: Pacing, c: Pacing)
    requires Discarding(a, b) && Discarding(b, c)
    ensures Discarding(a, c)
  {
    forall i | |a.answers| <= i < |c.answers| ensures c.answers[i].Discarded? {
      if i < |b.answers| { assert c.answers[i] == b.answers[i]; }
    }
  }

  lemma SameAnswers(s: Pacing, s': Pacing)
    requires s'.answers == s.answers
    ensures Discarding(s, s')
  {
  }

  lemma JustDiscards(s: Pacing, s': Pacing, feedback: seq<Feedback>)
    requires s'.answers == s.answers + Discards(feedback)
    ensures Discarding(s, s')
  {
  }

  lemma ScheduleAnswers(s: Pacing, at: nat, inserted: bool)
    ensures ScheduleTick(s, at, inserted).answers == s.answers
  {
    hide TimersCut, EveryReleased, EveryReleasedRows, TotalOver, LooseBarriers, Callable, WaitingClients;
  }

  lemma NotShownAnswers(s: Pacing, client: Option<Client>, taken: Taken, now: Instant, inserted: bool)
    ensures Discarding(s, NotShown(s, client, taken, now, inserted))
  {
    hide ScheduleTick, LooseBarriers, FrameClock.NextVblank, Discarding, Discards;
    var s1 := s.(answers := s.answers + Discards(taken.feedback));
    var s' := NotShown(s, client, taken, now, inserted);
    if taken.barriers != [] && client.Some? {
      var due := s.clock.NextVblank(now);
      var all := s1.loose + LooseOf(client.value, taken.barriers, due);
      var excess := if |all| > MAX_LOOSE then |all| - MAX_LOOSE else 0;
      var s2 := s1.(loose := all[excess..], signaled := s1.signaled + multiset(LooseBarriers(all[..excess])));
      ScheduleAnswers(s2, due, inserted);
    }
    JustDiscards(s, s', taken.feedback);
  }

  lemma PushAnswers(s: Pacing, v: ViewId, shown: seq<Content>, taken: Taken, now: Instant)
    requires v in s.views
    ensures Discarding(s, PushFrame(s, v, shown, taken, now))
  {
    var e := s.views[v];
    var all := e.frames + [Entering(e.seqNo + 1, now, shown, taken)];
    var dropped := all[..Excess(|all|)];
    DiscardsConcat(Select(taken.feedback, shown, false), FeedbackOf(dropped));
    hide BarriersOf, FeedbackOf, Select, Discards, Entering, Discarding;
    JustDiscards(s, PushFrame(s, v, shown, taken, now), Select(taken.feedback, shown, false) + FeedbackOf(dropped));
  }

  lemma SubmitAnswers(s: Pacing, v: ViewId, taken: Taken, shown: Option<seq<Content>>, cleared: bool, now: Instant,
                      inserted: bool)
    ensures Discarding(s, SubmitView(s, v, taken, shown, cleared, now, inserted))
  {
    hide ScheduleTick, PushFrame, NotShown, Discarding, ViewWake, FrameClock.NextVblank;
    SameAnswers(s, s);
    if v in s.views && s.views[v].bound {
      match shown
      case Some(contents) =>
        var s1 := PushFrame(s, v, contents, taken, now);
        PushAnswers(s, v, contents, taken, now);
        SameAnswers(s1, s1);
        if v in s1.views && ViewWake(s1.views[v], s1.clock.NextVblank(now)).Some? {
          ScheduleAnswers(s1, ViewWake(s1.views[v], s1.clock.NextVblank(now)).value, inserted);
        }
        SameAnswers(s1, WatchFrames(s1, v, now, inserted));
        DiscardingOn(s, s1, WatchFrames(s1, v, now, inserted));
      case None =>
        var s1 := if cleared then s.(views := s.views[v := s.views[v].(seqNo := s.views[v].seqNo + 1)]) else s;
        var s2 := NotShown(s1, s.views[v].client, taken, now, inserted);
        SameAnswers(s, s1);
        NotShownAnswers(s1, s.views[v].client, taken, now, inserted);
        DiscardingOn(s, s1, s2);
        UnsubmittedAnswers(s2, v, now, inserted);
        DiscardingOn(s, s2, Unsubmitted(s2, v, now, inserted));
    }
  }

  lemma UnsubmittedAnswers(s: Pacing, v: ViewId, now: Instant, inserted: bool)
    ensures Discarding(s, Unsubmitted(s, v, now, inserted))
  {
    hide ScheduleTick, FrameClock.NextVblank;
    var due := s.clock.NextVblank(now);
    ScheduleAnswers(if exists p :: p in s.unsubmitted && p.0 == v then s
                    else s.(unsubmitted := s.unsubmitted + [(v, due)]), due, inserted);
  }

  lemma UpdateAnswers(s: Pacing, u: Update, now: Instant, inserted: bool)
    ensures Discarding(s, Applied(s, u, now, inserted))
  {
    hide NotShown, SubmitView;
    match u
    case Unshown(client, taken) => NotShownAnswers(s, client, taken, now, inserted);
    case Submit(v, taken, shown, cleared) => SubmitAnswers(s, v, taken, shown, cleared, now, inserted);
    case Bind(_, _) =>
  }

  lemma {:induction false} UpdatesAnswer(s: Pacing, us: seq<Update>, now: Instant, inserted: bool)
    ensures Discarding(s, ApplyEach(s, us, now, inserted))
    decreases |us|
  {
    hide Applied, Discarding;
    if us == [] {
      SameAnswers(s, s);
    } else {
      UpdateAnswers(s, us[0], now, inserted);
      UpdatesAnswer(Applied(s, us[0], now, inserted), us[1..], now, inserted);
      DiscardingOn(s, Applied(s, us[0], now, inserted), ApplyEach(s, us, now, inserted));
    }
  }

  lemma UnbindAnswers(s: Pacing, v: ViewId, cleared: bool, applied: seq<Update>, now: Instant, inserted: bool)
    ensures Discarding(s, UnbindView(s, v, cleared, applied, now, inserted))
  {
    hide ApplyEach, BarriersOf, FeedbackOf, Discards, Discarding;
    var s1 := DropFrames(s, v);
    if v in s.views { JustDiscards(s, s1, FeedbackOf(s.views[v].frames)); } else { SameAnswers(s, s1); }
    UpdatesAnswer(s1, applied, now, inserted);
    var s2 := Dropping(s, v, applied, now, inserted);
    if DropTells(s, v) { DiscardingOn(s, s1, s2); }
    SameAnswers(s2, Broken(s2, v, cleared));
    DiscardingOn(s, s2, Broken(s2, v, cleared));
  }

  lemma TickAnswers(s: Pacing, now: Instant, inserted: bool)
    ensures Tick(s, now, inserted).answers == s.answers
  {
    var s1 := TickReleases(s, now);
    hide TickViews, TimersCut, LooseDue, UnsubmittedDue, TickReleasedRows, TickUnblocked, StillTimed, Callable,
      TickCalled, TotalOver, LooseBarriers, Wakes, ScheduleTick;
    if Wakes(s1, now) != {} { ScheduleAnswers(s1, Max(Least(Wakes(s1, now)), now + MIN_DELAY_NS), inserted); }
  }

  lemma SuspendAnswers(s: Pacing, v: ViewId, suspended: bool, now: Instant, inserted: bool)
    ensures ViewSuspended(s, v, suspended, now, inserted).answers == s.answers
  {
    hide ScheduleTick, NextStale, FrameClock.NextVblank;
    if v in s.views {
      var e := s.views[v].(suspended := suspended, hiddenReleaseNs := s.clock.NextVblank(now));
      var s1 := s.(views := s.views[v := e]);
      if NextStale(e.frames, !suspended).Some? {
        var at := NextStale(e.frames, !suspended).value;
        ScheduleAnswers(s1, if suspended then e.hiddenReleaseNs else Max(at, now + STALE_NS), inserted);
      }
    }
  }

  /** Only the report of a frame says that something was presented: every other event discards what feedback it answers,
      and none takes an answer back. */
  lemma StepDiscards(s: Pacing, e: Event)
    requires Enabled(s, e) && !e.action.Present?
    ensures Discarding(s, Step(s, e))
  {
    hide Applied, Tick, UnbindView, ViewSuspended, ScheduleTick;
    match e.action
    case Apply(u) => UpdateAnswers(s, u, e.now, e.inserted);
    case CommitTimed(x, _) =>
      ScheduleAnswers(if x in s.timed then s else s.(timed := s.timed + [x]), e.now, e.inserted);
    case Suspend(v, suspended) => SuspendAnswers(s, v, suspended, e.now, e.inserted);
    case Unbind(v, cleared, applied) => UnbindAnswers(s, v, cleared, applied, e.now, e.inserted);
    case Create(v, cleared, applied) => UnbindAnswers(s, v, cleared, applied, e.now, e.inserted);
    case Dispose(v, cleared, applied) => UnbindAnswers(s, v, cleared, applied, e.now, e.inserted);
    case ClockTick => TickAnswers(s, e.now, e.inserted);
    case _ =>
  }
}

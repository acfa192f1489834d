/** Frame pacing keeps its books: over any run, every fifo barrier it takes is in exactly one frame, or waiting
    loose, or was signaled once; every feedback callback is pending in exactly one frame or was answered once. */
module PacingLedger {
  import opened Basics
  import opened FrameQueues
  import opened MultisetSums
  import opened PacingSpec
  import opened PacingLists

  // ----- the books -----

  /** The barriers the views' frames hold. */
  ghost function Held(views: map<ViewId, ViewEntry>): multiset<Barrier> {
    Total(BarrierRows(views))
  }

  /** The feedback callbacks the views' frames hold. */
  ghost function Pending(views: map<ViewId, ViewEntry>): multiset<Callback> {
    Total(FeedbackRows(views))
  }

  ghost function BarrierLedger(s: Pacing): multiset<Barrier> {
    s.signaled + multiset(LooseBarriers(s.loose)) + Held(s.views)
  }

  function Callbacks(feedback: seq<Feedback>): seq<Callback> {
    seq(|feedback|, i requires 0 <= i < |feedback| => feedback[i].callback)
  }

  function Answered(answers: seq<Answer>): seq<Callback> {
    seq(|answers|, i requires 0 <= i < |answers| => answers[i].callback)
  }

  ghost function FeedbackRows(views: map<ViewId, ViewEntry>): map<ViewId, multiset<Callback>> {
    map v | v in views :: multiset(Callbacks(FeedbackOf(views[v].frames)))
  }

  ghost function FeedbackLedger(s: Pacing): multiset<Callback> {
    multiset(Answered(s.answers)) + Pending(s.views)
  }

  const NOTHING := Taken([], [])

  /** What an update takes from its client: what its tree waits for, if it is shown nowhere or its view is bound. */
  ghost function TakesOf(s: Pacing, u: Update): Taken {
    match u
    case Unshown(_, taken) => taken
    case Submit(v, taken, _, _) => if v in s.views && s.views[v].bound then taken else NOTHING
    case Bind(_, _) => NOTHING
  }

  ghost function TakenBy(s: Pacing, us: seq<Update>, now: Instant, inserted: bool): Taken
    decreases |us|
  {
    if us == [] then NOTHING
    else
      var first, rest := TakesOf(s, us[0]), TakenBy(Applied(s, us[0], now, inserted), us[1..], now, inserted);
      Taken(first.feedback + rest.feedback, first.barriers + rest.barriers)
  }

  ghost function TakenUnbinding(s: Pacing, v: ViewId, applied: seq<Update>, now: Instant, inserted: bool): Taken {
    if DropTells(s, v) then TakenBy(DropFrames(s, v), applied, now, inserted) else NOTHING
  }

  ghost function Takes(s: Pacing, e: Event): Taken {
    match e.action
    case Apply(u) => TakesOf(s, u)
    case Unbind(v, _, applied) => TakenUnbinding(s, v, applied, e.now, e.inserted)
    case Create(v, _, applied) => TakenUnbinding(s, v, applied, e.now, e.inserted)
    case Dispose(v, _, applied) => TakenUnbinding(s, v, applied, e.now, e.inserted)
    case _ => NOTHING
  }

  ghost function FramesOf(s: Pacing, v: ViewId): seq<Frame> {
    if v in s.views then s.views[v].frames else []
  }

  /** The frames that go with a view that is replaced or disposed of: those submitted while it was unbound. */
  ghost function Lost(s: Pacing, e: Event): seq<Frame> {
    match e.action
    case Create(v, cleared, applied) => FramesOf(UnbindView(s, v, cleared, applied, e.now, e.inserted), v)
    case Dispose(v, cleared, applied) => FramesOf(UnbindView(s, v, cleared, applied, e.now, e.inserted), v)
    case _ => []
  }

  // ----- frames -----

  lemma {:induction false} ReleaseSplits(fs: seq<Frame>, before: nat)
    ensures multiset(BarriersOf(fs)) == multiset(BarriersOlder(fs, before))
        + multiset(BarriersOf(ReleasedOlder(fs, before)))
    ensures FeedbackOf(ReleasedOlder(fs, before)) == FeedbackOf(fs)
  {
    if fs != [] {
      var rest, left := fs[1..], ReleasedOlder(fs, before);
      assert left[1..] == ReleasedOlder(rest, before);
      var older := if fs[0].submittedNs < before then fs[0].barriers else [];
      assert BarriersOlder(fs, before) == older + BarriersOlder(rest, before);
      assert BarriersOf(left) == left[0].barriers + BarriersOf(left[1..]);
      assert FeedbackOf(left) == fs[0].feedback + FeedbackOf(left[1..]);
      assert multiset(fs[0].barriers) == multiset(older) + multiset(left[0].barriers);
      assert BarriersOf(fs) == fs[0].barriers + BarriersOf(rest) && FeedbackOf(fs) == fs[0].feedback + FeedbackOf(rest);
      ReleaseSplits(rest, before);
      hide ReleasedOlder, BarriersOlder, BarriersOf, FeedbackOf;
    }
  }

  lemma TickSplits(e: ViewEntry, now: Instant)
    ensures multiset(BarriersOf(e.frames)) == multiset(TickReleased(e, now))
        + multiset(BarriersOf(TickView(e, now).frames))
    ensures FeedbackOf(TickView(e, now).frames) == FeedbackOf(e.frames)
  {
    hide BarriersOf, FeedbackOf, BarriersOlder, ReleasedOlder, FlushedOlder, NextStale, StaleBefore;
    if e.suspended {
      ReleaseSplits(e.frames, MAX_U64);
    } else {
      FlushKeepsBarriers(e.frames, StaleBefore(now));
      ReleaseSplits(FlushedOlder(e.frames, StaleBefore(now)), StaleBefore(now));
    }
  }

  lemma CallbacksConcat(a: seq<Feedback>, b: seq<Feedback>)
    ensures Callbacks(a + b) == Callbacks(a) + Callbacks(b)
  {
  }

  lemma CallbacksEmpty()
    ensures Callbacks([]) == []
  {
  }

  lemma AnsweredConcat(a: seq<Answer>, b: seq<Answer>)
    ensures Answered(a + b) == Answered(a) + Answered(b)
  {
  }

  lemma AnswersAre(feedback: seq<Feedback>, shown: seq<Content>, timing: Timing)
    ensures Answered(Discards(feedback)) == Callbacks(feedback)
    ensures Answered(Answers(feedback, shown, timing)) == Callbacks(feedback)
  {
  }

  lemma {:induction false} SelectSplits(feedback: seq<Feedback>, shown: seq<Content>)
    ensures multiset(Callbacks(feedback))
         == multiset(Callbacks(Select(feedback, shown, true))) + multiset(Callbacks(Select(feedback, shown, false)))
  {
    if feedback != [] {
      SelectSplits(feedback[1..], shown);
      var keep := feedback[0].content in shown;
      var rest := feedback[1..];
      assert feedback == [feedback[0]] + rest;
      CallbacksConcat([feedback[0]], rest);
      CallbacksConcat([feedback[0]], Select(rest, shown, keep));
      assert Select(feedback, shown, keep) == [feedback[0]] + Select(rest, shown, keep);
      assert Select(feedback, shown, !keep) == Select(rest, shown, !keep);
    }
  }

  // ----- views -----

  ghost function BarriersIn(fs: seq<Frame>): multiset<Barrier> { multiset(BarriersOf(fs)) }

  ghost function CallbacksIn(fs: seq<Frame>): multiset<Callback> { multiset(Callbacks(FeedbackOf(fs))) }

  /** Writing or removing one view's entry leaves what the others hold alone. */
  lemma EntryBooks(views: map<ViewId, ViewEntry>, v: ViewId, e: ViewEntry)
    returns (barriers: multiset<Barrier>, callbacks: multiset<Callback>)
    ensures Held(views) == if v in views then barriers + BarriersIn(views[v].frames) else barriers
    ensures Held(views[v := e]) == barriers + BarriersIn(e.frames)
    ensures Held(views - {v}) == barriers
    ensures Pending(views) == if v in views then callbacks + CallbacksIn(views[v].frames) else callbacks
    ensures Pending(views[v := e]) == callbacks + CallbacksIn(e.frames)
    ensures Pending(views - {v}) == callbacks
  {
    hide BarriersOf, FeedbackOf, Callbacks, TotalOver;
    RowsFollow(views, v, e);
    RowsLeave(views, v);
    barriers := RowWritten(BarrierRows(views), v, BarriersIn(e.frames));
    callbacks := RowWritten(FeedbackRows(views), v, CallbacksIn(e.frames));
  }

  lemma RowsFollow(views: map<ViewId, ViewEntry>, v: ViewId, e: ViewEntry)
    ensures BarrierRows(views[v := e]) == BarrierRows(views)[v := BarriersIn(e.frames)]
    ensures FeedbackRows(views[v := e]) == FeedbackRows(views)[v := CallbacksIn(e.frames)]
  {
    BarrierRowsFollow(views, v, e);
    FeedbackRowsFollow(views, v, e);
    hide BarrierRows, FeedbackRows;
  }

  lemma BarrierRowsFollow(views: map<ViewId, ViewEntry>, v: ViewId, e: ViewEntry)
    ensures BarrierRows(views[v := e]) == BarrierRows(views)[v := BarriersIn(e.frames)]
  {
    hide BarriersOf;
    var rows, rows' := BarrierRows(views[v := e]), BarrierRows(views)[v := BarriersIn(e.frames)];
    assert rows.Keys == rows'.Keys;
    forall u | u in rows ensures rows[u] == rows'[u] {}
    hide BarrierRows, BarriersIn;
  }

  lemma FeedbackRowsFollow(views: map<ViewId, ViewEntry>, v: ViewId, e: ViewEntry)
    ensures FeedbackRows(views[v := e]) == FeedbackRows(views)[v := CallbacksIn(e.frames)]
  {
    hide FeedbackOf, Callbacks;
    var rows, rows' := FeedbackRows(views[v := e]), FeedbackRows(views)[v := CallbacksIn(e.frames)];
    assert rows.Keys == rows'.Keys;
    forall u | u in rows ensures rows[u] == rows'[u] {}
    hide FeedbackRows, CallbacksIn;
  }

  lemma RowsLeave(views: map<ViewId, ViewEntry>, v: ViewId)
    ensures BarrierRows(views - {v}) == BarrierRows(views) - {v}
    ensures FeedbackRows(views - {v}) == FeedbackRows(views) - {v}
  {
    hide BarriersOf, FeedbackOf, Callbacks;
  }

  lemma SameFeedback(a: map<ViewId, ViewEntry>, b: map<ViewId, ViewEntry>)
    requires a.Keys == b.Keys
    requires forall v :: v in a ==> FeedbackOf(a[v].frames) == FeedbackOf(b[v].frames)
    ensures Pending(a) == Pending(b)
  {
    hide FeedbackOf, Callbacks, TotalOver;
    assert FeedbackRows(a).Keys == a.Keys && FeedbackRows(b).Keys == a.Keys;
    forall v | v in a ensures FeedbackRows(a)[v] == FeedbackRows(b)[v] {
      assert FeedbackOf(a[v].frames) == FeedbackOf(b[v].frames);
    }
    SameRows(FeedbackRows(a), FeedbackRows(b), a.Keys);
  }

  // ----- the clock -----

  lemma ReleaseEverythingBooks(s: Pacing)
    ensures BarrierLedger(ReleaseEverything(s)) == BarrierLedger(s)
    ensures FeedbackLedger(ReleaseEverything(s)) == FeedbackLedger(s)
  {
    hide Held, Pending, LooseBarriers, EveryReleased, EveryReleasedRows, TotalOver, TimersCut, Callable,
      WaitingClients;
    var s' := ReleaseEverything(s);
    ReleasedViewsBooks(s.views);
    NoLoose();
    MovedBooks(s, s', multiset(LooseBarriers(s.loose)), Total(EveryReleasedRows(s.views)));
  }

  lemma NoLoose()
    ensures LooseBarriers([]) == []
  {
  }

  lemma ReleasedViewsBooks(views: map<ViewId, ViewEntry>)
    ensures Held(views) == Total(EveryReleasedRows(views)) + Held(EveryReleased(views))
    ensures Pending(EveryReleased(views)) == Pending(views)
  {
    hide BarriersOf, FeedbackOf, BarriersOlder, ReleasedOlder, Callbacks, TotalOver;
    var views', released := EveryReleased(views), EveryReleasedRows(views);
    forall v | v in views
      ensures BarrierRows(views)[v] == released[v] + BarrierRows(views')[v]
      ensures FeedbackOf(views'[v].frames) == FeedbackOf(views[v].frames)
    {
      ReleaseSplits(views[v].frames, MAX_U64);
    }
    assert BarrierRows(views').Keys == views.Keys && released.Keys == views.Keys;
    RowsSplit(BarrierRows(views), released, BarrierRows(views'), views.Keys);
    SameFeedback(views', views);
  }

  lemma ScheduleBooks(s: Pacing, at: nat, inserted: bool)
    ensures BarrierLedger(ScheduleTick(s, at, inserted)) == BarrierLedger(s)
    ensures FeedbackLedger(ScheduleTick(s, at, inserted)) == FeedbackLedger(s)
  {
    hide ReleaseEverything;
    ReleaseEverythingBooks(s.(tick := None));
  }

  lemma {:induction false} LooseBooks(loose: seq<Loose>, now: nat)
    ensures multiset(LooseBarriers(loose))
         == multiset(LooseBarriers(LooseDue(loose, now, true))) + multiset(LooseBarriers(LooseDue(loose, now, false)))
  {
    if loose != [] {
      var due := loose[0].dueNs <= now;
      LooseBooks(loose[1..], now);
      LooseConcat([loose[0]], loose[1..]);
      LooseConcat([loose[0]], LooseDue(loose[1..], now, due));
      assert loose == [loose[0]] + loose[1..];
      assert LooseDue(loose, now, due) == [loose[0]] + LooseDue(loose[1..], now, due);
      assert LooseDue(loose, now, !due) == LooseDue(loose[1..], now, !due);
    }
  }

  lemma LooseConcat(a: seq<Loose>, b: seq<Loose>)
    ensures LooseBarriers(a + b) == LooseBarriers(a) + LooseBarriers(b)
  {
  }

  /** Barriers moving from the loose list and the views' frames to the signaled ones keep the books. */
  lemma MovedBooks(s: Pacing, s': Pacing, loose: multiset<Barrier>, held: multiset<Barrier>)
    requires multiset(LooseBarriers(s.loose)) == loose + multiset(LooseBarriers(s'.loose))
    requires Held(s.views) == held + Held(s'.views)
    requires s'.signaled == s.signaled + loose + held
    ensures BarrierLedger(s') == BarrierLedger(s)
  {
    hide Held, LooseBarriers;
  }

  lemma TickReleasesBooks(s: Pacing, now: Instant)
    ensures BarrierLedger(TickReleases(s, now)) == BarrierLedger(s)
    ensures FeedbackLedger(TickReleases(s, now)) == FeedbackLedger(s)
  {
    var s1 := TickReleases(s, now);
    LooseBooks(s.loose, now);
    TickedViewsBooks(s.views, s1.views, now);
    hide TickView, TickReleased, LooseBarriers, Answered, LooseDue, Held, Pending, TickReleasedRows;
    MovedBooks(s, s1, multiset(LooseBarriers(LooseDue(s.loose, now, true))), Total(TickReleasedRows(s.views, now)));
  }

  lemma TickedViewsBooks(views: map<ViewId, ViewEntry>, views': map<ViewId, ViewEntry>, now: Instant)
    requires views'.Keys == views.Keys
    requires forall v :: v in views ==> views'[v] == TickView(views[v], now)
    ensures Held(views) == Total(TickReleasedRows(views, now)) + Held(views')
    ensures Pending(views') == Pending(views)
  {
    hide TickView, TickReleased, BarriersOf, FeedbackOf, Callbacks, TotalOver;
    forall v | v in views
      ensures BarrierRows(views)[v] == TickReleasedRows(views, now)[v] + BarrierRows(views')[v]
      ensures FeedbackOf(views'[v].frames) == FeedbackOf(views[v].frames)
    {
      TickSplits(views[v], now);
    }
    assert BarrierRows(views').Keys == views.Keys && TickReleasedRows(views, now).Keys == views.Keys;
    RowsSplit(BarrierRows(views), TickReleasedRows(views, now), BarrierRows(views'), views.Keys);
    SameFeedback(views', views);
  }

  lemma TickBooks(s: Pacing, now: Instant, inserted: bool)
    ensures BarrierLedger(Tick(s, now, inserted)) == BarrierLedger(s)
    ensures FeedbackLedger(Tick(s, now, inserted)) == FeedbackLedger(s)
  {
    hide ScheduleTick, TickReleases, BarrierLedger, FeedbackLedger, Wakes;
    var s1 := TickReleases(s, now);
    TickReleasesBooks(s, now);
    var wakes := Wakes(s1, now);
    if wakes != {} { ScheduleBooks(s1, Max(Least(wakes), now + MIN_DELAY_NS), inserted); }
  }

  // ----- the other operations -----

  lemma LooseOfBarriers(client: Client, barriers: seq<Barrier>, due: U64)
    ensures LooseBarriers(LooseOf(client, barriers, due)) == barriers
  {
  }

  lemma HoldLooseBooks(s: Pacing, client: Option<Client>, barriers: seq<Barrier>, now: Instant, inserted: bool)
    ensures BarrierLedger(HoldLoose(s, client, barriers, now, inserted)) == BarrierLedger(s) + multiset(barriers)
    ensures FeedbackLedger(HoldLoose(s, client, barriers, now, inserted)) == FeedbackLedger(s)
  {
    hide ScheduleTick, Held, Pending, LooseBarriers;
    if barriers != [] && client.Some? {
      var due := s.clock.NextVblank(now);
      var added := LooseOf(client.value, barriers, due);
      var all := s.loose + added;
      var excess := if |all| > MAX_LOOSE then |all| - MAX_LOOSE else 0;
      LooseConcat(s.loose, added);
      LooseConcat(all[..excess], all[excess..]);
      assert all[..excess] + all[excess..] == all;
      LooseOfBarriers(client.value, barriers, due);
      var s1 := s.(loose := all[excess..], signaled := s.signaled + multiset(LooseBarriers(all[..excess])));
      ScheduleBooks(s1, due, inserted);
      assert BarrierLedger(s1) == s.signaled + Held(s.views)
          + multiset(LooseBarriers(all[..excess]) + LooseBarriers(all[excess..]));
    }
  }

  lemma NotShownBooks(s: Pacing, client: Option<Client>, taken: Taken, now: Instant, inserted: bool)
    ensures BarrierLedger(NotShown(s, client, taken, now, inserted)) == BarrierLedger(s) + multiset(taken.barriers)
    ensures FeedbackLedger(NotShown(s, client, taken, now, inserted)) == FeedbackLedger(s)
        + multiset(Callbacks(taken.feedback))
  {
    hide HoldLoose;
    AnsweredConcat(s.answers, Discards(taken.feedback));
    AnswersAre(taken.feedback, [], Timing(0, None, 0, 0));
    HoldLooseBooks(s.(answers := s.answers + Discards(taken.feedback)), client, taken.barriers, now, inserted);
  }

  /** Frames leaving the front of the queue take their barriers and feedback with them. */
  lemma FramesLeaveBooks(fs: seq<Frame>, n: nat)
    requires n <= |fs|
    ensures BarriersIn(fs) == BarriersIn(fs[..n]) + BarriersIn(fs[n..])
    ensures CallbacksIn(fs) == CallbacksIn(fs[..n]) + CallbacksIn(fs[n..])
  {
    OfConcat(fs[..n], fs[n..]);
    CallbacksConcat(FeedbackOf(fs[..n]), FeedbackOf(fs[n..]));
    assert fs[..n] + fs[n..] == fs;
  }

  lemma EnteringBooks(fs: seq<Frame>, seqNo: nat, now: nat, shown: seq<Content>, taken: Taken)
    ensures var all := fs + [Entering(seqNo, now, shown, taken)];
            && BarriersIn(all) == BarriersIn(fs) + multiset(taken.barriers)
            && CallbacksIn(all) == CallbacksIn(fs) + multiset(Callbacks(Select(taken.feedback, shown, true)))
  {
    var f := Entering(seqNo, now, shown, taken);
    OfConcat(fs, [f]);
    CallbacksConcat(FeedbackOf(fs), FeedbackOf([f]));
    assert FeedbackOf([f]) == f.feedback && BarriersOf([f]) == f.barriers;
  }

  /** The answers grow by discarding the given feedback. */
  lemma DiscardBooks(answers: seq<Answer>, feedback: seq<Feedback>)
    ensures multiset(Answered(answers + Discards(feedback))) == multiset(Answered(answers))
        + multiset(Callbacks(feedback))
  {
    AnsweredConcat(answers, Discards(feedback));
    AnswersAre(feedback, [], Timing(0, None, 0, 0));
  }

  lemma PushBooks(s: Pacing, v: ViewId, shown: seq<Content>, taken: Taken, now: Instant)
    requires v in s.views
    ensures BarrierLedger(PushFrame(s, v, shown, taken, now)) == BarrierLedger(s) + multiset(taken.barriers)
    ensures FeedbackLedger(PushFrame(s, v, shown, taken, now)) == FeedbackLedger(s)
        + multiset(Callbacks(taken.feedback))
  {
    hide Entering, Select, Discards, Held, Pending, Callbacks, Answered, FeedbackOf, BarriersOf;
    var e := s.views[v];
    var all := e.frames + [Entering(e.seqNo + 1, now, shown, taken)];
    var n := Excess(|all|);
    var unshown := Select(taken.feedback, shown, false);
    var s' := PushFrame(s, v, shown, taken, now);
    EnteringBooks(e.frames, e.seqNo + 1, now, shown, taken);
    SelectSplits(taken.feedback, shown);
    FramesLeaveBooks(all, n);
    var barriers, callbacks := EntryBooks(s.views, v, e.(seqNo := e.seqNo + 1, frames := all[n..]));
    DiscardBooks(s.answers, unshown);
    DiscardBooks(s.answers + Discards(unshown), FeedbackOf(all[..n]));
    var others := s.signaled + multiset(LooseBarriers(s.loose)) + barriers;
    assert BarrierLedger(s') == others + (BarriersIn(all[..n]) + BarriersIn(all[n..]));
    assert BarrierLedger(s) + multiset(taken.barriers) == others + (BarriersIn(e.frames) + multiset(taken.barriers));
    var answered := multiset(Answered(s.answers)) + callbacks;
    var ids, kept := multiset(Callbacks(unshown)), multiset(Callbacks(Select(taken.feedback, shown, true)));
    assert FeedbackLedger(s') == answered + ids + (CallbacksIn(all[..n]) + CallbacksIn(all[n..]));
    assert FeedbackLedger(s) + (kept + ids) == answered + ids + (CallbacksIn(e.frames) + kept);
  }

  lemma WatchFramesBooks(s: Pacing, v: ViewId, now: Instant, inserted: bool)
    ensures BarrierLedger(WatchFrames(s, v, now, inserted)) == BarrierLedger(s)
    ensures FeedbackLedger(WatchFrames(s, v, now, inserted)) == FeedbackLedger(s)
  {
    hide ScheduleTick, BarrierLedger, FeedbackLedger;
    if v in s.views && ViewWake(s.views[v], s.clock.NextVblank(now)).Some? {
      ScheduleBooks(s, ViewWake(s.views[v], s.clock.NextVblank(now)).value, inserted);
    }
  }

  lemma UnsubmittedBooks(s: Pacing, v: ViewId, now: Instant, inserted: bool)
    ensures BarrierLedger(Unsubmitted(s, v, now, inserted)) == BarrierLedger(s)
    ensures FeedbackLedger(Unsubmitted(s, v, now, inserted)) == FeedbackLedger(s)
  {
    hide ScheduleTick;
    var due := s.clock.NextVblank(now);
    ScheduleBooks(if exists p :: p in s.unsubmitted && p.0 == v then s
                  else s.(unsubmitted := s.unsubmitted + [(v, due)]),
                  due, inserted);
  }

  lemma SubmitBooks(s: Pacing, v: ViewId, taken: Taken, shown: Option<seq<Content>>, cleared: bool, now: Instant,
                    inserted: bool)
    requires v in s.views && s.views[v].bound
    ensures var s' := SubmitView(s, v, taken, shown, cleared, now, inserted);
            && BarrierLedger(s') == BarrierLedger(s) + multiset(taken.barriers)
            && FeedbackLedger(s') == FeedbackLedger(s) + multiset(Callbacks(taken.feedback))
  {
    hide NotShown, PushFrame, WatchFrames, Unsubmitted, Held, Pending, Callbacks, Answered;
    match shown
    case Some(contents) =>
      PushBooks(s, v, contents, taken, now);
      WatchFramesBooks(PushFrame(s, v, contents, taken, now), v, now, inserted);
    case None =>
      var e := s.views[v];
      var s1 := if cleared then s.(views := s.views[v := s.views[v].(seqNo := s.views[v].seqNo + 1)]) else s;
      var barriers, callbacks := EntryBooks(s.views, v, e.(seqNo := e.seqNo + 1));
      NotShownBooks(s1, e.client, taken, now, inserted);
      UnsubmittedBooks(NotShown(s1, e.client, taken, now, inserted), v, now, inserted);
  }

  /** Frames leaving a view, their barriers signaled and their feedback answered, keep the books. */
  lemma LeaveBooks(s: Pacing, v: ViewId, n: nat, answers: seq<Answer>)
    requires v in s.views && n <= |s.views[v].frames|
    requires Answered(answers) == Callbacks(FeedbackOf(s.views[v].frames[..n]))
    ensures var e := s.views[v];
            var s' := s.(views := s.views[v := e.(frames := e.frames[n..])], answers := s.answers + answers,
                         signaled := s.signaled + multiset(BarriersOf(e.frames[..n])));
            BarrierLedger(s') == BarrierLedger(s) && FeedbackLedger(s') == FeedbackLedger(s)
  {
    hide Held, Pending, LooseBarriers;
    var e := s.views[v];
    FramesLeaveBooks(e.frames, n);
    var barriers, callbacks := EntryBooks(s.views, v, e.(frames := e.frames[n..]));
    AnsweredConcat(s.answers, answers);
    hide Callbacks, Answered, FeedbackOf, BarriersOf;
  }

  lemma PresentBooks(s: Pacing, v: ViewId, r: Report)
    ensures BarrierLedger(FramePresented(s, v, r)) == BarrierLedger(s)
    ensures FeedbackLedger(FramePresented(s, v, r)) == FeedbackLedger(s)
  {
    hide Held, Pending, Callbacks, Answered, FeedbackOf, BarriersOf, Answers, ShownBy, LooseBarriers, TimingOf,
      Replaced;
    if v in s.views {
      var e := s.views[v];
      var n := Replaced(e.frames, r.seqNo);
      AnswersAre(FeedbackOf(e.frames[..n]), ShownBy(e.frames, r.seqNo), TimingOf(r));
      LeaveBooks(s, v, n, Answers(FeedbackOf(e.frames[..n]), ShownBy(e.frames, r.seqNo), TimingOf(r)));
    }
  }

  lemma SuspendBooks(s: Pacing, v: ViewId, suspended: bool, now: Instant, inserted: bool)
    ensures BarrierLedger(ViewSuspended(s, v, suspended, now, inserted)) == BarrierLedger(s)
    ensures FeedbackLedger(ViewSuspended(s, v, suspended, now, inserted)) == FeedbackLedger(s)
  {
    hide ScheduleTick, Held, Pending, Callbacks, Answered, FeedbackOf, BarriersOf, NextStale, LooseBarriers;
    if v in s.views {
      var e := s.views[v].(suspended := suspended, hiddenReleaseNs := s.clock.NextVblank(now));
      var barriers, callbacks := EntryBooks(s.views, v, e);
      if NextStale(e.frames, !suspended).Some? {
        var at := if suspended then e.hiddenReleaseNs else Max(NextStale(e.frames, !suspended).value, now + STALE_NS);
        ScheduleBooks(s.(views := s.views[v := e]), at, inserted);
      }
    }
  }

  lemma DropBooks(s: Pacing, v: ViewId)
    ensures BarrierLedger(DropFrames(s, v)) == BarrierLedger(s)
    ensures FeedbackLedger(DropFrames(s, v)) == FeedbackLedger(s)
  {
    hide Held, Pending, Discards, LooseBarriers, Answered, Callbacks, FeedbackOf, BarriersOf;
    if v in s.views {
      var frames := s.views[v].frames;
      assert frames[..|frames|] == frames && frames[|frames|..] == [];
      AnswersAre(FeedbackOf(frames), [], Timing(0, None, 0, 0));
      LeaveBooks(s, v, |frames|, Discards(FeedbackOf(frames)));
    }
  }

  lemma UpdateBooks(s: Pacing, u: Update, now: Instant, inserted: bool)
    ensures var s', taken := Applied(s, u, now, inserted), TakesOf(s, u);
            && BarrierLedger(s') == BarrierLedger(s) + multiset(taken.barriers)
            && FeedbackLedger(s') == FeedbackLedger(s) + multiset(Callbacks(taken.feedback))
  {
    hide NotShown, SubmitView, BindView, BarrierLedger, FeedbackLedger, Callbacks;
    assert Callbacks([]) == [] by { CallbacksEmpty(); }
    match u
    case Unshown(client, taken) => NotShownBooks(s, client, taken, now, inserted);
    case Submit(v, taken, shown, cleared) => SubmitStepBooks(s, v, taken, shown, cleared, now, inserted);
    case Bind(v, owner) => BindBooks(s, v, owner);
  }

  lemma {:induction false} UpdatesBooks(s: Pacing, us: seq<Update>, now: Instant, inserted: bool)
    ensures var s', taken := ApplyEach(s, us, now, inserted), TakenBy(s, us, now, inserted);
            && BarrierLedger(s') == BarrierLedger(s) + multiset(taken.barriers)
            && FeedbackLedger(s') == FeedbackLedger(s) + multiset(Callbacks(taken.feedback))
    decreases |us|
  {
    hide Applied, TakesOf, BarrierLedger, FeedbackLedger, Callbacks;
    if us == [] {
      CallbacksEmpty();
    } else {
      var s1 := Applied(s, us[0], now, inserted);
      UpdateBooks(s, us[0], now, inserted);
      UpdatesBooks(s1, us[1..], now, inserted);
      CallbacksConcat(TakesOf(s, us[0]).feedback, TakenBy(s1, us[1..], now, inserted).feedback);
    }
  }

  lemma DroppingBooks(s: Pacing, v: ViewId, applied: seq<Update>, now: Instant, inserted: bool)
    ensures var s', taken := Dropping(s, v, applied, now, inserted), TakenUnbinding(s, v, applied, now, inserted);
            && BarrierLedger(s') == BarrierLedger(s) + multiset(taken.barriers)
            && FeedbackLedger(s') == FeedbackLedger(s) + multiset(Callbacks(taken.feedback))
  {
    hide DropFrames, ApplyEach, TakenBy, BarrierLedger, FeedbackLedger, Callbacks;
    DropBooks(s, v);
    UpdatesBooks(DropFrames(s, v), applied, now, inserted);
    CallbacksEmpty();
  }

  lemma UnbindBooks(s: Pacing, v: ViewId, cleared: bool, applied: seq<Update>, now: Instant, inserted: bool)
    ensures var s', taken := UnbindView(s, v, cleared, applied, now, inserted),
        TakenUnbinding(s, v, applied, now, inserted);
            && BarrierLedger(s') == BarrierLedger(s) + multiset(taken.barriers)
            && FeedbackLedger(s') == FeedbackLedger(s) + multiset(Callbacks(taken.feedback))
  {
    hide Dropping, TakenUnbinding, Held, Pending, LooseBarriers, Answered, Callbacks;
    DroppingBooks(s, v, applied, now, inserted);
    var s1 := Dropping(s, v, applied, now, inserted);
    if v in s1.views {
      var e := s1.views[v];
      var barriers, callbacks :=
        EntryBooks(s1.views, v, e.(bound := false, client := None, seqNo := if cleared then e.seqNo + 1 else e.seqNo));
    }
  }

  lemma NoFramesNoBooks()
    ensures BarriersIn([]) == multiset{} && CallbacksIn([]) == multiset{}
  {
  }

  /** A view that is replaced or goes takes with it what it still holds. */
  lemma GoneBooks(s: Pacing, v: ViewId)
    ensures var barriers, callbacks := BarriersIn(FramesOf(s, v)), CallbacksIn(FramesOf(s, v));
            && BarrierLedger(s.(views := s.views[v := FRESH_VIEW])) + barriers == BarrierLedger(s)
            && BarrierLedger(s.(views := s.views - {v})) + barriers == BarrierLedger(s)
            && FeedbackLedger(s.(views := s.views[v := FRESH_VIEW])) + callbacks == FeedbackLedger(s)
            && FeedbackLedger(s.(views := s.views - {v})) + callbacks == FeedbackLedger(s)
  {
    hide Held, Pending, LooseBarriers, Answered, BarriersOf, FeedbackOf, Callbacks;
    var barriers, callbacks := EntryBooks(s.views, v, FRESH_VIEW);
    NoFramesNoBooks();
  }

  lemma ReplaceBooks(s: Pacing, v: ViewId, cleared: bool, applied: seq<Update>, now: Instant, inserted: bool)
    ensures var lost := FramesOf(UnbindView(s, v, cleared, applied, now, inserted), v);
            var taken := TakenUnbinding(s, v, applied, now, inserted);
            var created, disposed := CreateView(s, v, cleared, applied, now, inserted),
                                     DisposeView(s, v, cleared, applied, now, inserted);
            && BarrierLedger(created) + BarriersIn(lost) == BarrierLedger(s) + multiset(taken.barriers)
            && BarrierLedger(disposed) + BarriersIn(lost) == BarrierLedger(s) + multiset(taken.barriers)
            && FeedbackLedger(created) + CallbacksIn(lost) == FeedbackLedger(s) + multiset(Callbacks(taken.feedback))
            && FeedbackLedger(disposed) + CallbacksIn(lost) == FeedbackLedger(s) + multiset(Callbacks(taken.feedback))
  {
    hide UnbindView, TakenUnbinding, BarrierLedger, FeedbackLedger, BarriersIn, CallbacksIn, Callbacks;
    UnbindBooks(s, v, cleared, applied, now, inserted);
    GoneBooks(UnbindView(s, v, cleared, applied, now, inserted), v);
  }

  lemma TimedBooks(s: Pacing, x: SurfaceId, target: U64, now: Instant, inserted: bool)
    ensures BarrierLedger(AddTimer(WatchTarget(s, x, now, inserted), x, target)) == BarrierLedger(s)
    ensures FeedbackLedger(AddTimer(WatchTarget(s, x, now, inserted), x, target)) == FeedbackLedger(s)
  {
    hide ScheduleTick, Held, Pending, LooseBarriers, Answered;
    ScheduleBooks(if x in s.timed then s else s.(timed := s.timed + [x]), now, inserted);
  }

  lemma BindBooks(s: Pacing, v: ViewId, owner: Option<Client>)
    ensures BarrierLedger(BindView(s, v, owner)) == BarrierLedger(s)
    ensures FeedbackLedger(BindView(s, v, owner)) == FeedbackLedger(s)
  {
    hide Held, Pending, LooseBarriers, Answered;
    if v in s.views {
      var barriers, callbacks := EntryBooks(s.views, v, s.views[v].(bound := true, client := owner));
    }
  }

  lemma SurfacesBooks(s: Pacing, surfaces: map<SurfaceId, Surface>)
    ensures BarrierLedger(s.(surfaces := surfaces)) == BarrierLedger(s)
    ensures FeedbackLedger(s.(surfaces := surfaces)) == FeedbackLedger(s)
  {
    hide Held, Pending, LooseBarriers, Answered;
  }

  lemma StepBooks(s: Pacing, e: Event)
    requires Enabled(s, e)
    ensures BarrierLedger(Step(s, e)) + BarriersIn(Lost(s, e)) == BarrierLedger(s) + multiset(Takes(s, e).barriers)
    ensures FeedbackLedger(Step(s, e)) + CallbacksIn(Lost(s, e))
         == FeedbackLedger(s) + multiset(Callbacks(Takes(s, e).feedback))
  {
    hide Applied, WatchTarget, AddTimer, FramePresented, ViewSuspended, Tick, UnbindView, CreateView, DisposeView;
    hide TakesOf, TakenUnbinding, BarrierLedger, FeedbackLedger, BarriersIn, CallbacksIn, Callbacks;
    assert Callbacks([]) == [] by { CallbacksEmpty(); }
    NoFramesNoBooks();
    match e.action
    case Apply(u) => UpdateBooks(s, u, e.now, e.inserted);
    case CommitTimed(x, target) => TimedBooks(s, x, target, e.now, e.inserted);
    case Present(v, report) => PresentBooks(s, v, report);
    case Suspend(v, suspended) => SuspendBooks(s, v, suspended, e.now, e.inserted);
    case Unbind(v, cleared, applied) => UnbindBooks(s, v, cleared, applied, e.now, e.inserted);
    case Create(v, cleared, applied) => ReplaceBooks(s, v, cleared, applied, e.now, e.inserted);
    case Dispose(v, cleared, applied) => ReplaceBooks(s, v, cleared, applied, e.now, e.inserted);
    case NewSurface(x, client) => SurfacesBooks(s, s.surfaces[x := Surface(client, [])]);
    case SurfaceGone(x) => SurfacesBooks(s, s.surfaces - {x});
    case ClockTick => TickBooks(s, e.now, e.inserted);
  }

  lemma SubmitStepBooks(s: Pacing, v: ViewId, taken: Taken, shown: Option<seq<Content>>, cleared: bool, now: Instant,
                        inserted: bool)
    ensures var s' := SubmitView(s, v, taken, shown, cleared, now, inserted);
            var took := if v in s.views && s.views[v].bound then taken else Taken([], []);
            && BarrierLedger(s') == BarrierLedger(s) + multiset(took.barriers)
            && FeedbackLedger(s') == FeedbackLedger(s) + multiset(Callbacks(took.feedback))
  {
    if v in s.views && s.views[v].bound {
      hide SubmitView;
      SubmitBooks(s, v, taken, shown, cleared, now, inserted);
    }
  }

  /** All the barriers taken by the first i events of a run, and all the feedback. */
  ghost function BarriersTaken(states: seq<Pacing>, events: seq<Event>, i: nat): multiset<Barrier>
    requires i <= |events| <= |states|
  {
    if i == 0 then multiset{}
    else BarriersTaken(states, events, i - 1) + multiset(Takes(states[i - 1], events[i - 1]).barriers)
  }

  ghost function FeedbackTaken(states: seq<Pacing>, events: seq<Event>, i: nat): multiset<Callback>
    requires i <= |events| <= |states|
  {
    if i == 0 then multiset{}
    else FeedbackTaken(states, events, i - 1) + multiset(Callbacks(Takes(states[i - 1], events[i - 1]).feedback))
  }

  /** And all that went with the views replaced or disposed of. */
  ghost function BarriersLost(states: seq<Pacing>, events: seq<Event>, i: nat): multiset<Barrier>
    requires i <= |events| <= |states|
  {
    if i == 0 then multiset{}
    else BarriersLost(states, events, i - 1) + BarriersIn(Lost(states[i - 1], events[i - 1]))
  }

  ghost function FeedbackLost(states: seq<Pacing>, events: seq<Event>, i: nat): multiset<Callback>
    requires i <= |events| <= |states|
  {
    if i == 0 then multiset{}
    else FeedbackLost(states, events, i - 1) + CallbacksIn(Lost(states[i - 1], events[i - 1]))
  }

  /** Nothing is made up, and nothing is forgotten but with a view that goes: at every point of every run, what was
      taken is just what is held, loose, signaled, pending, answered or went so. */
  lemma {:induction false} LedgerHolds(states: seq<Pacing>, events: seq<Event>, i: nat)
    requires IsRun(states, events) && i <= |events|
    ensures BarrierLedger(states[i]) + BarriersLost(states, events, i) == BarriersTaken(states, events, i)
    ensures FeedbackLedger(states[i]) + FeedbackLost(states, events, i) == FeedbackTaken(states, events, i)
  {
    hide Step, BarrierLedger, FeedbackLedger, Callbacks, Takes, Lost, BarriersIn, CallbacksIn, Enabled;
    if i == 0 {
      InitialBooks();
    } else {
      var s, e := states[i - 1], events[i - 1];
      LedgerHolds(states, events, i - 1);
      StepBooks(s, e);
      Carried(BarrierLedger(s), BarrierLedger(states[i]), BarriersLost(states, events, i - 1), BarriersIn(Lost(s, e)),
              BarriersTaken(states, events, i - 1), multiset(Takes(s, e).barriers));
      Carried(FeedbackLedger(s), FeedbackLedger(states[i]), FeedbackLost(states, events, i - 1),
              CallbacksIn(Lost(s, e)),
              FeedbackTaken(states, events, i - 1), multiset(Callbacks(Takes(s, e).feedback)));
    }
  }

  lemma Carried<T>(was: multiset<T>, got: multiset<T>, lost: multiset<T>, loses: multiset<T>, taken: multiset<T>,
                   takes: multiset<T>)
    requires was + lost == taken && got + loses == was + takes
    ensures got + (lost + loses) == taken + takes
  {
    assert got + (lost + loses) == (got + loses) + lost;
  }

  lemma InitialBooks()
    ensures BarrierLedger(INITIAL) == multiset{} && FeedbackLedger(INITIAL) == multiset{}
  {
    assert BarrierRows(map[]) == map[] && FeedbackRows(map[]) == map[];
    assert LooseBarriers([]) == [] && Answered([]) == [];
  }

  /** So a barrier the clients hand over once is signaled at most once, and until then it is in exactly one place;
      a callback asked for once is answered at most once, and until then pending in exactly one place. One place is
      a view that is gone. */
  lemma ExactlyOnce(states: seq<Pacing>, events: seq<Event>, i: nat, b: Barrier, c: Callback)
    requires IsRun(states, events) && i <= |events|
    ensures BarriersTaken(states, events, i)[b] == 1 ==>
              states[i].signaled[b] + multiset(LooseBarriers(states[i].loose))[b] + Held(states[i].views)[b]
              + BarriersLost(states, events, i)[b] == 1
    ensures FeedbackTaken(states, events, i)[c] == 1 ==>
              multiset(Answered(states[i].answers))[c] + Pending(states[i].views)[c]
                  + FeedbackLost(states, events, i)[c]
              == 1
  {
    hide Held, Pending, LooseBarriers, Answered, BarriersTaken, FeedbackTaken, BarriersLost, FeedbackLost;
    LedgerHolds(states, events, i);
  }
}

/** Frame pacing as the server performs it (src/pacing.rs): the lists it retains from, the table of views it goes
    through in no particular order, and the one timer it keeps armed. Every operation is shown to do what
    PacingSpec says. */
module Pacers {
  import opened Basics
  import opened FrameClocks
  import opened FrameQueues
  import opened MultisetSums
  import opened PacingSpec
  import opened PacingLists

  /** What a tick does to a view's own queue, and the barriers that clears. */
  method TickEntry(e: ViewEntry, now: Instant) returns (e': ViewEntry, barriers: seq<Barrier>, flushed: bool)
    ensures e' == TickView(e, now) && barriers == TickReleased(e, now) && flushed == TickFlushes(e, now)
  {
    hide BarriersOlder, ReleasedOlder, FlushedOlder, NextStale;
    var queue := new Frames(e.frames);
    e', flushed := e, false;
    if e.suspended {
      if e.hiddenReleaseNs <= now && NextStale(e.frames, false).Some? {
        e' := e'.(hiddenReleaseNs := now + HIDDEN_RELEASE_NS);
        var _ := queue.ReleaseOlder(MAX_U64);
      }
    } else {
      flushed := queue.FlushOlder(StaleBefore(now));
      FlushKeepsBarriers(e.frames, StaleBefore(now));
      var _ := queue.ReleaseOlder(StaleBefore(now));
    }
    e', barriers := e'.(frames := queue.frames), queue.signaled;
  }

  method PushedEntry(e: ViewEntry, shown: seq<Content>, taken: Taken, now: Instant)
    returns (frames: seq<Frame>, answers: seq<Answer>, barriers: seq<Barrier>)
    ensures var all := e.frames + [Entering(e.seqNo + 1, now, shown, taken)];
            var dropped := all[..Excess(|all|)];
            && frames == all[Excess(|all|)..]
            && answers == Discards(Select(taken.feedback, shown, false)) + Discards(FeedbackOf(dropped))
            && barriers == BarriersOf(dropped)
  {
    var queue := new Frames(e.frames);
    var _ := queue.Push(e.seqNo + 1, now, shown, taken);
    return queue.frames, queue.answers, queue.signaled;
  }

  method PresentedEntry(e: ViewEntry, r: Report)
    returns (frames: seq<Frame>, answers: seq<Answer>, barriers: seq<Barrier>)
    ensures var gone := e.frames[..Replaced(e.frames, r.seqNo)];
            && frames == e.frames[|gone|..]
            && answers == Answers(FeedbackOf(gone), ShownBy(e.frames, r.seqNo), TimingOf(r))
            && barriers == BarriersOf(gone)
  {
    var queue := new Frames(e.frames);
    var _ := queue.Presented(r);
    return queue.frames, queue.answers, queue.signaled;
  }

  method ClearedEntry(e: ViewEntry) returns (answers: seq<Answer>, barriers: seq<Barrier>)
    ensures answers == Discards(FeedbackOf(e.frames)) && barriers == BarriersOf(e.frames)
  {
    var queue := new Frames(e.frames);
    var _ := queue.Clear();
    return queue.answers, queue.signaled;
  }

  /** The view's frames with their barriers cleared, and the barriers. */
  method ReleasedEntry(e: ViewEntry) returns (e': ViewEntry, barriers: seq<Barrier>)
    ensures e' == e.(frames := ReleasedOlder(e.frames, MAX_U64)) && barriers == BarriersOlder(e.frames, MAX_U64)
  {
    hide ReleasedOlder, BarriersOlder;
    var queue := new Frames(e.frames);
    var _ := queue.ReleaseOlder(MAX_U64);
    e', barriers := e.(frames := queue.frames), queue.signaled;
  }

  /** The first i timed surfaces have all their timers cut, and their clients are listed. */
  ghost predicate DrainedUpTo(was: map<SurfaceId, Surface>, surfaces: map<SurfaceId, Surface>, timed: seq<SurfaceId>,
                              i: nat, clients: seq<Client>)
    requires i <= |timed|
  {
    && surfaces == TimersCut(was, timed[..i], MAX_U64)
    && SeqSet(clients) == SurfaceClients(was, timed[..i])
  }

  lemma DrainOneMore(was: map<SurfaceId, Surface>, surfaces: map<SurfaceId, Surface>, timed: seq<SurfaceId>, i: nat,
                     clients: seq<Client>)
    requires i < |timed| && DrainedUpTo(was, surfaces, timed, i, clients)
    ensures var x := timed[i];
            if x in surfaces then
              var cut := surfaces[x].(timers := TimersAfter(surfaces[x].timers, MAX_U64));
              DrainedUpTo(was, surfaces[x := cut], timed, i + 1,
                          if cut.client.Some? then clients + [cut.client.value] else clients)
            else DrainedUpTo(was, surfaces, timed, i + 1, clients)
  {
    var x := timed[i];
    CutOneMore(was, timed, i, MAX_U64);
    hide TimersAfter, TimersCut;
    assert SurfaceClients(was, timed[..i + 1]) == SurfaceClients(was, timed[..i]) + SurfaceClients(was, [x]);
    if x in surfaces && surfaces[x].client.Some? { SeqSetAppend(clients, surfaces[x].client.value); }
    hide SeqSet;
  }

  /** How far they have been gone through by a tick. */
  ghost predicate FiredUpTo(clock: FrameClock, was: map<SurfaceId, Surface>, surfaces: map<SurfaceId, Surface>,
                            timed: seq<SurfaceId>, i: nat, due: U64, kept: seq<SurfaceId>, clients: seq<Client>,
                            next: Option<nat>)
    requires i <= |timed|
  {
    var cut := TimersCut(was, timed, due);
    && surfaces == TimersCut(was, timed[..i], due)
    && kept == StillTimed(timed[..i], cut)
    && SeqSet(clients) == TimerClients(was, timed[..i], due)
    && NextIs(next, TimerWakes(clock, cut, timed[..i]))
  }

  lemma FireOneMore(clock: FrameClock, was: map<SurfaceId, Surface>, surfaces: map<SurfaceId, Surface>,
                    timed: seq<SurfaceId>, i: nat, due: U64, kept: seq<SurfaceId>, clients: seq<Client>,
                    next: Option<nat>)
    requires i < |timed| && FiredUpTo(clock, was, surfaces, timed, i, due, kept, clients, next)
    ensures var x := timed[i];
            if x in surfaces then
              var left := TimersAfter(surfaces[x].timers, due);
              FiredUpTo(clock, was, surfaces[x := surfaces[x].(timers := left)], timed, i + 1, due,
                        if left != [] then kept + [x] else kept,
                        if left != surfaces[x].timers && surfaces[x].client.Some?
                        then clients + [surfaces[x].client.value] else clients,
                        if left != [] then Wake(next, clock.ReleaseAt(Earliest(left))) else next)
            else FiredUpTo(clock, was, surfaces, timed, i + 1, due, kept, clients, next)
  {
    TimersOneMore(clock, was, timed, i, due);
    hide TimersCut, TimerClients, TimerWakes, TimersAfter, StillTimed, SeqSet, NextIs, Wake, Earliest,
      FrameClock.ReleaseAt;
    var x := timed[i];
    if x in surfaces {
      var left := TimersAfter(surfaces[x].timers, due);
      var wakes := TimerWakes(clock, TimersCut(was, timed, due), timed[..i]);
      if surfaces[x].client.Some? { SeqSetAppend(clients, surfaces[x].client.value); }
      if left != [] { WakeIsNext(next, wakes, clock.ReleaseAt(Earliest(left))); }
      assert SeqSet(clients) + {} == SeqSet(clients) && wakes + {} == wakes && kept + [] == kept;
    }
  }

  class Pacer {
    var clock: FrameClock
    var views: map<ViewId, ViewEntry>
    var surfaces: map<SurfaceId, Surface>
    var timed: seq<SurfaceId>
    var loose: seq<Loose>
    var unsubmitted: seq<(ViewId, U64)>
    var tick: Option<nat>
    var signaled: multiset<Barrier>
    var answers: seq<Answer>
    var unblocked: multiset<Client>
    var called: multiset<ViewId>

    ghost function Abs(): Pacing
      reads this
    {
      Pacing(clock, views, surfaces, timed, loose, unsubmitted, tick, signaled, answers, unblocked, called)
    }

    constructor ()
      ensures Abs() == INITIAL
    {
      clock, views, surfaces, timed, loose := INITIAL_CLOCK, map[], map[], [], [];
      unsubmitted, tick, signaled, answers := [], None, multiset{}, [];
      unblocked, called := multiset{}, multiset{};
    }

    /** Unblock each client once. */
    method UnblockAll(clients: seq<Client>, ghost whom: set<Client>)
      requires SeqSet(clients) == whom
      modifies this`unblocked
      ensures unblocked == old(unblocked) + multiset(whom)
    {
      var seen: set<Client> := {};
      var i := 0;
      while i < |clients|
        invariant 0 <= i <= |clients|
        invariant seen == SeqSet(clients[..i])
        invariant unblocked == old(unblocked) + multiset(seen)
      {
        assert clients[..i + 1] == clients[..i] + [clients[i]];
        SeqSetAppend(clients[..i], clients[i]);
        if clients[i] !in seen {
          seen := seen + {clients[i]};
          unblocked := unblocked + multiset{clients[i]};
        }
        i := i + 1;
      }
      assert clients[..i] == clients;
    }

    method FlushCallbacks(v: ViewId)
      modifies this`called
      ensures called == old(called) + multiset(Callable(views, {v}))
    {
      if v in views && views[v].bound && !views[v].suspended {
        called := called + multiset{v};
        assert Callable(views, {v}) == {v};
      }
    }

    // ----- without a timer -----

    method DrainLoose() returns (clients: seq<Client>)
      modifies this`loose, this`signaled
      ensures loose == [] && signaled == old(signaled) + multiset(LooseBarriers(old(loose)))
      ensures SeqSet(clients) == LooseClients(old(loose))
    {
      clients := [];
      var i := 0;
      while i < |loose|
        invariant 0 <= i <= |loose| && loose == old(loose)
        invariant signaled == old(signaled) + multiset(LooseBarriers(loose[..i]))
        invariant SeqSet(clients) == LooseClients(loose[..i])
      {
        assert loose[..i + 1] == loose[..i] + [loose[i]];
        assert LooseBarriers(loose[..i + 1]) == LooseBarriers(loose[..i]) + [loose[i].barrier];
        assert LooseClients(loose[..i + 1]) == LooseClients(loose[..i]) + {loose[i].client};
        SeqSetAppend(clients, loose[i].client);
        signaled := signaled + multiset{loose[i].barrier};
        clients := clients + [loose[i].client];
        i := i + 1;
      }
      assert loose[..i] == loose;
      loose := [];
    }

    method DrainTimed() returns (clients: seq<Client>)
      modifies this`timed, this`surfaces
      ensures timed == [] && surfaces == TimersCut(old(surfaces), old(timed), MAX_U64)
      ensures SeqSet(clients) == SurfaceClients(old(surfaces), old(timed))
    {
      clients := [];
      var i := 0;
      assert DrainedUpTo(surfaces, surfaces, timed, 0, []);
      hide DrainedUpTo, TimersAfter;
      while i < |timed|
        invariant 0 <= i <= |timed| && timed == old(timed)
        invariant DrainedUpTo(old(surfaces), surfaces, timed, i, clients)
      {
        DrainOneMore(old(surfaces), surfaces, timed, i, clients);
        var x := timed[i];
        if x in surfaces {
          surfaces := surfaces[x := surfaces[x].(timers := TimersAfter(surfaces[x].timers, MAX_U64))];
          if surfaces[x].client.Some? {
            clients := clients + [surfaces[x].client.value];
          }
        }
        i := i + 1;
      }
      AllDrained(old(surfaces), surfaces, timed, clients);
      timed := [];
    }

    lemma AllDrained(was: map<SurfaceId, Surface>, surfaces: map<SurfaceId, Surface>, timed: seq<SurfaceId>,
                     clients: seq<Client>)
      requires DrainedUpTo(was, surfaces, timed, |timed|, clients)
      ensures surfaces == TimersCut(was, timed, MAX_U64) && SeqSet(clients) == SurfaceClients(was, timed)
    {
      assert timed[..|timed|] == timed;
    }

    /** How far the views have been gone through, the barriers of the ones done released. */
    ghost predicate ReleasedUpTo(was: map<ViewId, ViewEntry>, before: multiset<Barrier>, done: set<ViewId>,
                                 ids: seq<ViewId>)
      requires done <= was.Keys
      reads this
    {
      && ReleasedSoFar(was, views, done)
      && signaled == before + TotalOver(EveryReleasedRows(was), done)
      && SeqSet(ids) == HoldingViews(was) * done
    }

    method ReleaseView(v: ViewId, ids: seq<ViewId>, ghost was: map<ViewId, ViewEntry>, ghost before: multiset<Barrier>,
                       ghost done: set<ViewId>)
      returns (ids': seq<ViewId>)
      requires done <= was.Keys && v in was && v !in done && ReleasedUpTo(was, before, done, ids)
      modifies this`views, this`signaled
      ensures ReleasedUpTo(was, before, done + {v}, ids')
    {
      hide BarriersOlder, ReleasedOlder, TotalOver, ReleasedSoFar, SeqSet;
      ReleasedOneMore(was, views, done, v);
      TakeRow(EveryReleasedRows(was), done + {v}, v);
      assert done + {v} - {v} == done;
      IdsOneMore(ids, HoldingViews(was), done, v);
      var e, barriers := ReleasedEntry(views[v]);
      views := views[v := e];
      signaled := signaled + multiset(barriers);
      ids' := if barriers != [] then ids + [v] else ids;
    }

    method ReleaseViews() returns (ids: seq<ViewId>)
      modifies this`views, this`signaled
      ensures views == EveryReleased(old(views))
      ensures signaled == old(signaled) + Total(EveryReleasedRows(old(views)))
      ensures SeqSet(ids) == HoldingViews(old(views))
    {
      ids := [];
      var left := views.Keys;
      ghost var done: set<ViewId> := {};
      assert ReleasedUpTo(views, signaled, {}, []) by { TotalOfNone(EveryReleasedRows(views)); }
      hide ReleasedUpTo, TotalOver;
      while left != {}
        invariant done !! left && done + left == old(views).Keys
        invariant ReleasedUpTo(old(views), old(signaled), done, ids)
        decreases left
      {
        var v := AnyOf(left);
        left := left - {v};
        ids := ReleaseView(v, ids, old(views), old(signaled), done);
        done := done + {v};
      }
      AllReleased(old(views), old(signaled), done, ids);
    }

    lemma AllReleased(was: map<ViewId, ViewEntry>, before: multiset<Barrier>, done: set<ViewId>, ids: seq<ViewId>)
      requires done == was.Keys && ReleasedUpTo(was, before, done, ids)
      ensures views == EveryReleased(was) && signaled == before + Total(EveryReleasedRows(was))
      ensures SeqSet(ids) == HoldingViews(was)
    {
      hide TotalOver;
      assert EveryReleased(was).Keys == was.Keys == EveryReleasedRows(was).Keys;
      forall v | v in was ensures views[v] == EveryReleased(was)[v] {
        assert v in done;
      }
    }

    /** `view_client` of each view. */
    method ClientsOf(ids: seq<ViewId>) returns (clients: seq<Client>)
      ensures SeqSet(clients) == ViewClients(views, SeqSet(ids))
    {
      clients := [];
      var i := 0;
      while i < |ids|
        invariant 0 <= i <= |ids|
        invariant SeqSet(clients) == ViewClients(views, SeqSet(ids[..i]))
      {
        assert ids[..i + 1] == ids[..i] + [ids[i]];
        SeqSetAppend(ids[..i], ids[i]);
        ViewClientsOneMore(views, SeqSet(ids[..i]), ids[i]);
        if ids[i] in views && views[ids[i]].client.Some? {
          SeqSetAppend(clients, views[ids[i]].client.value);
          clients := clients + [views[ids[i]].client.value];
        }
        i := i + 1;
      }
      assert ids[..i] == ids;
    }

    method FlushAll()
      modifies this`called
      ensures called == old(called) + multiset(Callable(views, views.Keys))
    {
      var left := views.Keys;
      ghost var done: set<ViewId> := {};
      while left != {}
        invariant done !! left && done + left == views.Keys
        invariant called == old(called) + multiset(Callable(views, done))
        decreases left
      {
        var v := AnyOf(left);
        left := left - {v};
        FlushCallbacks(v);
        CallableOneMore(views, done, v);
        done := done + {v};
      }
    }

    /** Everything that waits is cleared; who is to be told follows. */
    method DrainQueues() returns (clients: seq<Client>, released: seq<ViewId>)
      modifies this
      ensures Abs() == PacingSpec.ReleaseEverything(old(Abs())).(unblocked := old(unblocked), called := old(called))
      ensures SeqSet(released) == HoldingViews(old(views))
      ensures SeqSet(clients) == LooseClients(old(loose)) + SurfaceClients(old(surfaces), old(timed))
    {
      hide EveryReleased, EveryReleasedRows, LooseBarriers, LooseClients, SurfaceClients, TimersCut, HoldingViews,
        TotalOver, Callable, SeqSet, WaitingClients;
      clients := DrainLists();
      released := ReleaseViews();
    }

    method DrainLists() returns (clients: seq<Client>)
      modifies this`loose, this`timed, this`surfaces, this`unsubmitted, this`signaled
      ensures loose == [] && timed == [] && unsubmitted == []
      ensures surfaces == TimersCut(old(surfaces), old(timed), MAX_U64)
      ensures signaled == old(signaled) + multiset(LooseBarriers(old(loose)))
      ensures SeqSet(clients) == LooseClients(old(loose)) + SurfaceClients(old(surfaces), old(timed))
    {
      hide LooseBarriers, LooseClients, SurfaceClients, TimersCut, SeqSet;
      var looseClients := DrainLoose();
      var timedClients := DrainTimed();
      unsubmitted := [];
      SeqSetConcat(looseClients, timedClients);
      clients := looseClients + timedClients;
    }

    /** Afterwards nothing waits for the clock, and everyone who waited is told once. */
    method ReleaseEverything()
      modifies this
      ensures Abs() == PacingSpec.ReleaseEverything(old(Abs()))
    {
      hide EveryReleased, EveryReleasedRows, LooseBarriers, LooseClients, SurfaceClients, TimersCut, ViewClients,
        HoldingViews, TotalOver, Callable, SeqSet, WaitingClients;
      var clients, released := DrainQueues();
      var viewClients := ClientsOf(released);
      FlushAll();
      ReleasedCallable(old(views));
      WaitingClientsAre(old(Abs()), clients, released, viewClients);
      UnblockAll(clients + viewClients, WaitingClients(old(Abs())));
    }

    /** Either the clock is armed by the given time, or nothing is left that needs it. */
    method ScheduleTick(at: nat, inserted: bool)
      modifies this
      ensures Abs() == PacingSpec.ScheduleTick(old(Abs()), at, inserted)
    {
      if tick.Some? {
        if tick.value <= at { return; }
        tick := None;
      }
      if inserted {
        tick := Some(at);
      } else {
        ReleaseEverything();
      }
    }

    // ----- the tick -----

    method FireTimer(ghost was: map<SurfaceId, Surface>, i: nat, due: U64, kept: seq<SurfaceId>, clients: seq<Client>,
                     next: Option<nat>)
      returns (kept': seq<SurfaceId>, clients': seq<Client>, next': Option<nat>)
      requires i < |timed| && FiredUpTo(clock, was, surfaces, timed, i, due, kept, clients, next)
      modifies this`surfaces
      ensures FiredUpTo(clock, was, surfaces, timed, i + 1, due, kept', clients', next')
    {
      FireOneMore(clock, was, surfaces, timed, i, due, kept, clients, next);
      hide FiredUpTo, TimersAfter, Earliest, FrameClock.ReleaseAt, Wake;
      kept', clients', next' := kept, clients, next;
      var x := timed[i];
      if x in surfaces {
        var left := TimersAfter(surfaces[x].timers, due);
        if left != surfaces[x].timers && surfaces[x].client.Some? {
          clients' := clients + [surfaces[x].client.value];
        }
        surfaces := surfaces[x := surfaces[x].(timers := left)];
        if left != [] {
          next' := Wake(next, clock.ReleaseAt(Earliest(left)));
          kept' := kept + [x];
        }
      }
    }

    /** Timers that are due are cut, and only surfaces with others left stay listed. */
    method FireTimers(due: U64) returns (clients: seq<Client>, next: Option<nat>)
      modifies this`timed, this`surfaces
      ensures surfaces == TimersCut(old(surfaces), old(timed), due)
      ensures timed == StillTimed(old(timed), surfaces)
      ensures SeqSet(clients) == TimerClients(old(surfaces), old(timed), due)
      ensures NextIs(next, TimerWakes(clock, surfaces, timed))
    {
      var kept: seq<SurfaceId> := [];
      clients, next := [], None;
      var i := 0;
      assert FiredUpTo(clock, surfaces, surfaces, timed, 0, due, [], [], None) by {
        assert surfaces == TimersCut(surfaces, [], due);
      }
      hide FiredUpTo;
      while i < |timed|
        invariant 0 <= i <= |timed| && timed == old(timed)
        invariant FiredUpTo(clock, old(surfaces), surfaces, timed, i, due, kept, clients, next)
      {
        kept, clients, next := FireTimer(old(surfaces), i, due, kept, clients, next);
        i := i + 1;
      }
      AllFired(old(surfaces), surfaces, timed, due, kept, clients, next);
      timed := kept;
    }

    lemma AllFired(was: map<SurfaceId, Surface>, surfaces: map<SurfaceId, Surface>, timed: seq<SurfaceId>, due: U64,
                   kept: seq<SurfaceId>, clients: seq<Client>, next: Option<nat>)
      requires FiredUpTo(clock, was, surfaces, timed, |timed|, due, kept, clients, next)
      ensures surfaces == TimersCut(was, timed, due) && kept == StillTimed(timed, surfaces)
      ensures SeqSet(clients) == TimerClients(was, timed, due) && NextIs(next, TimerWakes(clock, surfaces, kept))
    {
      assert timed[..|timed|] == timed;
      TimerWakesKept(clock, surfaces, timed);
      hide TimersCut, TimerClients, TimerWakes, StillTimed, SeqSet, NextIs;
    }

    method FireLoose(now: Instant, next: Option<nat>, ghost wakes: set<nat>)
      returns (clients: seq<Client>, next': Option<nat>)
      requires NextIs(next, wakes)
      modifies this`loose, this`signaled
      ensures loose == LooseDue(old(loose), now, false)
      ensures signaled == old(signaled) + multiset(LooseBarriers(LooseDue(old(loose), now, true)))
      ensures SeqSet(clients) == LooseClients(LooseDue(old(loose), now, true))
      ensures NextIs(next', wakes + LooseWakes(loose))
    {
      var kept: seq<Loose> := [];
      clients, next' := [], next;
      var i := 0;
      assert wakes + LooseWakes([]) == wakes && SeqSet<Client>([]) == {};
      LooseOfNone();
      hide LooseDue, LooseBarriers, LooseClients, LooseWakes, SeqSet, NextIs, Wake;
      while i < |loose|
        invariant 0 <= i <= |loose| && loose == old(loose)
        invariant kept == LooseDue(loose[..i], now, false)
        invariant signaled == old(signaled) + multiset(LooseBarriers(LooseDue(loose[..i], now, true)))
        invariant SeqSet(clients) == LooseClients(LooseDue(loose[..i], now, true))
        invariant NextIs(next', wakes + LooseWakes(kept))
      {
        var l := loose[i];
        LooseOneMore(loose, i, now);
        if l.dueNs <= now {
          SeqSetAppend(clients, l.client);
          LooseAppend(LooseDue(loose[..i], now, true), l);
          assert kept + [] == kept;
          signaled := signaled + multiset{l.barrier};
          clients := clients + [l.client];
        } else {
          LooseAppend(kept, l);
          assert LooseDue(loose[..i], now, true) + [] == LooseDue(loose[..i], now, true);
          WakeIsNext(next', wakes + LooseWakes(kept), l.dueNs);
          assert wakes + LooseWakes(kept + [l]) == wakes + LooseWakes(kept) + {l.dueNs as nat};
          next' := Wake(next', l.dueNs);
          kept := kept + [l];
        }
        i := i + 1;
      }
      assert loose[..i] == loose;
      loose := kept;
    }

    method FireUnsubmitted(now: Instant, next: Option<nat>, ghost wakes: set<nat>)
      returns (flush: seq<ViewId>, next': Option<nat>)
      requires NextIs(next, wakes)
      modifies this`unsubmitted
      ensures unsubmitted == UnsubmittedDue(old(unsubmitted), now, false)
      ensures flush == IdsOf(UnsubmittedDue(old(unsubmitted), now, true))
      ensures NextIs(next', wakes + UnsubmittedWakes(unsubmitted))
    {
      var kept: seq<(ViewId, U64)> := [];
      flush, next' := [], next;
      var i := 0;
      assert wakes + UnsubmittedWakes([]) == wakes;
      while i < |unsubmitted|
        invariant 0 <= i <= |unsubmitted| && unsubmitted == old(unsubmitted)
        invariant kept == UnsubmittedDue(unsubmitted[..i], now, false)
        invariant flush == IdsOf(UnsubmittedDue(unsubmitted[..i], now, true))
        invariant NextIs(next', wakes + UnsubmittedWakes(kept))
      {
        var p := unsubmitted[i];
        UnsubmittedOneMore(unsubmitted, i, now);
        if p.1 <= now {
          flush := flush + [p.0];
        } else {
          WakeIsNext(next', wakes + UnsubmittedWakes(kept), p.1);
          UnsubmittedAppend(kept, p);
          assert wakes + UnsubmittedWakes(kept + [p]) == wakes + UnsubmittedWakes(kept) + {p.1 as nat};
          next' := Wake(next', p.1);
          kept := kept + [p];
        }
        i := i + 1;
      }
      assert unsubmitted[..i] == unsubmitted;
      unsubmitted := kept;
    }

    /** How far a tick has gone through the views. */
    ghost predicate TickedUpTo(was: map<ViewId, ViewEntry>, before: multiset<Barrier>, now: Instant, done: set<ViewId>,
                               flush: seq<ViewId>, released: seq<ViewId>, next: Option<nat>,
                               unsent: set<ViewId>, wakes: set<nat>)
      requires done <= was.Keys
      reads this
    {
      && TickedSoFar(was, views, now, done)
      && signaled == before + TotalOver(TickReleasedRows(was, now), done)
      && SeqSet(released) == ReleasedViews(was, now) * done
      && Listed(flush, unsent + FlushedViews(was, now) * done)
      && NextIs(next, wakes + WakesOf(TickViews(was, now), clock.NextVblank(now), done))
    }

    /** One view's share of the tick. */
    method TickOne(v: ViewId, now: Instant) returns (released: bool, flushed: bool)
      requires v in views
      modifies this`views, this`signaled
      ensures views == old(views)[v := TickView(old(views)[v], now)]
      ensures signaled == old(signaled) + multiset(TickReleased(old(views)[v], now))
      ensures released == (TickReleased(old(views)[v], now) != [])
      ensures flushed == TickFlushes(old(views)[v], now)
    {
      hide TickView, TickReleased, TickFlushes;
      var e, barriers;
      e, barriers, flushed := TickEntry(views[v], now);
      released := barriers != [];
      views := views[v := e];
      signaled := signaled + multiset(barriers);
    }

    method TickNext(v: ViewId, now: Instant, flush: seq<ViewId>, released: seq<ViewId>, next: Option<nat>,
                    ghost was: map<ViewId, ViewEntry>, ghost before: multiset<Barrier>, ghost done: set<ViewId>,
                    ghost unsent: set<ViewId>, ghost wakes: set<nat>)
      returns (flush': seq<ViewId>, released': seq<ViewId>, next': Option<nat>)
      requires done <= was.Keys && v in was && v !in done
      requires TickedUpTo(was, before, now, done, flush, released, next, unsent, wakes)
      modifies this`views, this`signaled
      ensures TickedUpTo(was, before, now, done + {v}, flush', released', next', unsent, wakes)
    {
      hide TickedSoFar, TickView, TickReleased, TickFlushes, TickViews, TickReleasedRows, ReleasedViews, FlushedViews,
        ViewWake, WakesOf, TotalOver, SeqSet, Listed;
      flush', released', next' := flush, released, next;
      TickedOneMore(was, views, now, done, v);
      var anyReleased, anyFlushed := TickOne(v, now);
      IdsOneMore(released, ReleasedViews(was, now), done, v);
      if anyReleased { released' := released + [v]; }
      ListedOneMore(flush, unsent, FlushedViews(was, now), done, v);
      if anyFlushed && v !in flush { flush' := flush + [v]; }
      ghost var vblank, ticked := clock.NextVblank(now), TickViews(was, now);
      WakesOneView(ticked, vblank, done, v);
      var wake := ViewWake(views[v], clock.NextVblank(now));
      if wake.Some? {
        WakeIsNext(next, wakes + WakesOf(ticked, vblank, done), wake.value);
        assert wakes + (WakesOf(ticked, vblank, done) + {wake.value}) == wakes + WakesOf(ticked, vblank, done)
            + {wake.value};
        next' := Wake(next, wake.value);
      }
      TakeRow(TickReleasedRows(was, now), done + {v}, v);
      assert done + {v} - {v} == done;
    }

    /** Go through every view, in whatever order the table gives. */
    method TickAll(now: Instant, flush: seq<ViewId>, next: Option<nat>, ghost wakes: set<nat>)
      returns (flush': seq<ViewId>, released: seq<ViewId>, next': Option<nat>)
      requires Listed(flush, SeqSet(flush)) && NextIs(next, wakes)
      modifies this`views, this`signaled
      ensures views == TickViews(old(views), now)
      ensures signaled == old(signaled) + Total(TickReleasedRows(old(views), now))
      ensures SeqSet(released) == ReleasedViews(old(views), now)
      ensures Listed(flush', SeqSet(flush) + FlushedViews(old(views), now))
      ensures NextIs(next', wakes + ViewWakes(views, clock.NextVblank(now)))
    {
      flush', released, next' := flush, [], next;
      var left := views.Keys;
      ghost var done: set<ViewId> := {};
      ghost var unsent := SeqSet(flush);
      assert TickedUpTo(views, signaled, now, {}, flush', released, next', unsent, wakes) by {
        TotalOfNone(TickReleasedRows(views, now));
        TickStarts(views, clock.NextVblank(now), now, unsent, wakes);
      }
      hide TickedUpTo, TotalOver;
      while left != {}
        invariant done !! left && done + left == old(views).Keys
        invariant TickedUpTo(old(views), old(signaled), now, done, flush', released, next', unsent, wakes)
        decreases left
      {
        var v := AnyOf(left);
        left := left - {v};
        flush', released, next' :=
          TickNext(v, now, flush', released, next', old(views), old(signaled), done, unsent, wakes);
        done := done + {v};
      }
      AllTicked(old(views), old(signaled), now, done, flush', released, next', unsent, wakes);
    }

    lemma AllTicked(was: map<ViewId, ViewEntry>, before: multiset<Barrier>, now: Instant, done: set<ViewId>,
                    flush: seq<ViewId>, released: seq<ViewId>, next: Option<nat>, unsent: set<ViewId>, wakes: set<nat>)
      requires done == was.Keys && TickedUpTo(was, before, now, done, flush, released, next, unsent, wakes)
      ensures views == TickViews(was, now)
      ensures signaled == before + Total(TickReleasedRows(was, now))
      ensures SeqSet(released) == ReleasedViews(was, now)
      ensures Listed(flush, unsent + FlushedViews(was, now))
      ensures NextIs(next, wakes + ViewWakes(views, clock.NextVblank(now)))
    {
      hide TotalOver, TickView, TickReleased, TickFlushes, ViewWake;
      assert TickViews(was, now).Keys == was.Keys == TickReleasedRows(was, now).Keys;
      forall v | v in was ensures views[v] == TickViews(was, now)[v] {
        assert v in done;
      }
      assert ReleasedViews(was, now) * done == ReleasedViews(was, now);
      assert FlushedViews(was, now) * done == FlushedViews(was, now);
      assert WakesOf(TickViews(was, now), clock.NextVblank(now), done) == ViewWakes(views, clock.NextVblank(now));
    }

    method FlushListed(flush: seq<ViewId>, ghost all: set<ViewId>)
      requires Listed(flush, all)
      modifies this`called
      ensures called == old(called) + multiset(Callable(views, all))
    {
      var i := 0;
      while i < |flush|
        invariant 0 <= i <= |flush|
        invariant called == old(called) + multiset(Callable(views, SeqSet(flush[..i])))
      {
        assert flush[..i + 1] == flush[..i] + [flush[i]];
        SeqSetAppend(flush[..i], flush[i]);
        FlushCallbacks(flush[i]);
        CallableOneMore(views, SeqSet(flush[..i]), flush[i]);
        i := i + 1;
      }
      assert flush[..i] == flush;
    }

    /** The three lists, each split into what is due and what is to come; the views come after. */
    method FireLists(now: Instant) returns (clients: seq<Client>, unsent: seq<ViewId>, next: Option<nat>)
      requires OncePerView(unsubmitted)
      modifies this`timed, this`surfaces, this`loose, this`unsubmitted, this`signaled, this`tick
      ensures tick == None && surfaces == TimersCut(old(surfaces), old(timed), clock.Due(now))
      ensures timed == StillTimed(old(timed), surfaces)
      ensures loose == LooseDue(old(loose), now, false)
      ensures unsubmitted == UnsubmittedDue(old(unsubmitted), now, false)
      ensures signaled == old(signaled) + multiset(LooseBarriers(LooseDue(old(loose), now, true)))
      ensures SeqSet(clients)
           == TimerClients(old(surfaces), old(timed), clock.Due(now)) + LooseClients(LooseDue(old(loose), now, true))
      ensures Listed(unsent, SeqSet(unsent)) && SeqSet(unsent) == Ids(UnsubmittedDue(old(unsubmitted), now, true))
      ensures NextIs(next, TimerWakes(clock, surfaces, timed) + LooseWakes(loose) + UnsubmittedWakes(unsubmitted))
    {
      UnsentListed(unsubmitted, now);
      hide LooseDue, UnsubmittedDue, StillTimed, TimersCut, LooseBarriers, LooseClients, TimerClients, TimerWakes,
        LooseWakes, UnsubmittedWakes, SeqSet, Listed, NextIs, OncePerView, Ids, IdsOf;
      tick := None;
      var timerClients, looseClients;
      timerClients, next := FireTimers(clock.Due(now));
      looseClients, next := FireLoose(now, next, TimerWakes(clock, surfaces, timed));
      unsent, next := FireUnsubmitted(now, next, TimerWakes(clock, surfaces, timed) + LooseWakes(loose));
      SeqSetConcat(timerClients, looseClients);
      clients := timerClients + looseClients;
    }

    /** Everything due is cleared; who is to be told follows. */
    method FireQueues(now: Instant)
      returns (clients: seq<Client>, flush: seq<ViewId>, released: seq<ViewId>, next: Option<nat>)
      requires OncePerView(unsubmitted)
      modifies this
      ensures Abs() == TickReleases(old(Abs()), now).(unblocked := old(unblocked), called := old(called))
      ensures SeqSet(clients)
           == TimerClients(old(surfaces), old(timed), clock.Due(now)) + LooseClients(LooseDue(old(loose), now, true))
      ensures Listed(flush, TickCalled(old(Abs()), now)) && SeqSet(released) == ReleasedViews(old(views), now)
      ensures NextIs(next, Wakes(Abs(), now))
    {
      hide LooseDue, UnsubmittedDue, StillTimed, TimersCut, LooseBarriers, LooseClients, TimerClients, ViewClients,
        TickViews, TickReleasedRows, ReleasedViews, FlushedViews, TimerWakes, LooseWakes, UnsubmittedWakes, ViewWakes,
        TotalOver, Callable, SeqSet, Listed, NextIs, OncePerView, Ids, TickUnblocked, FrameClock.NextVblank,
        FrameClock.Due;
      var unsent;
      clients, unsent, next := FireLists(now);
      flush, released, next :=
        TickAll(now, unsent, next,
                TimerWakes(clock, surfaces, timed) + LooseWakes(loose) + UnsubmittedWakes(unsubmitted));
    }

    /** Everything due is released, and the earliest time anything left needs the clock at is found. */
    method FireAll(now: Instant) returns (next: Option<nat>)
      requires OncePerView(unsubmitted)
      modifies this
      ensures Abs() == TickReleases(old(Abs()), now)
      ensures NextIs(next, Wakes(Abs(), now))
    {
      hide LooseDue, UnsubmittedDue, StillTimed, TimersCut, LooseBarriers, LooseClients, TimerClients, ViewClients,
        TickViews, TickReleasedRows, ReleasedViews, FlushedViews, TimerWakes, LooseWakes, UnsubmittedWakes, ViewWakes,
        TotalOver, Callable, SeqSet, Listed, NextIs, OncePerView, Ids, TickUnblocked, TickCalled,
        FrameClock.NextVblank, FrameClock.Due;
      var clients, flush, released;
      clients, flush, released, next := FireQueues(now);
      FlushListed(flush, TickCalled(old(Abs()), now));
      var viewClients := ClientsOf(released);
      TickUnblockedIs(old(Abs()), now, clients, released, viewClients);
      UnblockAll(clients + viewClients, TickUnblocked(old(Abs()), now));
    }

    method OnTick(now: Instant, inserted: bool)
      requires OncePerView(unsubmitted)
      modifies this
      ensures Abs() == PacingSpec.Tick(old(Abs()), now, inserted)
    {
      hide PacingSpec.ScheduleTick, TickReleases, Wakes;
      var next := FireAll(now);
      if next.Some? {
        LeastIs(Wakes(Abs(), now), next.value);
        ScheduleTick(Max(next.value, now + MIN_DELAY_NS), inserted);
      }
    }

    // ----- commits and submits -----

    method Discard(feedback: seq<Feedback>)
      modifies this`answers
      ensures answers == old(answers) + Discards(feedback)
    {
      var i := 0;
      while i < |feedback|
        invariant 0 <= i <= |feedback|
        invariant answers == old(answers) + Discards(feedback)[..i]
      {
        answers := answers + [Discarded(feedback[i].callback)];
        i := i + 1;
      }
    }

    method Signal(barriers: seq<Barrier>)
      modifies this`signaled
      ensures signaled == old(signaled) + multiset(barriers)
    {
      var i := 0;
      while i < |barriers|
        invariant 0 <= i <= |barriers|
        invariant signaled == old(signaled) + multiset(barriers[..i])
      {
        assert barriers[..i + 1] == barriers[..i] + [barriers[i]];
        signaled := signaled + multiset{barriers[i]};
        i := i + 1;
      }
      assert barriers[..i] == barriers;
    }

    /** The barriers go on the loose list, unless there is no client; what no longer fits is signaled. */
    method HoldLoose(client: Option<Client>, barriers: seq<Barrier>, now: Instant, inserted: bool)
      modifies this
      ensures Abs() == PacingSpec.HoldLoose(old(Abs()), client, barriers, now, inserted)
    {
      hide PacingSpec.ScheduleTick, LooseBarriers, FrameClock.NextVblank;
      if barriers == [] { return; }
      if client.None? {
        Signal(barriers);
        return;
      }
      var due := clock.NextVblank(now);
      loose := loose + LooseOf(client.value, barriers, due);
      var excess := if |loose| > MAX_LOOSE then |loose| - MAX_LOOSE else 0;
      Signal(LooseBarriers(loose[..excess]));
      loose := loose[excess..];
      ScheduleTick(due, inserted);
    }

    /** Its feedback is answered at once and its barriers wait for the clock. */
    method NotShown(client: Option<Client>, taken: Taken, now: Instant, inserted: bool)
      modifies this
      ensures Abs() == PacingSpec.NotShown(old(Abs()), client, taken, now, inserted)
    {
      hide PacingSpec.HoldLoose, Discards;
      Discard(taken.feedback);
      HoldLoose(client, taken.barriers, now, inserted);
    }

    /** Called before the surface's commit is applied: watch it until its target is due. */
    method WatchTarget(x: SurfaceId, now: Instant, inserted: bool)
      modifies this
      ensures Abs() == PacingSpec.WatchTarget(old(Abs()), x, now, inserted)
    {
      hide PacingSpec.ScheduleTick;
      if x !in timed {
        timed := timed + [x];
      }
      ScheduleTick(now, inserted);
    }

    /** The clock is armed for the view's next wake, if it has one. */
    method WatchFrames(v: ViewId, now: Instant, inserted: bool)
      modifies this
      ensures Abs() == PacingSpec.WatchFrames(old(Abs()), v, now, inserted)
    {
      hide PacingSpec.ScheduleTick, NextStale, FrameClock.NextVblank;
      if v !in views { return; }
      var e := views[v];
      var at: Option<nat> := NextStale(e.frames, !e.suspended);
      if e.suspended && at.Some? {
        at := Some(Max(e.hiddenReleaseNs, clock.NextVblank(now)));
      }
      if at.Some? {
        ScheduleTick(at.value, inserted);
      }
    }

    /** The view is listed, once, and the clock armed for it. */
    method Unsubmitted(v: ViewId, now: Instant, inserted: bool)
      modifies this
      ensures Abs() == PacingSpec.Unsubmitted(old(Abs()), v, now, inserted)
    {
      hide PacingSpec.ScheduleTick, FrameClock.NextVblank;
      var due := clock.NextVblank(now);
      var i := 0;
      while i < |unsubmitted| && unsubmitted[i].0 != v
        invariant 0 <= i <= |unsubmitted|
        invariant forall j :: 0 <= j < i ==> unsubmitted[j].0 != v
      {
        i := i + 1;
      }
      if i == |unsubmitted| {
        unsubmitted := unsubmitted + [(v, due)];
      } else {
        assert unsubmitted[i] in unsubmitted;
      }
      ScheduleTick(due, inserted);
    }

    /** A view's queue changed: its entry is written back, and its client told of barriers cleared. */
    method Settle(v: ViewId, e: ViewEntry, answered: seq<Answer>, cleared: seq<Barrier>)
      modifies this`views, this`answers, this`signaled, this`unblocked
      ensures views == old(views)[v := e]
      ensures answers == old(answers) + answered && signaled == old(signaled) + multiset(cleared)
      ensures unblocked == if cleared != [] && e.client.Some? then old(unblocked) + multiset{e.client.value}
          else old(unblocked)
    {
      views := views[v := e];
      answers := answers + answered;
      signaled := signaled + multiset(cleared);
      if cleared != [] && e.client.Some? {
        unblocked := unblocked + multiset{e.client.value};
      }
    }

    method PushFrame(v: ViewId, shown: seq<Content>, taken: Taken, now: Instant)
      requires v in views
      modifies this
      ensures Abs() == PacingSpec.PushFrame(old(Abs()), v, shown, taken, now)
    {
      hide Entering, Select, Discards, BarriersOf, FeedbackOf, Excess;
      var e := views[v];
      var frames, answered, barriers := PushedEntry(e, shown, taken, now);
      Settle(v, e.(seqNo := e.seqNo + 1, frames := frames), answered, barriers);
    }

    /** Submit the view's tree: the shell takes the frame, or refuses it, or the tree leaves nothing to show and the
        view is cleared, which uses up a sequence number too. */
    method SubmitView(v: ViewId, taken: Taken, shown: Option<seq<Content>>, cleared: bool, now: Instant, inserted: bool)
      modifies this
      ensures Abs() == PacingSpec.SubmitView(old(Abs()), v, taken, shown, cleared, now, inserted)
    {
      hide PacingSpec.PushFrame, PacingSpec.WatchFrames, PacingSpec.NotShown, PacingSpec.Unsubmitted;
      if v !in views || !views[v].bound { return; }
      var e := views[v];
      match shown
      case Some(contents) =>
        PushFrame(v, contents, taken, now);
        WatchFrames(v, now, inserted);
      case None =>
        if cleared { views := views[v := e.(seqNo := e.seqNo + 1)]; }
        NotShown(e.client, taken, now, inserted);
        Unsubmitted(v, now, inserted);
    }

    // ----- the shell's reports -----

    /** `send_frame_callbacks` for what a view shows. */
    method SendCallbacks(v: ViewId, e: ViewEntry)
      modifies this`called
      ensures called == if e.bound then old(called) + multiset{v} else old(called)
    {
      if e.bound { called := called + multiset{v}; }
    }

    /** What the report means for the view's queue and its client. */
    method ShowReported(v: ViewId, r: Report)
      requires v in views
      modifies this`views, this`answers, this`signaled, this`unblocked, this`called
      ensures Abs() == PacingSpec.FramePresented(old(Abs()), v, r).(clock := old(clock))
    {
      hide Replaced, ShownBy, Answers, BarriersOf, FeedbackOf, TimingOf, FrameClock.Update;
      var e := views[v];
      var frames, answered, barriers := PresentedEntry(e, r);
      Settle(v, e.(frames := frames), answered, barriers);
      SendCallbacks(v, e);
    }

    /** The reported frame is on screen. */
    method FramePresented(v: ViewId, r: Report)
      modifies this
      ensures Abs() == PacingSpec.FramePresented(old(Abs()), v, r)
    {
      hide Replaced, ShownBy, Answers, BarriersOf, FeedbackOf, TimingOf, FrameClock.Update;
      clock := clock.Update(r.ustNs, r.refreshNs);
      if v in views { ShowReported(v, r); }
    }

    /** What the view still has queued gets a new deadline, and the clock is armed for it. */
    method ViewSuspended(v: ViewId, suspended: bool, now: Instant, inserted: bool)
      modifies this
      ensures Abs() == PacingSpec.ViewSuspended(old(Abs()), v, suspended, now, inserted)
    {
      hide PacingSpec.ScheduleTick, NextStale, FrameClock.NextVblank;
      if v !in views { return; }
      var e := views[v].(suspended := suspended, hiddenReleaseNs := clock.NextVblank(now));
      views := views[v := e];
      var at := NextStale(e.frames, !suspended);
      if at.Some? {
        ScheduleTick(if suspended then e.hiddenReleaseNs else Max(at.value, now + STALE_NS), inserted);
      }
    }

    /** The queue is emptied, with everything in it answered and signaled. */
    method DropFrames(v: ViewId)
      modifies this
      ensures Abs() == PacingSpec.DropFrames(old(Abs()), v)
    {
      hide Discards, BarriersOf, FeedbackOf;
      if v !in views { return; }
      var e := views[v];
      var answered, barriers := ClearedEntry(e);
      Settle(v, e.(frames := []), answered, barriers);
    }

    // ----- binding -----

    method BindView(v: ViewId, client: Option<Client>)
      modifies this
      ensures Abs() == PacingSpec.BindView(old(Abs()), v, client)
    {
      if v in views && !views[v].bound {
        views := views[v := views[v].(bound := true, client := client)];
      }
    }

    method Apply(u: Update, now: Instant, inserted: bool)
      modifies this
      ensures Abs() == Applied(old(Abs()), u, now, inserted)
    {
      hide PacingSpec.NotShown, PacingSpec.SubmitView, PacingSpec.BindView;
      match u
      case Unshown(client, taken) => NotShown(client, taken, now, inserted);
      case Submit(v, taken, shown, cleared) => SubmitView(v, taken, shown, cleared, now, inserted);
      case Bind(v, owner) => BindView(v, owner);
    }

    /** Drop the view's frames, with what its client applies on being told of it, and only then forget what the view
        shows. */
    method UnbindView(v: ViewId, cleared: bool, applied: seq<Update>, now: Instant, inserted: bool)
      modifies this
      ensures Abs() == PacingSpec.UnbindView(old(Abs()), v, cleared, applied, now, inserted)
    {
      hide Applied, PacingSpec.DropFrames;
      var tells := v in views && views[v].bound && BarriersOf(views[v].frames) != [] && views[v].client.Some?;
      DropFrames(v);
      if tells {
        var i := 0;
        assert applied[0..] == applied;
        while i < |applied|
          invariant 0 <= i <= |applied|
          invariant ApplyEach(Abs(), applied[i..], now, inserted) == Dropping(old(Abs()), v, applied, now, inserted)
        {
          assert applied[i..][0] == applied[i] && applied[i..][1..] == applied[i + 1..];
          Apply(applied[i], now, inserted);
          i := i + 1;
        }
      }
      Break(v, cleared);
    }

    method Break(v: ViewId, cleared: bool)
      modifies this
      ensures Abs() == Broken(old(Abs()), v, cleared)
    {
      if v !in views { return; }
      var e := views[v];
      views := views[v := e.(bound := false, client := None, seqNo := if cleared then e.seqNo + 1 else e.seqNo)];
    }
  }
}

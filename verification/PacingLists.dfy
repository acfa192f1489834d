/** The lists and tables pacing goes through, one entry at a time. */
module PacingLists {
  import opened Basics
  import opened FrameClocks
  import opened FrameQueues
  import opened MultisetSums
  import opened PacingSpec

  lemma {:induction false} LooseSplit(loose: seq<Loose>, now: nat)
    ensures forall l :: l in LooseDue(loose, now, false) <==> l in loose && l.dueNs > now
    ensures forall l :: l in LooseDue(loose, now, true) <==> l in loose && l.dueNs <= now
    ensures |LooseDue(loose, now, false)| <= |loose|
  {
    if loose != [] { LooseSplit(loose[1..], now); }
  }

  lemma {:induction false} UnsubmittedSplit(list: seq<(ViewId, U64)>, now: nat)
    ensures forall p :: p in UnsubmittedDue(list, now, false) <==> p in list && p.1 > now
    ensures forall p :: p in UnsubmittedDue(list, now, true) <==> p in list && p.1 <= now
  {
    if list != [] { UnsubmittedSplit(list[1..], now); }
  }

  lemma {:induction false} StillTimedAre(timed: seq<SurfaceId>, surfaces: map<SurfaceId, Surface>)
    ensures forall x :: x in StillTimed(timed, surfaces) <==> x in timed && x in surfaces && surfaces[x].timers != []
  {
    if timed != [] { StillTimedAre(timed[1..], surfaces); }
  }

  lemma {:induction false} TimersAfterAre(timers: seq<U64>, until: U64)
    ensures forall t :: t in TimersAfter(timers, until) <==> t in timers && t > until
  {
    if timers != [] { TimersAfterAre(timers[1..], until); }
  }

  lemma {:induction false} NoTimersAfterMax(timers: seq<U64>)
    ensures TimersAfter(timers, MAX_U64) == []
  {
    if timers != [] { NoTimersAfterMax(timers[1..]); }
  }

  /** The earliest wake asked for so far. */
  function Wake(next: Option<nat>, at: nat): Option<nat> {
    match next
    case None => Some(at)
    case Some(n) => Some(Min(n, at))
  }

  ghost predicate NextIs(next: Option<nat>, wakes: set<nat>) {
    if next.None? then wakes == {} else IsLeast(wakes, next.value)
  }

  lemma WakeIsNext(next: Option<nat>, wakes: set<nat>, at: nat)
    requires NextIs(next, wakes)
    ensures NextIs(Wake(next, at), wakes + {at})
  {
  }

  ghost function SeqSet<T>(s: seq<T>): set<T> { set x | x in s }

  lemma SeqSetAppend<T>(s: seq<T>, x: T)
    ensures SeqSet(s + [x]) == SeqSet(s) + {x}
  {
  }

  lemma SeqSetConcat<T>(a: seq<T>, b: seq<T>)
    ensures SeqSet(a + b) == SeqSet(a) + SeqSet(b)
  {
  }

  /** Going through a table, the ids picked out so far are those wanted among the ones visited. */
  lemma IdsOneMore(ids: seq<ViewId>, wanted: set<ViewId>, done: set<ViewId>, v: ViewId)
    requires SeqSet(ids) == wanted * done
    ensures v in wanted ==> SeqSet(ids + [v]) == wanted * (done + {v})
    ensures v !in wanted ==> SeqSet(ids) == wanted * (done + {v})
  {
    SeqSetAppend(ids, v);
    if v in wanted {
      assert wanted * (done + {v}) == wanted * done + {v};
    } else {
      assert wanted * (done + {v}) == wanted * done;
    }
  }

  lemma CallableOneMore(views: map<ViewId, ViewEntry>, ids: set<ViewId>, v: ViewId)
    requires v !in ids
    ensures multiset(Callable(views, ids + {v})) == multiset(Callable(views, ids)) + multiset(Callable(views, {v}))
  {
    assert Callable(views, ids + {v}) == Callable(views, ids) + Callable(views, {v});
  }

  function IdsOf(list: seq<(ViewId, U64)>): seq<ViewId> {
    seq(|list|, i requires 0 <= i < |list| => list[i].0)
  }

  /** What is known of the timed surfaces once the first i of the list are done, and what the next one adds. */
  lemma TimersOneMore(clock: FrameClock, was: map<SurfaceId, Surface>, timed: seq<SurfaceId>, i: nat, due: U64)
    requires i < |timed|
    ensures var surfaces := TimersCut(was, timed[..i], due);
            var cut := TimersCut(was, timed, due);
            var x := timed[i];
            if x in surfaces then
              var left := TimersAfter(surfaces[x].timers, due);
              && TimersCut(was, timed[..i + 1], due) == surfaces[x := surfaces[x].(timers := left)]
              && StillTimed(timed[..i + 1], cut) == StillTimed(timed[..i], cut) + (if left != [] then [x] else [])
              && TimerClients(was, timed[..i + 1], due) == TimerClients(was, timed[..i], due)
                   + (if surfaces[x].client.Some? && left != surfaces[x].timers then {surfaces[x].client.value} else {})
              && TimerWakes(clock, cut, timed[..i + 1]) == TimerWakes(clock, cut, timed[..i])
                   + (if left != [] then {clock.ReleaseAt(Earliest(left)) as nat} else {})
            else
              && TimersCut(was, timed[..i + 1], due) == surfaces
              && StillTimed(timed[..i + 1], cut) == StillTimed(timed[..i], cut)
              && TimerClients(was, timed[..i + 1], due) == TimerClients(was, timed[..i], due)
              && TimerWakes(clock, cut, timed[..i + 1]) == TimerWakes(clock, cut, timed[..i])
  {
    var x := timed[i];
    CutOneMore(was, timed, i, due);
    StillTimedConcat(timed[..i], [x], TimersCut(was, timed, due));
    WakesOneMore(clock, TimersCut(was, timed, due), timed, i);
    hide TimersCut, TimersAfter, TimerClients, TimerWakes;
  }

  lemma CutOneMore(was: map<SurfaceId, Surface>, timed: seq<SurfaceId>, i: nat, due: U64)
    requires i < |timed|
    ensures var surfaces := TimersCut(was, timed[..i], due);
            var cut := TimersCut(was, timed, due);
            var x := timed[i];
            && surfaces.Keys == cut.Keys == was.Keys
            && timed[..i + 1] == timed[..i] + [x]
            && (x in was ==>
                  && cut[x] == surfaces[x].(timers := TimersAfter(surfaces[x].timers, due))
                  && TimersCut(was, timed[..i + 1], due) == surfaces[x := cut[x]]
                  && TimerClients(was, timed[..i + 1], due) == TimerClients(was, timed[..i], due)
                     + (if surfaces[x].client.Some? && cut[x].timers != surfaces[x].timers
                        then {surfaces[x].client.value} else {}))
            && (x !in was ==>
                  && TimersCut(was, timed[..i + 1], due) == surfaces
                  && TimerClients(was, timed[..i + 1], due) == TimerClients(was, timed[..i], due))
  {
    var x := timed[i];
    assert timed[..i + 1] == timed[..i] + [x];
    if x in was { CutAgain(was[x].timers, due); }
    hide TimersAfter;
  }

  lemma WakesOneMore(clock: FrameClock, cut: map<SurfaceId, Surface>, timed: seq<SurfaceId>, i: nat)
    requires i < |timed|
    ensures TimerWakes(clock, cut, timed[..i + 1]) == TimerWakes(clock, cut, timed[..i])
              + (if timed[i] in cut && cut[timed[i]].timers != []
                 then {clock.ReleaseAt(Earliest(cut[timed[i]].timers)) as nat} else {})
  {
    assert timed[..i + 1] == timed[..i] + [timed[i]];
    hide Earliest;
  }

  lemma {:induction false} StillTimedConcat(a: seq<SurfaceId>, b: seq<SurfaceId>, surfaces: map<SurfaceId, Surface>)
    ensures StillTimed(a + b, surfaces) == StillTimed(a, surfaces) + StillTimed(b, surfaces)
  {
    if a == [] {
      assert a + b == b;
    } else {
      assert (a + b)[1..] == a[1..] + b;
      StillTimedConcat(a[1..], b, surfaces);
    }
  }

  lemma TimerWakesKept(clock: FrameClock, surfaces: map<SurfaceId, Surface>, timed: seq<SurfaceId>)
    ensures TimerWakes(clock, surfaces, StillTimed(timed, surfaces)) == TimerWakes(clock, surfaces, timed)
  {
    StillTimedAre(timed, surfaces);
  }

  lemma {:induction false} LooseOneMore(loose: seq<Loose>, i: nat, now: nat)
    requires i < |loose|
    ensures forall due :: LooseDue(loose[..i + 1], now, due)
                       == LooseDue(loose[..i], now, due) + if (loose[i].dueNs <= now) == due then [loose[i]] else []
  {
    if i > 0 {
      assert loose[..i][1..] == loose[1..][..i - 1] && loose[..i + 1][1..] == loose[1..][..i];
      LooseOneMore(loose[1..], i - 1, now);
    }
  }

  lemma LooseOfNone()
    ensures forall now, due :: LooseDue([], now, due) == []
    ensures LooseBarriers([]) == [] && LooseClients([]) == {} && LooseWakes([]) == {}
  {
  }

  lemma LooseAppend(loose: seq<Loose>, l: Loose)
    ensures LooseBarriers(loose + [l]) == LooseBarriers(loose) + [l.barrier]
    ensures LooseClients(loose + [l]) == LooseClients(loose) + {l.client}
    ensures LooseWakes(loose + [l]) == LooseWakes(loose) + {l.dueNs as nat}
  {
  }

  lemma {:induction false} UnsubmittedOneMore(list: seq<(ViewId, U64)>, i: nat, now: nat)
    requires i < |list|
    ensures forall due :: UnsubmittedDue(list[..i + 1], now, due)
                       == UnsubmittedDue(list[..i], now, due) + if (list[i].1 <= now) == due then [list[i]] else []
  {
    if i > 0 {
      assert list[..i][1..] == list[1..][..i - 1] && list[..i + 1][1..] == list[1..][..i];
      UnsubmittedOneMore(list[1..], i - 1, now);
    }
  }

  lemma UnsubmittedAppend(list: seq<(ViewId, U64)>, p: (ViewId, U64))
    ensures UnsubmittedWakes(list + [p]) == UnsubmittedWakes(list) + {p.1 as nat}
  {
  }

  lemma ViewClientsOneMore(views: map<ViewId, ViewEntry>, ids: set<ViewId>, v: ViewId)
    ensures ViewClients(views, ids + {v})
         == ViewClients(views, ids) + if v in views && views[v].client.Some? then {views[v].client.value} else {}
  {
  }

  lemma ReleasedClients(views: map<ViewId, ViewEntry>)
    ensures ViewClients(EveryReleased(views), HoldingViews(views)) == ViewClients(views, HoldingViews(views))
  {
    hide BarriersOlder, ReleasedOlder;
  }

  /** The views done so far have their frames released, the others are as they were. */
  ghost predicate ReleasedSoFar(was: map<ViewId, ViewEntry>, views: map<ViewId, ViewEntry>, done: set<ViewId>) {
    && views.Keys == was.Keys
    && forall v :: v in was ==> views[v] == if v in done then EveryReleased(was)[v] else was[v]
  }

  lemma ReleasedOneMore(was: map<ViewId, ViewEntry>, views: map<ViewId, ViewEntry>, done: set<ViewId>, v: ViewId)
    requires ReleasedSoFar(was, views, done) && v in was && v !in done
    ensures v in views && v in EveryReleased(views) && v in EveryReleasedRows(was) && v in EveryReleasedRows(views)
    ensures ReleasedSoFar(was, views[v := EveryReleased(views)[v]], done + {v})
    ensures EveryReleasedRows(views)[v] == EveryReleasedRows(was)[v]
    ensures v in HoldingViews(views) <==> v in HoldingViews(was)
  {
    hide ReleasedOlder, BarriersOlder;
  }

  lemma ReleasedCallable(views: map<ViewId, ViewEntry>)
    ensures Callable(EveryReleased(views), EveryReleased(views).Keys) == Callable(views, views.Keys)
  {
  }

  lemma {:induction false} CutAgain(timers: seq<U64>, until: U64)
    ensures TimersAfter(TimersAfter(timers, until), until) == TimersAfter(timers, until)
  {
    if timers != [] {
      var rest := TimersAfter(timers[1..], until);
      CutAgain(timers[1..], until);
      if timers[0] > until {
        assert ([timers[0]] + rest)[1..] == rest;
      } else {
        assert [] + rest == rest;
      }
    }
  }

  lemma {:induction false} UnsubmittedOnce(list: seq<(ViewId, U64)>, now: nat)
    requires OncePerView(list)
    ensures forall due :: OncePerView(UnsubmittedDue(list, now, due))
  {
    if list != [] {
      UnsubmittedOnce(list[1..], now);
      UnsubmittedSplit(list[1..], now);
      assert forall p :: p in list[1..] ==> p.0 != list[0].0;
      forall due ensures OncePerView(UnsubmittedDue(list, now, due)) {
        var rest := UnsubmittedDue(list[1..], now, due);
        assert forall p :: p in rest ==> p in list[1..];
      }
    }
  }

  lemma {:induction false} FlushKeepsBarriers(fs: seq<Frame>, before: nat)
    ensures BarriersOf(FlushedOlder(fs, before)) == BarriersOf(fs)
    ensures BarriersOlder(FlushedOlder(fs, before), before) == BarriersOlder(fs, before)
    ensures FeedbackOf(FlushedOlder(fs, before)) == FeedbackOf(fs)
  {
    if fs != [] {
      FlushKeepsBarriers(fs[1..], before);
      assert FlushedOlder(fs, before)[1..] == FlushedOlder(fs[1..], before);
    }
  }

  /** The list holds just these, each once. */
  ghost predicate Listed(ids: seq<ViewId>, all: set<ViewId>) {
    && SeqSet(ids) == all
    && forall i, j :: 0 <= i < j < |ids| ==> ids[i] != ids[j]
  }

  lemma ListedOneMore(ids: seq<ViewId>, others: set<ViewId>, wanted: set<ViewId>, done: set<ViewId>, v: ViewId)
    requires Listed(ids, others + wanted * done)
    ensures v in wanted && v !in ids ==> Listed(ids + [v], others + wanted * (done + {v}))
    ensures v !in wanted || v in ids ==> Listed(ids, others + wanted * (done + {v}))
  {
    SeqSetAppend(ids, v);
    if v in wanted {
      assert others + wanted * (done + {v}) == others + wanted * done + {v};
      assert v in ids <==> v in SeqSet(ids);
    } else {
      assert wanted * (done + {v}) == wanted * done;
    }
  }

  /** The views a tick has gone through are ticked, the others are as they were. */
  ghost predicate TickedSoFar(was: map<ViewId, ViewEntry>, views: map<ViewId, ViewEntry>, now: Instant,
                              done: set<ViewId>) {
    && views.Keys == was.Keys
    && forall v :: v in was ==> views[v] == if v in done then TickView(was[v], now) else was[v]
  }

  /** The wakes of some of the views. */
  ghost function WakesOf(views: map<ViewId, ViewEntry>, vblank: U64, ids: set<ViewId>): set<nat> {
    set v | v in ids && v in views && ViewWake(views[v], vblank).Some? :: ViewWake(views[v], vblank).value
  }

  lemma WakesOneView(views: map<ViewId, ViewEntry>, vblank: U64, ids: set<ViewId>, v: ViewId)
    requires v in views
    ensures WakesOf(views, vblank, ids + {v})
         == WakesOf(views, vblank, ids) + match ViewWake(views[v], vblank) case None => {} case Some(at) => {at}
  {
    hide ViewWake;
  }

  lemma TickedClients(views: map<ViewId, ViewEntry>, now: Instant, ids: set<ViewId>)
    ensures ViewClients(TickViews(views, now), ids) == ViewClients(views, ids)
  {
    forall v | v in views ensures TickView(views[v], now).client == views[v].client {}
    hide TickView;
  }

  lemma TickedOneMore(was: map<ViewId, ViewEntry>, views: map<ViewId, ViewEntry>, now: Instant, done: set<ViewId>,
                      v: ViewId)
    requires TickedSoFar(was, views, now, done) && v in was && v !in done
    ensures v in views && views[v] == was[v]
    ensures TickedSoFar(was, views[v := TickView(was[v], now)], now, done + {v})
    ensures v in TickViews(was, now) && TickViews(was, now)[v] == TickView(was[v], now)
    ensures TickReleasedRows(was, now).Keys == was.Keys
    ensures TickReleasedRows(was, now)[v] == multiset(TickReleased(was[v], now))
    ensures v in ReleasedViews(was, now) <==> TickReleased(was[v], now) != []
    ensures v in FlushedViews(was, now) <==> TickFlushes(was[v], now)
  {
    hide TickView, TickReleased, TickFlushes;
  }

  lemma TickStarts(was: map<ViewId, ViewEntry>, vblank: U64, now: Instant, unsent: set<ViewId>, wakes: set<nat>)
    ensures TickedSoFar(was, was, now, {})
    ensures SeqSet<ViewId>([]) == ReleasedViews(was, now) * {}
    ensures unsent + FlushedViews(was, now) * {} == unsent
    ensures wakes + WakesOf(TickViews(was, now), vblank, {}) == wakes
  {
    hide TickView, TickReleased, TickFlushes, ViewWake;
  }

  lemma UnsentListed(list: seq<(ViewId, U64)>, now: nat)
    requires OncePerView(list)
    ensures var late := UnsubmittedDue(list, now, true);
            Listed(IdsOf(late), SeqSet(IdsOf(late))) && SeqSet(IdsOf(late)) == Ids(late)
  {
    UnsubmittedOnce(list, now);
    var late := UnsubmittedDue(list, now, true);
    forall v ensures v in SeqSet(IdsOf(late)) <==> v in Ids(late) {
      if v in IdsOf(late) {
        var i :| 0 <= i < |late| && IdsOf(late)[i] == v;
        assert late[i] in late;
      }
      if p :| p in late && p.0 == v {
        var i :| 0 <= i < |late| && late[i] == p;
        assert IdsOf(late)[i] == v;
      }
    }
  }

  lemma TickUnblockedIs(s: Pacing, now: Instant, listed: seq<Client>, ids: seq<ViewId>, shown: seq<Client>)
    requires SeqSet(listed)
          == TimerClients(s.surfaces, s.timed, s.clock.Due(now)) + LooseClients(LooseDue(s.loose, now, true))
    requires SeqSet(ids) == ReleasedViews(s.views, now)
    requires SeqSet(shown) == ViewClients(TickViews(s.views, now), SeqSet(ids))
    ensures SeqSet(listed + shown) == TickUnblocked(s, now)
  {
    SeqSetConcat(listed, shown);
    TickedClients(s.views, now, SeqSet(ids));
    hide SeqSet, TimerClients, LooseClients, ViewClients, ReleasedViews, TickViews;
  }

  lemma WaitingClientsAre(s: Pacing, listed: seq<Client>, ids: seq<ViewId>, shown: seq<Client>)
    requires SeqSet(listed) == LooseClients(s.loose) + SurfaceClients(s.surfaces, s.timed)
    requires SeqSet(ids) == HoldingViews(s.views) && SeqSet(shown) == ViewClients(EveryReleased(s.views), SeqSet(ids))
    ensures SeqSet(listed + shown) == WaitingClients(s)
  {
    SeqSetConcat(listed, shown);
    ReleasedClients(s.views);
    hide SeqSet, LooseClients, SurfaceClients, ViewClients, HoldingViews, EveryReleased;
  }

  lemma LeastIs(times: set<nat>, t: nat)
    requires IsLeast(times, t)
    ensures times != {} && Least(times) == t
  {
  }
}

/** Runs in which binding falls short: each is the input behind an exception proved exact in BindingProofs. */
module BindingRuns {
  import opened Basics
  import opened Binding
  import opened BindingProofs

  const ANY := Params(None, None, None)
  const BY_APP := Params(None, Some("app"), None)
  const BY_TOKEN := Params(Some("token"), None, None)

  function Fresh(params: Params): View { View(params, None, 0, 0) }

  ghost predicate Leads(s: Tables, e: Event, s': Tables) { Enabled(s, e) && s' == Step(s, e) }

  lemma RunOf(states: seq<Tables>, events: seq<Event>)
    requires |states| == |events| + 1 && states[0] == EMPTY
    requires forall i :: 0 <= i < |events| ==> Leads(states[i], events[i], states[i + 1])
    ensures IsRun(states, events)
  {
    hide Step, Enabled;
    forall i | 0 <= i < |events| ensures Enabled(states[i], events[i]) && states[i + 1] == Step(states[i], events[i]) {
      assert Leads(states[i], events[i], states[i + 1]);
    }
  }

  /** The first view to wait, in order, takes the first toplevel if that suits it. */
  lemma FirstTakes(s: Tables, v: ViewId)
    requires s.nextId >= 1 && 1 in s.toplevels && 0 !in s.toplevels && Eligible(s, v, 1) && Waiting(s, v)
    ensures TryBind(s, v) == Bound(s, v, 1)
  {
    assert !Eligible(s, v, 0);
    assert Oldest(s, v, 0) == Oldest(s, v, 1) == Some(1);
  }

  lemma OrderOf(ids: seq<ViewId>, all: set<ViewId>)
    requires InOrder(ids, all)
    ensures Ordered(all) == ids
  {
    OneOrder(ids, Ordered(all), all);
  }

  lemma NoneFree(s: Tables, v: ViewId)
    requires forall t :: t in s.toplevels ==> s.toplevels[t].view.Some?
    ensures TryBind(s, v) == s
  {
  }

  // ----- a dispose with a successor waiting -----

  const OPEN := Toplevel(false, None, None, false, "", None)

  const TWO_WAIT := Tables(map[1 := Fresh(ANY), 2 := Fresh(ANY)], map[1 := OPEN], 1, map[], {})

  const FIRST_SHOWS := Tables(map[1 := View(ANY, Some(1), 0, 0), 2 := Fresh(ANY)],
                              map[1 := OPEN.(mapped := true, view := Some(1))], 1, map[], {})

  lemma FirstServed()
    ensures Committed(TWO_WAIT, 1) == FIRST_SHOWS
  {
    var s := TWO_WAIT.(toplevels := map[1 := OPEN.(mapped := true)]);
    assert TWO_WAIT.toplevels[1 := OPEN.(mapped := true)] == s.toplevels;
    assert WaitingViews(s) == {1, 2};
    OrderOf([1, 2], {1, 2});
    FirstTakes(s, 1);
    assert Bound(s, 1, 1) == FIRST_SHOWS;
    NoneFree(FIRST_SHOWS, 2);
    assert [1, 2][1..] == [2] && [2][1..] == [];
    assert BindEach(FIRST_SHOWS, [2]) == BindEach(FIRST_SHOWS, []);
  }

  const ONE_WAITS := EMPTY.(views := map[1 := Fresh(ANY)])

  const BOTH_WAIT := EMPTY.(views := map[1 := Fresh(ANY), 2 := Fresh(ANY)])

  lemma UpToFirst()
    ensures Leads(EMPTY, CreateView(1, ANY, []), ONE_WAITS) && Leads(ONE_WAITS, CreateView(2, ANY, []), BOTH_WAIT)
    ensures Leads(BOTH_WAIT, OpenToplevel(None), TWO_WAIT) && Leads(TWO_WAIT, Commit(1), FIRST_SHOWS)
  {
    NoneFree(ONE_WAITS, 1);
    NoneFree(BOTH_WAIT, 2);
    FirstServed();
  }

  /** Two views wait for any toplevel. The first gets the one that maps; when it is disposed of the second could show
      it, and waits on. */
  lemma DisposedNotSucceeded() returns (states: seq<Tables>, events: seq<Event>)
    ensures IsRun(states, events) && |events| == 5 && events[4] == DisposeView(1, [])
    ensures !SomeoneCould(states[4]) && SomeoneCould(states[5])
  {
    hide IsRun, SomeoneCould;
    events := [CreateView(1, ANY, []), CreateView(2, ANY, []), OpenToplevel(None), Commit(1), DisposeView(1, [])];
    var s5 := Step(FIRST_SHOWS, events[4]);
    states := [EMPTY, ONE_WAITS, BOTH_WAIT, TWO_WAIT, FIRST_SHOWS, s5];
    UpToFirst();
    assert Leads(FIRST_SHOWS, events[4], s5);
    hide Leads;
    RunOf(states, events);
    CouldThen(s5);
  }

  lemma CouldThen(s: Tables)
    requires s == ViewDisposed(FIRST_SHOWS, 1, [])
    ensures !SomeoneCould(FIRST_SHOWS) && SomeoneCould(s)
  {
    assert Waiting(s, 2) && Eligible(s, 2, 1);
  }

  /** The same where the first is replaced by one that waits for an app. */
  lemma ReplacedNotSucceeded() returns (states: seq<Tables>, events: seq<Event>)
    ensures IsRun(states, events) && |events| == 5 && events[4] == CreateView(1, BY_APP, [])
    ensures !SomeoneCould(states[4]) && SomeoneCould(states[5])
  {
    hide IsRun, SomeoneCould;
    events := [CreateView(1, ANY, []), CreateView(2, ANY, []), OpenToplevel(None), Commit(1),
               CreateView(1, BY_APP, [])];
    var s5 := Step(FIRST_SHOWS, events[4]);
    states := [EMPTY, ONE_WAITS, BOTH_WAIT, TWO_WAIT, FIRST_SHOWS, s5];
    UpToFirst();
    assert Leads(FIRST_SHOWS, events[4], s5);
    hide Leads;
    RunOf(states, events);
    StillCould(s5);
  }

  lemma StillCould(s: Tables)
    requires s == ViewCreated(FIRST_SHOWS, 1, BY_APP, [])
    ensures !SomeoneCould(FIRST_SHOWS) && SomeoneCould(s)
  {
    var freed := Unbind(FIRST_SHOWS, 1, []);
    var fresh1 := freed.(views := freed.views[1 := Fresh(BY_APP)]);
    assert forall t :: !Eligible(fresh1, 1, t);
    assert s == fresh1;
    assert Waiting(s, 2) && Eligible(s, 2, 1);
  }

  // ----- the other steps that serve no one -----

  const OPENED := EMPTY.(views := map[1 := Fresh(ANY)], toplevels := map[1 := OPEN, 2 := OPEN], nextId := 2)

  const ONE_SHOWN := EMPTY.(views := map[1 := View(ANY, Some(1), 0, 0)], nextId := 2,
                            toplevels := map[1 := OPEN.(mapped := true, view := Some(1)), 2 := OPEN])

  const BOTH_MAPPED := ONE_SHOWN.(toplevels := ONE_SHOWN.toplevels[2 := OPEN.(mapped := true)])

  lemma OneShown()
    ensures Committed(OPENED, 1) == ONE_SHOWN && Committed(ONE_SHOWN, 2) == BOTH_MAPPED
  {
    var s := OPENED.(toplevels := OPENED.toplevels[1 := OPEN.(mapped := true)]);
    assert WaitingViews(s) == {1} && WaitingViews(BOTH_MAPPED) == {};
    OrderOf([1], {1});
    OrderOf([], {});
    FirstTakes(s, 1);
    assert Bound(s, 1, 1) == ONE_SHOWN;
    assert [1][1..] == [] && BindEach(s, [1]) == BindEach(ONE_SHOWN, []);
  }

  lemma UpToBoth()
    ensures Leads(ONE_WAITS, OpenToplevel(None), NewToplevel(ONE_WAITS, None))
    ensures Leads(NewToplevel(ONE_WAITS, None), OpenToplevel(None), OPENED)
    ensures Leads(OPENED, Commit(1), ONE_SHOWN) && Leads(ONE_SHOWN, Commit(2), BOTH_MAPPED)
  {
    OneShown();
    hide Committed;
  }

  /** Two toplevels are mapped, and the view that waits for any shows the first. When that is destroyed the view could
      show the other, and waits on. */
  lemma DestroyedBesideAnother() returns (states: seq<Tables>, events: seq<Event>)
    ensures IsRun(states, events) && |events| == 6 && events[5] == DestroyToplevel(1, [])
    ensures !SomeoneCould(states[5]) && SomeoneCould(states[6])
  {
    hide IsRun, SomeoneCould;
    events := [CreateView(1, ANY, []), OpenToplevel(None), OpenToplevel(None), Commit(1), Commit(2),
               DestroyToplevel(1, [])];
    var s6 := Step(BOTH_MAPPED, events[5]);
    states := [EMPTY, ONE_WAITS, NewToplevel(ONE_WAITS, None), OPENED, ONE_SHOWN, BOTH_MAPPED, s6];
    assert Leads(BOTH_MAPPED, events[5], s6);
    hide Leads;
    UpToFirst();
    UpToBoth();
    RunOf(states, events);
    OtherCouldThen(s6);
  }

  lemma OtherCouldThen(s: Tables)
    requires s == ToplevelDestroyed(BOTH_MAPPED, 1, [])
    ensures !SomeoneCould(BOTH_MAPPED) && SomeoneCould(s)
  {
    assert Waiting(s, 1) && Eligible(s, 1, 2);
  }

  const LATE_NAMED := EMPTY.(views := map[1 := Fresh(BY_APP)], nextId := 1,
                             toplevels := map[1 := OPEN.(mapped := true)])

  const DIALOG := EMPTY.(views := map[1 := Fresh(ANY)], toplevels := map[1 := OPEN.(dialog := true)], nextId := 1)

  const LATE_FREED := DIALOG.(toplevels := map[1 := OPEN.(mapped := true, dialog := true)])

  /** A view waits for an app whose toplevel names it only once it is mapped. */
  lemma NamedTooLate() returns (states: seq<Tables>, events: seq<Event>)
    ensures IsRun(states, events) && |events| == 4 && events[3] == SetAppId(1, "app")
    ensures !SomeoneCould(states[3]) && SomeoneCould(states[4])
  {
    hide IsRun;
    events := [CreateView(1, BY_APP, []), OpenToplevel(None), Commit(1), SetAppId(1, "app")];
    var s4 := Step(LATE_NAMED, events[3]);
    states := [EMPTY, FIRST, UNNAMED, LATE_NAMED, s4];
    FirstSteps();
    ServesNone(UNNAMED, LATE_NAMED, 1);
    assert Leads(UNNAMED, events[2], LATE_NAMED) && Leads(LATE_NAMED, events[3], s4);
    hide Leads;
    RunOf(states, events);
    assert Waiting(s4, 1) && Eligible(s4, 1, 1);
  }

  /** A view waits for any toplevel, and the one there is maps as a dialog, which it ceases to be later. */
  lemma FreedTooLate() returns (states: seq<Tables>, events: seq<Event>)
    ensures IsRun(states, events) && |events| == 5 && events[4] == SetParent(1, false)
    ensures !SomeoneCould(states[4]) && SomeoneCould(states[5])
  {
    hide IsRun;
    events := [CreateView(1, ANY, []), OpenToplevel(None), SetParent(1, true), Commit(1), SetParent(1, false)];
    var s5 := Step(LATE_FREED, events[4]);
    states := [EMPTY, ONE_WAITS, NewToplevel(ONE_WAITS, None), DIALOG, LATE_FREED, s5];
    UpToFirst();
    assert states[2].toplevels[1 := OPEN.(dialog := true)] == DIALOG.toplevels;
    ServesNone(DIALOG, LATE_FREED, 1);
    assert Leads(ONE_WAITS, events[1], states[2]) && Leads(states[2], events[2], DIALOG);
    assert Leads(DIALOG, events[3], LATE_FREED) && Leads(LATE_FREED, events[4], s5);
    hide Leads;
    RunOf(states, events);
    assert Waiting(s5, 1) && Eligible(s5, 1, 1);
  }

  lemma ServesNone(s: Tables, mapped: Tables, v: ViewId)
    requires 1 in s.toplevels && !s.toplevels[1].mapped && mapped.views.Keys == {v} && Waiting(mapped, v)
    requires mapped == s.(toplevels := s.toplevels[1 := s.toplevels[1].(mapped := true)]) && !SomeoneCould(mapped)
    ensures Committed(s, 1) == mapped
  {
    assert WaitingViews(mapped) == {v};
    OrderOf([v], {v});
    assert forall t :: !Eligible(mapped, v, t);
    assert [v][1..] == [] && BindEach(mapped, [v]) == BindEach(mapped, []);
  }

  // ----- a claim its sandbox does not bear out -----

  const BOXED := OPEN.(context := Some(Context(Some("other"))))

  const CLAIMED := EMPTY.(views := map[1 := Fresh(BY_APP)], nextId := 1,
                          toplevels := map[1 := BOXED.(claimed := "app")])

  const UNSHOWN := CLAIMED.(toplevels := map[1 := BOXED.(claimed := "app", mapped := true)])

  const BOXED_STEPS: seq<Event> := [CreateView(1, BY_APP, []), OpenToplevel(Some(Context(Some("other")))),
                                    SetAppId(1, "app"), Commit(1)]

  /** A client in the sandbox of another app names the app a view waits for: the view does not show it. */
  lemma ImpostorNotShown() returns (states: seq<Tables>, events: seq<Event>)
    ensures IsRun(states, events) && events == BOXED_STEPS
    ensures states[4].toplevels.Keys == {1} && states[4].toplevels[1].mapped && states[4].toplevels[1].claimed == "app"
    ensures states[4].toplevels[1].view == None && 1 in states[4].views && states[4].views[1].toplevel == None
  {
    hide IsRun;
    events := BOXED_STEPS;
    states := [EMPTY, FIRST, NewToplevel(FIRST, Some(Context(Some("other")))), CLAIMED, UNSHOWN];
    NoneFree(FIRST, 1);
    assert states[2].toplevels[1 := BOXED.(claimed := "app")] == CLAIMED.toplevels;
    ServesNone(CLAIMED, UNSHOWN, 1);
    assert Leads(EMPTY, events[0], FIRST) && Leads(FIRST, events[1], states[2]);
    assert Leads(states[2], events[2], CLAIMED) && Leads(CLAIMED, events[3], UNSHOWN);
    hide Leads;
    RunOf(states, events);
  }

  // ----- a frame left in an unbound view -----

  const NAMED := OPEN.(claimed := "app")

  const SHOWN := NAMED.(mapped := true, view := Some(1))

  const ALONE := Tables(map[1 := Fresh(BY_APP)], map[1 := NAMED], 1, map[], {})

  const SHOWING := Tables(map[1 := View(BY_APP, Some(1), 0, 0)], map[1 := SHOWN], 1, map[], {})

  const RIVALS := Tables(map[1 := View(BY_APP, Some(1), 1, 1), 2 := Fresh(BY_TOKEN)], map[1 := SHOWN], 1, map[],
                         {"token"})

  const FIRST := EMPTY.(views := map[1 := Fresh(BY_APP)])

  const UNNAMED := ALONE.(toplevels := map[1 := OPEN])

  const SENT := SHOWING.(views := map[1 := View(BY_APP, Some(1), 1, 1)])

  const RIVALS_YET := RIVALS.(issued := {})

  const LATE: seq<Update> := [Shows(1, 1)]

  /** The view that named the app ends up unbound, with a frame that was submitted as it was unbound. */
  const OUTCOME := Tables(map[1 := View(BY_APP, None, 1, 0), 2 := View(BY_TOKEN, Some(1), 0, 0)],
                          map[1 := SHOWN.(view := Some(2), token := Some("token"))], 1, map[], {})

  lemma AloneServed()
    ensures Committed(ALONE, 1) == SHOWING
  {
    var s := ALONE.(toplevels := map[1 := NAMED.(mapped := true)]);
    assert ALONE.toplevels[1 := NAMED.(mapped := true)] == s.toplevels;
    assert WaitingViews(s) == {1};
    OrderOf([1], {1});
    FirstTakes(s, 1);
    assert Bound(s, 1, 1) == SHOWING;
    assert [1][1..] == [];
    assert BindEach(s, [1]) == BindEach(SHOWING, []);
  }

  /** Activated with the token, the toplevel is taken from its view. */
  const FREED := Tables(map[1 := View(BY_APP, None, 1, 0), 2 := Fresh(BY_TOKEN)],
                        map[1 := SHOWN.(view := None, token := Some("token"))], 1, map[], {})

  lemma TakenAway()
    ensures Unbind(Activated(RIVALS, 1, "token"), 1, LATE) == FREED
  {
    var s := Activated(RIVALS, 1, "token");
    var dropped := Dropped(s, 1);
    assert dropped.views == map[1 := View(BY_APP, Some(1), 0, 1), 2 := Fresh(BY_TOKEN)];
    assert LATE[1..] == [] && ApplyEach(dropped, LATE) == ApplyEach(Submitted(dropped, 1, 1), []);
    var s1 := WhileBound(s, 1, LATE);
    assert s1.views == map[1 := View(BY_APP, Some(1), 1, 2), 2 := Fresh(BY_TOKEN)];
    assert Broken(s1, 1).views == FREED.views && Broken(s1, 1).toplevels == FREED.toplevels;
    assert s1.hinted == map[] && s1.issued == {};
  }

  lemma ToTheOther()
    ensures BindWaiting(FREED) == OUTCOME
  {
    assert WaitingViews(FREED) == {1, 2};
    OrderOf([1, 2], {1, 2});
    assert forall t :: !Eligible(FREED, 1, t);
    assert TryBind(FREED, 1) == FREED;
    FirstTakes(FREED, 2);
    assert Bound(FREED, 2, 1) == OUTCOME;
    assert [1, 2][1..] == [2] && [2][1..] == [];
    assert BindEach(FREED, [2]) == BindEach(OUTCOME, []);
  }

  /** A view that shows a toplevel by its app id loses it to one naming its token, while the client has a second update
      waiting on the first: the view is left unbound with a frame. */
  lemma UnboundWithFrame() returns (states: seq<Tables>, events: seq<Event>)
    ensures IsRun(states, events) && |events| == 8 && events[7] == Activate(Some(1), "token", LATE)
    ensures Emptied(states[7]) && LeavesFrames(states[7], events[7])
    ensures Waiting(states[8], 1) && states[8].views[1].frames == 1
  {
    hide IsRun, Emptied, LeavesFrames, Leads;
    events := [CreateView(1, BY_APP, []), OpenToplevel(None), SetAppId(1, "app"), Commit(1), Submit(1, 1),
               CreateView(2, BY_TOKEN, []), IssueToken("token"), Activate(Some(1), "token", LATE)];
    states := [EMPTY, FIRST, UNNAMED, ALONE, SHOWING, SENT, RIVALS_YET, RIVALS, OUTCOME];
    FirstSteps();
    LastSteps();
    RunOf(states, events);
    FrameLeft();
  }

  lemma FirstSteps()
    ensures Leads(EMPTY, CreateView(1, BY_APP, []), FIRST) && Leads(FIRST, OpenToplevel(None), UNNAMED)
    ensures Leads(UNNAMED, SetAppId(1, "app"), ALONE) && Leads(ALONE, Commit(1), SHOWING)
  {
    NoneFree(FIRST, 1);
    assert UNNAMED.toplevels[1 := NAMED] == ALONE.toplevels;
    AloneServed();
  }

  lemma LastSteps()
    ensures Leads(SHOWING, Submit(1, 1), SENT) && Leads(SENT, CreateView(2, BY_TOKEN, []), RIVALS_YET)
    ensures Leads(RIVALS_YET, IssueToken("token"), RIVALS) && Leads(RIVALS, Activate(Some(1), "token", LATE), OUTCOME)
  {
    hide RequestActivation, ViewCreated;
    RivalComes(SENT, RIVALS_YET);
    Activation();
  }

  lemma RivalComes(sent: Tables, rivals: Tables)
    requires sent == SHOWING.(views := map[1 := View(BY_APP, Some(1), 1, 1)]) && rivals == RIVALS.(issued := {})
    ensures ViewCreated(sent, 2, BY_TOKEN, []) == rivals
  {
    assert sent.views[2 := Fresh(BY_TOKEN)] == rivals.views;
    NoneFree(rivals, 2);
  }

  lemma Activation()
    ensures RequestActivation(RIVALS, Some(1), "token", LATE) == OUTCOME
  {
    hide Unbind, BindWaiting;
    assert Names(RIVALS, 2, "token");
    TakenAway();
    ToTheOther();
  }

  lemma FrameLeft()
    ensures Emptied(RIVALS) && LeavesFrames(RIVALS, Activate(Some(1), "token", LATE))
  {
    assert LATE[0] == Shows(1, 1) && LATE[0] in LATE;
  }
}

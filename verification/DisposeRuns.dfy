/** What the events come to: which views there are, which links, what runs, and how far a dispose and a call to the
    shell are. */
module DisposeRuns {
  import opened Basics
  import opened Dispose

  // ----- the server -----

  /** The server was started, and not stopped since. */
  function Running(events: seq<Event>): bool {
    if events == [] then false
    else
      match events[|events| - 1]
      case ServerStart => true
      case ServerStop => false
      case _ => Running(events[..|events| - 1])
  }

  function Starts(events: seq<Event>): nat {
    if events == [] then 0
    else Starts(events[..|events| - 1]) + if events[|events| - 1] == ServerStart then 1 else 0
  }

  /** The compositor thread ended with this event: it crashed, or it took the command to quit. */
  ghost predicate Ends(states: seq<World>, events: seq<Event>, i: nat)
    requires i < |events| == |states| - 1
  {
    events[i].Crash? || (events[i].Take? && states[i].queue != [] && states[i].queue[0] == Quit)
  }

  ghost predicate Ended(states: seq<World>, events: seq<Event>, i: nat)
    requires i <= |events| == |states| - 1
  {
    i == 0 || Ends(states, events, i - 1) || (events[i - 1] != ServerStart && Ended(states, events, i - 1))
  }

  lemma RunHolds(states: seq<World>, events: seq<Event>, i: nat)
    requires IsRun(states, events) && i < |events|
    ensures Enabled(states[i], events[i]) && states[i + 1] == Step(states[i], events[i])
    ensures events[..i + 1][..i] == events[..i]
  {
  }

  lemma RunStarts(states: seq<World>, events: seq<Event>)
    requires IsRun(states, events)
    ensures states[0] == START && |states| == |events| + 1
  {
  }

  /** The command to quit is the last there is, and there just once the server was stopped; a thread that has ended
      leaves no commands and no views behind. */
  ghost predicate QueueEnds(w: World) {
    if w.compositor == Exited then w.queue == [] && w.views == map[]
    else if w.running then Quit !in w.queue
    else w.queue != [] && w.queue[|w.queue| - 1] == Quit && Quit !in w.queue[..|w.queue| - 1]
  }

  lemma StepEnds(w: World, e: Event)
    requires Enabled(w, e) && QueueEnds(w)
    ensures QueueEnds(Step(w, e))
  {
    if e.Take? && w.queue[0] != Quit && !w.running {
      var q := w.queue;
      assert q[1..][|q| - 2] == q[|q| - 1] && q[1..][..|q| - 2] == q[..|q| - 1][1..];
    }
  }

  /** The server runs as it was started and stopped, each start a run of its own. Its thread is there from the start
      until it crashes or takes the command to quit, which it is sent by the stop and is the last it takes. */
  lemma {:induction false} ServerFollows(states: seq<World>, events: seq<Event>, i: nat)
    requires IsRun(states, events) && i <= |events|
    ensures states[i].running == Running(events[..i]) && states[i].run == Starts(events[..i])
    ensures |states| == |events| + 1 && (states[i].compositor == Exited <==> Ended(states, events, i))
    ensures QueueEnds(states[i])
  {
    hide IsRun;
    RunStarts(states, events);
    if i > 0 {
      ServerFollows(states, events, i - 1);
      RunHolds(states, events, i - 1);
      StepEnds(states[i - 1], events[i - 1]);
      ServerSteps(states[i - 1], events[i - 1]);
      hide Step, Enabled, QueueEnds;
    }
  }

  lemma ServerSteps(w: World, e: Event)
    requires Enabled(w, e)
    ensures var w' := Step(w, e);
            && w'.running == (e.ServerStart? || (w.running && !e.ServerStop?))
            && w'.run == w.run + (if e.ServerStart? then 1 else 0)
            && (w'.compositor == Exited <==>
                  || e.Crash? || (e.Take? && w.queue != [] && w.queue[0] == Quit)
                  || (!e.ServerStart? && w.compositor == Exited))
  {
  }

  // ----- the views' handles -----

  /** A view is made while the server has a thread to tell. */
  ghost predicate Makes(w: World, e: Event, h: Handle) { e.Factory? && e.h == h && w.running && w.compositor != Exited }

  ghost predicate Unlinks(w: World, e: Event, h: Handle) { e.PlatformStep? && w.platform == DisposeLocked(h) }

  ghost predicate Disposes(w: World, e: Event, h: Handle) { e.PlatformStep? && w.platform == DisposeSends(h) }

  /** One event does all there is to be done to a handle, and queues the command that goes with it. */
  lemma MadeStep(w: World, e: Event, h: Handle)
    requires Enabled(w, e)
    ensures var w' := Step(w, e);
            && (h in w'.handles <==> h in w.handles || Makes(w, e, h))
            && (Makes(w, e, h) ==>
                  && h !in w.handles && w'.handles[h] == Shared(e.id, true, None, w.run, false)
                  && w'.queue == w.queue + [ViewCreated(h)])
  {
  }

  lemma DisposedStep(w: World, e: Event, h: Handle)
    requires Enabled(w, e)
    ensures var w' := Step(w, e);
            && (Unlinks(w, e, h) || Disposes(w, e, h) ==> h in w.handles)
            && (h in w.handles ==>
                  && h in w'.handles
                  && w'.handles[h].id == w.handles[h].id && w'.handles[h].run == w.handles[h].run
                  && (w'.handles[h].linked <==> w.handles[h].linked && !Unlinks(w, e, h))
                  && (w'.handles[h].disposed <==> w.handles[h].disposed || Disposes(w, e, h)))
            && (Disposes(w, e, h) && w.running && w.compositor != Exited ==>
                  w'.queue == w.queue + [ViewDisposed(w.handles[h].id)])
  {
  }

  ghost predicate MadeBy(states: seq<World>, events: seq<Event>, i: nat, h: Handle)
    requires i <= |events| == |states| - 1
  {
    exists j :: 0 <= j < i && Makes(states[j], events[j], h)
  }

  ghost predicate UnlinkedBy(states: seq<World>, events: seq<Event>, i: nat, h: Handle)
    requires i <= |events| == |states| - 1
  {
    exists j :: 0 <= j < i && Unlinks(states[j], events[j], h)
  }

  ghost predicate DisposedBy(states: seq<World>, events: seq<Event>, i: nat, h: Handle)
    requires i <= |events| == |states| - 1
  {
    exists j :: 0 <= j < i && Disposes(states[j], events[j], h)
  }

  lemma OneMore(states: seq<World>, events: seq<Event>, i: nat, h: Handle)
    requires 0 < i <= |events| == |states| - 1
    ensures MadeBy(states, events, i, h) <==>
              MadeBy(states, events, i - 1, h) || Makes(states[i - 1], events[i - 1], h)
    ensures UnlinkedBy(states, events, i, h) <==>
              UnlinkedBy(states, events, i - 1, h) || Unlinks(states[i - 1], events[i - 1], h)
    ensures DisposedBy(states, events, i, h) <==>
              DisposedBy(states, events, i - 1, h) || Disposes(states[i - 1], events[i - 1], h)
  {
    hide Makes, Unlinks, Disposes;
  }

  /** There are just the handles that were made. A handle's link is there until a dispose has had the lock, and it
      counts as disposed of once that call has returned. */
  lemma {:induction false} HandlesFollow(states: seq<World>, events: seq<Event>, i: nat, h: Handle)
    requires IsRun(states, events) && i <= |events|
    ensures |states| == |events| + 1
    ensures h in states[i].handles <==> MadeBy(states, events, i, h)
    ensures h in states[i].handles && !states[i].handles[h].linked <==> UnlinkedBy(states, events, i, h)
    ensures h in states[i].handles && states[i].handles[h].disposed <==> DisposedBy(states, events, i, h)
  {
    hide IsRun, Step, Enabled, Makes, Unlinks, Disposes;
    RunStarts(states, events);
    if i > 0 {
      HandlesFollow(states, events, i - 1, h);
      RunHolds(states, events, i - 1);
      MadeStep(states[i - 1], events[i - 1], h);
      DisposedStep(states[i - 1], events[i - 1], h);
      OneMore(states, events, i, h);
      hide MadeBy, UnlinkedBy, DisposedBy;
    }
  }

  // ----- a call goes on -----

  /** The first of the thread's steps from the event on. */
  ghost predicate NextOf(events: seq<Event>, step: Event, i: nat, k: nat) {
    i <= k < |events| && events[k] == step && forall j :: i <= j < k ==> events[j] != step
  }

  /** Only its own steps move a thread that is inside a call. */
  lemma PlatformWaits(w: World, e: Event)
    requires Enabled(w, e) && w.platform != AtRest && e != PlatformStep
    ensures Step(w, e).platform == w.platform
  {
  }

  lemma CompositorWaits(w: World, e: Event)
    requires Enabled(w, e) && w.compositor != Between && w.compositor != Exited && e != CompositorStep
    ensures Step(w, e).compositor == w.compositor
  {
  }

  lemma {:induction false} PlatformStays(states: seq<World>, events: seq<Event>, i: nat, k: nat)
    requires IsRun(states, events) && NextOf(events, PlatformStep, i, k) && states[i].platform != AtRest
    ensures states[k].platform == states[i].platform
    decreases k - i
  {
    hide IsRun, Step, Enabled;
    RunStarts(states, events);
    if i < k {
      RunHolds(states, events, i);
      PlatformWaits(states[i], events[i]);
      PlatformStays(states, events, i + 1, k);
    }
  }

  lemma {:induction false} CompositorStays(states: seq<World>, events: seq<Event>, i: nat, k: nat)
    requires IsRun(states, events) && NextOf(events, CompositorStep, i, k)
    requires states[i].compositor != Between && states[i].compositor != Exited
    ensures states[k].compositor == states[i].compositor
    decreases k - i
  {
    hide IsRun, Step, Enabled;
    RunStarts(states, events);
    if i < k {
      RunHolds(states, events, i);
      CompositorWaits(states[i], events[i]);
      CompositorStays(states, events, i + 1, k);
    }
  }

  lemma DisposeSteps(w: World, h: Handle)
    ensures Enabled(w, DisposeCalled(h)) ==> Step(w, DisposeCalled(h)).platform == DisposeWaits(h)
    ensures Enabled(w, PlatformStep) && w.platform == DisposeWaits(h) ==>
              Step(w, PlatformStep).platform == DisposeLocked(h)
    ensures Enabled(w, PlatformStep) && w.platform == DisposeLocked(h) ==>
              Step(w, PlatformStep).platform == DisposeSends(h) && Unlinks(w, PlatformStep, h)
    ensures Enabled(w, PlatformStep) && w.platform == DisposeSends(h) ==>
              Step(w, PlatformStep).platform == AtRest && Disposes(w, PlatformStep, h)
  {
  }

  /** A dispose takes three steps of the shell's thread, whatever runs between them: with the second the link is gone,
      and with the third the call has returned. */
  lemma DisposeGoes(states: seq<World>, events: seq<Event>, i: nat, h: Handle, k: nat, l: nat, m: nat)
    requires IsRun(states, events) && i < |events| && events[i] == DisposeCalled(h)
    requires NextOf(events, PlatformStep, i + 1, k) && NextOf(events, PlatformStep, k + 1, l)
    requires NextOf(events, PlatformStep, l + 1, m)
    ensures |states| == |events| + 1
    ensures forall n :: l < n <= |events| ==> h in states[n].handles && !states[n].handles[h].linked
    ensures forall n :: m < n <= |events| ==> states[n].handles[h].disposed
    ensures states[m + 1].platform == AtRest
  {
    hide IsRun, Step, Enabled, Unlinks, Disposes;
    RunStarts(states, events);
    DisposeStepsRun(states, events, i, h);
    PlatformStays(states, events, i + 1, k);
    DisposeStepsRun(states, events, k, h);
    PlatformStays(states, events, k + 1, l);
    DisposeStepsRun(states, events, l, h);
    PlatformStays(states, events, l + 1, m);
    DisposeStepsRun(states, events, m, h);
    forall n | l < n <= |events|
      ensures h in states[n].handles && !states[n].handles[h].linked && (m < n ==> states[n].handles[h].disposed)
    {
      HandlesFollow(states, events, n, h);
      assert UnlinkedBy(states, events, n, h);
      assert m < n ==> DisposedBy(states, events, n, h);
    }
  }

  lemma DisposeStepsRun(states: seq<World>, events: seq<Event>, i: nat, h: Handle)
    requires IsRun(states, events) && i < |events|
    ensures |states| == |events| + 1
    ensures events[i] == DisposeCalled(h) ==> states[i + 1].platform == DisposeWaits(h)
    ensures events[i] == PlatformStep && states[i].platform == DisposeWaits(h) ==>
              states[i + 1].platform == DisposeLocked(h)
    ensures events[i] == PlatformStep && states[i].platform == DisposeLocked(h) ==>
              states[i + 1].platform == DisposeSends(h) && Unlinks(states[i], events[i], h)
    ensures events[i] == PlatformStep && states[i].platform == DisposeSends(h) ==>
              states[i + 1].platform == AtRest && Disposes(states[i], events[i], h)
  {
    hide IsRun, Step, Enabled, Unlinks, Disposes;
    RunStarts(states, events);
    RunHolds(states, events, i);
    DisposeSteps(states[i], h);
  }

  lemma RenegotiateSteps(w: World, e: Event, h: Handle)
    requires Enabled(w, e)
    ensures e == RenegotiateCalled(h) ==> Step(w, e).platform == RenegotiateWaits(h)
    ensures e == PlatformStep && w.platform == RenegotiateWaits(h) ==>
              && Step(w, e).platform == RenegotiateLocked(h) && h in Step(w, e).handles
              && Step(w, e).handles[h].holder == Some(Platform)
    ensures e == PlatformStep && w.platform == RenegotiateLocked(h) ==>
              Step(w, e).platform == AtRest && h in Step(w, e).handles && Step(w, e).handles[h].holder == None
  {
  }

  /** A renegotiation takes two, and has the lock from the first to the second. */
  lemma RenegotiateGoes(states: seq<World>, events: seq<Event>, i: nat, h: Handle, k: nat, l: nat)
    requires IsRun(states, events) && i < |events| && events[i] == RenegotiateCalled(h)
    requires NextOf(events, PlatformStep, i + 1, k) && NextOf(events, PlatformStep, k + 1, l)
    ensures |states| == |events| + 1
    ensures states[k + 1].platform == RenegotiateLocked(h) == states[l].platform
    ensures h in states[k + 1].handles && states[k + 1].handles[h].holder == Some(Platform)
    ensures states[l + 1].platform == AtRest && h in states[l + 1].handles && states[l + 1].handles[h].holder == None
  {
    hide IsRun, Step, Enabled;
    RunStarts(states, events);
    RunHolds(states, events, i);
    RenegotiateSteps(states[i], events[i], h);
    PlatformStays(states, events, i + 1, k);
    RunHolds(states, events, k);
    RenegotiateSteps(states[k], events[k], h);
    PlatformStays(states, events, k + 1, l);
    RunHolds(states, events, l);
    RenegotiateSteps(states[l], events[l], h);
  }

  lemma CallSteps(w: World, e: Event, h: Handle)
    requires Enabled(w, e)
    ensures e.Call? ==> e.id in w.views && Step(w, e).compositor == CallWaits(w.views[e.id])
    ensures e == CompositorStep && w.compositor == CallWaits(h) ==> Step(w, e).compositor == CallLocked(h)
    ensures e == CompositorStep && w.compositor == CallLocked(h) ==>
              h in w.handles && Step(w, e).compositor == if w.handles[h].linked then InCall(h) else Between
  {
  }

  /** A call is made on the view the table has under the id, and reaches the shell just when the link is there as the
      lock is had. */
  lemma CallGoes(states: seq<World>, events: seq<Event>, i: nat, id: ViewId, k: nat, l: nat)
    requires IsRun(states, events) && i < |events| && events[i] == Call(id)
    requires NextOf(events, CompositorStep, i + 1, k) && NextOf(events, CompositorStep, k + 1, l)
    ensures |states| == |events| + 1 && id in states[i].views
    ensures var h := states[i].views[id];
            && h in states[l].handles
            && (states[l + 1].compositor == InCall(h) <==> states[l].handles[h].linked)
            && (!states[l].handles[h].linked ==> states[l + 1].compositor == Between)
  {
    hide IsRun, Step, Enabled;
    RunStarts(states, events);
    RunHolds(states, events, i);
    CallSteps(states[i], events[i], 0);
    var h := states[i].views[id];
    CompositorStays(states, events, i + 1, k);
    RunHolds(states, events, k);
    CallSteps(states[k], events[k], h);
    CompositorStays(states, events, k + 1, l);
    RunHolds(states, events, l);
    CallSteps(states[l], events[l], h);
  }
}

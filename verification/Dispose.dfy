/** Creating and disposing of views across threads (src/view.rs, factory, on_dispose, on_renegotiate; src/thread.rs,
    send, start, stop; src/submit.rs, the calls made under a view's lock; src/state.rs, ViewCreated and ViewDisposed).

    The shell's platform thread, the compositor thread and whoever starts and stops the server take steps in any order.
    A view handle's link sits in a mutex; commands go through one queue. */
module Dispose {
  import opened Basics

  type ViewId = int
  type Handle = nat

  datatype Thread = Compositor | Platform

  /** A view handle: its link to the shell's view, and who holds the lock it sits in; the server run it was created in,
      and whether the shell's dispose call for it has returned. */
  datatype Shared = Shared(id: ViewId, linked: bool, holder: Option<Thread>, run: nat, disposed: bool)

  datatype Cmd = ViewCreated(handle: Handle) | ViewDisposed(id: ViewId) | Quit

  /** Where the platform thread is: in a dispose or renegotiate call, before, under and after its lock. */
  datatype PlatformPc = AtRest | DisposeWaits(h: Handle) | DisposeLocked(h: Handle) | DisposeSends(h: Handle)
                      | RenegotiateWaits(h: Handle) | RenegotiateLocked(h: Handle)

  /** Where the compositor thread is: between commands, about to submit to a view or retire a buffer of it, or inside
      that call to the shell. */
  datatype CompositorPc = Between | CallWaits(h: Handle) | CallLocked(h: Handle) | InCall(h: Handle) | Exited

  datatype World = World(
    handles: map<Handle, Shared>,
    platform: PlatformPc,
    compositor: CompositorPc,
    /** The server as the other threads see it: there to send to, or not. */
    running: bool,
    run: nat,
    queue: seq<Cmd>,
    views: map<ViewId, Handle>)

  const START := World(map[], AtRest, Exited, false, 0, [], map[])

  datatype Event =
    | Factory(h: Handle, id: ViewId)
    | DisposeCalled(h: Handle)
    | RenegotiateCalled(h: Handle)
    | PlatformStep
    | Take
    | Call(id: ViewId)
    | CompositorStep
    | Crash
    | ServerStart
    | ServerStop

  /** What the commands come to in the table of views. */
  function Handled(views: map<ViewId, Handle>, cmd: Cmd, handles: map<Handle, Shared>): map<ViewId, Handle> {
    match cmd
    case ViewCreated(h) => if h in handles then views[handles[h].id := h] else views
    case ViewDisposed(id) => views - {id}
    case Quit => map[]
  }

  function Fold(views: map<ViewId, Handle>, queue: seq<Cmd>, handles: map<Handle, Shared>): map<ViewId, Handle>
    decreases |queue|
  {
    if queue == [] then views else Fold(Handled(views, queue[0], handles), queue[1..], handles)
  }

  function WithHolder(w: World, h: Handle, holder: Option<Thread>): World
    requires h in w.handles
  {
    w.(handles := w.handles[h := w.handles[h].(holder := holder)])
  }

  /** A command goes on the queue while there is a compositor thread to take it. */
  function Sent(w: World, cmd: Cmd): World {
    if w.running && w.compositor != Exited then w.(queue := w.queue + [cmd]) else w
  }

  predicate Free(w: World, h: Handle) { h in w.handles && w.handles[h].holder.None? }

  /** What each step needs. The shell disposes of a view once, and of the one under an id before creating another. */
  ghost predicate Enabled(w: World, e: Event) {
    match e
    case Factory(h, id) =>
      && w.platform == AtRest && h !in w.handles
      && forall o :: o in w.handles && w.handles[o].id == id ==> w.handles[o].disposed
    case DisposeCalled(h) => w.platform == AtRest && h in w.handles && !w.handles[h].disposed
    case RenegotiateCalled(h) => w.platform == AtRest && h in w.handles && !w.handles[h].disposed
    case PlatformStep =>
      (match w.platform
       case AtRest => false
       case DisposeWaits(h) => Free(w, h)
       case RenegotiateWaits(h) => Free(w, h)
       case DisposeLocked(h) => h in w.handles
       case RenegotiateLocked(h) => h in w.handles
       case DisposeSends(h) => h in w.handles)
    case Take => w.compositor == Between && w.queue != []
    case Call(id) => w.compositor == Between && id in w.views
    case CompositorStep =>
      (match w.compositor
       case Between => false
       case Exited => false
       case CallWaits(h) => Free(w, h)
       case CallLocked(h) => h in w.handles
       case InCall(h) => h in w.handles)
    case Crash => w.compositor == Between
    case ServerStart => w.compositor == Exited
    case ServerStop => w.running
  }

  ghost function Step(w: World, e: Event): World
    requires Enabled(w, e)
  {
    match e
    case Factory(h, id) =>
      if w.running && w.compositor != Exited
      then Sent(w.(handles := w.handles[h := Shared(id, true, None, w.run, false)]), ViewCreated(h))
      else w
    case DisposeCalled(h) => w.(platform := DisposeWaits(h))
    case RenegotiateCalled(h) => w.(platform := RenegotiateWaits(h))
    case PlatformStep =>
      (match w.platform
       case DisposeWaits(h) => WithHolder(w, h, Some(Platform)).(platform := DisposeLocked(h))
       case DisposeLocked(h) =>
         w.(handles := w.handles[h := w.handles[h].(linked := false, holder := None)], platform := DisposeSends(h))
       case DisposeSends(h) =>
         Sent(w, ViewDisposed(w.handles[h].id)).(handles := w.handles[h := w.handles[h].(disposed := true)],
                                                 platform := AtRest)
       case RenegotiateWaits(h) => WithHolder(w, h, Some(Platform)).(platform := RenegotiateLocked(h))
       case RenegotiateLocked(h) => WithHolder(w, h, None).(platform := AtRest)
       case AtRest => w)
    case Take =>
      var w' := w.(views := Handled(w.views, w.queue[0], w.handles), queue := w.queue[1..]);
      if w.queue[0] == Quit then w'.(compositor := Exited, queue := []) else w'
    case Call(id) => w.(compositor := CallWaits(w.views[id]))
    case CompositorStep =>
      (match w.compositor
       case CallWaits(h) => WithHolder(w, h, Some(Compositor)).(compositor := CallLocked(h))
       // The link is there or not; only if it is, the shell is called.
       case CallLocked(h) =>
         if w.handles[h].linked then w.(compositor := InCall(h)) else WithHolder(w, h, None).(compositor := Between)
       case InCall(h) => WithHolder(w, h, None).(compositor := Between)
       case Between => w
       case Exited => w)
    case Crash => w.(compositor := Exited, queue := [], views := map[])
    // A dead thread is reaped and replaced; a live one makes starting fail.
    case ServerStart => w.(compositor := Between, running := true, run := w.run + 1, queue := [], views := map[])
    case ServerStop => Sent(w, Quit).(running := false)
  }

  ghost predicate IsRun(states: seq<World>, events: seq<Event>) {
    && |states| == |events| + 1
    && states[0] == START
    && forall i :: 0 <= i < |events| ==> Enabled(states[i], events[i]) && states[i + 1] == Step(states[i], events[i])
  }

  // ----- the lock -----

  ghost predicate CompositorHolds(w: World, h: Handle) { w.compositor == CallLocked(h) || w.compositor == InCall(h) }

  ghost predicate PlatformHolds(w: World, h: Handle) {
    w.platform == DisposeLocked(h) || w.platform == RenegotiateLocked(h)
  }

  /** The lock of a handle is held by just the thread that is in its critical section; the link is gone once dispose
      cleared it; and a call to the shell is only ever made on a link that is there. */
  ghost predicate Locked(w: World) {
    && (forall h :: h in w.handles ==> LockedAt(w, h))
    && (w.platform != AtRest ==> w.platform.h in w.handles)
    && (w.compositor.CallWaits? || w.compositor.CallLocked? || w.compositor.InCall? ==> w.compositor.h in w.handles)
  }

  ghost predicate LockedAt(w: World, h: Handle)
    requires h in w.handles
  {
    && (w.handles[h].holder == Some(Compositor) <==> CompositorHolds(w, h))
    && (w.handles[h].holder == Some(Platform) <==> PlatformHolds(w, h))
    && (w.handles[h].disposed ==> !w.handles[h].linked)
    && (w.platform == DisposeSends(h) ==> !w.handles[h].linked && !w.handles[h].disposed)
    && (w.platform == DisposeWaits(h) || w.platform == DisposeLocked(h) ==> !w.handles[h].disposed)
    && (w.compositor == InCall(h) ==> w.handles[h].linked)
  }

  /** What the table names exists. */
  ghost predicate Known(w: World) {
    && (forall id :: id in w.views ==> w.views[id] in w.handles)
    && (forall i :: 0 <= i < |w.queue| && w.queue[i].ViewCreated? ==> w.queue[i].handle in w.handles)
  }

  lemma PlatformKeepsLock(w: World, e: Event)
    requires Enabled(w, e) && e.PlatformStep? && Locked(w)
    ensures Locked(Step(w, e))
  {
    var w' := Step(w, e);
    forall h | h in w'.handles ensures LockedAt(w', h) {
      if h in w.handles { assert LockedAt(w, h); }
    }
    hide LockedAt;
  }

  lemma CompositorKeepsLock(w: World, e: Event)
    requires Enabled(w, e) && e.CompositorStep? && Locked(w)
    ensures Locked(Step(w, e))
  {
    var w' := Step(w, e);
    forall h | h in w'.handles ensures LockedAt(w', h) {
      if h in w.handles { assert LockedAt(w, h); }
    }
    hide LockedAt;
  }

  lemma OtherKeepsLock(w: World, e: Event)
    requires Enabled(w, e) && !e.PlatformStep? && !e.CompositorStep? && Locked(w) && Known(w)
    ensures Locked(Step(w, e))
  {
    var w' := Step(w, e);
    forall h | h in w'.handles ensures LockedAt(w', h) {
      if h in w.handles { assert LockedAt(w, h); }
    }
    hide LockedAt;
  }

  lemma StepKeepsLock(w: World, e: Event)
    requires Enabled(w, e) && Locked(w) && Known(w)
    ensures Locked(Step(w, e))
  {
    if e.PlatformStep? {
      PlatformKeepsLock(w, e);
    } else if e.CompositorStep? {
      CompositorKeepsLock(w, e);
    } else {
      OtherKeepsLock(w, e);
    }
    hide Locked, Step;
  }

  lemma StepKeepsKnown(w: World, e: Event)
    requires Enabled(w, e) && Known(w)
    ensures Known(Step(w, e))
  {
  }

  // ----- the table and the queue -----

  /** The views of this run the shell created and did not dispose of. */
  ghost predicate LiveHandle(w: World, h: Handle) {
    h in w.handles && w.handles[h].run == w.run && !w.handles[h].disposed
  }

  /** Once the queue drains, the table is just the live views, each under its id. */
  ghost predicate Drains(w: World) {
    w.running && w.compositor != Exited ==>
      forall id, h :: (id in Fold(w.views, w.queue, w.handles) && Fold(w.views, w.queue, w.handles)[id] == h)
                 <==> LiveHandle(w, h) && w.handles[h].id == id
  }

  predicate Undisposed(w: World, h: Handle) { h in w.handles && !w.handles[h].disposed }

  /** The shell has at most one view under an id, and handles are of this run or an earlier one. */
  ghost predicate OnePerId(w: World) {
    && (forall h, o :: Undisposed(w, h) && Undisposed(w, o) && w.handles[h].id == w.handles[o].id ==> h == o)
    && (forall h :: h in w.handles ==> w.handles[h].run <= w.run)
  }

  /** A handle stays, under its id, and disposed of once and for all; only the factory makes new ones. */
  lemma HandleAfter(w: World, e: Event, h: Handle)
    requires Enabled(w, e)
    ensures h in w.handles ==>
              && h in Step(w, e).handles
              && Step(w, e).handles[h].id == w.handles[h].id && Step(w, e).handles[h].run == w.handles[h].run
              && (w.handles[h].disposed ==> Step(w, e).handles[h].disposed)
    ensures h !in w.handles && h in Step(w, e).handles ==>
              e.Factory? && h == e.h && Step(w, e).handles[h].id == e.id && Step(w, e).handles[h].run == w.run
    ensures w.run <= Step(w, e).run
  {
  }

  lemma StepKeepsIds(w: World, e: Event)
    requires Enabled(w, e) && OnePerId(w)
    ensures OnePerId(Step(w, e))
  {
    forall h ensures h in Step(w, e).handles ==> Step(w, e).handles[h].run <= Step(w, e).run {
      HandleAfter(w, e, h);
    }
    forall h, o | Undisposed(Step(w, e), h) && Undisposed(Step(w, e), o)
        && Step(w, e).handles[h].id == Step(w, e).handles[o].id
      ensures h == o
    {
      HandleAfter(w, e, h);
      HandleAfter(w, e, o);
      hide Step;
    }
    hide Step;
  }

  lemma {:induction false} FoldAppend(views: map<ViewId, Handle>, queue: seq<Cmd>, cmd: Cmd,
                                      handles: map<Handle, Shared>)
    ensures Fold(views, queue + [cmd], handles) == Handled(Fold(views, queue, handles), cmd, handles)
    decreases |queue|
  {
    if queue == [] {
      assert Fold(views, [cmd], handles) == Fold(Handled(views, cmd, handles), [cmd][1..], handles);
    } else {
      assert (queue + [cmd])[0] == queue[0] && (queue + [cmd])[1..] == queue[1..] + [cmd];
      FoldAppend(Handled(views, queue[0], handles), queue[1..], cmd, handles);
    }
  }

  /** Only the ids of the handles queued matter. */
  lemma {:induction false} FoldSame(views: map<ViewId, Handle>, queue: seq<Cmd>, handles: map<Handle, Shared>,
                                    handles': map<Handle, Shared>)
    requires forall i :: 0 <= i < |queue| && queue[i].ViewCreated? ==>
               && queue[i].handle in handles && queue[i].handle in handles'
               && handles'[queue[i].handle].id == handles[queue[i].handle].id
    ensures Fold(views, queue, handles') == Fold(views, queue, handles)
    decreases |queue|
  {
    if queue != [] {
      var rest := queue[1..];
      assert forall i :: 0 <= i < |rest| ==> rest[i] == queue[i + 1];
      FoldSame(Handled(views, queue[0], handles), rest, handles, handles');
    }
  }

  lemma FactoryDrains(w: World, h: Handle, id: ViewId)
    requires Enabled(w, Factory(h, id)) && Known(w) && Drains(w)
    ensures Drains(Step(w, Factory(h, id)))
  {
    if w.running && w.compositor != Exited {
      var handles := w.handles[h := Shared(id, true, None, w.run, false)];
      FoldSame(w.views, w.queue, w.handles, handles);
      FoldAppend(w.views, w.queue, ViewCreated(h), handles);
      hide Fold;
    }
  }

  lemma DisposeDrains(w: World)
    requires Enabled(w, PlatformStep) && w.platform.DisposeSends? && Known(w) && Drains(w) && OnePerId(w) && Locked(w)
    ensures Drains(Step(w, PlatformStep))
  {
    var h := w.platform.h;
    var handles := w.handles[h := w.handles[h].(disposed := true)];
    if w.running && w.compositor != Exited {
      FoldAppend(w.views, w.queue, ViewDisposed(w.handles[h].id), w.handles);
      FoldSame(w.views, w.queue + [ViewDisposed(w.handles[h].id)], w.handles, handles);
      hide Fold, Locked, Known;
    }
  }

  lemma HandlesDrain(w: World, w': World)
    requires Known(w) && Drains(w)
    requires w'.views == w.views && w'.queue == w.queue && w'.run == w.run
    requires w'.running ==> w.running
    requires w'.compositor != Exited ==> w.compositor != Exited
    requires w'.handles.Keys == w.handles.Keys
    requires forall h :: h in w.handles ==>
               w'.handles[h] == w.handles[h].(linked := w'.handles[h].linked, holder := w'.handles[h].holder)
    ensures Drains(w')
  {
    FoldSame(w.views, w.queue, w.handles, w'.handles);
    hide Fold;
    assert forall h :: LiveHandle(w', h) <==> LiveHandle(w, h);
  }

  lemma TakeDrains(w: World)
    requires Enabled(w, Take) && Drains(w)
    ensures Drains(Step(w, Take))
  {
    if w.queue[0] != Quit {
      assert Fold(w.views, w.queue, w.handles)
          == Fold(Handled(w.views, w.queue[0], w.handles), w.queue[1..], w.handles);
      hide Fold;
      assert forall h :: LiveHandle(Step(w, Take), h) <==> LiveHandle(w, h);
    }
  }

  /** Locking, unlocking and calling are no matter for the table. */
  lemma PlatformDrains(w: World, e: Event)
    requires Enabled(w, e) && Known(w) && Drains(w) && Locked(w)
    requires e.DisposeCalled? || e.RenegotiateCalled? || (e.PlatformStep? && !w.platform.DisposeSends?)
    ensures Drains(Step(w, e))
  {
    hide Drains, Known, LockedAt, Fold, Handled;
    HandlesDrain(w, Step(w, e));
  }

  lemma CompositorDrains(w: World, e: Event)
    requires Enabled(w, e) && Known(w) && Drains(w) && Locked(w) && (e.Call? || e.CompositorStep?)
    ensures Drains(Step(w, e))
  {
    hide Drains, Known, LockedAt, Fold, Handled;
    HandlesDrain(w, Step(w, e));
  }

  lemma LifecycleDrains(w: World, e: Event)
    requires Enabled(w, e) && OnePerId(w) && (e.Crash? || e.ServerStart? || e.ServerStop?)
    ensures Drains(Step(w, e))
  {
  }

  lemma StepKeepsDrains(w: World, e: Event)
    requires Enabled(w, e) && Known(w) && Drains(w) && OnePerId(w) && Locked(w)
    ensures Drains(Step(w, e))
  {
    if e.Factory? {
      FactoryDrains(w, e.h, e.id);
    } else if e.PlatformStep? && w.platform.DisposeSends? {
      DisposeDrains(w);
    } else if e.Take? {
      TakeDrains(w);
    } else if e.Crash? || e.ServerStart? || e.ServerStop? {
      LifecycleDrains(w, e);
    } else if e.Call? || e.CompositorStep? {
      CompositorDrains(w, e);
    } else {
      PlatformDrains(w, e);
    }
    hide Step, Drains, Known, Locked, OnePerId;
  }

  ghost predicate Kept(w: World) { Locked(w) && Known(w) && OnePerId(w) && Drains(w) }

  lemma {:induction false} RunKeeps(states: seq<World>, events: seq<Event>, i: nat)
    requires IsRun(states, events) && i <= |events|
    ensures Kept(states[i])
  {
    if i > 0 {
      RunKeeps(states, events, i - 1);
      StepKeepsLock(states[i - 1], events[i - 1]);
      StepKeepsKnown(states[i - 1], events[i - 1]);
      StepKeepsIds(states[i - 1], events[i - 1]);
      StepKeepsDrains(states[i - 1], events[i - 1]);
      hide Locked, Known, OnePerId, Drains;
    }
  }

  lemma {:induction false} StaysDisposed(states: seq<World>, events: seq<Event>, i: nat, j: nat, h: Handle)
    requires IsRun(states, events) && i <= j <= |events|
    requires h in states[i].handles && states[i].handles[h].disposed
    ensures h in states[j].handles && states[j].handles[h].disposed
  {
    hide Step, Enabled;
    if i < j {
      StaysDisposed(states, events, i, j - 1, h);
      HandleAfter(states[j - 1], events[j - 1], h);
    }
  }

  /** The dispose rule. However the threads interleave, once dispose has returned for a view no call to the shell is in
      flight for it, then or ever after; and none is in flight while it is returning. */
  lemma NoCallAfterDispose(states: seq<World>, events: seq<Event>, i: nat, j: nat, h: Handle)
    requires IsRun(states, events) && i <= j <= |events|
    requires h in states[i].handles
    requires states[i].handles[h].disposed || (i == j && states[i].platform == DisposeSends(h))
    ensures states[j].compositor != InCall(h)
  {
    RunKeeps(states, events, j);
    if states[i].handles[h].disposed { StaysDisposed(states, events, i, j, h); }
  }

  /** Within one server run, once the queue is empty the table of views is just the views created and not disposed of
      yet, ids used again included. */
  lemma TableIsLiveViews(states: seq<World>, events: seq<Event>, i: nat, id: ViewId, h: Handle)
    requires IsRun(states, events) && i <= |events|
    requires states[i].running && states[i].compositor != Exited && states[i].queue == []
    ensures id in states[i].views && states[i].views[id] == h <==>
              LiveHandle(states[i], h) && states[i].handles[h].id == id
  {
    RunKeeps(states, events, i);
    assert Fold(states[i].views, [], states[i].handles) == states[i].views;
    hide Fold;
  }

  /** No deadlock: when a thread waits for a lock, either it is free or the one that holds it can go on. */
  lemma WaitsEnd(states: seq<World>, events: seq<Event>, i: nat)
    requires IsRun(states, events) && i <= |events|
    ensures states[i].platform != AtRest ==> Enabled(states[i], PlatformStep) || Enabled(states[i], CompositorStep)
    ensures states[i].compositor != Between && states[i].compositor != Exited ==>
              Enabled(states[i], PlatformStep) || Enabled(states[i], CompositorStep)
  {
    RunKeeps(states, events, i);
    HolderCanGo(states[i]);
  }

  lemma HolderCanGo(w: World)
    requires Locked(w)
    ensures w.platform != AtRest || (w.compositor != Between && w.compositor != Exited) ==>
              Enabled(w, PlatformStep) || Enabled(w, CompositorStep)
  {
    if w.platform != AtRest && w.handles[w.platform.h].holder.Some? {
      match w.handles[w.platform.h].holder.value
      case Compositor => assert CompositorHolds(w, w.platform.h);
      case Platform => assert PlatformHolds(w, w.platform.h);
    }
    if w.compositor.CallWaits? && w.handles[w.compositor.h].holder.Some? {
      match w.handles[w.compositor.h].holder.value
      case Compositor =>
      case Platform => assert PlatformHolds(w, w.compositor.h);
    }
  }

  // ----- why the shell must dispose first -----

  /** Created under an id whose view is still to be disposed of, the new view would be lost with the old one -- whatever
      else the table holds. */
  lemma CreateBeforeDisposeLoses(views: map<ViewId, Handle>, handles: map<Handle, Shared>, first: Handle,
                                 second: Handle)
    requires first in handles && second in handles && handles[first].id == handles[second].id
    ensures var cmds := [ViewCreated(first), ViewCreated(second), ViewDisposed(handles[first].id)];
            handles[second].id !in Fold(views, cmds, handles)
    ensures var cmds := [ViewCreated(first), ViewDisposed(handles[first].id), ViewCreated(second)];
            handles[second].id in Fold(views, cmds, handles)
  {
    var id := handles[first].id;
    var wrong := [ViewCreated(first), ViewCreated(second)];
    FoldAppend(views, wrong, ViewDisposed(id), handles);
    assert wrong + [ViewDisposed(id)] == [ViewCreated(first), ViewCreated(second), ViewDisposed(id)];
    var right := [ViewCreated(first), ViewDisposed(id)];
    FoldAppend(views, right, ViewCreated(second), handles);
    assert right + [ViewCreated(second)] == [ViewCreated(first), ViewDisposed(id), ViewCreated(second)];
    hide Fold;
  }
}

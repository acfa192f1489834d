/** What frame pacing does to its state (src/pacing.rs), one function per operation.

    The state of the server that pacing reads and writes, with what it did to its clients' objects: the barriers
    signaled, the feedback answered, the clients unblocked and the views whose frame callbacks were sent. Time,
    the client's commits and whether the event loop takes a timer are inputs. */
module PacingSpec {
  import opened Basics
  import opened FrameClocks
  import opened FrameQueues
  import opened MultisetSums

  type ViewId = int
  type Client = nat
  type SurfaceId = nat

  const HIDDEN_RELEASE_NS: nat := 1_000_000_000
  const MAX_LOOSE: nat := 256
  const MIN_DELAY_NS: nat := 100_000

  datatype Loose = Loose(barrier: Barrier, client: Client, dueNs: U64)

  datatype ViewEntry = ViewEntry(bound: bool, client: Option<Client>, seqNo: nat, frames: seq<Frame>,
                                 suspended: bool, hiddenReleaseNs: nat)

  /** A live surface, and the target times its held-back updates wait for. */
  datatype Surface = Surface(client: Option<Client>, timers: seq<U64>)

  datatype Pacing = Pacing(
    clock: FrameClock,
    views: map<ViewId, ViewEntry>,
    surfaces: map<SurfaceId, Surface>,
    timed: seq<SurfaceId>,
    loose: seq<Loose>,
    unsubmitted: seq<(ViewId, U64)>,
    tick: Option<nat>,
    signaled: multiset<Barrier>,
    answers: seq<Answer>,
    unblocked: multiset<Client>,
    called: multiset<ViewId>)

  /** A client's content update, as it is applied: its tree is shown nowhere, or is submitted to the view showing it,
      or maps its toplevel, which lets a waiting view bind. */
  datatype Update =
    | Unshown(client: Option<Client>, taken: Taken)
    | Submit(view: ViewId, content: Taken, shown: Option<seq<Content>>, cleared: bool)
    | Bind(view: ViewId, owner: Option<Client>)

  const FRESH_VIEW := ViewEntry(false, None, 0, [], false, 0)

  // ----- tables and lists -----

  ghost function BarrierRows(views: map<ViewId, ViewEntry>): map<ViewId, multiset<Barrier>> {
    map v | v in views :: multiset(BarriersOf(views[v].frames))
  }

  function LooseBarriers(loose: seq<Loose>): seq<Barrier> {
    seq(|loose|, i requires 0 <= i < |loose| => loose[i].barrier)
  }

  function LooseOf(client: Client, barriers: seq<Barrier>, due: U64): seq<Loose> {
    seq(|barriers|, i requires 0 <= i < |barriers| => Loose(barriers[i], client, due))
  }

  /** The entries of a list due by now, or those still to come, in order. */
  function LooseDue(loose: seq<Loose>, now: nat, due: bool): seq<Loose> {
    if loose == [] then []
    else (if (loose[0].dueNs <= now) == due then [loose[0]] else []) + LooseDue(loose[1..], now, due)
  }

  function UnsubmittedDue(list: seq<(ViewId, U64)>, now: nat, due: bool): seq<(ViewId, U64)> {
    if list == [] then []
    else (if (list[0].1 <= now) == due then [list[0]] else []) + UnsubmittedDue(list[1..], now, due)
  }

  /** `signal_until`: the timers after the given time are left. */
  function TimersAfter(timers: seq<U64>, until: U64): seq<U64> {
    if timers == [] then []
    else (if timers[0] > until then [timers[0]] else []) + TimersAfter(timers[1..], until)
  }

  /** `next_deadline` of a surface with timers pending. */
  function Earliest(timers: seq<U64>): U64
    requires timers != []
  {
    if |timers| == 1 then timers[0] else Min(timers[0], Earliest(timers[1..]))
  }

  /** The surfaces of the list, alive, with timers pending. */
  function StillTimed(timed: seq<SurfaceId>, surfaces: map<SurfaceId, Surface>): seq<SurfaceId> {
    if timed == [] then []
    else (if timed[0] in surfaces && surfaces[timed[0]].timers != [] then [timed[0]] else [])
         + StillTimed(timed[1..], surfaces)
  }

  ghost function TimersCut(surfaces: map<SurfaceId, Surface>, timed: seq<SurfaceId>, until: U64)
    : map<SurfaceId, Surface>
  {
    map x | x in surfaces ::
      if x in timed then surfaces[x].(timers := TimersAfter(surfaces[x].timers, until)) else surfaces[x]
  }

  ghost function TimerClients(surfaces: map<SurfaceId, Surface>, timed: seq<SurfaceId>, until: U64): set<Client> {
    set x | x in timed && x in surfaces && surfaces[x].client.Some?
         && TimersAfter(surfaces[x].timers, until) != surfaces[x].timers :: surfaces[x].client.value
  }

  ghost function SurfaceClients(surfaces: map<SurfaceId, Surface>, timed: seq<SurfaceId>): set<Client> {
    set x | x in timed && x in surfaces && surfaces[x].client.Some? :: surfaces[x].client.value
  }

  ghost function ViewClients(views: map<ViewId, ViewEntry>, ids: set<ViewId>): set<Client> {
    set v | v in ids && v in views && views[v].client.Some? :: views[v].client.value
  }

  /** `flush_callbacks`: only a bound view on screen has frame callbacks sent. */
  ghost function Callable(views: map<ViewId, ViewEntry>, ids: set<ViewId>): set<ViewId> {
    set v | v in ids && v in views && views[v].bound && !views[v].suspended
  }

  // ----- the clock's tick -----

  /** The clock is armed by the given time; where no timer is to be had everything is released instead. */
  ghost function ScheduleTick(s: Pacing, at: nat, inserted: bool): Pacing {
    if s.tick.Some? && s.tick.value <= at then s
    else if inserted then s.(tick := Some(at))
    else ReleaseEverything(s.(tick := None))
  }

  ghost function ReleaseEverything(s: Pacing): Pacing {
    s.(
      loose := [],
      timed := [],
      unsubmitted := [],
      surfaces := TimersCut(s.surfaces, s.timed, MAX_U64),
      views := EveryReleased(s.views),
      signaled := s.signaled + multiset(LooseBarriers(s.loose)) + Total(EveryReleasedRows(s.views)),
      unblocked := s.unblocked + multiset(WaitingClients(s)),
      called := s.called + multiset(Callable(s.views, s.views.Keys)))
  }

  ghost function WaitingClients(s: Pacing): set<Client> {
    LooseClients(s.loose) + SurfaceClients(s.surfaces, s.timed) + ViewClients(s.views, HoldingViews(s.views))
  }

  ghost function EveryReleased(views: map<ViewId, ViewEntry>): map<ViewId, ViewEntry> {
    map v | v in views :: views[v].(frames := ReleasedOlder(views[v].frames, MAX_U64))
  }

  ghost function EveryReleasedRows(views: map<ViewId, ViewEntry>): map<ViewId, multiset<Barrier>> {
    map v | v in views :: multiset(BarriersOlder(views[v].frames, MAX_U64))
  }

  ghost function HoldingViews(views: map<ViewId, ViewEntry>): set<ViewId> {
    set v | v in views && BarriersOlder(views[v].frames, MAX_U64) != []
  }

  function StaleBefore(now: Instant): nat { SatSub(now, STALE_NS) }

  /** What a tick does to one view. */
  function TickView(e: ViewEntry, now: Instant): ViewEntry {
    if e.suspended then
      if e.hiddenReleaseNs <= now && NextStale(e.frames, false).Some? then
        e.(hiddenReleaseNs := now + HIDDEN_RELEASE_NS, frames := ReleasedOlder(e.frames, MAX_U64))
      else e
    else
      e.(frames := ReleasedOlder(FlushedOlder(e.frames, StaleBefore(now)), StaleBefore(now)))
  }

  function TickReleased(e: ViewEntry, now: Instant): seq<Barrier> {
    if e.suspended then
      if e.hiddenReleaseNs <= now && NextStale(e.frames, false).Some? then BarriersOlder(e.frames, MAX_U64) else []
    else BarriersOlder(e.frames, StaleBefore(now))
  }

  /** A frame of the view on screen goes unreported with this tick. */
  predicate TickFlushes(e: ViewEntry, now: Instant) {
    && !e.suspended
    && exists i :: 0 <= i < |e.frames| && e.frames[i].submittedNs < StaleBefore(now) && !e.frames[i].flushed
  }

  /** When the view needs the clock again. */
  function ViewWake(e: ViewEntry, vblank: U64): Option<nat> {
    match NextStale(e.frames, !e.suspended)
    case None => None
    case Some(at) => Some(if e.suspended then Max(e.hiddenReleaseNs, vblank) else at)
  }

  ghost function TickReleasedRows(views: map<ViewId, ViewEntry>, now: Instant): map<ViewId, multiset<Barrier>> {
    map v | v in views :: multiset(TickReleased(views[v], now))
  }

  /** The views with a barrier released by a tick, and those whose frame callbacks it makes due. */
  ghost function ReleasedViews(views: map<ViewId, ViewEntry>, now: Instant): set<ViewId> {
    set v | v in views && TickReleased(views[v], now) != []
  }

  ghost function FlushedViews(views: map<ViewId, ViewEntry>, now: Instant): set<ViewId> {
    set v | v in views && TickFlushes(views[v], now)
  }

  ghost function TickViews(views: map<ViewId, ViewEntry>, now: Instant): map<ViewId, ViewEntry> {
    map v | v in views :: TickView(views[v], now)
  }

  ghost function LooseClients(loose: seq<Loose>): set<Client> {
    set l | l in loose :: l.client
  }

  ghost function Ids(list: seq<(ViewId, U64)>): set<ViewId> {
    set p | p in list :: p.0
  }

  /** Everything that is due is released; the clock itself is left stopped. */
  ghost function TickReleases(s: Pacing, now: Instant): Pacing {
    var surfaces := TimersCut(s.surfaces, s.timed, s.clock.Due(now));
    var due := LooseDue(s.loose, now, true);
    var views := TickViews(s.views, now);
    s.(
      surfaces := surfaces,
      timed := StillTimed(s.timed, surfaces),
      loose := LooseDue(s.loose, now, false),
      unsubmitted := UnsubmittedDue(s.unsubmitted, now, false),
      views := views,
      tick := None,
      signaled := s.signaled + multiset(LooseBarriers(due)) + Total(TickReleasedRows(s.views, now)),
      unblocked := s.unblocked + multiset(TickUnblocked(s, now)),
      called := s.called + multiset(Callable(views, TickCalled(s, now))))
  }

  ghost function TickUnblocked(s: Pacing, now: Instant): set<Client> {
    TimerClients(s.surfaces, s.timed, s.clock.Due(now)) + LooseClients(LooseDue(s.loose, now, true))
    + ViewClients(s.views, ReleasedViews(s.views, now))
  }

  ghost function TickCalled(s: Pacing, now: Instant): set<ViewId> {
    Ids(UnsubmittedDue(s.unsubmitted, now, true)) + FlushedViews(s.views, now)
  }

  ghost function TimerWakes(clock: FrameClock, surfaces: map<SurfaceId, Surface>, timed: seq<SurfaceId>): set<nat> {
    set x | x in timed && x in surfaces && surfaces[x].timers != [] ::
      clock.ReleaseAt(Earliest(surfaces[x].timers)) as nat
  }

  ghost function LooseWakes(loose: seq<Loose>): set<nat> {
    set l | l in loose :: l.dueNs as nat
  }

  ghost function UnsubmittedWakes(list: seq<(ViewId, U64)>): set<nat> {
    set p | p in list :: p.1 as nat
  }

  ghost function ViewWakes(views: map<ViewId, ViewEntry>, vblank: U64): set<nat> {
    set v | v in views && ViewWake(views[v], vblank).Some? :: ViewWake(views[v], vblank).value
  }

  /** The times anything still waiting needs the clock at. */
  ghost function Wakes(s: Pacing, now: Instant): set<nat> {
    TimerWakes(s.clock, s.surfaces, s.timed) + LooseWakes(s.loose) + UnsubmittedWakes(s.unsubmitted)
    + ViewWakes(s.views, s.clock.NextVblank(now))
  }

  ghost function Least(times: set<nat>): (t: nat)
    requires times != {}
    ensures IsLeast(times, t)
  {
    assert exists t :: t in times;
    LeastExists(times);
    var t :| IsLeast(times, t);
    t
  }

  ghost function Tick(s: Pacing, now: Instant, inserted: bool): Pacing {
    var s' := TickReleases(s, now);
    var wakes := Wakes(s', now);
    if wakes == {} then s' else ScheduleTick(s', Max(Least(wakes), now + MIN_DELAY_NS), inserted)
  }

  // ----- commits and submits -----

  /** Barriers of a tree nobody shows wait for the next vblank; those of no client do not wait. */
  ghost function HoldLoose(s: Pacing, client: Option<Client>, barriers: seq<Barrier>, now: Instant,
                           inserted: bool): Pacing {
    if barriers == [] then s
    else if client.None? then s.(signaled := s.signaled + multiset(barriers))
    else
      var due := s.clock.NextVblank(now);
      var all := s.loose + LooseOf(client.value, barriers, due);
      var excess := if |all| > MAX_LOOSE then |all| - MAX_LOOSE else 0;
      ScheduleTick(s.(loose := all[excess..], signaled := s.signaled + multiset(LooseBarriers(all[..excess]))), due,
                   inserted)
  }

  /** A tree committed that no view shows. */
  ghost function NotShown(s: Pacing, client: Option<Client>, taken: Taken, now: Instant, inserted: bool): Pacing {
    HoldLoose(s.(answers := s.answers + Discards(taken.feedback)), client, taken.barriers, now, inserted)
  }

  /** The surface is listed and the clock armed for now; the timer itself is added by the step that follows. */
  ghost function WatchTarget(s: Pacing, x: SurfaceId, now: Instant, inserted: bool): Pacing {
    ScheduleTick(if x in s.timed then s else s.(timed := s.timed + [x]), now, inserted)
  }

  ghost function AddTimer(s: Pacing, x: SurfaceId, target: U64): Pacing {
    if x !in s.surfaces then s
    else s.(surfaces := s.surfaces[x := s.surfaces[x].(timers := s.surfaces[x].timers + [target])])
  }

  ghost function WatchFrames(s: Pacing, v: ViewId, now: Instant, inserted: bool): Pacing {
    if v !in s.views then s
    else
      match ViewWake(s.views[v], s.clock.NextVblank(now))
      case None => s
      case Some(at) => ScheduleTick(s, at, inserted)
  }

  ghost function Unsubmitted(s: Pacing, v: ViewId, now: Instant, inserted: bool): Pacing {
    var due := s.clock.NextVblank(now);
    ScheduleTick(if exists p :: p in s.unsubmitted && p.0 == v then s
                 else s.(unsubmitted := s.unsubmitted + [(v, due)]), due, inserted)
  }

  ghost function PushFrame(s: Pacing, v: ViewId, shown: seq<Content>, taken: Taken, now: Instant): Pacing
    requires v in s.views
  {
    var e := s.views[v];
    var all := e.frames + [Entering(e.seqNo + 1, now, shown, taken)];
    var dropped := all[..Excess(|all|)];
    s.(
      views := s.views[v := e.(seqNo := e.seqNo + 1, frames := all[Excess(|all|)..])],
      answers := s.answers + Discards(Select(taken.feedback, shown, false)) + Discards(FeedbackOf(dropped)),
      signaled := s.signaled + multiset(BarriersOf(dropped)),
      unblocked := if BarriersOf(dropped) != [] && e.client.Some? then s.unblocked + multiset{e.client.value}
                   else s.unblocked)
  }

  /** A bound view's tree goes to the shell: what the updates wait for is taken, and shown is what each layer
      carries if the shell takes the frame. Clearing the view instead also uses up a sequence number. */
  ghost function SubmitView(s: Pacing, v: ViewId, taken: Taken, shown: Option<seq<Content>>, cleared: bool,
                            now: Instant, inserted: bool): Pacing
  {
    if v !in s.views || !s.views[v].bound then s
    else
      match shown
      case Some(contents) => WatchFrames(PushFrame(s, v, contents, taken, now), v, now, inserted)
      case None =>
        var s' := if cleared then s.(views := s.views[v := s.views[v].(seqNo := s.views[v].seqNo + 1)]) else s;
        Unsubmitted(NotShown(s', s.views[v].client, taken, now, inserted), v, now, inserted)
  }

  // ----- the shell's reports -----

  ghost function FramePresented(s: Pacing, v: ViewId, r: Report): Pacing {
    var s' := s.(clock := s.clock.Update(r.ustNs, r.refreshNs));
    if v !in s.views then s'
    else
      var e := s.views[v];
      var gone := e.frames[..Replaced(e.frames, r.seqNo)];
      s'.(
        views := s.views[v := e.(frames := e.frames[|gone|..])],
        answers := s.answers + Answers(FeedbackOf(gone), ShownBy(e.frames, r.seqNo), TimingOf(r)),
        signaled := s.signaled + multiset(BarriersOf(gone)),
        called := if e.bound then s.called + multiset{v} else s.called,
        unblocked := if BarriersOf(gone) != [] && e.client.Some? then s.unblocked + multiset{e.client.value}
                     else s.unblocked)
  }

  ghost function ViewSuspended(s: Pacing, v: ViewId, suspended: bool, now: Instant, inserted: bool): Pacing {
    if v !in s.views then s
    else
      var e := s.views[v].(suspended := suspended, hiddenReleaseNs := s.clock.NextVblank(now));
      var s' := s.(views := s.views[v := e]);
      match NextStale(e.frames, !suspended)
      case None => s'
      case Some(at) =>
        ScheduleTick(s', if suspended then e.hiddenReleaseNs else Max(at, now + STALE_NS), inserted)
  }

  // ----- binding, as far as pacing sees it -----

  ghost function DropFrames(s: Pacing, v: ViewId): Pacing {
    if v !in s.views then s
    else
      var e := s.views[v];
      s.(
        views := s.views[v := e.(frames := [])],
        answers := s.answers + Discards(FeedbackOf(e.frames)),
        signaled := s.signaled + multiset(BarriersOf(e.frames)),
        unblocked := if BarriersOf(e.frames) != [] && e.client.Some? then s.unblocked + multiset{e.client.value}
                     else s.unblocked)
  }

  ghost function BindView(s: Pacing, v: ViewId, client: Option<Client>): Pacing {
    if v !in s.views || s.views[v].bound then s
    else s.(views := s.views[v := s.views[v].(bound := true, client := client)])
  }

  ghost function Applied(s: Pacing, u: Update, now: Instant, inserted: bool): Pacing {
    match u
    case Unshown(client, taken) => NotShown(s, client, taken, now, inserted)
    case Submit(v, taken, shown, cleared) => SubmitView(s, v, taken, shown, cleared, now, inserted)
    case Bind(v, owner) => BindView(s, v, owner)
  }

  ghost function ApplyEach(s: Pacing, us: seq<Update>, now: Instant, inserted: bool): Pacing
    decreases |us|
  {
    if us == [] then s else ApplyEach(Applied(s, us[0], now, inserted), us[1..], now, inserted)
  }

  /** Dropping the view's frames clears a barrier and there is a client to tell. */
  predicate DropTells(s: Pacing, v: ViewId) {
    v in s.views && s.views[v].bound && BarriersOf(s.views[v].frames) != [] && s.views[v].client.Some?
  }

  /** The view's frames are dropped. Telling its client applies what waited on them, at once and with the view still
      bound. */
  ghost function Dropping(s: Pacing, v: ViewId, applied: seq<Update>, now: Instant, inserted: bool): Pacing {
    if DropTells(s, v) then ApplyEach(DropFrames(s, v), applied, now, inserted) else DropFrames(s, v)
  }

  ghost function Broken(s: Pacing, v: ViewId, cleared: bool): Pacing {
    if v !in s.views then s
    else
      var e := s.views[v];
      s.(views := s.views[v := e.(bound := false, client := None, seqNo := if cleared then e.seqNo + 1 else e.seqNo)])
  }

  ghost function UnbindView(s: Pacing, v: ViewId, cleared: bool, applied: seq<Update>, now: Instant, inserted: bool)
    : Pacing
  {
    Broken(Dropping(s, v, applied, now, inserted), v, cleared)
  }

  ghost function CreateView(s: Pacing, v: ViewId, cleared: bool, applied: seq<Update>, now: Instant, inserted: bool)
    : Pacing
  {
    var s' := UnbindView(s, v, cleared, applied, now, inserted);
    s'.(views := s'.views[v := FRESH_VIEW])
  }

  ghost function DisposeView(s: Pacing, v: ViewId, cleared: bool, applied: seq<Update>, now: Instant, inserted: bool)
    : Pacing
  {
    var s' := UnbindView(s, v, cleared, applied, now, inserted);
    s'.(views := s'.views - {v})
  }

  /** A view is listed as unsubmitted at most once. */
  ghost predicate OncePerView(list: seq<(ViewId, U64)>) {
    forall i, j :: 0 <= i < j < |list| ==> list[i].0 != list[j].0
  }

  // ----- runs -----

  datatype Action =
    | Apply(update: Update)
    | CommitTimed(surface: SurfaceId, target: U64)
    | Present(view: ViewId, report: Report)
    | Suspend(view: ViewId, suspended: bool)
    | Unbind(view: ViewId, cleared: bool, applied: seq<Update>)
    | Create(view: ViewId, cleared: bool, applied: seq<Update>)
    | Dispose(view: ViewId, cleared: bool, applied: seq<Update>)
    | NewSurface(surface: SurfaceId, client: Option<Client>)
    | SurfaceGone(surface: SurfaceId)
    | ClockTick

  /** An action at a time, and whether the event loop takes a timer then. */
  datatype Event = Event(action: Action, now: Instant, inserted: bool)

  /** The armed timer fires at or after its time. */
  ghost predicate Enabled(s: Pacing, e: Event) {
    match e.action
    case ClockTick => s.tick.Some? && s.tick.value <= e.now
    case NewSurface(x, _) => x !in s.surfaces && x !in s.timed
    case _ => true
  }

  ghost function Step(s: Pacing, e: Event): Pacing
    requires Enabled(s, e)
  {
    match e.action
    case Apply(u) => Applied(s, u, e.now, e.inserted)
    case CommitTimed(x, target) =>
      if x in s.surfaces then AddTimer(WatchTarget(s, x, e.now, e.inserted), x, target) else s
    case Present(v, report) => FramePresented(s, v, report)
    case Suspend(v, suspended) => ViewSuspended(s, v, suspended, e.now, e.inserted)
    case Unbind(v, cleared, applied) => UnbindView(s, v, cleared, applied, e.now, e.inserted)
    case Create(v, cleared, applied) => CreateView(s, v, cleared, applied, e.now, e.inserted)
    case Dispose(v, cleared, applied) => DisposeView(s, v, cleared, applied, e.now, e.inserted)
    case NewSurface(x, client) => s.(surfaces := s.surfaces[x := Surface(client, [])])
    case SurfaceGone(x) => s.(surfaces := s.surfaces - {x})
    case ClockTick => Tick(s, e.now, e.inserted)
  }

  const INITIAL := Pacing(INITIAL_CLOCK, map[], map[], [], [], [], None, multiset{}, [], multiset{}, multiset{})

  /** A run the server can make: time does not go back, and every event is possible where it happens. */
  ghost predicate IsRun(states: seq<Pacing>, events: seq<Event>) {
    && |states| == |events| + 1
    && states[0] == INITIAL
    && (forall i :: 0 <= i < |events| ==> Enabled(states[i], events[i]) && states[i + 1] == Step(states[i], events[i]))
    && (forall i, j :: 0 <= i < j < |events| ==> events[i].now <= events[j].now)
  }
}

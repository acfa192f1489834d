/** The widget's controller of its view (dart/ihs_wayland_server/lib/src/view.dart, _ToplevelViewController): it creates
    the view once its scale on screen is known, and then keeps the shell told of the size it has there, until it is
    disposed of.

    What runs between two awaits is one step. The create call's reply, and when the awaits go on, are steps of their
    own. */
module Controller {
  import opened Basics

  datatype Size = Size(width: real, height: real)

  datatype Scale = Scale(dx: real, dy: real)

  const UNSCALED := Scale(1.0, 1.0)

  /** What the shell is told; a view not laid out yet is created with no size. */
  datatype Message = Create(size: Option<Size>) | Resize(to: Size) | Dispose

  /** How far the one creation has come. */
  datatype Creation = NotAsked | Measuring(laidOut: Option<Size>) | InFlight(laidOut: Option<Size>) | Done | Failed

  datatype State = State(
    creation: Creation,
    measured: bool,
    scale: Scale,
    laidOut: Option<Size>,
    sentSize: Option<Size>,
    created: bool,
    sent: seq<Message>,
    /** The scale the input was last told. */
    inputScale: Option<Scale>)

  datatype Event =
    | AskCreate(at: Option<Size>)
    | LaidOut(size: Size)
    | DrawnAt(scale: Scale)
    | Measured
    | Replied
    | CreateFailed
    | Disposed

  function Initial(scale: Option<Scale>): State {
    State(NotAsked, scale.Some?, if scale.Some? then scale.value else UNSCALED, None, None, false, [], None)
  }

  function OnScreen(size: Size, scale: Scale): Size { Size(size.width * scale.dx, size.height * scale.dy) }

  /** Tell the shell the size on screen if it has another. */
  function SentSize(s: State): State {
    if s.created && s.laidOut.Some? && Some(OnScreen(s.laidOut.value, s.scale)) != s.sentSize then
      var size := OnScreen(s.laidOut.value, s.scale);
      s.(sentSize := Some(size), sent := s.sent + [Resize(size)])
    else s
  }

  predicate Enabled(s: State, e: Event) {
    match e
    case Measured => s.creation.Measuring? && s.measured
    case Replied => s.creation.InFlight?
    case CreateFailed => s.creation.InFlight?
    case _ => true
  }

  function Step(s: State, e: Event): State
    requires Enabled(s, e)
  {
    match e
    case AskCreate(size) => if s.creation.NotAsked? then s.(creation := Measuring(size)) else s
    case LaidOut(size) => SentSize(s.(laidOut := Some(size)))
    case DrawnAt(scale) =>
      var s' := s.(measured := true);
      if scale == s.scale then s'
      else SentSize(s'.(scale := scale, inputScale := if s.created then Some(scale) else s.inputScale))
    case Measured =>
      var size := if s.creation.laidOut.None? then None else Some(OnScreen(s.creation.laidOut.value, s.scale));
      s.(creation := InFlight(s.creation.laidOut), sentSize := size, sent := s.sent + [Create(size)])
    case Replied =>
      SentSize(s.(creation := Done, created := true, inputScale := Some(s.scale),
                  laidOut := if s.laidOut.Some? then s.laidOut else s.creation.laidOut))
    case CreateFailed => s.(creation := Failed)
    case Disposed => if s.created then s.(inputScale := Some(UNSCALED), sent := s.sent + [Dispose]) else s
  }

  // ----- the source's object -----

  class ToplevelViewController {
    var creation: Creation
    var measured: bool
    var scale: Scale
    var laidOut: Option<Size>
    var sentSize: Option<Size>
    var created: bool
    var sent: seq<Message>
    var inputScale: Option<Scale>

    ghost function Abs(): State
      reads this
    {
      State(creation, measured, scale, laidOut, sentSize, created, sent, inputScale)
    }

    constructor (initial: Option<Scale>)
      ensures Abs() == Initial(initial)
    {
      creation, measured, scale := NotAsked, initial.Some?, if initial.Some? then initial.value else UNSCALED;
      laidOut, sentSize, created, sent, inputScale := None, None, false, [], None;
    }

    /** Asked again, the same creation is awaited. */
    method Create(size: Option<Size>)
      modifies this
      ensures Abs() == Step(old(Abs()), AskCreate(size))
    {
      if creation.NotAsked? { creation := Measuring(size); }
    }

    method SendSize()
      modifies this`sentSize, this`sent
      ensures Abs() == SentSize(old(Abs()))
    {
      if created && laidOut.Some? && Some(OnScreen(laidOut.value, scale)) != sentSize {
        sentSize := Some(OnScreen(laidOut.value, scale));
        sent := sent + [Resize(sentSize.value)];
      }
    }

    /** The size takes effect at once if the view exists, and with the create's reply otherwise. */
    method LayOut(size: Size)
      modifies this
      ensures Abs() == Step(old(Abs()), LaidOut(size))
    {
      laidOut := Some(size);
      SendSize();
    }

    /** From the first call on the create may go out; a scale it had already changes nothing else. */
    method DrawAt(to: Scale)
      modifies this
      ensures Abs() == Step(old(Abs()), DrawnAt(to))
    {
      measured := true;
      if to == scale { return; }
      scale := to;
      if created { inputScale := Some(to); }
      SendSize();
    }

    /** Sends the one create, with the size asked for scaled by what was measured. */
    method GoOnMeasured()
      requires Enabled(Abs(), Measured)
      modifies this
      ensures Abs() == Step(old(Abs()), Measured)
    {
      var size := if creation.laidOut.None? then None else Some(OnScreen(creation.laidOut.value, scale));
      sentSize := size;
      sent := sent + [Message.Create(size)];
      creation := InFlight(creation.laidOut);
    }

    /** From here on the shell has the current size; what changed since the create was sent is made up for. */
    method GoOnCreated()
      requires Enabled(Abs(), Replied)
      modifies this
      ensures Abs() == Step(old(Abs()), Replied)
    {
      created := true;
      inputScale := Some(scale);
      if laidOut.None? { laidOut := creation.laidOut; }
      creation := Done;
      SendSize();
    }

    /** A view not created yet is none to be disposed of, even where its create is under way. */
    method Dispose()
      modifies this
      ensures Abs() == Step(old(Abs()), Disposed)
    {
      if !created { return; }
      inputScale := Some(UNSCALED);
      sent := sent + [Message.Dispose];
    }
  }

  // ----- runs -----

  /** What the widget calls; the rest goes on by itself. */
  predicate Calls(e: Event) { e.AskCreate? || e.LaidOut? || e.DrawnAt? || e.Disposed? }

  /** The widget calls nothing on a controller it has disposed of. */
  ghost predicate IsRun(initial: Option<Scale>, states: seq<State>, events: seq<Event>) {
    && |states| == |events| + 1
    && states[0] == Initial(initial)
    && (forall i :: 0 <= i < |events| ==> Enabled(states[i], events[i]) && states[i + 1] == Step(states[i], events[i]))
    && forall i, j :: 0 <= i < j < |events| && events[i].Disposed? ==> !Calls(events[j])
  }

  /** The size a message gives the shell. */
  function Given(m: Message): Option<Size> {
    match m
    case Create(size) => size
    case Resize(to) => Some(to)
    case Dispose => None
  }

  /** The messages before a dispose, which is the last. */
  function Lived(sent: seq<Message>): seq<Message> {
    if sent != [] && sent[|sent| - 1].Dispose? then sent[..|sent| - 1] else sent
  }

  /** The first create asked for is the one made. */
  function Asked(events: seq<Event>): Option<Event> {
    if events == [] then None
    else
      var earlier := Asked(events[..|events| - 1]);
      if earlier.None? && events[|events| - 1].AskCreate? then Some(events[|events| - 1]) else earlier
  }

  /** The latest layout: the last one reported, else the one the view was created at. */
  function Layout(events: seq<Event>): Option<Size> {
    if events == [] then None
    else if events[|events| - 1].LaidOut? then Some(events[|events| - 1].size)
    else if events[|events| - 1].Replied? && Layout(events[..|events| - 1]).None?
         then (if Asked(events).Some? && Asked(events).value.AskCreate? then Asked(events).value.at else None)
    else Layout(events[..|events| - 1])
  }

  function LatestScale(initial: Option<Scale>, events: seq<Event>): Scale {
    if events == [] then (if initial.Some? then initial.value else Scale(1.0, 1.0))
    else if events[|events| - 1].DrawnAt? then events[|events| - 1].scale
    else LatestScale(initial, events[..|events| - 1])
  }

  /** The widget's scale on screen is known: it was given, or the widget was drawn. */
  predicate ScaleKnown(initial: Option<Scale>, events: seq<Event>) {
    initial.Some? || exists k :: 0 <= k < |events| && events[k].DrawnAt?
  }

  /** A size in the shell's pixels: each side at the scale of its own direction. */
  predicate Scaled(given: Option<Size>, layout: Option<Size>, scale: Scale) {
    if layout.None? then given.None?
    else
      && given.Some? && given.value.width == layout.value.width * scale.dx
      && given.value.height == layout.value.height * scale.dy
  }

  /** The create comes first, and only once, a dispose last; each resize gives another size than the one before. */
  ghost predicate InOrder(sent: seq<Message>) {
    && (forall k :: 0 <= k < |sent| ==>
         (sent[k].Create? <==> k == 0) && (sent[k].Dispose? ==> k == |sent| - 1))
    && (forall k :: 0 < k < |sent| && !sent[k].Dispose? ==> Given(sent[k]) != Given(sent[k - 1]))
  }

  ghost predicate Told(s: State) {
    && InOrder(s.sent)
    && (s.sent == [] <==> s.creation.NotAsked? || s.creation.Measuring?)
    && (s.sent != [] ==> Lived(s.sent) != [] && Given(Lived(s.sent)[|Lived(s.sent)| - 1]) == s.sentSize)
    && (s.created <==> s.creation.Done?)
    && (!s.created ==> |s.sent| <= 1 && Dispose !in s.sent)
    && (s.created ==>
          && s.sentSize == (if s.laidOut.Some? then Some(OnScreen(s.laidOut.value, s.scale)) else None)
          && s.inputScale == Some(if Dispose in s.sent then Scale(1.0, 1.0) else s.scale))
    && (!s.created ==> s.inputScale.None?)
    && (s.creation.InFlight? && s.creation.laidOut.None? ==> s.sentSize == None)
  }

  lemma Appended(sent: seq<Message>, m: Message)
    requires InOrder(sent) && Dispose !in sent && (sent == [] <==> m.Create?)
    requires m.Resize? ==> Given(m) != Given(sent[|sent| - 1])
    ensures InOrder(sent + [m]) && Lived(sent + [m]) == (if m.Dispose? then sent else sent + [m])
    ensures Lived(sent) == sent && (Dispose in sent + [m] <==> m.Dispose?)
  {
  }

  /** Once created, and before it is disposed of, a view is told of its size whatever that has become. */
  lemma SizeTold(s: State)
    requires s.creation.Done? && s.created && s.sent != [] && InOrder(s.sent) && Dispose !in s.sent
    requires Given(s.sent[|s.sent| - 1]) == s.sentSize && s.inputScale == Some(s.scale)
    requires s.laidOut.None? ==> s.sentSize.None?
    ensures Told(SentSize(s))
  {
    if s.laidOut.Some? && Some(OnScreen(s.laidOut.value, s.scale)) != s.sentSize {
      Appended(s.sent, Resize(OnScreen(s.laidOut.value, s.scale)));
    }
    hide OnScreen, InOrder;
  }

  lemma LastTold(s: State)
    requires Told(s) && s.sent != [] && Dispose !in s.sent
    ensures Given(s.sent[|s.sent| - 1]) == s.sentSize && InOrder(s.sent)
  {
  }

  lemma CreateTold(s: State)
    requires Enabled(s, Measured) && Told(s)
    ensures Told(Step(s, Measured))
  {
    hide OnScreen;
  }

  lemma DisposeTold(s: State)
    requires Told(s) && s.created && Dispose !in s.sent
    ensures Told(Step(s, Disposed))
  {
    Appended(s.sent, Dispose);
    LastTold(s);
    hide OnScreen, InOrder, Given, Lived;
  }

  lemma StepTold(s: State, e: Event)
    requires Enabled(s, e) && Told(s) && (Dispose in s.sent ==> !Calls(e))
    ensures Told(Step(s, e))
  {
    hide OnScreen, InOrder, Lived, Given;
    if s.sent != [] && Dispose !in s.sent { LastTold(s); }
    match e
    case AskCreate(_) =>
    case CreateFailed =>
    case LaidOut(size) => if s.created { SizeTold(s.(laidOut := Some(size))); }
    case DrawnAt(scale) =>
      if s.created && scale != s.scale { SizeTold(s.(measured := true, scale := scale, inputScale := Some(scale))); }
    case Measured => CreateTold(s);
    case Replied =>
      SizeTold(s.(creation := Done, created := true, inputScale := Some(s.scale),
                  laidOut := if s.laidOut.Some? then s.laidOut else s.creation.laidOut));
    case Disposed => if s.created { DisposeTold(s); }
  }

  /** What the controller knows is what happened. */
  ghost predicate Follows(s: State, initial: Option<Scale>, events: seq<Event>) {
    && s.laidOut == Layout(events)
    && s.scale == LatestScale(initial, events)
    && (s.measured <==> ScaleKnown(initial, events))
    && (Asked(events).Some? ==> Asked(events).value.AskCreate?)
    && (s.creation.NotAsked? <==> Asked(events).None?)
    && (s.creation.Measuring? || s.creation.InFlight? ==> Asked(events) == Some(AskCreate(s.creation.laidOut)))
  }

  lemma StepFollows(s: State, initial: Option<Scale>, events: seq<Event>)
    requires events != [] && Enabled(s, events[|events| - 1]) && Follows(s, initial, events[..|events| - 1])
    ensures Follows(Step(s, events[|events| - 1]), initial, events)
  {
    hide OnScreen;
  }

  lemma {:induction false} RunTold(initial: Option<Scale>, states: seq<State>, events: seq<Event>, i: nat)
    requires IsRun(initial, states, events) && i <= |events|
    ensures Told(states[i]) && Follows(states[i], initial, events[..i])
    ensures Dispose in states[i].sent ==> exists k :: 0 <= k < i && events[k].Disposed?
  {
    hide Told, Follows, Step;
    if i == 0 {
      assert Told(Initial(initial)) && Follows(Initial(initial), initial, events[..0]) by {
        StartsTold(initial, events);
      }
    } else {
      RunTold(initial, states, events, i - 1);
      StepTold(states[i - 1], events[i - 1]);
      OnlyDisposes(states[i - 1], events[i - 1]);
      assert events[..i][..i - 1] == events[..i - 1];
      StepFollows(states[i - 1], initial, events[..i]);
    }
  }

  lemma OnlyDisposes(s: State, e: Event)
    requires Enabled(s, e)
    ensures Dispose in Step(s, e).sent <==> Dispose in s.sent || (e.Disposed? && s.created)
    ensures s.created ==> Step(s, e).created
    ensures Step(s, e).created ==> s.created || e.Replied?
  {
  }

  lemma StartsTold(initial: Option<Scale>, events: seq<Event>)
    ensures Told(Initial(initial)) && Follows(Initial(initial), initial, events[..0])
  {
  }

  /** The create goes out just when the view was asked for and the scale on screen is known, and was not sent yet: once,
      with the size asked for at the latest scale. */
  lemma CreateWaits(initial: Option<Scale>, states: seq<State>, events: seq<Event>, i: nat)
    requires IsRun(initial, states, events) && i <= |events|
    ensures Enabled(states[i], Measured) <==>
              Asked(events[..i]).Some? && ScaleKnown(initial, events[..i]) && states[i].sent == []
    ensures i < |events| && events[i].Measured? ==>
              && Asked(events[..i]).Some? && Asked(events[..i]).value.AskCreate?
              && |states[i + 1].sent| == 1 && states[i + 1].sent[0].Create?
              && Scaled(states[i + 1].sent[0].size, Asked(events[..i]).value.at, LatestScale(initial, events[..i]))
  {
    RunTold(initial, states, events, i);
    hide Asked, LatestScale, Layout, InOrder, Lived, ScaleKnown;
    if i < |events| && events[i].Measured? { CreateSent(states[i]); }
  }

  lemma CreateSent(s: State)
    requires Enabled(s, Measured)
    ensures var sent := Step(s, Measured).sent;
            |sent| == |s.sent| + 1 && sent[|s.sent|].Create? && Scaled(sent[|s.sent|].size, s.creation.laidOut, s.scale)
  {
  }

  /** A create that failed leaves the controller at that: no reply is waited for, and nothing more is sent. */
  lemma {:induction false} FailedStays(initial: Option<Scale>, states: seq<State>, events: seq<Event>, i: nat, j: nat)
    requires IsRun(initial, states, events) && i < j <= |events| && events[i].CreateFailed?
    ensures states[j].creation == Failed && !states[j].created && states[j].sent == states[i].sent
    ensures !Enabled(states[j], Measured) && !Enabled(states[j], Replied)
  {
    RunTold(initial, states, events, j - 1);
    hide OnScreen, InOrder, Lived;
    if i + 1 < j { FailedStays(initial, states, events, i, j - 1); }
  }

  /** Convergence. However layouts, scales, the measuring and the reply interleave, once the view is created and until
      it is disposed of, the size the shell was last given is the latest layout at the latest scale -- none if there was
      no layout -- and the input has that scale. */
  lemma Converges(initial: Option<Scale>, states: seq<State>, events: seq<Event>, i: nat)
    requires IsRun(initial, states, events) && i <= |events| && states[i].created && Dispose !in states[i].sent
    ensures var layout, scale, sent := Layout(events[..i]), LatestScale(initial, events[..i]), states[i].sent;
            && sent != []
            && Scaled(Given(sent[|sent| - 1]), layout, scale)
            && states[i].inputScale == Some(scale)
  {
    RunTold(initial, states, events, i);
    LastTold(states[i]);
    assert Told(states[i]);
    hide Told, Follows, InOrder, Lived;
    SizeScaled(states[i]);
  }

  lemma OnScreenScales(layout: Option<Size>, scale: Scale)
    requires layout.Some?
    ensures Scaled(Some(OnScreen(layout.value, scale)), layout, scale)
  {
  }

  lemma SizeScaled(s: State)
    requires Told(s) && s.created
    ensures Scaled(s.sentSize, s.laidOut, s.scale)
  {
    if s.laidOut.Some? { OnScreenScales(s.laidOut, s.scale); }
    hide OnScreen;
  }

  /** At every point just one create was sent before anything else, no resize before the reply, and none that gives the
      size given last; and nothing after a dispose. */
  lemma CreatedOnce(initial: Option<Scale>, states: seq<State>, events: seq<Event>, i: nat)
    requires IsRun(initial, states, events) && i <= |events|
    ensures InOrder(states[i].sent)
    ensures !states[i].created ==> |states[i].sent| <= 1
  {
    RunTold(initial, states, events, i);
  }

  /** On the wire a view created with no size has none of either side, so there is one resize that can repeat what was
      sent: to no width and no height, right after such a create. */
  function Wire(m: Message): Size { if Given(m).Some? then Given(m).value else Size(0.0, 0.0) }

  lemma RepeatsAfterCreate(initial: Option<Scale>, states: seq<State>, events: seq<Event>, i: nat, k: nat)
    requires IsRun(initial, states, events) && i <= |events| && 0 < k < |states[i].sent| && !states[i].sent[k].Dispose?
    ensures Wire(states[i].sent[k]) == Wire(states[i].sent[k - 1]) <==>
              states[i].sent[k - 1] == Create(None) && states[i].sent[k] == Resize(Size(0.0, 0.0))
  {
    RunTold(initial, states, events, i);
    var sent := states[i].sent;
    assert sent[k].Resize? && Given(sent[k]) != Given(sent[k - 1]);
  }

  /** The view is created with no size just when that is how it was first asked for. */
  ghost predicate CreatedAsAsked(s: State, events: seq<Event>) {
    s.sent != [] ==>
      && s.sent[0].Create? && Asked(events).Some? && Asked(events).value.AskCreate?
      && (s.sent[0].size.None? <==> Asked(events).value.at.None?)
  }

  lemma StepAsAsked(s: State, initial: Option<Scale>, events: seq<Event>)
    requires events != [] && Enabled(s, events[|events| - 1]) && CreatedAsAsked(s, events[..|events| - 1])
    requires Follows(s, initial, events[..|events| - 1])
    requires Told(s)
    ensures CreatedAsAsked(Step(s, events[|events| - 1]), events)
  {
    hide OnScreen, Layout, LatestScale;
  }

  lemma {:induction false} RunAsAsked(initial: Option<Scale>, states: seq<State>, events: seq<Event>, i: nat)
    requires IsRun(initial, states, events) && i <= |events|
    ensures CreatedAsAsked(states[i], events[..i])
  {
    hide Step, CreatedAsAsked, Follows, Asked;
    if i == 0 {
      assert CreatedAsAsked(Initial(initial), events[..0]) by { NothingSent(initial, events[..0]); }
    } else {
      RunAsAsked(initial, states, events, i - 1);
      RunTold(initial, states, events, i - 1);
      assert events[..i][..i - 1] == events[..i - 1];
      StepAsAsked(states[i - 1], initial, events[..i]);
    }
  }

  lemma NothingSent(initial: Option<Scale>, events: seq<Event>)
    ensures CreatedAsAsked(Initial(initial), events)
  {
  }

  /** The latest layout, at the latest scale, has no width and no height. */
  predicate Nothing(initial: Option<Scale>, events: seq<Event>) {
    Layout(events).Some? && OnScreen(Layout(events).value, LatestScale(initial, events)) == Size(0.0, 0.0)
  }

  /** A resize repeats what was sent exactly when it is the first, the create was asked for with no size, and the view
      has no size on screen as the resize goes out. */
  lemma RepeatedOnlyWhen(initial: Option<Scale>, states: seq<State>, events: seq<Event>, i: nat)
    requires IsRun(initial, states, events) && i < |events| && 0 < |states[i].sent| < |states[i + 1].sent|
    requires !events[i].Disposed?
    ensures var before, after := states[i].sent, states[i + 1].sent;
            && |after| == |before| + 1 && after[..|before|] == before && after[|before|].Resize?
            && (Wire(after[|before|]) == Wire(after[|before| - 1]) <==>
                  |before| == 1 && Asked(events[..i]) == Some(AskCreate(None)) && Nothing(initial, events[..i + 1]))
  {
    var before, after := states[i].sent, states[i + 1].sent;
    RunTold(initial, states, events, i);
    RunTold(initial, states, events, i + 1);
    RunAsAsked(initial, states, events, i);
    RepeatsAfterCreate(initial, states, events, i + 1, |before|);
    OneSent(states[i], events[i]);
    hide Layout, LatestScale, OnScreen, Asked;
  }

  /** A step that sends something after the create sends one resize, to the size on screen. */
  lemma OneSent(s: State, e: Event)
    requires Enabled(s, e) && Told(s) && s.sent != [] && |Step(s, e).sent| > |s.sent| && !e.Disposed?
    ensures var s' := Step(s, e);
            && s'.created && s'.laidOut.Some?
            && s'.sent == s.sent + [Resize(OnScreen(s'.laidOut.value, s'.scale))]
  {
    hide OnScreen;
  }

  /** Such a run: created before it was laid out, and laid out with no size while the create was under way. */
  lemma RepeatedSize() returns (states: seq<State>, events: seq<Event>)
    ensures IsRun(Some(UNSCALED), states, events) && |events| == 4
    ensures states[4].sent == [Create(None), Resize(Size(0.0, 0.0))]
    ensures Wire(states[4].sent[1]) == Wire(states[4].sent[0])
  {
    events := [AskCreate(None), Measured, LaidOut(Size(0.0, 0.0)), Replied];
    var s0 := Initial(Some(UNSCALED));
    var s1 := Step(s0, events[0]);
    var s2 := Step(s1, events[1]);
    var s3 := Step(s2, events[2]);
    states := [s0, s1, s2, s3, Step(s3, events[3])];
  }

  // ----- disposing -----

  ghost predicate DisposedBy(events: seq<Event>, i: nat)
    requires i <= |events|
  {
    exists k :: 0 <= k < i && events[k].Disposed?
  }

  /** The create is replied to after the controller was disposed of. */
  ghost predicate RepliedAfter(events: seq<Event>, i: nat)
    requires i <= |events|
  {
    exists l :: 0 <= l < i && events[l].Replied? && DisposedBy(events, l)
  }

  /** A view outlives its controller, created with no dispose sent for it, exactly when the reply to its create comes
      after the controller was disposed of. */
  lemma {:induction false} OutlivesIff(initial: Option<Scale>, states: seq<State>, events: seq<Event>, i: nat)
    requires IsRun(initial, states, events) && i <= |events|
    ensures DisposedBy(events, i) && states[i].created && Dispose !in states[i].sent <==> RepliedAfter(events, i)
  {
    if i > 0 {
      var s, e := states[i - 1], events[i - 1];
      OutlivesIff(initial, states, events, i - 1);
      RunTold(initial, states, events, i - 1);
      OnlyDisposes(s, e);
      hide Told, Follows, Step;
      OneMore(events, i);
      hide DisposedBy, RepliedAfter;
    }
  }

  lemma OneMore(events: seq<Event>, i: nat)
    requires 0 < i <= |events|
    ensures DisposedBy(events, i) <==> DisposedBy(events, i - 1) || events[i - 1].Disposed?
    ensures RepliedAfter(events, i) <==>
              RepliedAfter(events, i - 1) || (events[i - 1].Replied? && DisposedBy(events, i - 1))
  {
    hide DisposedBy;
    DisposedMore(events, i);
  }

  lemma DisposedMore(events: seq<Event>, i: nat)
    requires 0 < i <= |events|
    ensures DisposedBy(events, i) <==> DisposedBy(events, i - 1) || events[i - 1].Disposed?
  {
  }

  /** Such a run: disposed of while the create is under way. */
  lemma OutlivesItsController() returns (states: seq<State>, events: seq<Event>)
    ensures IsRun(Some(UNSCALED), states, events) && events == [AskCreate(None), Measured, Disposed, Replied]
    ensures states[4].created && states[4].sent == [Create(None)]
  {
    events := [AskCreate(None), Measured, Disposed, Replied];
    var s0 := Initial(Some(UNSCALED));
    var s1 := Step(s0, events[0]);
    var s2 := Step(s1, events[1]);
    states := [s0, s1, s2, s2, Step(s2, events[3])];
  }
}

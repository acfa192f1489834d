/** What each event does to the tables beside binding: what toplevels and views are known to be, the tokens, the hints,
    and the counts of frames and buffers. */
module BindingEvents {
  import opened Basics
  import opened Binding
  import opened BindingProofs

  /** What a toplevel's client and its token say of it. */
  datatype Saying = Saying(dialog: bool, claimed: string, context: Option<Context>, token: Option<Token>)

  function SayingOf(t: Toplevel): Saying { Saying(t.dialog, t.claimed, t.context, t.token) }

  ghost function Says(s: Tables): map<ToplevelId, Saying> { map t | t in s.toplevels :: SayingOf(s.toplevels[t]) }

  ghost function Asks(s: Tables): map<ViewId, Params> { map v | v in s.views :: s.views[v].params }

  function AppliedBy(e: Event): seq<Update> {
    match e
    case CreateView(_, _, applied) => applied
    case DisposeView(_, applied) => applied
    case DestroyToplevel(_, applied) => applied
    case Activate(_, _, applied) => applied
    case _ => []
  }

  /** The event unbinds the view: it is replaced or disposed of, or its toplevel goes, or is activated for a view that
      names the token where this one does not. */
  ghost predicate Unbinds(s: Tables, e: Event, v: ViewId) {
    match e
    case CreateView(w, _, _) => w == v
    case DisposeView(w, _) => w == v
    case DestroyToplevel(t, _) => t in s.toplevels && s.toplevels[t].view == Some(v)
    case Activate(Some(t), token, _) =>
      && token in s.issued && t in s.toplevels && s.toplevels[t].view == Some(v)
      && !(v in s.views && s.views[v].params.token == Some(token))
      && exists u :: u in s.views && s.views[u].params.token == Some(token)
    case _ => false
  }

  /** The view shows something, with a frame queued. */
  predicate Showing(s: Tables, v: ViewId) { v in s.views && s.views[v].toplevel.Some? && s.views[v].frames > 0 }

  /** Nothing said changes, and of the hints just those for the view go, if any. */
  ghost predicate SaidSame(s: Tables, s': Tables, unhinted: Option<ViewId>) {
    && Says(s') == Says(s) && Asks(s') == Asks(s) && s'.issued == s.issued && s'.nextId == s.nextId
    && (forall x :: x in s'.hinted <==> x in s.hinted && Some(s.hinted[x]) != unhinted)
    && (forall x :: x in s'.hinted ==> s'.hinted[x] == s.hinted[x])
  }

  lemma BindsSame(s: Tables, s': Tables)
    requires OnlyBinds(s, s') || AppliedOnly(s, s')
    ensures SaidSame(s, s', None)
  {
    forall t | t in s.toplevels ensures SayingOf(s'.toplevels[t]) == SayingOf(s.toplevels[t]) {
      if AppliedOnly(s, s') { assert SameToplevel(s.toplevels[t], s'.toplevels[t]); }
    }
    hide OnlyBinds, AppliedOnly, SayingOf;
    SameDomains(s, s');
    SameMaps(s, s');
  }

  lemma SameMaps(s: Tables, s': Tables)
    requires s'.views.Keys == s.views.Keys && s'.toplevels.Keys == s.toplevels.Keys
    requires forall v :: v in s.views ==> s'.views[v].params == s.views[v].params
    requires forall t :: t in s.toplevels ==> SayingOf(s'.toplevels[t]) == SayingOf(s.toplevels[t])
    ensures Asks(s') == Asks(s) && Says(s') == Says(s)
  {
    hide SayingOf;
    forall v | v in s.views ensures v in s'.views && Asks(s')[v] == Asks(s)[v] {}
    assert Asks(s') == Asks(s);
    assert Says(s') == Says(s);
  }

  lemma SameDomains(s: Tables, s': Tables)
    requires OnlyBinds(s, s') || AppliedOnly(s, s')
    ensures s'.views.Keys == s.views.Keys && s'.toplevels.Keys == s.toplevels.Keys
    ensures s'.nextId == s.nextId && s'.hinted == s.hinted && s'.issued == s.issued
    ensures forall v :: v in s.views ==> s'.views[v].params == s.views[v].params
  {
  }

  lemma UnbindSays(s: Tables, v: ViewId, applied: seq<Update>)
    requires Kept(s)
    ensures SaidSame(s, Unbind(s, v, applied), Some(v))
  {
    hide Kept, ApplyEach, Broken, Dropped, AppliedOnly, SaidSame;
    var s1, s2 := Dropped(s, v), WhileBound(s, v, applied);
    DroppedKeeps(s, v);
    DroppedSays(s, v);
    ApplyEachKeeps(s1, applied);
    BindsSame(s1, ApplyEach(s1, applied));
    if DropTells(s, v) { SaidOn(s, s1, s2, Some(v)); }
    BrokenSays(s2, v);
    SaidOn(s, s2, Broken(s2, v), Some(v));
  }

  lemma DroppedSays(s: Tables, v: ViewId)
    ensures SaidSame(s, Dropped(s, v), Some(v))
  {
    SameMaps(s, Dropped(s, v));
    hide Says, Asks;
  }

  lemma SaidOn(a: Tables, b: Tables, c: Tables, v: Option<ViewId>)
    requires SaidSame(a, b, v) && SaidSame(b, c, None)
    ensures SaidSame(a, c, v)
  {
    hide Says, Asks;
  }

  lemma BrokenSays(s: Tables, v: ViewId)
    ensures SaidSame(s, Broken(s, v), None)
  {
    SameMaps(s, Broken(s, v));
    hide Says, Asks;
  }

  // ----- every step -----

  /** What each event changes of what is known of the toplevels and of the views, and of the tokens: who is there, what
      it said itself and the one token it used. */
  ghost predicate StepSaid(s: Tables, e: Event, s': Tables) {
    && Asks(s') == (match e
                    case CreateView(v, params, _) => Asks(s)[v := params]
                    case DisposeView(v, _) => Asks(s) - {v}
                    case _ => Asks(s))
    && Says(s') == (match e
                    case OpenToplevel(context) => Says(s)[s.nextId + 1 := Saying(false, "", context, None)]
                    case DestroyToplevel(t, _) => Says(s) - {t}
                    case SetParent(t, dialog) =>
                      if t in s.toplevels then Says(s)[t := Says(s)[t].(dialog := dialog)] else Says(s)
                    case SetAppId(t, claimed) =>
                      if t in s.toplevels then Says(s)[t := Says(s)[t].(claimed := claimed)] else Says(s)
                    case Activate(Some(t), token, _) =>
                      if token in s.issued && t in s.toplevels then Says(s)[t := Says(s)[t].(token := Some(token))]
                      else Says(s)
                    case _ => Says(s))
    && s'.nextId == (if e.OpenToplevel? then s.nextId + 1 else s.nextId)
    && forall token :: token in s'.issued <==>
         e == IssueToken(token) || (token in s.issued && !(e.Activate? && e.activated.Some? && e.token == token))
  }

  /** A hint stands until the view it came for is unbound, or another view's comes for the same surface. */
  ghost predicate StepHints(s: Tables, e: Event, s': Tables) {
    forall x ::
      if e.Hint? && e.surface == x && e.view in s.views && s.views[e.view].toplevel.Some?
      then x in s'.hinted && s'.hinted[x] == e.view
      else && (x in s'.hinted <==> x in s.hinted && !Unbinds(s, e, s.hinted[x]))
           && (x in s'.hinted ==> s'.hinted[x] == s.hinted[x])
  }

  lemma CreateSays(s: Tables, e: Event)
    requires Kept(s) && e.CreateView?
    ensures StepSaid(s, e, Step(s, e)) && StepHints(s, e, Step(s, e))
  {
    hide Unbind, Kept, TryBind, SayingOf;
    var v := e.view;
    var s1 := if v in s.views then Unbind(s, v, e.applied) else s;
    if v in s.views {
      UnbindSays(s, v, e.applied);
      UnbindKeeps(s, v, e.applied);
    } else {
      NeverThere(s, v);
      NoHintsSame(s, v);
    }
    FreshKeeps(s1, v, e.params);
    FreshSays(s1, v, e.params);
  }

  lemma NoHintsSame(s: Tables, v: ViewId)
    requires NoHintsFor(s, v)
    ensures SaidSame(s, s, Some(v))
  {
  }

  lemma FreshSays(s: Tables, v: ViewId, params: Params)
    requires Kept(s.(views := s.views[v := View(params, None, 0, 0)]))
    ensures var s' := TryBind(s.(views := s.views[v := View(params, None, 0, 0)]), v);
            && Asks(s') == Asks(s)[v := params] && Says(s') == Says(s)
            && s'.issued == s.issued && s'.nextId == s.nextId && s'.hinted == s.hinted
  {
    hide Kept, TryBind, OnlyBinds, SayingOf;
    var s1 := s.(views := s.views[v := View(params, None, 0, 0)]);
    TryBindOnly(s1, v);
    BindsSame(s1, TryBind(s1, v));
    SameDomains(s1, TryBind(s1, v));
    assert Asks(s1) == Asks(s)[v := params];
    assert Says(s1) == Says(s);
  }

  lemma DisposeSays(s: Tables, e: Event)
    requires Kept(s) && e.DisposeView?
    ensures StepSaid(s, e, Step(s, e)) && StepHints(s, e, Step(s, e))
  {
    UnbindSays(s, e.view, e.applied);
    hide Unbind, Kept, SayingOf;
    assert Asks(Step(s, e)) == Asks(Unbind(s, e.view, e.applied)) - {e.view};
  }

  lemma DestroySays(s: Tables, e: Event)
    requires Kept(s) && e.DestroyToplevel?
    ensures StepSaid(s, e, Step(s, e)) && StepHints(s, e, Step(s, e))
  {
    var t := e.toplevel;
    var s1 := UnbindToplevel(s, t, e.applied);
    if t in s.toplevels && s.toplevels[t].view.Some? { UnbindSays(s, s.toplevels[t].view.value, e.applied); }
    hide Unbind, UnbindToplevel, Kept, SayingOf, Asks, Says;
    OneGone(s1, t);
  }

  lemma OneGone(s: Tables, t: ToplevelId)
    ensures var s' := s.(toplevels := s.toplevels - {t}); Says(s') == Says(s) - {t} && Asks(s') == Asks(s)
  {
    hide SayingOf;
  }

  lemma ServedSays(s: Tables)
    requires Kept(s)
    ensures SaidSame(s, BindWaiting(s), None)
  {
    WaitingServed(s);
    BindsSame(s, BindWaiting(s));
  }

  lemma ActivateSays(s: Tables, e: Event)
    requires Kept(s) && e.Activate?
    ensures StepSaid(s, e, Step(s, e)) && StepHints(s, e, Step(s, e))
  {
    hide Unbind, Kept, SayingOf, BindWaiting;
    if e.activated.Some? && e.token in s.issued && e.activated.value in s.toplevels {
      var t := e.activated.value;
      var s1 := Activated(s, t, e.token);
      ActivatedKeeps(s, t, e.token);
      ActivatedSays(s, t, e.token);
      hide Activated;
      match s.toplevels[t].view
      case None => ServedSays(s1);
      case Some(v) =>
        UnbindSays(s1, v, e.applied);
        UnbindKeeps(s1, v, e.applied);
        ServedSays(Unbind(s1, v, e.applied));
        var displaced := !Names(s, v, e.token) && exists u :: Names(s, u, e.token);
        forall u ensures Unbinds(s, e, u) <==> u == v && displaced { DisplacedIff(s, e, u); }
        hide Unbinds;
        assert SaidSame(s1, Step(s, e), if displaced then Some(v) else None);
    }
  }

  lemma DisplacedIff(s: Tables, e: Event, v: ViewId)
    requires e.Activate? && e.activated.Some? && e.token in s.issued && e.activated.value in s.toplevels
    ensures Unbinds(s, e, v) <==>
              && s.toplevels[e.activated.value].view == Some(v)
              && !Names(s, v, e.token) && exists u :: Names(s, u, e.token)
  {
    forall u ensures Names(s, u, e.token) <==> u in s.views && s.views[u].params.token == Some(e.token) {}
  }

  lemma ActivatedSays(s: Tables, t: ToplevelId, token: Token)
    requires t in s.toplevels
    ensures var s' := Activated(s, t, token);
            && Says(s') == Says(s)[t := Says(s)[t].(token := Some(token))] && Asks(s') == Asks(s)
            && s'.issued == s.issued - {token} && s'.nextId == s.nextId && s'.hinted == s.hinted
  {
    OneSays(s, Activated(s, t, token), t);
  }

  lemma OneSays(s: Tables, s': Tables, t: ToplevelId)
    requires t in s'.toplevels && s'.toplevels == s.toplevels[t := s'.toplevels[t]]
    ensures Says(s') == Says(s)[t := SayingOf(s'.toplevels[t])]
  {
  }

  lemma CommitSays(s: Tables, e: Event)
    requires Kept(s) && e.Commit?
    ensures StepSaid(s, e, Step(s, e)) && StepHints(s, e, Step(s, e))
  {
    hide Kept, BindWaiting;
    var t := e.toplevel;
    if t in s.toplevels && !s.toplevels[t].mapped {
      var s1 := s.(toplevels := s.toplevels[t := s.toplevels[t].(mapped := true)]);
      MappedKeeps(s, t);
      OneSays(s, s1, t);
      assert Says(s1) == Says(s);
      ServedSays(s1);
    }
  }

  lemma OtherSays(s: Tables, e: Event)
    requires Kept(s) && Enabled(s, e)
    requires e.OpenToplevel? || e.SetParent? || e.SetAppId? || e.IssueToken? || e.Hint? || e.Submit? || e.Settle?
    ensures StepSaid(s, e, Step(s, e)) && StepHints(s, e, Step(s, e))
  {
    hide Kept, SayingOf, Says, Asks;
    var s' := Step(s, e);
    match e
    case OpenToplevel(context) => OpenSays(s, context);
    case SetParent(t, dialog) => SetSays(s, t, dialog, "", true);
    case SetAppId(t, claimed) => SetSays(s, t, false, claimed, false);
    case _ => ViewSays(s, e);
  }

  lemma ViewSays(s: Tables, e: Event)
    requires e.IssueToken? || e.Hint? || e.Submit? || e.Settle?
    ensures Says(Step(s, e)) == Says(s) && Asks(Step(s, e)) == Asks(s) && Step(s, e).nextId == s.nextId
  {
    SameMaps(s, Step(s, e));
  }

  lemma OpenSays(s: Tables, context: Option<Context>)
    ensures var s' := NewToplevel(s, context);
            Says(s') == Says(s)[s.nextId + 1 := Saying(false, "", context, None)] && Asks(s') == Asks(s)
  {
    OneSays(s, NewToplevel(s, context), s.nextId + 1);
  }

  lemma SetSays(s: Tables, t: ToplevelId, dialog: bool, claimed: string, parent: bool)
    ensures t in s.toplevels ==>
              var to := if parent then s.toplevels[t].(dialog := dialog) else s.toplevels[t].(claimed := claimed);
              var s' := s.(toplevels := s.toplevels[t := to]);
              && Says(s') == Says(s)[t := if parent then Says(s)[t].(dialog := dialog)
                                          else Says(s)[t].(claimed := claimed)]
              && Asks(s') == Asks(s)
  {
    if t in s.toplevels {
      OneSays(s, s.(toplevels := s.toplevels[t := s.toplevels[t].(dialog := dialog)]), t);
      OneSays(s, s.(toplevels := s.toplevels[t := s.toplevels[t].(claimed := claimed)]), t);
    }
  }

  /** Every event changes just this of what the tables say. */
  lemma EventSays(s: Tables, e: Event)
    requires Kept(s) && Enabled(s, e)
    ensures StepSaid(s, e, Step(s, e)) && StepHints(s, e, Step(s, e))
  {
    hide Kept, Step, StepSaid, StepHints;
    match e
    case CreateView(_, _, _) => CreateSays(s, e);
    case DisposeView(_, _) => DisposeSays(s, e);
    case DestroyToplevel(_, _) => DestroySays(s, e);
    case Activate(_, _, _) => ActivateSays(s, e);
    case Commit(_) => CommitSays(s, e);
    case _ => OtherSays(s, e);
  }

  // ----- what is mapped, and what is queued and held -----

  /** The event unbinds a view whose client is told, and with that maps the toplevel. */
  ghost predicate MapsUnbinding(s: Tables, e: Event, t: ToplevelId) {
    exists v :: Unbinds(s, e, v) && Showing(s, v) && Maps(t) in AppliedBy(e)
  }

  lemma {:induction false} UpdatesMap(s: Tables, us: seq<Update>, t: ToplevelId)
    requires Kept(s) && t in s.toplevels
    ensures var s' := ApplyEach(s, us);
            t in s'.toplevels && (s'.toplevels[t].mapped <==> s.toplevels[t].mapped || Maps(t) in us)
    decreases |us|
  {
    hide Kept, Applied;
    if us != [] {
      UpdateKeeps(s, us[0]);
      UpdateMaps(s, us[0], t);
      UpdatesMap(Applied(s, us[0]), us[1..], t);
      assert Maps(t) in us <==> us[0] == Maps(t) || Maps(t) in us[1..];
    }
  }

  lemma UpdateMaps(s: Tables, u: Update, t: ToplevelId)
    requires Kept(s) && t in s.toplevels
    ensures var s' := Applied(s, u);
            t in s'.toplevels && (s'.toplevels[t].mapped <==> s.toplevels[t].mapped || u == Maps(t))
  {
    hide Kept, BindWaiting;
    if u.Maps? && u.toplevel in s.toplevels && !s.toplevels[u.toplevel].mapped {
      var s1 := s.(toplevels := s.toplevels[u.toplevel := s.toplevels[u.toplevel].(mapped := true)]);
      MappedKeeps(s, u.toplevel);
      ServedMaps(s1, t);
    }
  }

  lemma ServedMaps(s: Tables, t: ToplevelId)
    requires Kept(s) && t in s.toplevels
    ensures var s' := BindWaiting(s); t in s'.toplevels && s'.toplevels[t].mapped == s.toplevels[t].mapped
  {
    WaitingServed(s);
    hide BindWaiting, Served;
  }

  lemma UnbindMaps(s: Tables, v: ViewId, applied: seq<Update>, t: ToplevelId)
    requires Kept(s) && t in s.toplevels
    ensures var s' := Unbind(s, v, applied);
            && t in s'.toplevels
            && (s'.toplevels[t].mapped <==> s.toplevels[t].mapped || (Showing(s, v) && Maps(t) in applied))
  {
    DroppedKeeps(s, v);
    UpdatesMap(Dropped(s, v), applied, t);
    hide Kept, ApplyEach;
  }

  /** A toplevel is mapped by its first commit, and with it may come others: those mapped by the updates a client
      applies as it is told that the frames of its view are dropped. */
  lemma EventMaps(s: Tables, e: Event, t: ToplevelId)
    requires Kept(s) && Enabled(s, e) && t in Step(s, e).toplevels
    ensures Step(s, e).toplevels[t].mapped <==>
              t in s.toplevels && (s.toplevels[t].mapped || e == Commit(t)
                                   || MapsUnbinding(s, e, t))
  {
    hide Kept, Unbind, BindWaiting, ViewCreated, ViewDisposed, ToplevelDestroyed, RequestActivation, Committed, Showing;
    StillThere(s, e, t);
    match e
    case CreateView(_, _, _) => CreateMaps(s, e, t);
    case DisposeView(_, _) => DisposeMaps(s, e, t);
    case DestroyToplevel(_, _) => DestroyMaps(s, e, t);
    case Activate(_, _, _) => ActivateMaps(s, e, t);
    case Commit(u) => UpdateMaps(s, Maps(u), t);
    case _ =>
  }

  /** Only a new toplevel was not there before, under an id of its own. */
  lemma StillThere(s: Tables, e: Event, t: ToplevelId)
    requires Kept(s) && Enabled(s, e) && t in Step(s, e).toplevels
    ensures t in s.toplevels <==> !(e.OpenToplevel? && t == s.nextId + 1)
  {
    EventSays(s, e);
    assert t in Says(Step(s, e));
    assert t in s.toplevels ==> t <= s.nextId;
    hide Kept, Step, SayingOf;
  }

  lemma CreateMaps(s: Tables, e: Event, t: ToplevelId)
    requires Kept(s) && e.CreateView? && t in s.toplevels && t in Step(s, e).toplevels
    ensures Step(s, e).toplevels[t].mapped <==> s.toplevels[t].mapped || MapsUnbinding(s, e, t)
  {
    hide Kept, Unbind, TryBind;
    var v := e.view;
    var s1 := if v in s.views then Unbind(s, v, e.applied) else s;
    if v in s.views {
      UnbindMaps(s, v, e.applied, t);
      UnbindKeeps(s, v, e.applied);
    } else {
      NeverThere(s, v);
    }
    FreshKeeps(s1, v, e.params);
    TryBindOnly(s1.(views := s1.views[v := View(e.params, None, 0, 0)]), v);
    assert Unbinds(s, e, v);
  }

  lemma DisposeMaps(s: Tables, e: Event, t: ToplevelId)
    requires Kept(s) && e.DisposeView? && t in s.toplevels && t in Step(s, e).toplevels
    ensures Step(s, e).toplevels[t].mapped <==> s.toplevels[t].mapped || MapsUnbinding(s, e, t)
  {
    hide Kept, Unbind;
    UnbindMaps(s, e.view, e.applied, t);
    assert Unbinds(s, e, e.view);
  }

  lemma DestroyMaps(s: Tables, e: Event, t: ToplevelId)
    requires Kept(s) && e.DestroyToplevel? && t in s.toplevels && t in Step(s, e).toplevels
    ensures Step(s, e).toplevels[t].mapped <==> s.toplevels[t].mapped || MapsUnbinding(s, e, t)
  {
    hide Kept, Unbind;
    var u := e.toplevel;
    if u in s.toplevels && s.toplevels[u].view.Some? {
      UnbindMaps(s, s.toplevels[u].view.value, e.applied, t);
      assert Unbinds(s, e, s.toplevels[u].view.value);
    }
  }

  lemma ActivateMaps(s: Tables, e: Event, t: ToplevelId)
    requires Kept(s) && e.Activate? && t in s.toplevels && t in Step(s, e).toplevels
    ensures Step(s, e).toplevels[t].mapped <==> s.toplevels[t].mapped || MapsUnbinding(s, e, t)
  {
    hide Kept, Unbind, BindWaiting;
    if e.activated.Some? && e.token in s.issued && e.activated.value in s.toplevels {
      var u := e.activated.value;
      var s1 := Activated(s, u, e.token);
      ActivatedKeeps(s, u, e.token);
      forall v { DisplacedIff(s, e, v); }
      match s.toplevels[u].view
      case None => ServedMaps(s1, t);
      case Some(v) =>
        UnbindMaps(s1, v, e.applied, t);
        UnbindKeeps(s1, v, e.applied);
        ServedMaps(Unbind(s1, v, e.applied), t);
        assert Showing(s1, v) == Showing(s, v);
        hide Unbinds, Showing;
    }
  }

  /** As long as no view is unbound, a view has a frame more with each submission while it shows something, with the
      buffers of its layers held, and as many of both as a report leaves, if it had more. */
  lemma EventCounts(s: Tables, e: Event, v: ViewId)
    requires Kept(s) && Enabled(s, e) && v in s.views
    requires !e.CreateView? && !e.DisposeView? && !e.DestroyToplevel? && !e.Activate?
    ensures var was, s' := s.views[v], Step(s, e);
            v in s'.views && match e
              case Submit(w, layers) =>
                var more := w == v && was.toplevel.Some?;
                && s'.views[v].frames == (if more then was.frames + 1 else was.frames)
                && s'.views[v].held == (if more then was.held + layers else was.held)
              case Settle(w, frames, held) =>
                && s'.views[v].frames == (if w == v && frames < was.frames then frames else was.frames)
                && s'.views[v].held == (if w == v && held < was.held then held else was.held)
              case _ => s'.views[v].frames == was.frames && s'.views[v].held == was.held
  {
    hide Kept, BindWaiting;
    if e.Commit? && e.toplevel in s.toplevels {
      MappedKeeps(s, e.toplevel);
      ServedCounts(s.(toplevels := s.toplevels[e.toplevel := s.toplevels[e.toplevel].(mapped := true)]), v);
    }
  }

  lemma ServedCounts(s: Tables, v: ViewId)
    requires Kept(s) && v in s.views
    ensures var s' := BindWaiting(s);
            v in s'.views && s'.views[v].frames == s.views[v].frames && s'.views[v].held == s.views[v].held
  {
    WaitingServed(s);
    hide BindWaiting, Served;
  }
}

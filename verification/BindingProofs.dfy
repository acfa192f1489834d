/** The binding of views to toplevels over whole runs: the two tables stay each other's inverse, waiting views are
    served in order, and a sandbox is never crossed. */
module BindingProofs {
  import opened Basics
  import opened Binding

  datatype Event =
    | CreateView(view: ViewId, params: Params, applied: seq<Update>)
    | DisposeView(view: ViewId, applied: seq<Update>)
    | OpenToplevel(context: Option<Context>)
    | Commit(toplevel: ToplevelId)
    | DestroyToplevel(toplevel: ToplevelId, applied: seq<Update>)
    | SetParent(toplevel: ToplevelId, dialog: bool)
    | SetAppId(toplevel: ToplevelId, claimed: string)
    | IssueToken(token: Token)
    | Activate(activated: Option<ToplevelId>, token: Token, applied: seq<Update>)
    | Hint(view: ViewId, surface: Surface)
    | Submit(view: ViewId, layers: nat)
    | Settle(view: ViewId, frames: nat, held: nat)

  /** Tokens are never issued twice. */
  ghost predicate Enabled(s: Tables, e: Event) {
    e.IssueToken? ==> e.token !in s.issued && forall t :: t in s.toplevels ==> s.toplevels[t].token != Some(e.token)
  }

  ghost function Step(s: Tables, e: Event): Tables {
    match e
    case CreateView(v, params, applied) => ViewCreated(s, v, params, applied)
    case DisposeView(v, applied) => ViewDisposed(s, v, applied)
    case OpenToplevel(context) => NewToplevel(s, context)
    case Commit(t) => Committed(s, t)
    case DestroyToplevel(t, applied) => ToplevelDestroyed(s, t, applied)
    case SetParent(t, dialog) =>
      if t in s.toplevels then s.(toplevels := s.toplevels[t := s.toplevels[t].(dialog := dialog)]) else s
    case SetAppId(t, claimed) =>
      if t in s.toplevels then s.(toplevels := s.toplevels[t := s.toplevels[t].(claimed := claimed)]) else s
    case IssueToken(token) => s.(issued := s.issued + {token})
    case Activate(t, token, applied) => RequestActivation(s, t, token, applied)
    case Hint(v, x) => Hinted(s, v, x)
    case Submit(v, layers) => Submitted(s, v, layers)
    case Settle(v, frames, held) => Settled(s, v, frames, held)
  }

  // ----- what every state keeps -----

  /** A view shows a toplevel just when the toplevel records that view. */
  ghost predicate Paired(s: Tables) {
    && (forall v :: v in s.views && s.views[v].toplevel.Some? ==>
         s.views[v].toplevel.value in s.toplevels && s.toplevels[s.views[v].toplevel.value].view == Some(v))
    && (forall t :: t in s.toplevels && s.toplevels[t].view.Some? ==>
         s.toplevels[t].view.value in s.views && s.views[s.toplevels[t].view.value].toplevel == Some(t))
  }

  /** A view showing nothing holds no buffers and has no hints. */
  ghost predicate Quiet(s: Tables) {
    && (forall v :: Waiting(s, v) ==> s.views[v].held == 0)
    && (forall x :: x in s.hinted ==> s.hinted[x] in s.views && s.views[s.hinted[x]].toplevel.Some?)
  }

  /** A view naming a sandbox shows only what comes from that sandbox. */
  ghost predicate Contained(s: Tables) {
    forall v :: v in s.views && s.views[v].toplevel.Some? && s.views[v].toplevel.value in s.toplevels ==>
      var p, t := s.views[v].params, s.toplevels[s.views[v].toplevel.value];
      p.sandbox.Some? ==> t.context.Some? && t.context.value.appId == p.sandbox
  }

  /** One toplevel per token, and one used is not issued any more. */
  ghost predicate TokensOnce(s: Tables) {
    && (forall t, u :: t in s.toplevels && u in s.toplevels && t != u && s.toplevels[t].token.Some? ==>
         s.toplevels[t].token != s.toplevels[u].token)
    && (forall t :: t in s.toplevels && s.toplevels[t].token.Some? ==> s.toplevels[t].token.value !in s.issued)
  }

  /** What is shown is mapped, and ids are handed out in order. */
  ghost predicate Listed(s: Tables) {
    forall t :: t in s.toplevels ==> t <= s.nextId && (s.toplevels[t].view.Some? ==> s.toplevels[t].mapped)
  }

  ghost predicate Kept(s: Tables) {
    Paired(s) && Quiet(s) && Contained(s) && TokensOnce(s) && Listed(s)
  }

  lemma BoundKeeps(s: Tables, v: ViewId, t: ToplevelId)
    requires Kept(s) && Waiting(s, v) && Eligible(s, v, t)
    ensures Kept(Bound(s, v, t))
  {
  }

  lemma TryBindKeeps(s: Tables, v: ViewId)
    requires Kept(s)
    ensures Kept(TryBind(s, v))
  {
    hide Kept, Bound, Eligible;
    if Waiting(s, v) && Oldest(s, v, 0).Some? { BoundKeeps(s, v, Oldest(s, v, 0).value); }
  }

  lemma {:induction false} BindEachKeeps(s: Tables, ids: seq<ViewId>)
    requires Kept(s)
    ensures Kept(BindEach(s, ids))
    decreases |ids|
  {
    hide Kept, TryBind;
    if ids != [] {
      TryBindKeeps(s, ids[0]);
      BindEachKeeps(TryBind(s, ids[0]), ids[1..]);
    }
  }

  ghost predicate NoHintsFor(s: Tables, v: ViewId) {
    forall x :: x in s.hinted ==> s.hinted[x] != v
  }

  ghost predicate NotShown(s: Tables, v: ViewId) {
    forall t :: t in s.toplevels ==> s.toplevels[t].view != Some(v)
  }

  lemma DroppedKeeps(s: Tables, v: ViewId)
    requires Kept(s)
    ensures Kept(Dropped(s, v)) && NoHintsFor(Dropped(s, v), v)
  {
  }

  lemma {:induction false} ApplyEachKeeps(s: Tables, us: seq<Update>)
    requires Kept(s)
    ensures Kept(ApplyEach(s, us)) && AppliedOnly(s, ApplyEach(s, us))
    decreases |us|
  {
    hide Kept, Applied, AppliedOnly;
    if us == [] {
      AppliedNothing(s);
    } else {
      UpdateKeeps(s, us[0]);
      ApplyEachKeeps(Applied(s, us[0]), us[1..]);
      AppliedMore(s, Applied(s, us[0]), ApplyEach(s, us));
    }
  }

  lemma BrokenKeeps(s: Tables, v: ViewId)
    requires Kept(s) && NoHintsFor(s, v)
    ensures Kept(Broken(s, v)) && NoHintsFor(Broken(s, v), v) && NotShown(Broken(s, v), v)
    ensures Broken(s, v).views.Keys == s.views.Keys && (v in s.views ==> Waiting(Broken(s, v), v))
  {
    hide Paired, Quiet, Contained, TokensOnce, Listed;
    BrokenPaired(s, v);
    BrokenRest(s, v);
  }

  lemma BrokenPaired(s: Tables, v: ViewId)
    requires Paired(s)
    ensures Paired(Broken(s, v)) && NotShown(Broken(s, v), v)
  {
  }

  lemma BrokenRest(s: Tables, v: ViewId)
    requires Paired(s) && Quiet(s) && Contained(s) && TokensOnce(s) && Listed(s) && NoHintsFor(s, v)
    ensures var s' := Broken(s, v); Quiet(s') && Contained(s') && TokensOnce(s') && Listed(s')
  {
    hide Paired;
  }

  lemma UnbindKeeps(s: Tables, v: ViewId, applied: seq<Update>)
    requires Kept(s)
    ensures var s' := Unbind(s, v, applied);
            && Kept(s') && NoHintsFor(s', v) && NotShown(s', v)
            && s'.views.Keys == s.views.Keys && (v in s.views ==> Waiting(s', v))
  {
    hide Kept, Broken, ApplyEach;
    DroppedKeeps(s, v);
    ApplyEachKeeps(Dropped(s, v), applied);
    BrokenKeeps(WhileBound(s, v, applied), v);
  }

  /** A view showing nothing may be replaced by any other, or removed. */
  lemma FreshKeeps(s: Tables, v: ViewId, params: Params)
    requires Kept(s) && NoHintsFor(s, v) && NotShown(s, v)
    ensures Kept(s.(views := s.views[v := View(params, None, 0, 0)]))
    ensures Kept(s.(views := s.views - {v}))
  {
    hide Kept;
    ReplacedKeeps(s, v, params);
    RemovedKeeps(s, v);
  }

  lemma ReplacedKeeps(s: Tables, v: ViewId, params: Params)
    requires Kept(s) && NoHintsFor(s, v) && NotShown(s, v)
    ensures Kept(s.(views := s.views[v := View(params, None, 0, 0)]))
  {
  }

  lemma RemovedKeeps(s: Tables, v: ViewId)
    requires Kept(s) && NoHintsFor(s, v) && NotShown(s, v)
    ensures Kept(s.(views := s.views - {v}))
  {
  }

  lemma CreateKeeps(s: Tables, v: ViewId, params: Params, applied: seq<Update>)
    requires Kept(s)
    ensures Kept(ViewCreated(s, v, params, applied))
  {
    hide Unbind, TryBind, Kept;
    var s1 := if v in s.views then Unbind(s, v, applied) else s;
    if v in s.views { UnbindKeeps(s, v, applied); } else { NeverThere(s, v); }
    FreshKeeps(s1, v, params);
    TryBindKeeps(s1.(views := s1.views[v := View(params, None, 0, 0)]), v);
  }

  lemma NeverThere(s: Tables, v: ViewId)
    requires Kept(s) && v !in s.views
    ensures NoHintsFor(s, v) && NotShown(s, v)
  {
  }

  lemma DisposeKeeps(s: Tables, v: ViewId, applied: seq<Update>)
    requires Kept(s)
    ensures Kept(ViewDisposed(s, v, applied))
  {
    hide Unbind, Kept;
    UnbindKeeps(s, v, applied);
    FreshKeeps(Unbind(s, v, applied), v, Params(None, None, None));
  }

  lemma UnshownGone(s: Tables, t: ToplevelId)
    requires Kept(s) && (t in s.toplevels ==> s.toplevels[t].view.None?)
    ensures Kept(s.(toplevels := s.toplevels - {t}))
  {
  }

  lemma DestroyKeeps(s: Tables, t: ToplevelId, applied: seq<Update>)
    requires Kept(s)
    ensures Kept(ToplevelDestroyed(s, t, applied))
  {
    hide Unbind, Kept;
    var s1 := UnbindToplevel(s, t, applied);
    if t in s.toplevels && s.toplevels[t].view.Some? {
      UnbindKeeps(s, s.toplevels[t].view.value, applied);
      Freed(s, t, applied);
    }
    UnshownGone(s1, t);
  }

  /** The toplevel of a view that is unbound is shown by none, and otherwise as it was. */
  lemma Freed(s: Tables, t: ToplevelId, applied: seq<Update>)
    requires Kept(s) && t in s.toplevels && s.toplevels[t].view.Some?
    ensures var s' := Unbind(s, s.toplevels[t].view.value, applied);
            t in s'.toplevels && s'.toplevels[t] == s.toplevels[t].(view := None)
  {
    var v := s.toplevels[t].view.value;
    DroppedKeeps(s, v);
    var s1 := Dropped(s, v);
    ApplyEachKeeps(s1, applied);
    assert t in s1.toplevels && s1.views[v].toplevel == Some(t);
    hide Kept, ApplyEach;
  }

  lemma ActivatedKeeps(s: Tables, t: ToplevelId, token: Token)
    requires Kept(s) && t in s.toplevels && token in s.issued
    ensures Kept(Activated(s, t, token))
  {
  }

  lemma ActivateKeeps(s: Tables, t: Option<ToplevelId>, token: Token, applied: seq<Update>)
    requires Kept(s)
    ensures Kept(RequestActivation(s, t, token, applied))
  {
    hide BindEach, Unbind, Kept, Activated;
    if token in s.issued {
      if t.Some? && t.value in s.toplevels {
        var s1 := Activated(s, t.value, token);
        ActivatedKeeps(s, t.value, token);
        BindEachKeeps(s1, Ordered(WaitingViews(s1)));
        if s.toplevels[t.value].view.Some? {
          var s2 := Unbind(s1, s.toplevels[t.value].view.value, applied);
          UnbindKeeps(s1, s.toplevels[t.value].view.value, applied);
          BindEachKeeps(s2, Ordered(WaitingViews(s2)));
        }
      } else {
        TokenUsed(s, token);
      }
    }
  }

  lemma TokenUsed(s: Tables, token: Token)
    requires Kept(s)
    ensures Kept(s.(issued := s.issued - {token}))
  {
  }

  lemma MappedKeeps(s: Tables, t: ToplevelId)
    requires Kept(s) && t in s.toplevels
    ensures Kept(s.(toplevels := s.toplevels[t := s.toplevels[t].(mapped := true)]))
  {
  }

  lemma CommitKeeps(s: Tables, t: ToplevelId)
    requires Kept(s)
    ensures Kept(Committed(s, t))
  {
    hide BindEach, Kept;
    if t in s.toplevels && !s.toplevels[t].mapped {
      var s1 := s.(toplevels := s.toplevels[t := s.toplevels[t].(mapped := true)]);
      MappedKeeps(s, t);
      BindEachKeeps(s1, Ordered(WaitingViews(s1)));
    }
  }

  lemma StepKeeps(s: Tables, e: Event)
    requires Kept(s) && Enabled(s, e)
    ensures Kept(Step(s, e))
  {
    hide ViewCreated, ViewDisposed, Committed, ToplevelDestroyed, RequestActivation, Kept;
    match e
    case CreateView(v, params, applied) => CreateKeeps(s, v, params, applied);
    case DisposeView(v, applied) => DisposeKeeps(s, v, applied);
    case Commit(t) => CommitKeeps(s, t);
    case DestroyToplevel(t, applied) => DestroyKeeps(s, t, applied);
    case Activate(t, token, applied) => ActivateKeeps(s, t, token, applied);
    case _ => OtherKeeps(s, e);
  }

  // ----- updates applied while a view is unbound -----

  /** What applying an update leaves alone: bindings, hints, tokens, and what toplevels and views are. Waiting views may
      bind free toplevels that suit them. */
  ghost predicate AppliedOnly(s: Tables, s': Tables) {
    && s'.views.Keys == s.views.Keys && s'.toplevels.Keys == s.toplevels.Keys
    && s'.nextId == s.nextId && s'.hinted == s.hinted && s'.issued == s.issued
    && (forall v :: v in s.views ==> s'.views[v].params == s.views[v].params)
    && (forall v :: v in s.views && s.views[v].toplevel.Some? ==> s'.views[v].toplevel == s.views[v].toplevel)
    && (forall t :: t in s.toplevels ==> SameToplevel(s.toplevels[t], s'.toplevels[t]))
    && (forall v :: Waiting(s, v) && s'.views[v].toplevel.Some? ==> Suited(s, s', v))
  }

  ghost predicate SameToplevel(t: Toplevel, t': Toplevel) {
    && t' == t.(mapped := t'.mapped, view := t'.view) && (t.mapped ==> t'.mapped)
    && (t.view.Some? ==> t'.view == t.view)
  }

  ghost predicate Suited(s: Tables, s': Tables, v: ViewId)
    requires v in s'.views && s'.views[v].toplevel.Some?
  {
    var t := s'.views[v].toplevel.value;
    t in s.toplevels && t in s'.toplevels && s.toplevels[t].view.None? && Suits(s'.views[v].params, s'.toplevels[t])
  }

  lemma AppliedNothing(s: Tables)
    ensures AppliedOnly(s, s)
  {
  }

  lemma AppliedMore(a: Tables, b: Tables, c: Tables)
    requires AppliedOnly(a, b) && AppliedOnly(b, c)
    ensures AppliedOnly(a, c)
  {
    forall v | Waiting(a, v) && c.views[v].toplevel.Some? ensures Suited(a, c, v) {
      if b.views[v].toplevel.Some? {
        assert Suited(a, b, v);
        var t := b.views[v].toplevel.value;
        assert SameToplevel(b.toplevels[t], c.toplevels[t]);
      } else {
        assert Waiting(b, v) && Suited(b, c, v);
        var t := c.views[v].toplevel.value;
        assert SameToplevel(a.toplevels[t], b.toplevels[t]);
      }
    }
    hide Suited, Suits;
    forall t | t in a.toplevels ensures SameToplevel(a.toplevels[t], c.toplevels[t]) {
      assert SameToplevel(a.toplevels[t], b.toplevels[t]) && SameToplevel(b.toplevels[t], c.toplevels[t]);
    }
  }

  lemma UpdateKeeps(s: Tables, u: Update)
    requires Kept(s)
    ensures Kept(Applied(s, u)) && AppliedOnly(s, Applied(s, u))
  {
    hide Kept, AppliedOnly, Submitted, Committed;
    match u
    case Shows(v, layers) =>
      SubmittedOnly(s, v, layers);
      ViewOnlyKeeps(s, Submit(v, layers));
    case Maps(t) =>
      CommitKeeps(s, t);
      MapsOnly(s, t);
  }

  lemma SubmittedOnly(s: Tables, v: ViewId, layers: nat)
    ensures AppliedOnly(s, Submitted(s, v, layers))
  {
  }

  lemma MapsOnly(s: Tables, t: ToplevelId)
    requires Kept(s)
    ensures AppliedOnly(s, Committed(s, t))
  {
    hide Kept, BindWaiting;
    if t in s.toplevels && !s.toplevels[t].mapped {
      var s1 := s.(toplevels := s.toplevels[t := s.toplevels[t].(mapped := true)]);
      MappedKeeps(s, t);
      ServedOnly(s1);
      MarkedOnly(s, s1, t);
      AppliedMore(s, s1, BindWaiting(s1));
    } else {
      AppliedNothing(s);
    }
  }

  lemma MarkedOnly(s: Tables, s1: Tables, t: ToplevelId)
    requires t in s.toplevels && s1 == s.(toplevels := s.toplevels[t := s.toplevels[t].(mapped := true)])
    ensures AppliedOnly(s, s1)
  {
  }

  lemma ServedOnly(s: Tables)
    requires Kept(s)
    ensures AppliedOnly(s, BindWaiting(s))
  {
    WaitingServed(s);
    var s', ids := BindWaiting(s), Ordered(WaitingViews(s));
    hide BindWaiting, Suits;
    forall v | Waiting(s, v) && s'.views[v].toplevel.Some? ensures Suited(s, s', v) {
      assert Served(s, s', ids, v);
      var t := s'.views[v].toplevel.value;
      assert Eligible(s, v, t);
      assert s'.toplevels[t] == s.toplevels[t].(view := s'.toplevels[t].view);
      SuitsStill(s.views[v].params, s.toplevels[t], s'.toplevels[t].view);
    }
  }

  lemma SuitsStill(p: Params, t: Toplevel, view: Option<ViewId>)
    requires Suits(p, t)
    ensures Suits(p, t.(view := view))
  {
  }

  lemma OtherKeeps(s: Tables, e: Event)
    requires Kept(s) && Enabled(s, e)
    requires e.OpenToplevel? || e.SetParent? || e.SetAppId? || e.IssueToken? || e.Hint? || e.Submit? || e.Settle?
    ensures Kept(Step(s, e))
  {
    if e.Submit? || e.Settle? || e.Hint? {
      ViewOnlyKeeps(s, e);
    } else {
      ToplevelOnlyKeeps(s, e);
    }
    hide Kept, Step;
  }

  lemma ToplevelOnlyKeeps(s: Tables, e: Event)
    requires Kept(s) && Enabled(s, e) && (e.OpenToplevel? || e.SetParent? || e.SetAppId? || e.IssueToken?)
    ensures Kept(Step(s, e))
  {
    hide Kept;
    match e
    case OpenToplevel(context) => OpenKeeps(s, context);
    case SetParent(t, dialog) => if t in s.toplevels { SaidKeeps(s, t, dialog, s.toplevels[t].claimed); }
    case SetAppId(t, claimed) => if t in s.toplevels { SaidKeeps(s, t, s.toplevels[t].dialog, claimed); }
    case IssueToken(token) => IssueKeeps(s, token);
  }

  lemma OpenKeeps(s: Tables, context: Option<Context>)
    requires Kept(s)
    ensures Kept(NewToplevel(s, context))
  {
    hide Paired, Quiet, Contained, TokensOnce;
    assert s.nextId + 1 !in s.toplevels;
    OpenPaired(s, context);
    OpenRest(s, context);
  }

  lemma OpenPaired(s: Tables, context: Option<Context>)
    requires Paired(s) && s.nextId + 1 !in s.toplevels
    ensures Paired(NewToplevel(s, context))
  {
  }

  lemma OpenRest(s: Tables, context: Option<Context>)
    requires Paired(s) && Quiet(s) && Contained(s) && TokensOnce(s) && s.nextId + 1 !in s.toplevels
    ensures var s' := NewToplevel(s, context); Quiet(s') && Contained(s') && TokensOnce(s')
  {
  }

  /** What a client says of its toplevel. */
  lemma SaidKeeps(s: Tables, t: ToplevelId, dialog: bool, claimed: string)
    requires Kept(s) && t in s.toplevels
    ensures Kept(s.(toplevels := s.toplevels[t := s.toplevels[t].(dialog := dialog, claimed := claimed)]))
  {
  }

  lemma IssueKeeps(s: Tables, token: Token)
    requires Kept(s) && Enabled(s, IssueToken(token))
    ensures Kept(s.(issued := s.issued + {token}))
  {
  }

  lemma ViewOnlyKeeps(s: Tables, e: Event)
    requires Kept(s) && (e.Hint? || e.Submit? || e.Settle?)
    ensures Kept(Step(s, e))
  {
    hide Kept;
    match e
    case Hint(v, x) => HintKeeps(s, v, x);
    case Submit(v, layers) =>
      if v in s.views && s.views[v].toplevel.Some? {
        CountsKeep(s, v, s.views[v].frames + 1, s.views[v].held + layers);
      }
    case Settle(v, frames, held) =>
      if v in s.views {
        if Waiting(s, v) { NothingHeld(s, v); }
        CountsKeep(s, v, Min(frames, s.views[v].frames), Min(held, s.views[v].held));
      }
  }

  lemma NothingHeld(s: Tables, v: ViewId)
    requires Kept(s) && Waiting(s, v)
    ensures s.views[v].held == 0
  {
  }

  lemma HintKeeps(s: Tables, v: ViewId, x: Surface)
    requires Kept(s)
    ensures Kept(Hinted(s, v, x))
  {
  }

  /** How many frames and buffers a view has is its own affair, but for buffers where it shows nothing. */
  lemma CountsKeep(s: Tables, v: ViewId, frames: nat, held: nat)
    requires Kept(s) && v in s.views && (Waiting(s, v) ==> held == 0)
    ensures Kept(s.(views := s.views[v := s.views[v].(frames := frames, held := held)]))
  {
  }

  ghost predicate IsRun(states: seq<Tables>, events: seq<Event>) {
    && |states| == |events| + 1
    && states[0] == EMPTY
    && forall i :: 0 <= i < |events| ==> Enabled(states[i], events[i]) && states[i + 1] == Step(states[i], events[i])
  }

  /** In every state of every run the binding is a partial bijection, an unbound view holds no buffer and no hint, and
      no view shows a toplevel from outside the sandbox it names. */
  lemma {:induction false} BindingKept(states: seq<Tables>, events: seq<Event>, i: nat)
    requires IsRun(states, events) && i <= |events|
    ensures Paired(states[i]) && Quiet(states[i]) && Contained(states[i]) && Kept(states[i])
  {
    if i > 0 {
      BindingKept(states, events, i - 1);
      StepKeeps(states[i - 1], events[i - 1]);
    }
  }

  // ----- frames left in an unbound view -----

  /** Dropping the view's frames has an update applied that is shown in the view. */
  predicate ShownUnbinding(s: Tables, v: ViewId, applied: seq<Update>) {
    DropTells(s, v) && exists u :: u in applied && u.Shows? && u.view == v
  }

  lemma UpdateFrames(s: Tables, u: Update, v: ViewId)
    requires Kept(s) && v in s.views && s.views[v].toplevel.Some?
    ensures var s' := Applied(s, u);
            && v in s'.views && s'.views[v].toplevel.Some?
            && (s'.views[v].frames == 0 <==> s.views[v].frames == 0 && !(u.Shows? && u.view == v))
  {
    if u.Maps? && u.toplevel in s.toplevels && !s.toplevels[u.toplevel].mapped {
      var s1 := s.(toplevels := s.toplevels[u.toplevel := s.toplevels[u.toplevel].(mapped := true)]);
      MappedKeeps(s, u.toplevel);
      WaitingServed(s1);
    }
    hide BindWaiting, Kept;
  }

  lemma {:induction false} UpdatesFrames(s: Tables, us: seq<Update>, v: ViewId)
    requires Kept(s) && v in s.views && s.views[v].toplevel.Some?
    ensures var s' := ApplyEach(s, us);
            && v in s'.views && s'.views[v].toplevel.Some?
            && (s'.views[v].frames == 0 <==>
                  s.views[v].frames == 0 && forall u :: u in us ==> !(u.Shows? && u.view == v))
    decreases |us|
  {
    hide Kept, Applied;
    if us != [] {
      UpdateFrames(s, us[0], v);
      UpdateKeeps(s, us[0]);
      UpdatesFrames(Applied(s, us[0]), us[1..], v);
      assert us == [us[0]] + us[1..];
    }
  }

  /** A view is left without frames by its unbinding exactly when no update shown in it was applied as its frames were
      dropped. */
  lemma UnboundEmptyIff(s: Tables, v: ViewId, applied: seq<Update>)
    requires Kept(s) && v in s.views
    ensures var s' := Unbind(s, v, applied);
            && Waiting(s', v) && s'.views[v].held == 0
            && (s'.views[v].frames == 0 <==> !ShownUnbinding(s, v, applied))
  {
    UnbindKeeps(s, v, applied);
    DroppedKeeps(s, v);
    if DropTells(s, v) { UpdatesFrames(Dropped(s, v), applied, v); }
    hide Kept, ApplyEach;
  }

  /** The event leaves a view unbound with frames, for as long as no one serves it. */
  ghost predicate LeavesFrames(s: Tables, e: Event) {
    match e
    case DestroyToplevel(t, applied) =>
      t in s.toplevels && s.toplevels[t].view.Some? && ShownUnbinding(s, s.toplevels[t].view.value, applied)
    case Activate(t, token, applied) =>
      && t.Some? && t.value in s.toplevels && s.toplevels[t.value].view.Some?
      && ShownUnbinding(s, s.toplevels[t.value].view.value, applied)
    case _ => false
  }

  ghost predicate Emptied(s: Tables) {
    forall v :: Waiting(s, v) ==> s.views[v].frames == 0
  }

  /** Binding more views, and updates, leave the waiting ones empty. */
  lemma AppliedEmptied(s: Tables, us: seq<Update>)
    requires Kept(s) && Emptied(s)
    ensures Emptied(ApplyEach(s, us))
    decreases |us|
  {
    hide Kept, Applied, Emptied;
    if us != [] {
      UpdateKeeps(s, us[0]);
      UpdateEmptied(s, us[0]);
      AppliedEmptied(Applied(s, us[0]), us[1..]);
    }
  }

  lemma UpdateEmptied(s: Tables, u: Update)
    requires Kept(s) && Emptied(s)
    ensures Emptied(Applied(s, u))
  {
    if u.Maps? && u.toplevel in s.toplevels && !s.toplevels[u.toplevel].mapped {
      var s1 := s.(toplevels := s.toplevels[u.toplevel := s.toplevels[u.toplevel].(mapped := true)]);
      MappedKeeps(s, u.toplevel);
      ServedEmptied(s1);
    }
    hide BindWaiting, Kept;
  }

  lemma ServedEmptied(s: Tables)
    requires Kept(s) && Emptied(s)
    ensures Emptied(BindWaiting(s))
  {
    WaitingServed(s);
    hide BindWaiting, Kept, Served;
  }

  lemma UnbindEmptied(s: Tables, v: ViewId, applied: seq<Update>)
    requires Kept(s) && Emptied(s)
    ensures !ShownUnbinding(s, v, applied) ==> Emptied(Unbind(s, v, applied))
    ensures forall u :: u != v && Waiting(Unbind(s, v, applied), u) ==> Unbind(s, v, applied).views[u].frames == 0
  {
    DroppedKeeps(s, v);
    if DropTells(s, v) { AppliedEmptied(Dropped(s, v), applied); }
    if v in s.views { UnboundEmptyIff(s, v, applied); }
    hide Kept, ApplyEach, ShownUnbinding;
  }

  /** An unbound view stays without frames unless an unbinding leaves it some. */
  lemma StepEmptied(s: Tables, e: Event)
    requires Kept(s) && Enabled(s, e) && Emptied(s) && !LeavesFrames(s, e)
    ensures Emptied(Step(s, e))
  {
    hide Kept, Unbind, BindWaiting, ShownUnbinding, Suits;
    match e
    case CreateView(v, params, applied) => UnbindEmptied(s, v, applied);
    case DisposeView(v, applied) => UnbindEmptied(s, v, applied);
    case Commit(t) => UpdateEmptied(s, Maps(t));
    case DestroyToplevel(t, applied) =>
      if t in s.toplevels && s.toplevels[t].view.Some? { UnbindEmptied(s, s.toplevels[t].view.value, applied); }
    case Activate(t, token, applied) => ActivateEmptied(s, t, token, applied);
    case _ =>
  }

  lemma ActivateEmptied(s: Tables, t: Option<ToplevelId>, token: Token, applied: seq<Update>)
    requires Kept(s) && Emptied(s) && !LeavesFrames(s, Activate(t, token, applied))
    ensures Emptied(RequestActivation(s, t, token, applied))
  {
    hide Kept, Unbind, BindWaiting;
    if token in s.issued && t.Some? && t.value in s.toplevels {
      var s1 := Activated(s, t.value, token);
      ActivatedKeeps(s, t.value, token);
      if s.toplevels[t.value].view.None? {
        ServedEmptied(s1);
      } else {
        var v := s.toplevels[t.value].view.value;
        UnbindEmptied(s1, v, applied);
        UnbindKeeps(s1, v, applied);
        assert ShownUnbinding(s1, v, applied) == ShownUnbinding(s, v, applied);
        if Emptied(Unbind(s1, v, applied)) { ServedEmptied(Unbind(s1, v, applied)); }
      }
    }
  }

  /** So in every run in which no unbinding applies an update shown in the very view, an unbound view has no frames
      either. */
  lemma {:induction false} EmptiedThroughout(states: seq<Tables>, events: seq<Event>, i: nat)
    requires IsRun(states, events) && i <= |events|
    requires forall j :: 0 <= j < i ==> !LeavesFrames(states[j], events[j])
    ensures Emptied(states[i])
  {
    hide Kept, Step, Enabled, LeavesFrames;
    if i > 0 {
      EmptiedThroughout(states, events, i - 1);
      BindingKept(states, events, i - 1);
      StepEmptied(states[i - 1], events[i - 1]);
    }
  }

  // ----- serving the waiting views -----

  /** Waiting views are bound without disturbing any other binding; toplevels change in nothing else. */
  ghost predicate OnlyBinds(s: Tables, s': Tables) {
    && s'.views.Keys == s.views.Keys && s'.toplevels.Keys == s.toplevels.Keys
    && s'.nextId == s.nextId && s'.hinted == s.hinted && s'.issued == s.issued
    && (forall v :: v in s.views ==> s'.views[v] == s.views[v].(toplevel := s'.views[v].toplevel))
    && (forall v :: v in s.views && s.views[v].toplevel.Some? ==> s'.views[v] == s.views[v])
    && (forall t :: t in s.toplevels ==> s'.toplevels[t] == s.toplevels[t].(view := s'.toplevels[t].view))
    && (forall t :: t in s.toplevels && s.toplevels[t].view.Some? ==> s'.toplevels[t] == s.toplevels[t])
  }

  /** The toplevel is there for the view: eligible, and not taken by a waiting view with a lower id. */
  ghost predicate Left(s: Tables, s': Tables, ids: seq<ViewId>, v: ViewId, t: ToplevelId) {
    Eligible(s, v, t) && forall u :: u in ids && u < v ==> u in s'.views && s'.views[u].toplevel != Some(t)
  }

  /** The view got the oldest toplevel left for it, or there was none. */
  ghost predicate Served(s: Tables, s': Tables, ids: seq<ViewId>, v: ViewId)
    requires v in s'.views
  {
    match s'.views[v].toplevel
    case None => forall t :: !Left(s, s', ids, v, t)
    case Some(t) => Left(s, s', ids, v, t) && forall u :: Left(s, s', ids, v, u) ==> t <= u
  }

  lemma TryBindOnly(s: Tables, v: ViewId)
    requires Kept(s) && Waiting(s, v)
    ensures OnlyBinds(s, TryBind(s, v))
    ensures forall u :: u in s.views && u != v ==> TryBind(s, v).views[u] == s.views[u]
    ensures forall t :: t in s.toplevels && TryBind(s, v).views[v].toplevel != Some(t) ==>
              TryBind(s, v).toplevels[t] == s.toplevels[t]
    ensures match TryBind(s, v).views[v].toplevel
            case None => forall t :: !Eligible(s, v, t)
            case Some(t) =>
              && Eligible(s, v, t) && TryBind(s, v).toplevels[t].view == Some(v)
              && forall u :: Eligible(s, v, u) ==> t <= u
  {
    hide Suits;
  }

  lemma OnlyBindsMore(a: Tables, b: Tables, c: Tables)
    requires OnlyBinds(a, b) && OnlyBinds(b, c)
    ensures OnlyBinds(a, c)
  {
  }

  /** The first view's binding stands, and it is the oldest there was. */
  lemma FirstServed(s: Tables, s1: Tables, s': Tables, v: ViewId, rest: seq<ViewId>)
    requires Kept(s) && Waiting(s, v) && s1 == TryBind(s, v)
    requires v in s'.views && s'.views[v] == s1.views[v]
    requires forall u :: u in rest ==> v < u
    ensures Served(s, s', [v] + rest, v)
  {
    TryBindOnly(s, v);
    hide TryBind, Kept, Suits;
    forall t: ToplevelId ensures Left(s, s', [v] + rest, v, t) <==> Eligible(s, v, t) {
      forall u | u in [v] + rest ensures v <= u {}
    }
  }

  lemma RestAfter(ids: seq<ViewId>)
    requires ids != [] && forall i, j :: 0 <= i < j < |ids| ==> ids[i] < ids[j]
    ensures forall u :: u in ids[1..] ==> ids[0] < u && u in ids
  {
    var rest := ids[1..];
    forall u | u in rest ensures ids[0] < u && u in ids {
      var k :| 0 <= k < |rest| && rest[k] == u;
      assert ids[k + 1] == u;
    }
  }

  /** Binding the views of a list one by one serves each of them. */
  lemma {:induction false} EachServed(s: Tables, ids: seq<ViewId>)
    requires Kept(s) && (forall v :: v in ids ==> Waiting(s, v))
    requires forall i, j :: 0 <= i < j < |ids| ==> ids[i] < ids[j]
    ensures var s' := BindEach(s, ids);
            && OnlyBinds(s, s') && Kept(s')
            && (forall v :: v in s.views && v !in ids ==> s'.views[v] == s.views[v])
            && (forall v :: v in ids ==> Served(s, s', ids, v))
    decreases |ids|
  {
    if ids != [] {
      var v, rest := ids[0], ids[1..];
      assert ids == [v] + rest;
      var s1, s' := TryBind(s, v), BindEach(s, ids);
      TryBindKeeps(s, v);
      TryBindOnly(s, v);
      hide Kept, TryBind, Left, Served, Eligible;
      RestAfter(ids);
      EachServed(s1, rest);
      OnlyBindsMore(s, s1, s');
      FirstServed(s, s1, s', v, rest);
      forall u | u in rest ensures Served(s, s', ids, u) {
        LeftAfterFirst(s, s1, s', v, rest, u);
      }
    }
  }

  /** What is left for a later view once the first is bound is what is left of all. */
  lemma LeftAfterFirst(s: Tables, s1: Tables, s': Tables, v: ViewId, rest: seq<ViewId>, u: ViewId)
    requires Kept(s) && Waiting(s, v) && s1 == TryBind(s, v)
    requires v < u && u in s'.views && v in s'.views && s'.views[v] == s1.views[v]
    requires Served(s1, s', rest, u)
    ensures Served(s, s', [v] + rest, u)
  {
    TryBindOnly(s, v);
    hide Suits, Kept, TryBind;
    forall t: ToplevelId ensures Left(s, s', [v] + rest, u, t) <==> Left(s1, s', rest, u, t) {
      if Left(s1, s', rest, u, t) {
        assert Eligible(s, u, t);
        assert s1.views[v].toplevel != Some(t);
      }
      if Left(s, s', [v] + rest, u, t) {
        assert v in [v] + rest;
        forall w | w in rest && w < u ensures w in s'.views && s'.views[w].toplevel != Some(t) {
          assert w in [v] + rest;
        }
      }
    }
  }

  /** The greedy spec. By ascending id each waiting view takes the oldest eligible toplevel no lower one took, nothing
      else changes, and no view is left waiting that could show a toplevel. */
  lemma WaitingServed(s: Tables)
    requires Kept(s)
    ensures var s', ids := BindWaiting(s), Ordered(WaitingViews(s));
            && OnlyBinds(s, s') && Kept(s')
            && (forall v :: Waiting(s, v) ==> Served(s, s', ids, v))
            && (forall v, t :: Waiting(s', v) ==> !Eligible(s', v, t))
  {
    var ids := Ordered(WaitingViews(s));
    EachServed(s, ids);
    var s' := BindWaiting(s);
    forall v, t | Waiting(s', v) ensures !Eligible(s', v, t) {
      NoneLeft(s, s', ids, v, t);
    }
  }

  lemma NoneLeft(s: Tables, s': Tables, ids: seq<ViewId>, v: ViewId, t: ToplevelId)
    requires Kept(s') && OnlyBinds(s, s') && Waiting(s', v) && (v in s.views ==> Served(s, s', ids, v))
    requires forall u :: u in ids ==> u in s'.views
    ensures !Eligible(s', v, t)
  {
    if Eligible(s', v, t) { EligibleWasLeft(s, s', ids, v, t); }
  }

  lemma EligibleWasLeft(s: Tables, s': Tables, ids: seq<ViewId>, v: ViewId, t: ToplevelId)
    requires Kept(s') && OnlyBinds(s, s') && Eligible(s', v, t)
    requires forall u :: u in ids ==> u in s'.views
    ensures Left(s, s', ids, v, t)
  {
    hide Suits;
  }

  ghost predicate SomeoneCould(s: Tables) {
    exists u, t :: Waiting(s, u) && Eligible(s, u, t)
  }

  /** A toplevel's first commit, or an activation that takes effect: the one that gives a toplevel nobody shows its
      token, or takes it from a view not naming that token for one that does. */
  ghost predicate Serves(s: Tables, e: Event) {
    match e
    case Commit(t) => t in s.toplevels && !s.toplevels[t].mapped
    case Activate(t, token, _) =>
      && token in s.issued && t.Some? && t.value in s.toplevels
      && (s.toplevels[t.value].view.Some? ==>
           !Names(s, s.toplevels[t.value].view.value, token) && exists u :: Names(s, u, token))
    case _ => false
  }

  lemma ServedNone(s: Tables)
    requires Kept(s)
    ensures !SomeoneCould(BindWaiting(s))
  {
    WaitingServed(s);
  }

  lemma StepServes(s: Tables, e: Event)
    requires Kept(s) && Serves(s, e)
    ensures !SomeoneCould(Step(s, e))
  {
    hide Kept, BindWaiting, Unbind, SomeoneCould;
    match e
    case Commit(t) =>
      MappedKeeps(s, t);
      ServedNone(s.(toplevels := s.toplevels[t := s.toplevels[t].(mapped := true)]));
    case Activate(t, token, applied) =>
      var s1 := Activated(s, t.value, token);
      ActivatedKeeps(s, t.value, token);
      if s.toplevels[t.value].view.None? {
        ServedNone(s1);
      } else {
        UnbindKeeps(s1, s.toplevels[t.value].view.value, applied);
        ServedNone(Unbind(s1, s.toplevels[t.value].view.value, applied));
      }
  }

  /** What can leave a view waiting that could show something: a toplevel freed by a dispose or a replaced view, a view
      freed by its toplevel's end, and a toplevel that stops being a dialog or changes its app id. */
  predicate MayStrand(s: Tables, e: Event) {
    match e
    case CreateView(v, _, _) => v in s.views && s.views[v].toplevel.Some?
    case DisposeView(v, _) => v in s.views && s.views[v].toplevel.Some?
    case DestroyToplevel(t, _) => t in s.toplevels && s.toplevels[t].view.Some?
    case SetParent(_, dialog) => !dialog
    case SetAppId(_, _) => true
    case _ => false
  }

  /** No other step does. */
  lemma StepStrandsNone(s: Tables, e: Event)
    requires Kept(s) && Enabled(s, e) && !SomeoneCould(s) && !MayStrand(s, e)
    ensures !SomeoneCould(Step(s, e))
  {
    hide Kept, BindWaiting, Unbind, TryBind;
    if Serves(s, e) {
      hide SomeoneCould;
      StepServes(s, e);
    } else {
      match e
      case CreateView(v, params, applied) => CreateStrandsNone(s, v, params, applied);
      case DisposeView(v, applied) => UnboundStays(s, v, applied);
      case Activate(t, token, applied) => TokenStrandsNone(s, t, token, applied);
      case _ => OthersStrandNone(s, e);
    }
  }

  /** Eligible afterwards, eligible before. */
  ghost predicate NoNewChoice(s: Tables, s': Tables) {
    forall u, t :: Waiting(s', u) && Eligible(s', u, t) ==> Waiting(s, u) && Eligible(s, u, t)
  }

  /** Unbinding a view that shows nothing only drops its frames. */
  lemma UnboundStays(s: Tables, v: ViewId, applied: seq<Update>)
    requires v in s.views ==> s.views[v].toplevel.None?
    ensures NoNewChoice(s, Unbind(s, v, applied)) && NoNewChoice(s, ViewDisposed(s, v, applied))
    ensures var s' := Unbind(s, v, applied);
            && s'.toplevels == s.toplevels && s'.nextId == s.nextId
            && s'.views.Keys == s.views.Keys && forall u :: u in s.views && u != v ==> s'.views[u] == s.views[u]
  {
    hide Suits;
  }

  lemma CreateStrandsNone(s: Tables, v: ViewId, params: Params, applied: seq<Update>)
    requires Kept(s) && !SomeoneCould(s) && (v in s.views ==> s.views[v].toplevel.None?)
    ensures !SomeoneCould(ViewCreated(s, v, params, applied))
  {
    hide Kept, Unbind, TryBind, Suits;
    var s1 := if v in s.views then Unbind(s, v, applied) else s;
    if v in s.views {
      UnboundStays(s, v, applied);
      UnbindKeeps(s, v, applied);
    } else {
      NeverThere(s, v);
    }
    FreshKeeps(s1, v, params);
    var s2 := s1.(views := s1.views[v := View(params, None, 0, 0)]);
    TryBindOnly(s2, v);
    var s' := TryBind(s2, v);
    forall u, t | Waiting(s', u) && Eligible(s', u, t) ensures u != v && Waiting(s, u) && Eligible(s, u, t) {
      StillFree(s2, s', u, t);
    }
  }

  lemma StillFree(s: Tables, s': Tables, u: ViewId, t: ToplevelId)
    requires OnlyBinds(s, s') && Waiting(s', u) && Eligible(s', u, t)
    ensures Waiting(s, u) && Eligible(s, u, t)
  {
    SuitsStill(s'.views[u].params, s'.toplevels[t], s.toplevels[t].view);
    hide Suits;
  }

  lemma TokenStrandsNone(s: Tables, t: Option<ToplevelId>, token: Token, applied: seq<Update>)
    requires Kept(s) && !SomeoneCould(s) && !Serves(s, Activate(t, token, applied))
    ensures !SomeoneCould(RequestActivation(s, t, token, applied))
  {
    hide Kept, BindWaiting, Unbind;
    var s' := RequestActivation(s, t, token, applied);
    assert forall u: ViewId, x: ToplevelId :: Waiting(s', u) && Eligible(s', u, x) ==>
                                                Waiting(s, u) && Eligible(s, u, x);
  }

  lemma OthersStrandNone(s: Tables, e: Event)
    requires Kept(s) && Enabled(s, e) && !SomeoneCould(s) && !MayStrand(s, e) && !Serves(s, e)
    requires !e.CreateView? && !e.DisposeView? && !e.Activate?
    ensures !SomeoneCould(Step(s, e))
  {
    hide Kept, BindWaiting, Unbind;
    var s' := Step(s, e);
    forall u: ViewId, x: ToplevelId | Waiting(s', u) && Eligible(s', u, x) ensures Waiting(s, u) && Eligible(s, u, x) {
      if e.DestroyToplevel? { assert s'.toplevels[x] == s.toplevels[x]; }
    }
  }

  // ----- activation -----

  /** A view that names the token and may show the toplevel activated with it: that is mapped, is no dialog and comes
      from the sandbox the view names, if it names one. */
  ghost predicate Claims(s: Tables, v: ViewId, t: ToplevelId, token: Token)
    requires t in s.toplevels
  {
    && v in s.views && Names(s, v, token)
    && s.toplevels[t].mapped && !s.toplevels[t].dialog
    && (s.views[v].params.sandbox.Some? ==>
         s.toplevels[t].context.Some? && s.toplevels[t].context.value.appId == s.views[v].params.sandbox)
  }

  /** A waiting view that claims the toplevel gets it, or a lower one does. */
  lemma Claimed(s: Tables, s': Tables, ids: seq<ViewId>, v: ViewId, t: ToplevelId, token: Token)
    requires Kept(s) && t in s.toplevels && s.toplevels[t].token == Some(token) && s.toplevels[t].view.None?
    requires OnlyBinds(s, s') && Kept(s') && Waiting(s, v) && Claims(s, v, t, token) && Served(s, s', ids, v)
    requires forall u :: u in ids ==> u in s'.views
    ensures s'.toplevels[t].view.Some? && s'.toplevels[t].view.value <= v
  {
    assert Eligible(s, v, t);
    if s'.views[v].toplevel.None? {
      assert !Left(s, s', ids, v, t);
      var u :| u in ids && u < v && !(u in s'.views && s'.views[u].toplevel != Some(t));
    } else {
      // No other toplevel has that token.
      assert Eligible(s, v, s'.views[v].toplevel.value);
    }
  }

  /** Which view shows the toplevel once the waiting ones were served: the lowest that claims it. */
  lemma ClaimServed(s: Tables, t: ToplevelId, token: Token)
    requires Kept(s) && t in s.toplevels && s.toplevels[t].token == Some(token) && s.toplevels[t].view.None?
    ensures t in BindWaiting(s).toplevels && BindWaiting(s).toplevels[t].token == Some(token)
    ensures Outcome(s, t, token, BindWaiting(s).toplevels[t].view)
  {
    var s', ids := BindWaiting(s), Ordered(WaitingViews(s));
    WaitingServed(s);
    hide BindWaiting, Kept;
    forall v | Waiting(s, v) && Claims(s, v, t, token)
      ensures s'.toplevels[t].view.Some? && s'.toplevels[t].view.value <= v
    {
      Claimed(s, s', ids, v, t, token);
    }
    if s'.toplevels[t].view.Some? {
      var w := s'.toplevels[t].view.value;
      assert Waiting(s, w) && Served(s, s', ids, w) by { WasWaiting(s, s', t); }
    }
  }

  lemma WasWaiting(s: Tables, s': Tables, t: ToplevelId)
    requires Kept(s) && Kept(s') && OnlyBinds(s, s')
    requires t in s.toplevels && s.toplevels[t].view.None? && s'.toplevels[t].view.Some?
    ensures Waiting(s, s'.toplevels[t].view.value)
    ensures s'.views[s'.toplevels[t].view.value].toplevel == Some(t)
  {
  }

  /** The view is the lowest of the waiting ones that claim the toplevel; none when none does. */
  ghost predicate Outcome(s: Tables, t: ToplevelId, token: Token, view: Option<ViewId>)
    requires t in s.toplevels
  {
    match view
    case None => forall v :: Waiting(s, v) ==> !Claims(s, v, t, token)
    case Some(v) =>
      Waiting(s, v) && Claims(s, v, t, token) && forall u :: Waiting(s, u) && Claims(s, u, t, token) ==> v <= u
  }

  /** What activating a toplevel with a token the module issued comes to. It keeps its view if that names the token, or
      if no view does. Otherwise it goes, from whatever view took it before, to the lowest view waiting that names the
      token and may show it -- or to none, exactly when there is no such view. The token is used up. */
  lemma ActivationOutcome(s: Tables, t: ToplevelId, token: Token, applied: seq<Update>)
    requires Kept(s) && token in s.issued && t in s.toplevels
    ensures var s' := RequestActivation(s, Some(t), token, applied);
            && token !in s'.issued && t in s'.toplevels && s'.toplevels[t].token == Some(token)
            && if s.toplevels[t].view.Some?
                  && (Names(s, s.toplevels[t].view.value, token) || forall u :: !Names(s, u, token))
               then s'.toplevels[t].view == s.toplevels[t].view
               else Outcome(s, t, token, s'.toplevels[t].view)
  {
    hide BindWaiting, Unbind, Kept, Outcome;
    var s1 := Activated(s, t, token);
    ActivatedKeeps(s, t, token);
    if s.toplevels[t].view.None? {
      FreeOutcome(s, s1, t, token);
    } else {
      var v := s.toplevels[t].view.value;
      if !Names(s, v, token) && exists u :: Names(s, u, token) {
        Freed(s1, t, applied);
        UnbindKeeps(s1, v, applied);
        Displaced(s1, v, t, token, applied);
        FreeOutcome(s, Unbind(s1, v, applied), t, token);
      }
    }
  }

  lemma FreeOutcome(s: Tables, s1: Tables, t: ToplevelId, token: Token)
    requires Kept(s1) && t in s.toplevels && SameClaims(s, s1, t, token) && s1.toplevels[t].view.None?
    requires token !in s1.issued
    ensures var s' := BindWaiting(s1);
            && token !in s'.issued && t in s'.toplevels && s'.toplevels[t].token == Some(token)
            && Outcome(s, t, token, s'.toplevels[t].view)
  {
    hide BindWaiting, Kept, Claims;
    ClaimServed(s1, t, token);
    SameOutcome(s, s1, t, token, BindWaiting(s1).toplevels[t].view);
    WaitingServed(s1);
  }

  /** Unbinding the view that shows the toplevel, whatever that has applied, leaves the views naming its token waiting
      as they were: no other toplevel has that token. */
  lemma Displaced(s: Tables, v: ViewId, t: ToplevelId, token: Token, applied: seq<Update>)
    requires Kept(s) && t in s.toplevels && s.toplevels[t].view == Some(v) && s.toplevels[t].token == Some(token)
    requires !Names(s, v, token)
    ensures var s' := Unbind(s, v, applied);
            && s'.issued == s.issued && t in s'.toplevels && SameClaims(s, s', t, token)
  {
    DroppedKeeps(s, v);
    var s1, s2 := Dropped(s, v), WhileBound(s, v, applied);
    assert Kept(s2) && AppliedOnly(s1, s2) by {
      hide Kept, AppliedOnly;
      ApplyEachKeeps(s1, applied);
      AppliedNothing(s1);
    }
    ShownIs(s, s2, v, t, applied);
    forall u | Names(s, u, token) ensures Waiting(s2, u) <==> Waiting(s, u) {
      assert Names(s1, u, token) && s1.views[u].toplevel == s.views[u].toplevel;
      NamesWait(s1, s2, u, t, token);
    }
    hide Kept, WhileBound, AppliedOnly;
    assert s2.views.Keys == s.views.Keys && s2.issued == s.issued
        && forall u :: u in s.views ==> s2.views[u].params == s.views[u].params by {
      SameParams(s, s2, v);
    }
    hide Dropped;
    BrokenClaims(s, s2, v, t, token);
  }

  lemma SameParams(s: Tables, s2: Tables, v: ViewId)
    requires AppliedOnly(Dropped(s, v), s2)
    ensures s2.views.Keys == s.views.Keys && s2.issued == s.issued
    ensures forall u :: u in s.views ==> s2.views[u].params == s.views[u].params
  {
    hide Suits, Suited, SameToplevel;
  }

  lemma BrokenClaims(s: Tables, s2: Tables, v: ViewId, t: ToplevelId, token: Token)
    requires t in s.toplevels && s.toplevels[t].token == Some(token) && !Names(s, v, token)
    requires v in s2.views && s2.views[v].toplevel == Some(t) && t in s2.toplevels && s2.toplevels[t] == s.toplevels[t]
    requires s2.views.Keys == s.views.Keys && forall u :: u in s.views ==> s2.views[u].params == s.views[u].params
    requires forall u :: Names(s, u, token) ==> (Waiting(s2, u) <==> Waiting(s, u))
    ensures t in Broken(s2, v).toplevels && SameClaims(s, Broken(s2, v), t, token)
  {
  }

  /** While a toplevel with the token is shown, a view waiting for that token is served nothing. */
  lemma NamesWait(s: Tables, s': Tables, u: ViewId, t: ToplevelId, token: Token)
    requires Kept(s) && AppliedOnly(s, s') && Names(s, u, token)
    requires t in s.toplevels && s.toplevels[t].token == Some(token) && s.toplevels[t].view.Some?
    ensures Waiting(s', u) <==> Waiting(s, u)
  {
    if Waiting(s, u) && s'.views[u].toplevel.Some? {
      OnlyBearer(s, s', u, t, token);
    }
  }

  /** A view waiting for a token is served only the toplevel that has it. */
  lemma OnlyBearer(s: Tables, s': Tables, u: ViewId, t: ToplevelId, token: Token)
    requires TokensOnce(s) && AppliedOnly(s, s') && Names(s, u, token) && Waiting(s, u)
    requires t in s.toplevels && s.toplevels[t].token == Some(token) && s'.views[u].toplevel.Some?
    ensures Suited(s, s', u) && s'.views[u].toplevel == Some(t)
  {
    assert Suited(s, s', u);
    var x := s'.views[u].toplevel.value;
    assert SameToplevel(s.toplevels[x], s'.toplevels[x]);
  }

  lemma ShownIs(s: Tables, s2: Tables, v: ViewId, t: ToplevelId, applied: seq<Update>)
    requires Kept(s) && t in s.toplevels && s.toplevels[t].view == Some(v) && AppliedOnly(Dropped(s, v), s2)
    ensures v in s2.views && s2.views[v].toplevel == Some(t)
    ensures t in s2.toplevels && s2.toplevels[t] == s.toplevels[t]
    ensures Dropped(s, v).views[v].params == s.views[v].params
  {
    assert SameToplevel(s.toplevels[t], s2.toplevels[t]);
    hide Suits, Suited;
  }

  /** Recording the token, and a view displaced that does not name it, change nothing of who claims the toplevel. */
  ghost predicate SameClaims(s: Tables, s1: Tables, t: ToplevelId, token: Token)
    requires t in s.toplevels
  {
    && t in s1.toplevels && s1.views.Keys == s.views.Keys
    && s1.toplevels[t] == s.toplevels[t].(token := Some(token), view := s1.toplevels[t].view)
    && (forall u :: u in s.views ==> s1.views[u].params == s.views[u].params)
    && (forall u :: Names(s, u, token) ==> (Waiting(s1, u) <==> Waiting(s, u)))
  }

  lemma SameOutcome(s: Tables, s1: Tables, t: ToplevelId, token: Token, view: Option<ViewId>)
    requires t in s.toplevels && SameClaims(s, s1, t, token) && Outcome(s1, t, token, view)
    ensures Outcome(s, t, token, view)
  {
    forall u ensures Claims(s1, u, t, token) <==> Claims(s, u, t, token) {}
    forall u | Claims(s, u, t, token) ensures Waiting(s1, u) <==> Waiting(s, u) {}
    hide Claims;
  }

  // ----- disposing -----

  /** Some other view waits that could show what the view shows. */
  ghost predicate Succeeds(s: Tables, v: ViewId) {
    && v in s.views && s.views[v].toplevel.Some? && s.views[v].toplevel.value in s.toplevels
    && exists u :: u != v && Waiting(s, u) && Suits(s.views[u].params, s.toplevels[s.views[v].toplevel.value])
  }

  /** The tables as the binding breaks leave nobody waiting who could bind, if the ones before did. */
  lemma WhileNone(s: Tables, v: ViewId, applied: seq<Update>)
    requires Kept(s) && !SomeoneCould(s)
    ensures var m := WhileBound(s, v, applied); Kept(m) && !SomeoneCould(m) && AppliedOnly(Dropped(s, v), m)
  {
    hide Kept, Suits, ApplyEach, AppliedOnly, SomeoneCould;
    DroppedKeeps(s, v);
    DroppedNone(s, v);
    AppliedNothing(Dropped(s, v));
    if DropTells(s, v) {
      ApplyEachKeeps(Dropped(s, v), applied);
      AppliedStrandNone(Dropped(s, v), applied);
    }
  }

  /** Disposing of a view serves no one: with nobody able to bind before, somebody waits that could exactly when some
      other waiting view could have shown what it showed, as things stand when the binding breaks. */
  lemma DisposeServesNoOne(s: Tables, v: ViewId, applied: seq<Update>)
    requires Kept(s) && !SomeoneCould(s)
    ensures SomeoneCould(ViewDisposed(s, v, applied)) <==> Succeeds(WhileBound(s, v, applied), v)
    ensures MapsNone(applied) ==> (SomeoneCould(ViewDisposed(s, v, applied)) <==> Succeeds(s, v))
  {
    hide Kept, Broken, WhileBound, SomeoneCould, Succeeds, MapsNone, AppliedOnly;
    WhileNone(s, v, applied);
    BrokenStrandsIff(WhileBound(s, v, applied), v);
    if MapsNone(applied) {
      SameWhileBound(s, v, applied);
      SameSuccessor(s, WhileBound(s, v, applied), v);
    }
  }

  /** No toplevel is mapped by the updates. */
  predicate MapsNone(us: seq<Update>) { forall u :: u in us ==> u.Shows? }

  /** Who shows what and who wants what is as it was. */
  ghost predicate SameBinding(s: Tables, s': Tables) {
    && s'.toplevels == s.toplevels && s'.views.Keys == s.views.Keys
    && forall v :: v in s.views ==>
         s'.views[v].params == s.views[v].params && s'.views[v].toplevel == s.views[v].toplevel
  }

  lemma {:induction false} ShownsBindNone(s: Tables, us: seq<Update>)
    requires MapsNone(us)
    ensures SameBinding(s, ApplyEach(s, us))
    decreases |us|
  {
    if us != [] {
      assert us == [us[0]] + us[1..];
      ShownsBindNone(Applied(s, us[0]), us[1..]);
    }
  }

  lemma SameWhileBound(s: Tables, v: ViewId, applied: seq<Update>)
    requires MapsNone(applied)
    ensures SameBinding(s, WhileBound(s, v, applied))
  {
    hide ApplyEach, MapsNone;
    ShownsBindNone(Dropped(s, v), applied);
  }

  lemma SameSuccessor(s: Tables, s': Tables, v: ViewId)
    requires SameBinding(s, s')
    ensures Succeeds(s', v) <==> Succeeds(s, v)
  {
    hide Suits;
    forall u ensures Waiting(s', u) <==> Waiting(s, u) {}
  }

  lemma DroppedNone(s: Tables, v: ViewId)
    requires !SomeoneCould(s)
    ensures !SomeoneCould(Dropped(s, v))
  {
    hide Suits;
    var s' := Dropped(s, v);
    forall u: ViewId, t: ToplevelId | Waiting(s', u) && Eligible(s', u, t) ensures Waiting(s, u) && Eligible(s, u, t) {}
  }

  lemma {:induction false} AppliedStrandNone(s: Tables, us: seq<Update>)
    requires Kept(s) && !SomeoneCould(s)
    ensures !SomeoneCould(ApplyEach(s, us))
    decreases |us|
  {
    hide Kept, SomeoneCould, Applied;
    if us != [] {
      UpdateKeeps(s, us[0]);
      UpdateStrandsNone(s, us[0]);
      AppliedStrandNone(Applied(s, us[0]), us[1..]);
    }
  }

  lemma UpdateStrandsNone(s: Tables, u: Update)
    requires Kept(s) && !SomeoneCould(s)
    ensures !SomeoneCould(Applied(s, u))
  {
    hide Kept, SomeoneCould, Submitted, Committed;
    match u
    case Shows(v, layers) => StepStrandsNone(s, Submit(v, layers));
    case Maps(t) => StepStrandsNone(s, Commit(t));
  }

  lemma BrokenStrandsIff(s: Tables, v: ViewId)
    requires Kept(s) && !SomeoneCould(s)
    ensures var s' := Broken(s, v).(views := Broken(s, v).views - {v});
            SomeoneCould(s') <==> Succeeds(s, v)
  {
    var b := Broken(s, v);
    var s' := b.(views := b.views - {v});
    if SomeoneCould(s') {
      var u, t :| Waiting(s', u) && Eligible(s', u, t);
      assert u != v && Waiting(s, u);
      if s.toplevels[t].view.None? { assert Eligible(s, u, t); }
    }
    if Succeeds(s, v) {
      var t := s.views[v].toplevel.value;
      var u :| u != v && Waiting(s, u) && Suits(s.views[u].params, s.toplevels[t]);
      assert Waiting(s', u) && Eligible(s', u, t);
    }
  }

  // ----- who is left waiting, exactly -----

  /** Some view waits that could show the toplevel. */
  ghost predicate Wanted(s: Tables, t: Toplevel) {
    exists u :: Waiting(s, u) && Suits(s.views[u].params, t)
  }

  ghost predicate Free(s: Tables, t: ToplevelId) { t in s.toplevels && s.toplevels[t].view.None? }

  /** Another toplevel is free that the view could show. */
  ghost predicate FreeBeside(s: Tables, v: ViewId, t: ToplevelId) {
    v in s.views && exists x :: x != t && Free(s, x) && Suits(s.views[v].params, s.toplevels[x])
  }

  /** A view created with the params once the toplevel is free again takes that one: it suits, and no older one that is
      free does. */
  ghost predicate TakenBy(s: Tables, params: Params, t: ToplevelId)
    requires t in s.toplevels
  {
    Suits(params, s.toplevels[t]) && forall x: ToplevelId :: Free(s, x) && x < t ==> !Suits(params, s.toplevels[x])
  }

  /** The tables as the event breaks a binding, or as they are if it breaks none. */
  ghost function AsItBreaks(s: Tables, e: Event): Tables {
    match e
    case CreateView(v, _, applied) => if v in s.views then WhileBound(s, v, applied) else s
    case DisposeView(v, applied) => WhileBound(s, v, applied)
    case DestroyToplevel(t, applied) =>
      if t in s.toplevels && s.toplevels[t].view.Some? then WhileBound(s, s.toplevels[t].view.value, applied) else s
    case _ => s
  }

  predicate BreakingMapsNone(e: Event) {
    (e.CreateView? || e.DisposeView? || e.DestroyToplevel? || e.Activate?) ==> MapsNone(e.applied)
  }

  /** What leaves a view waiting beside a toplevel it could show. A view disposed of, or replaced by one that does not
      take what it showed: another view waits that could show that. A toplevel destroyed: its view could show another
      that is free. A parent or app id changed: the toplevel is free, and somebody waits for what it has become. */
  ghost predicate Strands(s: Tables, e: Event) {
    match e
    case CreateView(v, params, _) => Succeeds(s, v) && !TakenBy(s, params, s.views[v].toplevel.value)
    case DisposeView(v, _) => Succeeds(s, v)
    case DestroyToplevel(t, _) =>
      t in s.toplevels && s.toplevels[t].view.Some? && FreeBeside(s, s.toplevels[t].view.value, t)
    case SetParent(t, dialog) => Free(s, t) && Wanted(s, s.toplevels[t].(dialog := dialog))
    case SetAppId(t, claimed) => Free(s, t) && Wanted(s, s.toplevels[t].(claimed := claimed))
    case _ => false
  }

  /** Exactly those. With nobody able to bind before the step, somebody waits that could bind after it just when what
      the step did strands a view, as things stand as it breaks a binding; and as they stood before the step, unless
      breaking it has the client map another toplevel. */
  lemma StrandsIff(s: Tables, e: Event)
    requires Kept(s) && Enabled(s, e) && !SomeoneCould(s)
    ensures SomeoneCould(Step(s, e)) <==> Strands(AsItBreaks(s, e), e)
    ensures BreakingMapsNone(e) ==> (SomeoneCould(Step(s, e)) <==> Strands(s, e))
  {
    hide Kept, WhileBound, SomeoneCould, Succeeds, Wanted, TakenBy, Suits, MapsNone;
    if BreakingMapsNone(e) { SameAsItBreaks(s, e); }
    if MayStrand(s, e) {
      match e
      case CreateView(v, params, applied) => ReplacedStrandsIff(s, v, params, applied);
      case DisposeView(v, applied) => DisposeServesNoOne(s, v, applied);
      case DestroyToplevel(t, applied) => DestroyedStrandsIff(s, t, applied);
      case SetParent(t, dialog) => if t in s.toplevels { SaidStrandsIff(s, t, dialog, s.toplevels[t].claimed); }
      case SetAppId(t, claimed) => if t in s.toplevels { SaidStrandsIff(s, t, s.toplevels[t].dialog, claimed); }
    } else {
      StepStrandsNone(s, e);
      OthersStrand(s, e);
    }
  }

  lemma OthersStrand(s: Tables, e: Event)
    requires !MayStrand(s, e)
    ensures !Strands(AsItBreaks(s, e), e)
  {
  }

  lemma SameAsItBreaks(s: Tables, e: Event)
    requires BreakingMapsNone(e)
    ensures Strands(AsItBreaks(s, e), e) <==> Strands(s, e)
  {
    hide WhileBound, Strands, MapsNone;
    var m := AsItBreaks(s, e);
    match e {
      case CreateView(v, _, applied) => SameWhileBound(s, v, applied);
      case DisposeView(v, applied) => SameWhileBound(s, v, applied);
      case DestroyToplevel(t, applied) =>
        if t in s.toplevels && s.toplevels[t].view.Some? { SameWhileBound(s, s.toplevels[t].view.value, applied); }
      case _ =>
    }
    SameStranded(s, m, e);
  }

  lemma SameStranded(s: Tables, m: Tables, e: Event)
    requires SameBinding(s, m)
    ensures Strands(m, e) <==> Strands(s, e)
  {
    hide Suits, Succeeds, Wanted, TakenBy, FreeBeside;
    match e
    case CreateView(v, params, _) =>
      SameSuccessor(s, m, v);
      if Succeeds(s, v) { SameTaken(s, m, v, params); }
    case DisposeView(v, _) => SameSuccessor(s, m, v);
    case SetParent(t, dialog) => if Free(s, t) { SameWanted(s, m, s.toplevels[t].(dialog := dialog)); }
    case SetAppId(t, claimed) => if Free(s, t) { SameWanted(s, m, s.toplevels[t].(claimed := claimed)); }
    case DestroyToplevel(t, _) =>
      if t in s.toplevels && s.toplevels[t].view.Some? { SameBeside(s, m, s.toplevels[t].view.value, t); }
    case _ =>
  }

  lemma SameBeside(s: Tables, m: Tables, v: ViewId, t: ToplevelId)
    requires SameBinding(s, m)
    ensures FreeBeside(m, v, t) <==> FreeBeside(s, v, t)
  {
  }

  lemma SameWanted(s: Tables, m: Tables, t: Toplevel)
    requires SameBinding(s, m)
    ensures Wanted(m, t) <==> Wanted(s, t)
  {
    hide Suits;
    forall u ensures Waiting(m, u) <==> Waiting(s, u) {}
  }

  lemma SameTaken(s: Tables, m: Tables, v: ViewId, params: Params)
    requires SameBinding(s, m) && Succeeds(s, v)
    ensures v in m.views && m.views[v].toplevel == s.views[v].toplevel
    ensures TakenBy(m, params, s.views[v].toplevel.value) == TakenBy(s, params, s.views[v].toplevel.value)
  {
  }

  lemma Nobody(s: Tables, u: ViewId, t: ToplevelId)
    requires !SomeoneCould(s)
    ensures !(Waiting(s, u) && Eligible(s, u, t))
  {
  }

  lemma SaidStrandsIff(s: Tables, t: ToplevelId, dialog: bool, claimed: string)
    requires Kept(s) && !SomeoneCould(s) && t in s.toplevels
    ensures var said := s.toplevels[t].(dialog := dialog, claimed := claimed);
            SomeoneCould(s.(toplevels := s.toplevels[t := said])) <==> Free(s, t) && Wanted(s, said)
  {
    hide Suits, Kept;
    var said := s.toplevels[t].(dialog := dialog, claimed := claimed);
    var s' := s.(toplevels := s.toplevels[t := said]);
    if SomeoneCould(s') {
      var u, x :| Waiting(s', u) && Eligible(s', u, x);
      assert Waiting(s, u);
      Nobody(s, u, x);
    }
    if Free(s, t) && Wanted(s, said) {
      var u :| Waiting(s, u) && Suits(s.views[u].params, said);
      assert Waiting(s', u) && Eligible(s', u, t);
    }
  }

  lemma DestroyedStrandsIff(s: Tables, t: ToplevelId, applied: seq<Update>)
    requires Kept(s) && !SomeoneCould(s) && t in s.toplevels && s.toplevels[t].view.Some?
    ensures var e := DestroyToplevel(t, applied);
            SomeoneCould(ToplevelDestroyed(s, t, applied)) <==> Strands(AsItBreaks(s, e), e)
  {
    hide WhileBound, SomeoneCould, Broken;
    var v := s.toplevels[t].view.value;
    WhileNone(s, v, applied);
    ShownIs(s, WhileBound(s, v, applied), v, t, applied);
    hide Kept, AppliedOnly;
    BrokenDestroyedIff(WhileBound(s, v, applied), v, t);
  }

  lemma BrokenDestroyedIff(m: Tables, v: ViewId, t: ToplevelId)
    requires Kept(m) && !SomeoneCould(m) && v in m.views && m.views[v].toplevel == Some(t)
    requires t in m.toplevels && m.toplevels[t].view == Some(v)
    ensures SomeoneCould(Broken(m, v).(toplevels := Broken(m, v).toplevels - {t})) <==>
              FreeBeside(m, v, t)
  {
    hide Suits, Kept;
    var s' := Broken(m, v).(toplevels := Broken(m, v).toplevels - {t});
    if SomeoneCould(s') {
      var u, x :| Waiting(s', u) && Eligible(s', u, x);
      Nobody(m, u, x);
      assert x != t && Free(m, x) && Suits(m.views[v].params, m.toplevels[x]);
    }
    if x :| x != t && Free(m, x) && Suits(m.views[v].params, m.toplevels[x]) {
      assert Waiting(s', v) && Eligible(s', v, x);
    }
  }

  lemma ReplacedStrandsIff(s: Tables, v: ViewId, params: Params, applied: seq<Update>)
    requires Kept(s) && !SomeoneCould(s) && v in s.views && s.views[v].toplevel.Some?
    ensures var e := CreateView(v, params, applied);
            SomeoneCould(ViewCreated(s, v, params, applied)) <==> Strands(AsItBreaks(s, e), e)
  {
    hide WhileBound, SomeoneCould, Broken, TryBind, Succeeds, TakenBy;
    WhileNone(s, v, applied);
    var m := WhileBound(s, v, applied);
    var t := s.views[v].toplevel.value;
    ShownIs(s, m, v, t, applied);
    hide Kept, AppliedOnly;
    UnbindKeeps(s, v, applied);
    BrokenReplacedIff(m, v, params);
  }

  lemma TakesOldest(s: Tables, v: ViewId, t: ToplevelId)
    requires Kept(s) && Waiting(s, v)
    ensures TryBind(s, v).views[v].toplevel == Some(t) <==>
              Eligible(s, v, t) && forall x :: Eligible(s, v, x) ==> t <= x
  {
    TryBindOnly(s, v);
    hide TryBind, Kept, Eligible;
  }

  /** Free again, the toplevel goes to the new view if that may take it and there is no older one. */
  lemma NewViewTakes(m: Tables, s2: Tables, v: ViewId, params: Params, t: ToplevelId)
    requires v in m.views && m.views[v].toplevel == Some(t) && t in m.toplevels && m.toplevels[t].view == Some(v)
    requires s2 == Broken(m, v).(views := Broken(m, v).views[v := View(params, None, 0, 0)]) && Kept(s2)
    ensures TryBind(s2, v).views[v].toplevel == Some(t) <==> TakenBy(m, params, t)
  {
    TakesOldest(s2, v, t);
    assert Suits(params, s2.toplevels[t]) <==> Suits(params, m.toplevels[t]);
    hide TryBind, Kept, Suits;
    assert s2.toplevels == m.toplevels[t := m.toplevels[t].(view := None)];
    forall x: ToplevelId ensures Eligible(s2, v, x) <==> (x == t || Free(m, x)) && Suits(params, m.toplevels[x]) {}
  }

  lemma BrokenReplacedIff(m: Tables, v: ViewId, params: Params)
    requires Kept(m) && !SomeoneCould(m) && v in m.views && m.views[v].toplevel.Some?
    requires Kept(Broken(m, v)) && NoHintsFor(Broken(m, v), v) && NotShown(Broken(m, v), v)
    requires var t := m.views[v].toplevel.value; t in m.toplevels && m.toplevels[t].view == Some(v)
    ensures var s2 := Broken(m, v).(views := Broken(m, v).views[v := View(params, None, 0, 0)]);
            SomeoneCould(TryBind(s2, v)) <==> Succeeds(m, v) && !TakenBy(m, params, m.views[v].toplevel.value)
  {
    hide Kept, TryBind, TakenBy;
    var t := m.views[v].toplevel.value;
    var s2 := Broken(m, v).(views := Broken(m, v).views[v := View(params, None, 0, 0)]);
    var s' := TryBind(s2, v);
    FreshKeeps(Broken(m, v), v, params);
    TryBindOnly(s2, v);
    NewViewTakes(m, s2, v, params, t);
    if SomeoneCould(s') {
      var u, x :| Waiting(s', u) && Eligible(s', u, x);
      StillFree(s2, s', u, x);
      assert u != v && Waiting(m, u);
      Nobody(m, u, x);
    }
    if Succeeds(m, v) && !TakenBy(m, params, t) {
      var u :| u != v && Waiting(m, u) && Suits(m.views[u].params, m.toplevels[t]);
      assert Waiting(s', u) && s'.toplevels[t] == s2.toplevels[t];
      assert Eligible(s', u, t);
    }
  }

  /** So in any run nobody waits who could show something from the start, or from a toplevel's first commit or an
      activation that takes effect, up to the next step that strands somebody. */
  lemma {:induction false} NoOneLeftWaiting(states: seq<Tables>, events: seq<Event>, i: nat, j: nat)
    requires IsRun(states, events) && i <= j <= |events| && (i == 0 || Serves(states[i - 1], events[i - 1]))
    requires forall k :: i <= k < j ==> !Strands(AsItBreaks(states[k], events[k]), events[k])
    ensures !SomeoneCould(states[j])
    decreases j
  {
    hide Step, Serves, Strands, AsItBreaks, SomeoneCould, Kept;
    if i < j {
      NoOneLeftWaiting(states, events, i, j - 1);
      BindingKept(states, events, j - 1);
      StrandsIff(states[j - 1], events[j - 1]);
    } else if i == 0 {
      NobodyYet();
    } else {
      BindingKept(states, events, i - 1);
      StepServes(states[i - 1], events[i - 1]);
    }
  }

  lemma NobodyYet()
    ensures !SomeoneCould(EMPTY)
  {
  }
}

/** Which view shows which toplevel (src/state.rs, try_bind_view, bind_waiting_views, unbind_view, unbind_toplevel and
    the view commands; src/handlers/activation.rs; src/handlers/xdg.rs; src/handlers/compositor.rs, toplevel_commit).

    Two tables record it, a view's toplevel and a toplevel's view. What the clients do and what the shell asks are
    steps. */
module Binding {
  import opened Basics

  type ViewId = int
  type ToplevelId = nat
  type Surface = nat
  type Token = string

  /** What the app asked for when it created the view. */
  datatype Params = Params(token: Option<Token>, appId: Option<string>, sandbox: Option<string>)

  /** The sandbox a client runs in, which may not name its app. */
  datatype Context = Context(appId: Option<string>)

  datatype Toplevel = Toplevel(mapped: bool, view: Option<ViewId>, token: Option<Token>, dialog: bool,
                               claimed: string, context: Option<Context>)

  /** A view, with the frames awaiting a report and the buffers held for it. */
  datatype View = View(params: Params, toplevel: Option<ToplevelId>, frames: nat, held: nat)

  datatype Tables = Tables(
    views: map<ViewId, View>,
    toplevels: map<ToplevelId, Toplevel>,
    nextId: ToplevelId,
    /** Surfaces given scanout feedback, by the view the hint came for. */
    hinted: map<Surface, ViewId>,
    /** Tokens issued and not used yet. */
    issued: set<Token>)

  const EMPTY := Tables(map[], map[], 0, map[], {})

  // ----- who may show whom -----

  predicate SandboxOk(p: Params, t: Toplevel) {
    p.sandbox.Some? ==> t.context.Some? && t.context.value.appId == p.sandbox
  }

  /** What the client says it is may be believed: it is in no sandbox, or its sandbox says the same. */
  predicate OwnsClaim(t: Toplevel) {
    t.context.None? || t.context.value.appId == Some(t.claimed)
  }

  predicate Wants(p: Params, t: Toplevel) {
    if p.token.Some? || t.token.Some? then t.token == p.token
    else if p.appId.Some? then OwnsClaim(t) && t.claimed == p.appId.value
    else true
  }

  /** The toplevel is one the view may show, whether or not another does. */
  predicate Suits(p: Params, t: Toplevel) {
    t.mapped && !t.dialog && SandboxOk(p, t) && Wants(p, t)
  }

  predicate Eligible(s: Tables, v: ViewId, t: ToplevelId) {
    v in s.views && t in s.toplevels && s.toplevels[t].view.None? && Suits(s.views[v].params, s.toplevels[t])
  }

  predicate Waiting(s: Tables, v: ViewId) { v in s.views && s.views[v].toplevel.None? }

  // ----- what the operations do -----

  /** The oldest toplevel from the given id on that the view may bind. */
  function Oldest(s: Tables, v: ViewId, t: ToplevelId): (found: Option<ToplevelId>)
    ensures found.Some? ==> t <= found.value <= s.nextId && Eligible(s, v, found.value)
    ensures found.Some? ==> forall u :: t <= u < found.value ==> !Eligible(s, v, u)
    ensures found.None? ==> forall u :: t <= u <= s.nextId ==> !Eligible(s, v, u)
    decreases s.nextId + 1 - t
  {
    if t > s.nextId then None else if Eligible(s, v, t) then Some(t) else Oldest(s, v, t + 1)
  }

  function Bound(s: Tables, v: ViewId, t: ToplevelId): Tables
    requires v in s.views && t in s.toplevels
  {
    s.(views := s.views[v := s.views[v].(toplevel := Some(t))],
       toplevels := s.toplevels[t := s.toplevels[t].(view := Some(v))])
  }

  function TryBind(s: Tables, v: ViewId): Tables {
    if !Waiting(s, v) then s
    else
      match Oldest(s, v, 0)
      case None => s
      case Some(t) => Bound(s, v, t)
  }

  function BindEach(s: Tables, ids: seq<ViewId>): Tables
    decreases |ids|
  {
    if ids == [] then s else BindEach(TryBind(s, ids[0]), ids[1..])
  }

  /** Any set of ids, in order. */
  ghost predicate InOrder(ids: seq<ViewId>, all: set<ViewId>) {
    && (forall i, j :: 0 <= i < j < |ids| ==> ids[i] < ids[j])
    && (forall v :: v in ids ==> v in all)
    && (forall v :: v in all ==> v in ids)
  }

  ghost function WaitingViews(s: Tables): set<ViewId> { set v | v in s.views && s.views[v].toplevel.None? }

  lemma {:induction false} InSomeOrder(all: set<ViewId>) returns (ids: seq<ViewId>)
    ensures InOrder(ids, all)
  {
    ids := [];
    if v :| v in all {
      LeastExists(all);
      var least :| IsLeast(all, least);
      var rest := InSomeOrder(all - {least});
      forall i | 0 <= i < |rest| ensures least < rest[i] {
        assert rest[i] in rest;
      }
      ids := [least] + rest;
    }
  }

  /** There is only one order. */
  lemma {:induction false} OneOrder(a: seq<ViewId>, b: seq<ViewId>, all: set<ViewId>)
    requires InOrder(a, all) && InOrder(b, all)
    ensures a == b
    decreases |a|
  {
    InOrderLength(a, all);
    InOrderLength(b, all);
    if a != [] {
      InOrderRest(a, all);
      InOrderRest(b, all);
      OneOrder(a[1..], b[1..], all - {a[0]});
    }
  }

  lemma {:induction false} InOrderLength(ids: seq<ViewId>, all: set<ViewId>)
    requires InOrder(ids, all)
    ensures |ids| == |all|
  {
    if ids == [] {
      assert forall v :: v in all ==> v in ids;
    } else {
      InOrderRest(ids, all);
      InOrderLength(ids[1..], all - {ids[0]});
    }
  }

  lemma InOrderRest(ids: seq<ViewId>, all: set<ViewId>)
    requires InOrder(ids, all) && ids != []
    ensures InOrder(ids[1..], all - {ids[0]})
    ensures ids[0] in all && forall v :: v in all ==> ids[0] <= v
  {
    assert ids == [ids[0]] + ids[1..];
    forall v | v in ids[1..] ensures ids[0] < v {
      var i :| 0 <= i < |ids[1..]| && ids[1..][i] == v;
      assert ids[i + 1] == v;
    }
  }

  lemma OrderExists(all: set<ViewId>)
    ensures exists ids :: InOrder(ids, all)
  {
    var ids := InSomeOrder(all);
  }

  ghost function Ordered(all: set<ViewId>): (ids: seq<ViewId>)
    ensures InOrder(ids, all)
  {
    OrderExists(all);
    var ids :| InOrder(ids, all);
    ids
  }

  ghost function BindWaiting(s: Tables): Tables { BindEach(s, Ordered(WaitingViews(s))) }

  function WithoutHints(hinted: map<Surface, ViewId>, v: ViewId): map<Surface, ViewId> {
    map x | x in hinted && hinted[x] != v :: hinted[x]
  }

  function Submitted(s: Tables, v: ViewId, layers: nat): Tables {
    if v in s.views && s.views[v].toplevel.Some?
    then s.(views := s.views[v := s.views[v].(frames := s.views[v].frames + 1, held := s.views[v].held + layers)])
    else s
  }

  /** The toplevel's first commit maps it; its client may say what it claims to be at any time. */
  ghost function Committed(s: Tables, t: ToplevelId): Tables {
    if t !in s.toplevels || s.toplevels[t].mapped then s
    else BindWaiting(s.(toplevels := s.toplevels[t := s.toplevels[t].(mapped := true)]))
  }

  /** A client's content update, applied as the client is told of barriers cleared: it is shown in the view of its
      toplevel, or maps its toplevel. */
  datatype Update = Shows(view: ViewId, layers: nat) | Maps(toplevel: ToplevelId)

  ghost function Applied(s: Tables, u: Update): Tables {
    match u
    case Shows(v, layers) => Submitted(s, v, layers)
    case Maps(t) => Committed(s, t)
  }

  ghost function ApplyEach(s: Tables, us: seq<Update>): Tables
    decreases |us|
  {
    if us == [] then s else ApplyEach(Applied(s, us[0]), us[1..])
  }

  /** Hints for the view are forgotten, and its frames dropped. */
  function Dropped(s: Tables, v: ViewId): Tables {
    var s' := s.(hinted := WithoutHints(s.hinted, v));
    if v in s.views then s'.(views := s.views[v := s.views[v].(frames := 0)]) else s'
  }

  /** Only frames have barriers, and only a toplevel a client to tell. */
  predicate DropTells(s: Tables, v: ViewId) {
    v in s.views && s.views[v].toplevel.Some? && s.views[v].frames > 0
  }

  /** The view while it is being unbound, with what its client applies on being told. */
  ghost function WhileBound(s: Tables, v: ViewId, applied: seq<Update>): Tables {
    if DropTells(s, v) then ApplyEach(Dropped(s, v), applied) else Dropped(s, v)
  }

  function Broken(s: Tables, v: ViewId): Tables {
    if v !in s.views then s
    else
      s.(views := s.views[v := s.views[v].(toplevel := None, held := 0)],
         toplevels := match s.views[v].toplevel
                      case None => s.toplevels
                      case Some(t) =>
                        if t in s.toplevels then s.toplevels[t := s.toplevels[t].(view := None)] else s.toplevels)
  }

  ghost function Unbind(s: Tables, v: ViewId, applied: seq<Update>): Tables { Broken(WhileBound(s, v, applied), v) }

  ghost function UnbindToplevel(s: Tables, t: ToplevelId, applied: seq<Update>): Tables {
    if t in s.toplevels && s.toplevels[t].view.Some? then Unbind(s, s.toplevels[t].view.value, applied) else s
  }

  ghost function ViewCreated(s: Tables, v: ViewId, params: Params, applied: seq<Update>): Tables {
    var s' := if v in s.views then Unbind(s, v, applied) else s;
    TryBind(s'.(views := s'.views[v := View(params, None, 0, 0)]), v)
  }

  ghost function ViewDisposed(s: Tables, v: ViewId, applied: seq<Update>): Tables {
    var s' := Unbind(s, v, applied);
    s'.(views := s'.views - {v})
  }

  function NewToplevel(s: Tables, context: Option<Context>): Tables {
    s.(nextId := s.nextId + 1,
       toplevels := s.toplevels[s.nextId + 1 := Toplevel(false, None, None, false, "", context)])
  }

  ghost function ToplevelDestroyed(s: Tables, t: ToplevelId, applied: seq<Update>): Tables {
    var s' := UnbindToplevel(s, t, applied);
    s'.(toplevels := s'.toplevels - {t})
  }

  predicate Names(s: Tables, v: ViewId, token: Token) { v in s.views && s.views[v].params.token == Some(token) }

  function Activated(s: Tables, t: ToplevelId, token: Token): Tables
    requires t in s.toplevels
  {
    s.(issued := s.issued - {token}, toplevels := s.toplevels[t := s.toplevels[t].(token := Some(token))])
  }

  ghost function RequestActivation(s: Tables, t: Option<ToplevelId>, token: Token, applied: seq<Update>): Tables {
    if token !in s.issued || t.None? then s
    else if t.value !in s.toplevels then s.(issued := s.issued - {token})
    else
      var s' := Activated(s, t.value, token);
      match s.toplevels[t.value].view
      case None => BindWaiting(s')
      case Some(v) =>
        if Names(s, v, token) || !(exists u :: Names(s, u, token)) then s' else BindWaiting(Unbind(s', v, applied))
  }

  /** A hint for a surface is taken only if the view shows it. */
  function Hinted(s: Tables, v: ViewId, x: Surface): Tables {
    if v in s.views && s.views[v].toplevel.Some? then s.(hinted := s.hinted[x := v]) else s
  }

  /** Reports and fences let frames and buffers go. */
  function Settled(s: Tables, v: ViewId, frames: nat, held: nat): Tables {
    if v in s.views
    then s.(views := s.views[v := s.views[v].(frames := Min(frames, s.views[v].frames),
                                              held := Min(held, s.views[v].held))])
    else s
  }
}

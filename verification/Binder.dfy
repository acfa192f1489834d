/** Binding as the server performs it: the two tables updated in place (src/state.rs, src/handlers/activation.rs,
    src/handlers/xdg.rs). Every operation is shown to do what Binding says. */
module Binders {
  import opened Basics
  import opened Binding

  class Binder {
    var views: map<ViewId, View>
    var toplevels: map<ToplevelId, Toplevel>
    var nextId: ToplevelId
    var hinted: map<Surface, ViewId>
    var issued: set<Token>

    ghost function Abs(): Tables
      reads this
    {
      Tables(views, toplevels, nextId, hinted, issued)
    }

    constructor ()
      ensures Abs() == EMPTY
    {
      views, toplevels, nextId, hinted, issued := map[], map[], 0, map[], {};
    }

    /** The oldest mapped, unbound toplevel the view may show, going through them by age. */
    method FindToplevel(v: ViewId) returns (found: Option<ToplevelId>)
      requires v in views
      ensures found == Oldest(Abs(), v, 0)
    {
      var t := 0;
      while t <= nextId
        invariant 0 <= t <= nextId + 1
        invariant Oldest(Abs(), v, 0) == Oldest(Abs(), v, t)
      {
        if t in toplevels {
          var p, top := views[v].params, toplevels[t];
          // Ruled out: not mapped yet, taken, or part of its parent's view.
          if top.mapped && top.view.None? && !top.dialog {
            var inSandbox := p.sandbox.None? || (top.context.Some? && top.context.value.appId == p.sandbox);
            if inSandbox {
              var matches: bool;
              if p.token.Some? || top.token.Some? {
                matches := top.token == p.token;
              } else if p.appId.Some? {
                // Within a sandbox only the sandbox's own name is believed.
                var own := top.context.None? || top.context.value.appId == Some(top.claimed);
                matches := own && top.claimed == p.appId.value;
              } else {
                matches := true;
              }
              if matches { return Some(t); }
            }
          }
        }
        t := t + 1;
      }
      found := None;
    }

    method TryBindView(v: ViewId)
      modifies this
      ensures Abs() == TryBind(old(Abs()), v)
    {
      if v !in views || views[v].toplevel.Some? { return; }
      var found := FindToplevel(v);
      if found.None? { return; }
      toplevels := toplevels[found.value := toplevels[found.value].(view := Some(v))];
      views := views[v := views[v].(toplevel := Some(found.value))];
    }

    /** The views showing nothing, sorted. */
    method WaitingIds() returns (ids: seq<ViewId>)
      ensures ids == Ordered(WaitingViews(Abs()))
    {
      ids := [];
      var left := set v | v in views && views[v].toplevel.None?;
      ghost var all := left;
      assert all == WaitingViews(Abs());
      while left != {}
        invariant forall i, j :: 0 <= i < j < |ids| ==> ids[i] < ids[j]
        invariant forall v :: v in all <==> v in left || v in ids
        invariant forall u, v :: u in ids && v in left ==> u < v
        decreases left
      {
        var least := LeastOf(left);
        assert forall u :: u in ids ==> u < least;
        forall i | 0 <= i < |ids| ensures ids[i] < least {
          assert ids[i] in ids;
        }
        left := left - {least};
        ids := ids + [least];
      }
      assert InOrder(ids, all);
      OneOrder(ids, Ordered(all), all);
    }

    method LeastOf(left: set<ViewId>) returns (least: ViewId)
      requires left != {}
      ensures IsLeast(left, least)
    {
      least := AnyOf(left);
      var rest := left - {least};
      while rest != {}
        invariant least in left && rest <= left
        invariant forall v :: v in left && v !in rest ==> least <= v
        decreases rest
      {
        var v := AnyOf(rest);
        rest := rest - {v};
        if v < least { least := v; }
      }
    }

    /** Afterwards every view that waited has what the greedy order leaves it. */
    method BindWaitingViews()
      modifies this
      ensures Abs() == BindWaiting(old(Abs()))
    {
      var ids := WaitingIds();
      var i := 0;
      assert ids[0..] == ids;
      while i < |ids|
        invariant 0 <= i <= |ids|
        invariant BindEach(Abs(), ids[i..]) == BindWaiting(old(Abs()))
      {
        assert ids[i..][0] == ids[i] && ids[i..][1..] == ids[i + 1..];
        TryBindView(ids[i]);
        i := i + 1;
      }
    }

    method ToplevelCommit(t: ToplevelId)
      modifies this
      ensures Abs() == Committed(old(Abs()), t)
    {
      hide BindWaiting;
      if t !in toplevels { return; }
      if !toplevels[t].mapped {
        toplevels := toplevels[t := toplevels[t].(mapped := true)];
        BindWaitingViews();
      }
    }

    /** One more frame is queued for a view that shows something, and its buffers are held. */
    method SubmitView(v: ViewId, layers: nat)
      modifies this
      ensures Abs() == Submitted(old(Abs()), v, layers)
    {
      if v in views && views[v].toplevel.Some? {
        views := views[v := views[v].(frames := views[v].frames + 1, held := views[v].held + layers)];
      }
    }

    method Apply(u: Update)
      modifies this
      ensures Abs() == Applied(old(Abs()), u)
    {
      hide Submitted, Committed;
      match u
      case Shows(v, layers) => SubmitView(v, layers);
      case Maps(t) => ToplevelCommit(t);
    }

    /** The view's hints are forgotten and its frames dropped; tells whether its client may be told of barriers. */
    method DropView(v: ViewId) returns (tells: bool)
      modifies this
      ensures Abs() == Dropped(old(Abs()), v) && tells == DropTells(old(Abs()), v)
    {
      hinted := map x | x in hinted && hinted[x] != v :: hinted[x];
      tells := v in views && views[v].toplevel.Some? && views[v].frames > 0;
      if v in views { views := views[v := views[v].(frames := 0)]; }
    }

    /** The view and its toplevel forget each other, and its buffers are let go of. */
    method Break(v: ViewId)
      modifies this
      ensures Abs() == Broken(old(Abs()), v)
    {
      if v !in views { return; }
      var entry := views[v];
      views := views[v := entry.(toplevel := None, held := 0)];
      if entry.toplevel.Some? && entry.toplevel.value in toplevels {
        var t := entry.toplevel.value;
        toplevels := toplevels[t := toplevels[t].(view := None)];
      }
    }

    /** Afterwards the view shows nothing and holds no buffer. Updates its client applies on being told of barriers
        cleared come before that, while the view still shows its toplevel. */
    method UnbindView(v: ViewId, applied: seq<Update>)
      modifies this
      ensures Abs() == Unbind(old(Abs()), v, applied)
    {
      hide Dropped, Applied, Broken, DropTells;
      var tells := DropView(v);
      if tells {
        var i := 0;
        assert applied[0..] == applied;
        while i < |applied|
          invariant 0 <= i <= |applied|
          invariant ApplyEach(Abs(), applied[i..]) == WhileBound(old(Abs()), v, applied)
        {
          assert applied[i..][0] == applied[i] && applied[i..][1..] == applied[i + 1..];
          Apply(applied[i]);
          i := i + 1;
        }
      }
      Break(v);
    }

    /** A view with an id in use takes the place of the one that has it. */
    method ViewCreated(v: ViewId, params: Params, applied: seq<Update>)
      modifies this
      ensures Abs() == Binding.ViewCreated(old(Abs()), v, params, applied)
    {
      hide Unbind, TryBind;
      if v in views { UnbindView(v, applied); }
      views := views[v := View(params, None, 0, 0)];
      TryBindView(v);
    }

    method ViewDisposed(v: ViewId, applied: seq<Update>)
      modifies this
      ensures Abs() == Binding.ViewDisposed(old(Abs()), v, applied)
    {
      hide Unbind;
      UnbindView(v, applied);
      views := views - {v};
    }

    method NewToplevel(context: Option<Context>) returns (id: ToplevelId)
      modifies this
      ensures Abs() == Binding.NewToplevel(old(Abs()), context) && id == nextId
    {
      nextId := nextId + 1;
      id := nextId;
      toplevels := toplevels[id := Toplevel(false, None, None, false, "", context)];
    }

    method ToplevelDestroyed(t: ToplevelId, applied: seq<Update>)
      modifies this
      ensures Abs() == Binding.ToplevelDestroyed(old(Abs()), t, applied)
    {
      hide Unbind;
      if t in toplevels && toplevels[t].view.Some? {
        UnbindView(toplevels[t].view.value, applied);
      }
      toplevels := toplevels - {t};
    }

    method AnyNames(token: Token) returns (wanted: bool)
      ensures wanted <==> exists u :: Names(Abs(), u, token)
    {
      wanted := false;
      var left := views.Keys;
      while left != {}
        invariant left <= views.Keys
        invariant wanted <==> exists u :: u in views && u !in left && Names(Abs(), u, token)
        decreases left
      {
        var v := AnyOf(left);
        left := left - {v};
        if views[v].params.token == Some(token) {
          assert Names(Abs(), v, token);
          wanted := true;
        }
      }
    }

    /** A client activates a surface, with its toplevel's id if it has one. */
    method RequestActivation(t: Option<ToplevelId>, token: Token, applied: seq<Update>)
      modifies this
      ensures Abs() == Binding.RequestActivation(old(Abs()), t, token, applied)
    {
      hide BindWaiting, Unbind;
      // Without a token of the server's or a toplevel, bindings are left alone.
      if token !in issued || t.None? { return; }
      // Used up, whether or not the toplevel is still there.
      issued := issued - {token};
      if t.value !in toplevels { return; }
      toplevels := toplevels[t.value := toplevels[t.value].(token := Some(token))];
      if toplevels[t.value].view.Some? {
        var v := toplevels[t.value].view.value;
        // The view it has keeps it if that names the token, or if none does.
        if v in views && views[v].params.token == Some(token) { return; }
        var wanted := AnyNames(token);
        assert forall u :: Names(Abs(), u, token) <==> Names(old(Abs()), u, token);
        if !wanted { return; }
        UnbindView(v, applied);
      }
      BindWaitingViews();
    }
  }
}

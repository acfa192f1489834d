/** Which toplevel a view gets, in terms of what the app asked for, what the client says it is and where it runs. */
module BindingChoice {
  import opened Basics
  import opened Binding
  import opened BindingProofs

  /** What is asked of a toplevel for a view: it has content and is no dialog. A view that names a sandbox shows only
      what runs in that one. A toplevel activated with a token is for the view naming it, and such a view for no other.
      Where there is no token on either side, a view that names an app shows only what claims to be that app, and a
      client in a sandbox may claim only the app its sandbox is of. */
  ghost predicate Answers(p: Params, t: Toplevel) {
    && t.mapped && !t.dialog
    && (p.sandbox == None || exists c :: t.context == Some(c) && c.appId == p.sandbox)
    && ((p.token == None && t.token == None) || exists token :: p.token == Some(token) && t.token == Some(token))
    && (p.token == None && p.appId != None ==>
         Some(t.claimed) == p.appId && forall c :: t.context == Some(c) ==> c.appId == p.appId)
  }

  ghost predicate Offered(s: Tables, v: ViewId, t: ToplevelId) {
    v in s.views && t in s.toplevels && s.toplevels[t].view == None && Answers(s.views[v].params, s.toplevels[t])
  }

  lemma AnswersIs(p: Params, t: Toplevel)
    ensures Suits(p, t) <==> Answers(p, t)
  {
    if t.context.Some? { assert t.context == Some(t.context.value); }
    if p.token.Some? { assert p.token == Some(p.token.value); }
  }

  lemma OfferedIs(s: Tables, v: ViewId, t: ToplevelId)
    ensures Eligible(s, v, t) <==> Offered(s, v, t)
  {
    if v in s.views && t in s.toplevels { AnswersIs(s.views[v].params, s.toplevels[t]); }
    hide Suits, Answers;
  }

  /** The two tables with the view showing the toplevel. */
  ghost function Paired(s: Tables, v: ViewId, t: ToplevelId): Tables
    requires v in s.views && t in s.toplevels
  {
    var view := View(s.views[v].params, Some(t), s.views[v].frames, s.views[v].held);
    var was := s.toplevels[t];
    var toplevel := Toplevel(was.mapped, Some(v), was.token, was.dialog, was.claimed, was.context);
    Tables(s.views[v := view], s.toplevels[t := toplevel], s.nextId, s.hinted, s.issued)
  }

  /** A view that waits gets the oldest toplevel offered to it, and nothing else changes; where none is, nothing does.
      One that shows something is left alone. */
  lemma BindsFirst(s: Tables, v: ViewId)
    requires Kept(s)
    ensures var s' := TryBind(s, v);
            && (forall t: ToplevelId :: v in s.views && s.views[v].toplevel == None && Offered(s, v, t)
                                        && (forall u: ToplevelId :: Offered(s, v, u) ==> t <= u) ==>
                  s' == Paired(s, v, t))
            && (v !in s.views || s.views[v].toplevel != None || (forall t: ToplevelId :: !Offered(s, v, t)) ==> s' == s)
  {
    hide Suits, Answers;
    forall t: ToplevelId ensures Eligible(s, v, t) <==> Offered(s, v, t) { OfferedIs(s, v, t); }
    var found := Oldest(s, v, 0);
    if found.Some? { assert Offered(s, v, found.value); }
    hide Offered;
    forall t: ToplevelId | Eligible(s, v, t) ensures t <= s.nextId {}
  }

  /** The toplevel is taken by a view with a lower id that waited too. */
  ghost predicate Taken(s: Tables, s': Tables, v: ViewId, t: ToplevelId) {
    exists u :: u < v && u in s.views && s.views[u].toplevel == None && u in s'.views && s'.views[u].toplevel == Some(t)
  }

  /** The waiting view got the oldest toplevel offered to it that no lower one took, or there was none. */
  ghost predicate GotFirst(s: Tables, s': Tables, v: ViewId)
    requires v in s'.views
  {
    match s'.views[v].toplevel
    case None => forall t: ToplevelId :: Offered(s, v, t) ==> Taken(s, s', v, t)
    case Some(t) =>
      && Offered(s, v, t) && !Taken(s, s', v, t) && t in s'.toplevels && s'.toplevels[t].view == Some(v)
      && forall u: ToplevelId :: Offered(s, v, u) && !Taken(s, s', v, u) ==> t <= u
  }

  /** All waiting views are served at once: each gets the oldest toplevel offered to it that no lower one takes, and
      none exactly when there is no such toplevel. */
  lemma AllBindFirst(s: Tables)
    requires Kept(s)
    ensures var s' := BindWaiting(s);
            OnlyBinds(s, s') && forall v :: v in s.views && s.views[v].toplevel == None ==> GotFirst(s, s', v)
  {
    WaitingServed(s);
    var s', ids := BindWaiting(s), Ordered(WaitingViews(s));
    forall u ensures u in ids <==> Waiting(s, u) {}
    hide BindWaiting, GotFirst, Kept, Served;
    forall v | Waiting(s, v) ensures GotFirst(s, s', v) { ServedFirst(s, s', ids, v); }
  }

  lemma ServedFirst(s: Tables, s': Tables, ids: seq<ViewId>, v: ViewId)
    requires Kept(s') && OnlyBinds(s, s') && Waiting(s, v) && Served(s, s', ids, v)
    requires forall u :: u in ids <==> Waiting(s, u)
    ensures GotFirst(s, s', v)
  {
    if s'.views[v].toplevel.Some? { ShownBack(s', v); }
    hide Kept, Left, Offered, Taken;
    forall t: ToplevelId ensures Left(s, s', ids, v, t) <==> Offered(s, v, t) && !Taken(s, s', v, t) {
      LeftIs(s, s', ids, v, t);
    }
  }

  lemma ShownBack(s: Tables, v: ViewId)
    requires Kept(s) && v in s.views && s.views[v].toplevel.Some?
    ensures var t := s.views[v].toplevel.value; t in s.toplevels && s.toplevels[t].view == Some(v)
  {
  }

  lemma LeftIs(s: Tables, s': Tables, ids: seq<ViewId>, v: ViewId, t: ToplevelId)
    requires s'.views.Keys == s.views.Keys && forall u :: u in ids <==> Waiting(s, u)
    ensures Left(s, s', ids, v, t) <==> Offered(s, v, t) && !Taken(s, s', v, t)
  {
    OfferedIs(s, v, t);
    hide Offered, Eligible;
  }
}

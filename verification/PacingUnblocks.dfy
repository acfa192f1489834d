/** Who is told when something clears: a barrier signaled or a timer fired has its client unblocked in the same step,
    so that what waited on it is applied. There are two exceptions, a loose barrier pushed out by the bound on their
    list and a barrier in a frame that outlived its binding, and both are exact. No one else is told, but the client
    of the view that such a frame is in. */
module PacingUnblocks {
  import opened Basics
  import opened FrameClocks
  import opened FrameQueues
  import opened MultisetSums
  import opened PacingSpec
  import opened PacingLists
  import opened PacingLedger
  import opened PacingUnbinding

  /** Whose each barrier is. One whose client is gone is nobody's. */
  type Owners = map<Barrier, Client>

  // ----- what is owned -----

  predicate Hands(owner: Owners, client: Option<Client>, b: Barrier) {
    if client.Some? then b in owner && owner[b] == client.value else b !in owner
  }

  predicate Handed(owner: Owners, client: Option<Client>, barriers: seq<Barrier>) {
    forall b :: b in barriers ==> Hands(owner, client, b)
  }

  predicate OwnUpdate(owner: Owners, s: Pacing, u: Update) {
    match u
    case Unshown(client, taken) => Handed(owner, client, taken.barriers)
    case Submit(v, taken, _, _) => v in s.views && s.views[v].bound ==> Handed(owner, s.views[v].client, taken.barriers)
    case Bind(_, _) => true
  }

  ghost predicate OwnUpdates(owner: Owners, s: Pacing, us: seq<Update>, now: Instant, inserted: bool)
    decreases |us|
  {
    || us == []
    || (OwnUpdate(owner, s, us[0]) && OwnUpdates(owner, Applied(s, us[0], now, inserted), us[1..], now, inserted))
  }

  ghost predicate OwnUnbinding(owner: Owners, s: Pacing, v: ViewId, applied: seq<Update>, now: Instant,
                               inserted: bool) {
    DropTells(s, v) ==> OwnUpdates(owner, DropFrames(s, v), applied, now, inserted)
  }

  /** What the clients hand over is their own. */
  ghost predicate OwnEvent(owner: Owners, s: Pacing, e: Event) {
    match e.action
    case Apply(u) => OwnUpdate(owner, s, u)
    case Unbind(v, _, applied) => OwnUnbinding(owner, s, v, applied, e.now, e.inserted)
    case Create(v, _, applied) => OwnUnbinding(owner, s, v, applied, e.now, e.inserted)
    case Dispose(v, _, applied) => OwnUnbinding(owner, s, v, applied, e.now, e.inserted)
    case _ => true
  }

  ghost predicate LooseOwned(owner: Owners, loose: seq<Loose>) {
    forall l :: l in loose ==> l.barrier in owner && owner[l.barrier] == l.client
  }

  /** The barrier is no one else's than the client of the view. */
  predicate Owns(owner: Owners, e: ViewEntry, b: Barrier) {
    b in owner ==> e.client == Some(owner[b])
  }

  /** The barriers in frames of a view that is not their client's, as they are once frames outlive their binding. */
  ghost function Strays(owner: Owners, s: Pacing): set<Barrier> {
    set v, b | v in s.views && b in BarriersOf(s.views[v].frames) && !Owns(owner, s.views[v], b) :: b
  }

  /** The barriers pushed out of the loose list: the oldest, as many as there are too many. */
  ghost function Overflow(s: Pacing, client: Option<Client>, barriers: seq<Barrier>, now: Instant): set<Barrier> {
    if barriers == [] || client.None? then {}
    else
      var all := s.loose + LooseOf(client.value, barriers, s.clock.NextVblank(now));
      set l | l in all[..if |all| > 256 then |all| - 256 else 0] :: l.barrier
  }

  ghost function OverflowOf(s: Pacing, u: Update, now: Instant): set<Barrier> {
    match u
    case Unshown(client, taken) => Overflow(s, client, taken.barriers, now)
    case Submit(v, taken, shown, _) =>
      if v in s.views && s.views[v].bound && shown.None? then Overflow(s, s.views[v].client, taken.barriers, now)
      else {}
    case Bind(_, _) => {}
  }

  ghost function OverflowBy(s: Pacing, us: seq<Update>, now: Instant, inserted: bool): set<Barrier>
    decreases |us|
  {
    if us == [] then {}
    else OverflowOf(s, us[0], now) + OverflowBy(Applied(s, us[0], now, inserted), us[1..], now, inserted)
  }

  ghost function OverflowUnbinding(s: Pacing, v: ViewId, applied: seq<Update>, now: Instant,
                                   inserted: bool): set<Barrier> {
    if DropTells(s, v) then OverflowBy(DropFrames(s, v), applied, now, inserted) else {}
  }

  ghost function OverflowAt(s: Pacing, e: Event): set<Barrier> {
    match e.action
    case Apply(u) => OverflowOf(s, u, e.now)
    case Unbind(v, _, applied) => OverflowUnbinding(s, v, applied, e.now, e.inserted)
    case Create(v, _, applied) => OverflowUnbinding(s, v, applied, e.now, e.inserted)
    case Dispose(v, _, applied) => OverflowUnbinding(s, v, applied, e.now, e.inserted)
    case _ => {}
  }

  /** The list overflows exactly when its bound is exceeded. */
  lemma OverflowIff(s: Pacing, client: Option<Client>, barriers: seq<Barrier>, now: Instant)
    ensures Overflow(s, client, barriers, now) != {} <==>
              barriers != [] && client.Some? && |s.loose| + |barriers| > 256
  {
    if barriers != [] && client.Some? && |s.loose| + |barriers| > 256 {
      var all := s.loose + LooseOf(client.value, barriers, s.clock.NextVblank(now));
      assert all[0] in all[..|all| - 256];
      assert all[0].barrier in Overflow(s, client, barriers, now);
    }
  }

  // ----- what an operation settles -----

  ghost predicate Signals(s: Pacing, s': Pacing, b: Barrier) { s'.signaled[b] > s.signaled[b] }

  ghost predicate Tells(s: Pacing, s': Pacing, c: Client) { s'.unblocked[c] > s.unblocked[c] }

  /** A timer of the surface was cleared. */
  ghost predicate Fires(s: Pacing, s': Pacing, x: SurfaceId) {
    x in s.surfaces && x in s'.surfaces && |s'.surfaces[x].timers| < |s.surfaces[x].timers|
  }

  ghost predicate OfClient(s: Pacing, x: SurfaceId, c: Client) { x in s.surfaces && s.surfaces[x].client == Some(c) }

  ghost predicate OnlyClears(s: Pacing, s': Pacing) {
    && (forall b: Barrier :: s.signaled[b] <= s'.signaled[b])
    && (forall c: Client :: s.unblocked[c] <= s'.unblocked[c])
    && s'.surfaces.Keys == s.surfaces.Keys
    && (forall x :: x in s.surfaces ==>
         s'.surfaces[x].client == s.surfaces[x].client && |s'.surfaces[x].timers| <= |s.surfaces[x].timers|)
    && (forall x :: x in s'.timed ==> x in s.timed)
  }

  ghost predicate InFrameOf(s: Pacing, b: Barrier, c: Client) {
    exists v :: v in s.views && b in BarriersOf(s.views[v].frames) && s.views[v].client == Some(c)
  }

  /** The barrier was in a frame of an unbound view that has since been bound to a toplevel of c. */
  ghost predicate InFrameJoined(s: Pacing, s': Pacing, b: Barrier, c: Client) {
    exists v :: v in s.views && v in s'.views && b in BarriersOf(s.views[v].frames)
             && !s.views[v].bound && s'.views[v].client == Some(c)
  }

  /** The barrier is the client's, or in a frame of a view that is, or comes to be. */
  ghost predicate Concerns(owner: Owners, s: Pacing, s': Pacing, b: Barrier, c: Client) {
    (b in owner && owner[b] == c) || InFrameOf(s, b, c) || InFrameJoined(s, s', b, c)
  }

  /** What c is told for: a barrier that concerns it was signaled, or a timer of its own was cleared, or the clock could
      not be armed while a surface of its was listed. */
  ghost predicate Cause(owner: Owners, s: Pacing, s': Pacing, inserted: bool, c: Client) {
    || (exists b :: Signals(s, s', b) && Concerns(owner, s, s', b, c))
    || (exists x :: Fires(s, s', x) && OfClient(s, x, c))
    || (!inserted && exists x :: x in s.timed && OfClient(s, x, c))
  }

  ghost predicate BarriersTell(owner: Owners, s: Pacing, s': Pacing, except: set<Barrier>) {
    forall b :: Signals(s, s', b) && b in owner && b !in except ==> Tells(s, s', owner[b])
  }

  ghost predicate TimersTell(s: Pacing, s': Pacing) {
    forall x, c :: Fires(s, s', x) && OfClient(s, x, c) ==> Tells(s, s', c)
  }

  ghost predicate ToldForCause(owner: Owners, s: Pacing, s': Pacing, inserted: bool) {
    forall c :: Tells(s, s', c) ==> Cause(owner, s, s', inserted, c)
  }

  ghost predicate Settles(owner: Owners, s: Pacing, s': Pacing, except: set<Barrier>, inserted: bool) {
    && OnlyClears(s, s')
    && BarriersTell(owner, s, s', except) && TimersTell(s, s') && ToldForCause(owner, s, s', inserted)
  }

  /** The view has the client it had, unless it was unbound. */
  predicate SameClient(e: ViewEntry, e': ViewEntry) {
    (e'.bound == e.bound && e'.client == e.client) || (!e.bound && e.client.None?)
  }

  /** A view's barriers after an operation were in it before, or are handed over to it. */
  ghost predicate Inherits(owner: Owners, s: Pacing, s': Pacing, v: ViewId)
    requires v in s'.views
  {
    && v in s.views && SameClient(s.views[v], s'.views[v])
    && forall b :: b in BarriersOf(s'.views[v].frames) ==>
         b in BarriersOf(s.views[v].frames) || (s'.views[v].bound && Hands(owner, s'.views[v].client, b))
  }

  ghost predicate Follows(owner: Owners, s: Pacing, s': Pacing) {
    s'.views.Keys == s.views.Keys && forall v :: v in s'.views ==> Inherits(owner, s, s', v)
  }

  lemma FollowsOn(owner: Owners, a: Pacing, b: Pacing, c: Pacing)
    requires Follows(owner, a, b) && Follows(owner, b, c)
    ensures Follows(owner, a, c)
  {
    hide BarriersOf;
    forall v | v in c.views ensures Inherits(owner, a, c, v) {
      assert Inherits(owner, b, c, v) && Inherits(owner, a, b, v);
    }
  }

  lemma SettlesOn(owner: Owners, a: Pacing, b: Pacing, c: Pacing, except: set<Barrier>, inserted: bool)
    requires Settles(owner, a, b, except, inserted) && Settles(owner, b, c, except, inserted)
    requires Follows(owner, a, b) && Follows(owner, b, c)
    ensures Settles(owner, a, c, except, inserted) && Follows(owner, a, c)
  {
    FollowsOn(owner, a, b, c);
    FollowsItself(owner, a);
    FollowsItself(owner, c);
    hide Follows, Concerns;
    forall x, k | Fires(a, c, x) && OfClient(a, x, k) ensures Tells(a, c, k) {
      assert Fires(a, b, x) || Fires(b, c, x);
      assert OfClient(b, x, k);
    }
    forall i | Signals(a, c, i) && i in owner && i !in except ensures Tells(a, c, owner[i]) {
      assert Signals(a, b, i) || Signals(b, c, i);
    }
    forall k | Tells(a, c, k) ensures Cause(owner, a, c, inserted, k) {
      if Tells(a, b, k) {
        CauseStands(owner, a, b, a, c, inserted, k);
      } else {
        assert Tells(b, c, k);
        CauseStands(owner, b, c, a, c, inserted, k);
      }
    }
  }

  /** A cause within part of a way is one for the whole. */
  lemma CauseStands(owner: Owners, p: Pacing, q: Pacing, a: Pacing, c: Pacing, inserted: bool, k: Client)
    requires OnlyClears(a, p) && OnlyClears(p, q) && OnlyClears(q, c)
    requires Follows(owner, a, p) && Follows(owner, p, q) && Follows(owner, q, c)
    requires Cause(owner, p, q, inserted, k)
    ensures Cause(owner, a, c, inserted, k)
  {
    hide Concerns, Follows;
    if i :| Signals(p, q, i) && Concerns(owner, p, q, i, k) {
      assert Signals(a, c, i);
      ConcernStands(owner, p, q, a, c, i, k);
    } else if x :| Fires(p, q, x) && OfClient(p, x, k) {
      assert Fires(a, c, x) && OfClient(a, x, k);
    } else {
      var x :| x in p.timed && OfClient(p, x, k);
      assert x in a.timed && OfClient(a, x, k);
    }
  }

  /** What is in a frame of the client's within part of a way is its own, or was there from the start. */
  lemma ConcernStands(owner: Owners, p: Pacing, q: Pacing, a: Pacing, c: Pacing, b: Barrier, k: Client)
    requires Follows(owner, a, p) && Follows(owner, p, q) && Follows(owner, q, c) && Concerns(owner, p, q, b, k)
    ensures Concerns(owner, a, c, b, k)
  {
    hide BarriersOf;
    if !(b in owner && owner[b] == k) {
      var v :| v in p.views && b in BarriersOf(p.views[v].frames)
            && (p.views[v].client == Some(k) || (!p.views[v].bound && v in q.views && q.views[v].client == Some(k)));
      assert Inherits(owner, a, p, v) && Inherits(owner, p, q, v) && Inherits(owner, q, c, v);
      assert b in BarriersOf(a.views[v].frames);
    }
  }

  lemma FollowsItself(owner: Owners, s: Pacing)
    ensures Follows(owner, s, s)
  {
    hide BarriersOf;
  }

  /** More may be excepted. */
  lemma SettlesMore(owner: Owners, s: Pacing, s': Pacing, except: set<Barrier>, more: set<Barrier>, inserted: bool)
    requires Settles(owner, s, s', except, inserted) && except <= more
    ensures Settles(owner, s, s', more, inserted)
  {
  }

  ghost predicate ClearedBy(s: Pacing, s': Pacing, barriers: multiset<Barrier>, clients: set<Client>) {
    s'.signaled == s.signaled + barriers && s'.unblocked == s.unblocked + multiset(clients)
  }

  ghost predicate TimersOnly(s: Pacing, s': Pacing) {
    && s'.surfaces.Keys == s.surfaces.Keys
    && (forall x :: x in s.surfaces ==>
         s'.surfaces[x].client == s.surfaces[x].client && |s'.surfaces[x].timers| <= |s.surfaces[x].timers|)
    && (forall x :: x in s'.timed ==> x in s.timed)
  }

  /** The owners of the barriers are among the clients. */
  ghost predicate OwnersIn(owner: Owners, barriers: multiset<Barrier>, except: set<Barrier>, clients: set<Client>) {
    forall b :: b in barriers && b in owner && b !in except ==> owner[b] in clients
  }

  /** For every client there is one of the barriers that is its own, or in a frame of a view of its. */
  ghost predicate AllOwn(owner: Owners, s: Pacing, barriers: multiset<Barrier>, clients: set<Client>) {
    forall c :: c in clients ==> exists b :: b in barriers && ((b in owner && owner[b] == c) || InFrameOf(s, b, c))
  }

  /** The clients whose timers fire are told, and clients are told only for that, or with the clock out of order. */
  ghost predicate TimersTellAll(s: Pacing, s': Pacing, inserted: bool, clients: set<Client>) {
    && (forall x, c :: Fires(s, s', x) && OfClient(s, x, c) ==> c in clients)
    && (forall c :: c in clients ==>
         || (exists x :: Fires(s, s', x) && OfClient(s, x, c))
         || (!inserted && exists x :: x in s.timed && OfClient(s, x, c)))
  }

  /** Signaling some barriers and clearing some timers, and telling the clients of both. */
  lemma SettlesBy(owner: Owners, s: Pacing, s': Pacing, except: set<Barrier>, inserted: bool,
                  barriers: multiset<Barrier>, owners: set<Client>, timers: set<Client>)
    requires ClearedBy(s, s', barriers, owners + timers) && TimersOnly(s, s')
    requires OwnersIn(owner, barriers, except, owners) && AllOwn(owner, s, barriers, owners)
    requires TimersTellAll(s, s', inserted, timers)
    ensures Settles(owner, s, s', except, inserted)
  {
    var all := owners + timers;
    WhoIsTold(s, s', barriers, all);
    hide ClearedBy, Fires, OfClient, Signals, Tells;
    assert OnlyClears(s, s');
    hide TimersOnly, OnlyClears, InFrameOf;
    forall c | c in all ensures Cause(owner, s, s', inserted, c) {
      if c in owners {
        var b :| b in barriers && ((b in owner && owner[b] == c) || InFrameOf(s, b, c));
        assert Signals(s, s', b);
      }
    }
  }

  lemma WhoIsTold(s: Pacing, s': Pacing, barriers: multiset<Barrier>, clients: set<Client>)
    requires ClearedBy(s, s', barriers, clients)
    ensures forall b: Barrier :: s.signaled[b] <= s'.signaled[b] && (Signals(s, s', b) <==> b in barriers)
    ensures forall c: Client :: s.unblocked[c] <= s'.unblocked[c] && (Tells(s, s', c) <==> c in clients)
  {
  }

  lemma BothOwn(owner: Owners, s: Pacing, a: multiset<Barrier>, b: multiset<Barrier>, except: set<Barrier>,
                c: set<Client>, d: set<Client>)
    requires OwnersIn(owner, a, except, c) && AllOwn(owner, s, a, c)
    requires OwnersIn(owner, b, except, d) && AllOwn(owner, s, b, d)
    ensures OwnersIn(owner, a + b, except, c + d) && AllOwn(owner, s, a + b, c + d)
  {
    hide InFrameOf;
  }

  lemma Unchanged(owner: Owners, s: Pacing, s': Pacing, except: set<Barrier>, inserted: bool)
    requires s'.signaled == s.signaled && s'.unblocked == s.unblocked && s'.surfaces == s.surfaces
    requires s'.timed == s.timed
    ensures Settles(owner, s, s', except, inserted)
  {
  }

  // ----- where barriers are -----

  lemma {:induction false} InBarriersOf(fs: seq<Frame>, b: Barrier)
    ensures b in BarriersOf(fs) <==> exists f :: f in fs && b in f.barriers
  {
    if fs != [] {
      InBarriersOf(fs[1..], b);
      assert fs == [fs[0]] + fs[1..];
    }
  }

  lemma {:induction false} InBarriersOlder(fs: seq<Frame>, before: nat, b: Barrier)
    ensures b in BarriersOlder(fs, before) ==> b in BarriersOf(fs)
  {
    if fs != [] { InBarriersOlder(fs[1..], before, b); }
  }

  lemma StraysFollow(owner: Owners, s: Pacing, s': Pacing)
    requires Follows(owner, s, s')
    ensures Strays(owner, s') <= Strays(owner, s)
  {
    hide BarriersOf, Inherits, Owns;
    forall v, b | v in s'.views && b in BarriersOf(s'.views[v].frames) && !Owns(owner, s'.views[v], b)
      ensures b in Strays(owner, s)
    {
      StrayFollows(owner, s, s', v, b);
    }
  }

  lemma StrayFollows(owner: Owners, s: Pacing, s': Pacing, v: ViewId, b: Barrier)
    requires v in s'.views && Inherits(owner, s, s', v)
    requires b in BarriersOf(s'.views[v].frames) && !Owns(owner, s'.views[v], b)
    ensures v in s.views && b in BarriersOf(s.views[v].frames) && !Owns(owner, s.views[v], b)
  {
    hide BarriersOf;
  }

  lemma FewerBarriers(fs: seq<Frame>, fs': seq<Frame>)
    requires forall f :: f in fs' ==> exists g :: g in fs && f.barriers <= g.barriers
    ensures forall b :: b in BarriersOf(fs') ==> b in BarriersOf(fs)
  {
    forall b | b in BarriersOf(fs') ensures b in BarriersOf(fs) {
      InBarriersOf(fs', b);
      InBarriersOf(fs, b);
    }
  }

  lemma ReleasedFewer(fs: seq<Frame>, before: nat)
    ensures forall b :: b in BarriersOf(ReleasedOlder(fs, before)) ==> b in BarriersOf(fs)
  {
    var fs' := ReleasedOlder(fs, before);
    forall f | f in fs' ensures exists g :: g in fs && f.barriers <= g.barriers {
      var i :| 0 <= i < |fs'| && fs'[i] == f;
      assert fs[i] in fs && f.barriers <= fs[i].barriers;
    }
    FewerBarriers(fs, fs');
  }

  lemma LooseAre(loose: seq<Loose>)
    ensures forall b :: b in multiset(LooseBarriers(loose)) <==> exists l :: l in loose && l.barrier == b
  {
    forall b | b in LooseBarriers(loose) ensures exists l :: l in loose && l.barrier == b {
      var i :| 0 <= i < |loose| && LooseBarriers(loose)[i] == b;
      assert loose[i] in loose;
    }
    forall l | l in loose ensures l.barrier in LooseBarriers(loose) {
      var i :| 0 <= i < |loose| && loose[i] == l;
      assert LooseBarriers(loose)[i] == l.barrier;
    }
  }

  lemma {:induction false} TimersShrink(timers: seq<U64>, until: U64)
    ensures |TimersAfter(timers, until)| <= |timers|
    ensures TimersAfter(timers, until) != timers ==> |TimersAfter(timers, until)| < |timers|
  {
    if timers != [] { TimersShrink(timers[1..], until); }
  }

  // ----- the clock -----

  /** Releasing some barriers of each view, and telling the clients of the views with any. */
  ghost predicate RowsFrom(s: Pacing, rows: map<ViewId, multiset<Barrier>>, ids: set<ViewId>) {
    && rows.Keys == s.views.Keys && ids <= rows.Keys
    && (forall v, b :: v in rows && b in rows[v] ==> b in BarriersOf(s.views[v].frames))
    && (forall v, b :: v in rows && b in rows[v] ==> v in ids)
    && (forall v :: v in ids ==> exists b :: b in rows[v])
  }

  lemma RowsTell(owner: Owners, s: Pacing, rows: map<ViewId, multiset<Barrier>>, ids: set<ViewId>)
    requires RowsFrom(s, rows, ids)
    ensures OwnersIn(owner, Total(rows), Strays(owner, s), ViewClients(s.views, ids))
    ensures AllOwn(owner, s, Total(rows), ViewClients(s.views, ids))
  {
    hide BarriersOf, TotalOver;
    forall b | b in Total(rows) && b in owner && b !in Strays(owner, s) ensures owner[b] in ViewClients(s.views, ids) {
      var v := RowOf(rows, rows.Keys, b);
      assert Owns(owner, s.views[v], b);
    }
    forall c | c in ViewClients(s.views, ids)
      ensures exists b :: b in Total(rows) && InFrameOf(s, b, c)
    {
      var v :| v in ids && v in s.views && s.views[v].client == Some(c);
      var b :| b in rows[v];
      RowInTotal(rows, v, b);
      assert InFrameOf(s, b, c);
    }
  }

  /** Signaling the barriers of some loose entries, and telling their clients. */
  lemma LooseTell(owner: Owners, s: Pacing, loose: seq<Loose>, except: set<Barrier>)
    requires LooseOwned(owner, loose)
    ensures OwnersIn(owner, multiset(LooseBarriers(loose)), except, LooseClients(loose))
    ensures AllOwn(owner, s, multiset(LooseBarriers(loose)), LooseClients(loose))
  {
    hide LooseBarriers, InFrameOf;
    LooseAre(loose);
    forall c | c in LooseClients(loose)
      ensures exists b :: b in multiset(LooseBarriers(loose)) && b in owner && owner[b] == c
    {
      var l :| l in loose && l.client == c;
      assert l.barrier in multiset(LooseBarriers(loose));
    }
  }

  lemma CutsOnly(surfaces: map<SurfaceId, Surface>, timed: seq<SurfaceId>, until: U64)
    ensures var cut := TimersCut(surfaces, timed, until);
            && cut.Keys == surfaces.Keys
            && forall x :: x in surfaces ==>
                 && cut[x].client == surfaces[x].client && |cut[x].timers| <= |surfaces[x].timers|
                 && (|cut[x].timers| < |surfaces[x].timers| <==>
                       x in timed && TimersAfter(surfaces[x].timers, until) != surfaces[x].timers)
  {
    forall x | x in surfaces
      ensures |TimersAfter(surfaces[x].timers, until)| <= |surfaces[x].timers|
      ensures TimersAfter(surfaces[x].timers, until) != surfaces[x].timers ==>
                |TimersAfter(surfaces[x].timers, until)| < |surfaces[x].timers|
    {
      TimersShrink(surfaces[x].timers, until);
    }
    hide TimersAfter;
  }

  lemma ReleasedRowsAre(s: Pacing)
    ensures RowsFrom(s, EveryReleasedRows(s.views), HoldingViews(s.views))
  {
    var rows := EveryReleasedRows(s.views);
    forall v, b | v in rows && b in rows[v] ensures b in BarriersOf(s.views[v].frames) {
      InBarriersOlder(s.views[v].frames, MAX_U64, b);
    }
    hide BarriersOlder, BarriersOf;
    forall v | v in HoldingViews(s.views) ensures exists b :: b in rows[v] {
      assert BarriersOlder(s.views[v].frames, MAX_U64)[0] in rows[v];
    }
  }

  lemma ReleasedFollows(owner: Owners, s: Pacing)
    ensures Follows(owner, s, ReleaseEverything(s))
  {
    hide BarriersOf, ReleasedOlder, LooseBarriers, EveryReleasedRows, TotalOver, TimersCut;
    var s' := ReleaseEverything(s);
    forall v | v in s'.views ensures Inherits(owner, s, s', v) {
      ReleasedFewer(s.views[v].frames, MAX_U64);
    }
  }

  lemma DrainedTimers(s: Pacing)
    ensures TimersOnly(s, ReleaseEverything(s))
    ensures TimersTellAll(s, ReleaseEverything(s), false, SurfaceClients(s.surfaces, s.timed))
  {
    CutsOnly(s.surfaces, s.timed, MAX_U64);
    hide TimersCut, TimersAfter, LooseBarriers, EveryReleasedRows, EveryReleased, TotalOver, Callable;
  }

  lemma ReleaseEverythingSettles(owner: Owners, s: Pacing)
    requires LooseOwned(owner, s.loose)
    ensures var s' := ReleaseEverything(s);
            Settles(owner, s, s', Strays(owner, s), false) && LooseOwned(owner, s'.loose)
  {
    ReleasedRowsAre(s);
    DrainedTimers(s);
    hide BarriersOf, TotalOver, LooseBarriers, TimersCut, EveryReleasedRows, EveryReleased, HoldingViews, ViewClients,
      SurfaceClients, Strays, Settles, LooseClients, RowsFrom, OwnersIn, AllOwn, TimersTellAll, TimersOnly, Callable;
    var loose, held := multiset(LooseBarriers(s.loose)), Total(EveryReleasedRows(s.views));
    var looseClients, viewClients := LooseClients(s.loose), ViewClients(s.views, HoldingViews(s.views));
    RowsTell(owner, s, EveryReleasedRows(s.views), HoldingViews(s.views));
    LooseTell(owner, s, s.loose, Strays(owner, s));
    BothOwn(owner, s, loose, held, Strays(owner, s), looseClients, viewClients);
    assert WaitingClients(s) == (looseClients + viewClients) + SurfaceClients(s.surfaces, s.timed);
    SettlesBy(owner, s, ReleaseEverything(s), Strays(owner, s), false, loose + held, looseClients + viewClients,
              SurfaceClients(s.surfaces, s.timed));
  }

  lemma ScheduleSettles(owner: Owners, s: Pacing, at: nat, inserted: bool)
    requires LooseOwned(owner, s.loose)
    ensures var s' := ScheduleTick(s, at, inserted);
            && Settles(owner, s, s', Strays(owner, s), inserted)
            && Follows(owner, s, s') && LooseOwned(owner, s'.loose)
  {
    var s1, s' := s.(tick := None), ScheduleTick(s, at, inserted);
    SameViews(owner, s, s1);
    hide ReleaseEverything, Strays, LooseOwned, Follows;
    if (s.tick.Some? && s.tick.value <= at) || inserted {
      SameViews(owner, s, s');
      Unchanged(owner, s, s', Strays(owner, s), inserted);
    } else {
      Unchanged(owner, s, s1, Strays(owner, s), inserted);
      hide Settles;
      ReleaseEverythingSettles(owner, s1);
      ReleasedFollows(owner, s1);
      SettlesOn(owner, s, s1, s', Strays(owner, s), inserted);
    }
  }

  lemma SameViews(owner: Owners, s: Pacing, s': Pacing)
    requires s'.views == s.views
    ensures Strays(owner, s') == Strays(owner, s) && Follows(owner, s, s')
  {
    hide BarriersOf;
  }

  /** One operation after another: what it settles, with no new strays and the loose list still owned. */
  ghost predicate Clean(owner: Owners, s: Pacing, s': Pacing, except: set<Barrier>, inserted: bool) {
    && Settles(owner, s, s', Strays(owner, s) + except, inserted)
    && Follows(owner, s, s') && LooseOwned(owner, s'.loose)
  }

  lemma CleanOn(owner: Owners, a: Pacing, b: Pacing, c: Pacing, first: set<Barrier>, second: set<Barrier>,
                inserted: bool)
    requires Clean(owner, a, b, first, inserted) && Clean(owner, b, c, second, inserted)
    ensures Clean(owner, a, c, first + second, inserted)
  {
    hide Settles, Strays, LooseOwned, Follows;
    StraysFollow(owner, a, b);
    var all := Strays(owner, a) + (first + second);
    SettlesMore(owner, a, b, Strays(owner, a) + first, all, inserted);
    SettlesMore(owner, b, c, Strays(owner, b) + second, all, inserted);
    SettlesOn(owner, a, b, c, all, inserted);
  }

  lemma CleanThen(owner: Owners, a: Pacing, b: Pacing, c: Pacing, except: set<Barrier>, inserted: bool)
    requires Clean(owner, a, b, {}, inserted) && Clean(owner, b, c, except, inserted)
    ensures Clean(owner, a, c, except, inserted)
  {
    hide Clean;
    CleanOn(owner, a, b, c, {}, except, inserted);
    assert {} + except == except;
  }

  lemma CleanSame(owner: Owners, s: Pacing, s': Pacing, inserted: bool)
    requires s'.signaled == s.signaled && s'.unblocked == s.unblocked && s'.surfaces == s.surfaces
    requires s'.timed == s.timed
    requires LooseOwned(owner, s'.loose) && Follows(owner, s, s')
    ensures Clean(owner, s, s', {}, inserted)
  {
    hide Strays, Follows, LooseOwned;
    Unchanged(owner, s, s', Strays(owner, s) + {}, inserted);
  }

  lemma ScheduleClean(owner: Owners, s: Pacing, at: nat, inserted: bool)
    requires LooseOwned(owner, s.loose)
    ensures Clean(owner, s, ScheduleTick(s, at, inserted), {}, inserted)
  {
    hide ScheduleTick, Settles, Strays, LooseOwned;
    ScheduleSettles(owner, s, at, inserted);
    assert Strays(owner, s) + {} == Strays(owner, s);
  }

  // ----- the tick -----

  lemma TickedRowsAre(s: Pacing, now: Instant)
    ensures RowsFrom(s, TickReleasedRows(s.views, now), ReleasedViews(s.views, now))
  {
    var rows := TickReleasedRows(s.views, now);
    forall v, b | v in rows && b in rows[v] ensures b in BarriersOf(s.views[v].frames) {
      InBarriersOlder(s.views[v].frames, MAX_U64, b);
      InBarriersOlder(s.views[v].frames, StaleBefore(now), b);
    }
    hide TickReleased, BarriersOf;
    forall v | v in ReleasedViews(s.views, now) ensures exists b :: b in rows[v] {
      assert TickReleased(s.views[v], now)[0] in rows[v];
    }
  }

  lemma TickedFewer(e: ViewEntry, now: Instant)
    ensures forall b :: b in BarriersOf(TickView(e, now).frames) ==> b in BarriersOf(e.frames)
    ensures TickView(e, now).client == e.client && TickView(e, now).bound == e.bound
  {
    hide BarriersOf, ReleasedOlder, FlushedOlder, NextStale;
    ReleasedFewer(e.frames, MAX_U64);
    FlushKeepsBarriers(e.frames, StaleBefore(now));
    ReleasedFewer(FlushedOlder(e.frames, StaleBefore(now)), StaleBefore(now));
  }

  lemma TickedFollows(owner: Owners, s: Pacing, now: Instant)
    ensures Follows(owner, s, TickReleases(s, now))
  {
    var s' := TickReleases(s, now);
    forall v | v in s'.views ensures Inherits(owner, s, s', v) {
      TickedFewer(s.views[v], now);
      hide TickView, BarriersOf;
    }
  }

  lemma TickedTimers(s: Pacing, now: Instant, inserted: bool)
    ensures TimersOnly(s, TickReleases(s, now))
    ensures TimersTellAll(s, TickReleases(s, now), inserted, TimerClients(s.surfaces, s.timed, s.clock.Due(now)))
  {
    var s' := TickReleases(s, now);
    CutsOnly(s.surfaces, s.timed, s.clock.Due(now));
    StillTimedAre(s.timed, s'.surfaces);
    hide TimersCut, TimersAfter, StillTimed, LooseBarriers, LooseDue, UnsubmittedDue, TickViews, TickReleasedRows,
      TotalOver, Callable, FrameClock.Due;
    forall c | c in TimerClients(s.surfaces, s.timed, s.clock.Due(now))
      ensures exists x :: Fires(s, s', x) && OfClient(s, x, c)
    {
      var x :| x in s.timed && x in s.surfaces && s.surfaces[x].client == Some(c)
            && TimersAfter(s.surfaces[x].timers, s.clock.Due(now)) != s.surfaces[x].timers;
      TimerFires(s, now, x);
    }
  }

  lemma TimerFires(s: Pacing, now: Instant, x: SurfaceId)
    requires x in s.timed && x in s.surfaces
    requires TimersAfter(s.surfaces[x].timers, s.clock.Due(now)) != s.surfaces[x].timers
    ensures Fires(s, TickReleases(s, now), x)
  {
    TimersShrink(s.surfaces[x].timers, s.clock.Due(now));
    hide TimersAfter, StillTimed, LooseBarriers, LooseDue, UnsubmittedDue, TickViews, TickReleasedRows, TotalOver,
      Callable, FrameClock.Due;
  }

  lemma TickReleasesClean(owner: Owners, s: Pacing, now: Instant, inserted: bool)
    requires LooseOwned(owner, s.loose)
    ensures Clean(owner, s, TickReleases(s, now), {}, inserted)
  {
    TickedRowsAre(s, now);
    TickedTimers(s, now, inserted);
    TickedFollows(owner, s, now);
    LooseSplit(s.loose, now);
    hide BarriersOf, TotalOver, LooseBarriers, TimersCut, TickReleasedRows, TickViews, ReleasedViews, ViewClients,
      LooseDue, TimerClients, Strays, Settles, LooseClients, RowsFrom, OwnersIn, AllOwn, TimersTellAll, TimersOnly,
      Callable, UnsubmittedDue, StillTimed, FrameClock.Due;
    var due, rows, ids := LooseDue(s.loose, now, true), TickReleasedRows(s.views, now), ReleasedViews(s.views, now);
    RowsTell(owner, s, rows, ids);
    LooseTell(owner, s, due, Strays(owner, s));
    BothOwn(owner, s, multiset(LooseBarriers(due)), Total(rows), Strays(owner, s), LooseClients(due),
            ViewClients(s.views, ids));
    var owners := LooseClients(due) + ViewClients(s.views, ids);
    var timers := TimerClients(s.surfaces, s.timed, s.clock.Due(now));
    assert TickUnblocked(s, now) == owners + timers;
    SettlesBy(owner, s, TickReleases(s, now), Strays(owner, s), inserted, multiset(LooseBarriers(due)) + Total(rows),
              owners, timers);
    assert Strays(owner, s) + {} == Strays(owner, s);
  }

  lemma TickClean(owner: Owners, s: Pacing, now: Instant, inserted: bool)
    requires LooseOwned(owner, s.loose)
    ensures Clean(owner, s, Tick(s, now, inserted), {}, inserted)
  {
    hide TickReleases, ScheduleTick, Settles, Strays, Wakes;
    var s1 := TickReleases(s, now);
    TickReleasesClean(owner, s, now, inserted);
    var wakes := Wakes(s1, now);
    if wakes != {} {
      var at := Max(Least(wakes), now + MIN_DELAY_NS);
      ScheduleClean(owner, s1, at, inserted);
      hide Clean;
      CleanThen(owner, s, s1, ScheduleTick(s1, at, inserted), {}, inserted);
    }
  }

  // ----- updates -----

  /** Barriers signaled with no one told. */
  lemma ClearedSilently(owner: Owners, s: Pacing, s': Pacing, barriers: multiset<Barrier>, except: set<Barrier>,
                        inserted: bool)
    requires s'.signaled == s.signaled + barriers && s'.unblocked == s.unblocked
    requires s'.surfaces == s.surfaces && s'.timed == s.timed && s'.views == s.views
    requires LooseOwned(owner, s'.loose) && forall b :: b in barriers && b in owner ==> b in except
    ensures Clean(owner, s, s', except, inserted)
  {
    SameViews(owner, s, s');
    hide Strays, Settles, LooseOwned;
    SettlesBy(owner, s, s', Strays(owner, s) + except, inserted, barriers, {}, {});
  }

  lemma HoldLooseClean(owner: Owners, s: Pacing, client: Option<Client>, barriers: seq<Barrier>, now: Instant,
                       inserted: bool)
    requires LooseOwned(owner, s.loose) && Handed(owner, client, barriers)
    ensures Clean(owner, s, HoldLoose(s, client, barriers, now, inserted), Overflow(s, client, barriers, now), inserted)
  {
    hide ScheduleTick, Clean, LooseBarriers, FrameClock.NextVblank;
    if barriers == [] || client.None? {
      forall b | b in barriers ensures b !in owner { assert Hands(owner, client, b); }
      ClearedSilently(owner, s, HoldLoose(s, client, barriers, now, inserted), multiset(barriers), {}, inserted);
    } else {
      var due := s.clock.NextVblank(now);
      var all := s.loose + LooseOf(client.value, barriers, due);
      var excess := if |all| > MAX_LOOSE then |all| - MAX_LOOSE else 0;
      var evicted := multiset(LooseBarriers(all[..excess]));
      var s1 := s.(loose := all[excess..], signaled := s.signaled + evicted);
      AllOwned(owner, s.loose, client.value, barriers, due);
      LooseAre(all[..excess]);
      var over := Overflow(s, client, barriers, now);
      assert LooseOwned(owner, s1.loose);
      hide LooseOwned;
      ClearedSilently(owner, s, s1, evicted, over, inserted);
      ScheduleClean(owner, s1, due, inserted);
      CleanOn(owner, s, s1, ScheduleTick(s1, due, inserted), over, {}, inserted);
      assert over + {} == over;
    }
  }

  lemma AllOwned(owner: Owners, loose: seq<Loose>, client: Client, barriers: seq<Barrier>, due: U64)
    requires LooseOwned(owner, loose) && Handed(owner, Some(client), barriers)
    ensures LooseOwned(owner, loose + LooseOf(client, barriers, due))
  {
    forall l | l in LooseOf(client, barriers, due) ensures l.barrier in barriers && l.client == client {}
  }

  lemma NotShownClean(owner: Owners, s: Pacing, client: Option<Client>, taken: Taken, now: Instant, inserted: bool)
    requires LooseOwned(owner, s.loose) && Handed(owner, client, taken.barriers)
    ensures Clean(owner, s, NotShown(s, client, taken, now, inserted), Overflow(s, client, taken.barriers, now),
                  inserted)
  {
    hide HoldLoose, Clean, Handed, LooseOwned;
    var s1 := s.(answers := s.answers + Discards(taken.feedback));
    var over := Overflow(s, client, taken.barriers, now);
    ClearedSilently(owner, s, s1, multiset{}, {}, inserted);
    HoldLooseClean(owner, s1, client, taken.barriers, now, inserted);
    CleanThen(owner, s, s1, HoldLoose(s1, client, taken.barriers, now, inserted), over, inserted);
  }

  /** Frames leaving a view's queue, with its client told. */
  ghost predicate Leaves(s: Pacing, s': Pacing, v: ViewId, gone: seq<Frame>)
    requires v in s.views
  {
    var e := s.views[v];
    && s'.signaled == s.signaled + multiset(BarriersOf(gone))
    && s'.unblocked == (if BarriersOf(gone) != [] && e.client.Some? then s.unblocked + multiset{e.client.value}
                        else s.unblocked)
    && s'.surfaces == s.surfaces && s'.timed == s.timed && s'.loose == s.loose
    && v in s'.views && s'.views == s.views[v := s'.views[v]]
  }

  lemma LeavesClean(owner: Owners, s: Pacing, s': Pacing, v: ViewId, gone: seq<Frame>, inserted: bool)
    requires LooseOwned(owner, s.loose) && v in s.views && Leaves(s, s', v, gone) && Inherits(owner, s, s', v)
    requires forall b :: b in BarriersOf(gone) ==> b in BarriersOf(s.views[v].frames)
    ensures Clean(owner, s, s', {}, inserted)
  {
    hide BarriersOf, Settles, Inherits, LooseOwned, Follows;
    var e := s.views[v];
    var clients := if BarriersOf(gone) != [] && e.client.Some? then {e.client.value} else {};
    assert ClearedBy(s, s', multiset(BarriersOf(gone)), clients + {}) by { ToldOnce(e.client, clients); }
    GoneTell(owner, s, v, BarriersOf(gone), clients);
    OthersInherit(owner, s, s', v);
    assert TimersOnly(s, s') && TimersTellAll(s, s', inserted, {});
    hide Strays, Leaves, ClearedBy, OwnersIn, AllOwn, TimersOnly, TimersTellAll;
    SettlesBy(owner, s, s', Strays(owner, s), inserted, multiset(BarriersOf(gone)), clients, {});
    assert Strays(owner, s) + {} == Strays(owner, s);
  }

  lemma ToldOnce(client: Option<Client>, clients: set<Client>)
    requires clients == {} || (client.Some? && clients == {client.value})
    ensures multiset(clients + {}) == if clients == {} then multiset{} else multiset{client.value}
  {
    assert clients + {} == clients;
  }

  lemma OthersInherit(owner: Owners, s: Pacing, s': Pacing, v: ViewId)
    requires v in s.views && v in s'.views && s'.views == s.views[v := s'.views[v]] && Inherits(owner, s, s', v)
    ensures Follows(owner, s, s')
  {
    hide BarriersOf;
    forall u | u in s'.views && u != v ensures Inherits(owner, s, s', u) {}
    hide Inherits;
  }

  /** The barriers of a view, and its client told of them. */
  lemma GoneTell(owner: Owners, s: Pacing, v: ViewId, barriers: seq<Barrier>, clients: set<Client>)
    requires v in s.views && forall b :: b in barriers ==> b in BarriersOf(s.views[v].frames)
    requires clients == if barriers != [] && s.views[v].client.Some? then {s.views[v].client.value} else {}
    ensures OwnersIn(owner, multiset(barriers), Strays(owner, s), clients)
    ensures AllOwn(owner, s, multiset(barriers), clients)
  {
    hide BarriersOf;
    forall b | b in barriers ensures b in Strays(owner, s) || (b in owner ==> owner[b] in clients) {}
    if clients != {} { assert barriers[0] in barriers && InFrameOf(s, barriers[0], s.views[v].client.value); }
  }

  lemma PrefixBarriers(fs: seq<Frame>, n: nat)
    requires n <= |fs|
    ensures forall b :: b in BarriersOf(fs) <==> b in BarriersOf(fs[..n]) || b in BarriersOf(fs[n..])
  {
    OfConcat(fs[..n], fs[n..]);
    assert fs == fs[..n] + fs[n..];
  }

  lemma PushClean(owner: Owners, s: Pacing, v: ViewId, shown: seq<Content>, taken: Taken, now: Instant, inserted: bool)
    requires LooseOwned(owner, s.loose) && v in s.views && s.views[v].bound
    requires Handed(owner, s.views[v].client, taken.barriers)
    ensures Clean(owner, s, PushFrame(s, v, shown, taken, now), {}, inserted)
  {
    hide BarriersOf, FeedbackOf, Select, Discards, Clean;
    var e, f := s.views[v], Entering(s.views[v].seqNo + 1, now, shown, taken);
    var all := e.frames + [f];
    var n := Excess(|all|);
    var s' := PushFrame(s, v, shown, taken, now);
    PrefixBarriers(all, n);
    PrefixBarriers(all, |e.frames|);
    PrefixBarriers(e.frames, n);
    assert all[..|e.frames|] == e.frames && all[|e.frames|..] == [f] && all[..n] == e.frames[..n];
    forall b ensures b in BarriersOf([f]) <==> b in taken.barriers { InBarriersOf([f], b); }
    hide Entering;
    LeavesClean(owner, s, s', v, all[..n], inserted);
  }

  lemma WatchFramesClean(owner: Owners, s: Pacing, v: ViewId, now: Instant, inserted: bool)
    requires LooseOwned(owner, s.loose)
    ensures Clean(owner, s, WatchFrames(s, v, now, inserted), {}, inserted)
  {
    hide Clean, ScheduleTick, ViewWake, FrameClock.NextVblank;
    ClearedSilently(owner, s, s, multiset{}, {}, inserted);
    if v in s.views && ViewWake(s.views[v], s.clock.NextVblank(now)).Some? {
      ScheduleClean(owner, s, ViewWake(s.views[v], s.clock.NextVblank(now)).value, inserted);
    }
  }

  lemma UnsubmittedClean(owner: Owners, s: Pacing, v: ViewId, now: Instant, inserted: bool)
    requires LooseOwned(owner, s.loose)
    ensures Clean(owner, s, Unsubmitted(s, v, now, inserted), {}, inserted)
  {
    hide Clean, ScheduleTick, FrameClock.NextVblank, LooseOwned;
    var due := s.clock.NextVblank(now);
    var s1 := if exists p :: p in s.unsubmitted && p.0 == v then s else s.(unsubmitted := s.unsubmitted + [(v, due)]);
    ClearedSilently(owner, s, s1, multiset{}, {}, inserted);
    ScheduleClean(owner, s1, due, inserted);
    CleanThen(owner, s, s1, ScheduleTick(s1, due, inserted), {}, inserted);
  }

  /** Giving a view an entry with the frames it has, for its client or, if it was unbound, for another. */
  lemma EntryClean(owner: Owners, s: Pacing, v: ViewId, e: ViewEntry, inserted: bool)
    requires LooseOwned(owner, s.loose) && v in s.views && e.frames == s.views[v].frames
    requires SameClient(s.views[v], e)
    ensures Clean(owner, s, s.(views := s.views[v := e]), {}, inserted)
  {
    hide BarriersOf, Clean, LooseOwned;
    CleanSame(owner, s, s.(views := s.views[v := e]), inserted);
  }

  lemma RefusedClean(owner: Owners, s: Pacing, v: ViewId, taken: Taken, cleared: bool, now: Instant, inserted: bool)
    requires LooseOwned(owner, s.loose) && v in s.views && s.views[v].bound
    requires Handed(owner, s.views[v].client, taken.barriers)
    ensures Clean(owner, s, SubmitView(s, v, taken, None, cleared, now, inserted),
                  Overflow(s, s.views[v].client, taken.barriers, now), inserted)
  {
    hide NotShown, Unsubmitted, Clean, LooseOwned, Handed;
    var e := s.views[v];
    var e' := if cleared then e.(seqNo := e.seqNo + 1) else e;
    var s1 := s.(views := s.views[v := e']);
    var s2 := NotShown(s1, e.client, taken, now, inserted);
    var over := Overflow(s, e.client, taken.barriers, now);
    assert s.(views := s.views[v := e]) == s;
    EntryClean(owner, s, v, e', inserted);
    hide Overflow;
    assert Overflow(s1, e.client, taken.barriers, now) == over by {
      SameOverflow(s, s1, e.client, taken.barriers, now);
    }
    NotShownClean(owner, s1, e.client, taken, now, inserted);
    CleanThen(owner, s, s1, s2, over, inserted);
    assert LooseOwned(owner, s2.loose) by { CleanOwns(owner, s, s2, over, inserted); }
    UnsubmittedClean(owner, s2, v, now, inserted);
    CleanOn(owner, s, s2, Unsubmitted(s2, v, now, inserted), over, {}, inserted);
    assert over + {} == over;
  }

  lemma SameOverflow(s: Pacing, s': Pacing, client: Option<Client>, barriers: seq<Barrier>, now: Instant)
    requires s'.loose == s.loose && s'.clock == s.clock
    ensures Overflow(s', client, barriers, now) == Overflow(s, client, barriers, now)
  {
  }

  lemma CleanOwns(owner: Owners, s: Pacing, s': Pacing, except: set<Barrier>, inserted: bool)
    requires Clean(owner, s, s', except, inserted)
    ensures LooseOwned(owner, s'.loose)
  {
  }

  lemma ShownClean(owner: Owners, s: Pacing, v: ViewId, taken: Taken, shown: seq<Content>, now: Instant, inserted: bool)
    requires LooseOwned(owner, s.loose) && v in s.views && s.views[v].bound
    requires Handed(owner, s.views[v].client, taken.barriers)
    ensures Clean(owner, s, WatchFrames(PushFrame(s, v, shown, taken, now), v, now, inserted), {}, inserted)
  {
    hide PushFrame, WatchFrames, Settles, Strays, Handed, LooseOwned;
    var s1 := PushFrame(s, v, shown, taken, now);
    PushClean(owner, s, v, shown, taken, now, inserted);
    WatchFramesClean(owner, s1, v, now, inserted);
    hide Clean;
    CleanThen(owner, s, s1, WatchFrames(s1, v, now, inserted), {}, inserted);
  }

  lemma UpdateClean(owner: Owners, s: Pacing, u: Update, now: Instant, inserted: bool)
    requires LooseOwned(owner, s.loose) && ClientsBound(s) && OwnUpdate(owner, s, u)
    ensures Clean(owner, s, Applied(s, u, now, inserted), OverflowOf(s, u, now), inserted)
  {
    hide NotShown, PushFrame, WatchFrames, Unsubmitted, Clean, Handed, Overflow, LooseOwned;
    ClearedSilently(owner, s, s, multiset{}, {}, inserted);
    match u
    case Unshown(client, taken) => NotShownClean(owner, s, client, taken, now, inserted);
    case Bind(v, client) =>
      if v in s.views && !s.views[v].bound {
        EntryClean(owner, s, v, s.views[v].(bound := true, client := client), inserted);
      }
    case Submit(v, taken, shown, cleared) =>
      if v in s.views && s.views[v].bound {
        match shown
        case Some(contents) => ShownClean(owner, s, v, taken, contents, now, inserted);
        case None => RefusedClean(owner, s, v, taken, cleared, now, inserted);
      }
  }

  lemma {:induction false} UpdatesClean(owner: Owners, s: Pacing, us: seq<Update>, now: Instant, inserted: bool)
    requires LooseOwned(owner, s.loose) && ClientsBound(s) && OwnUpdates(owner, s, us, now, inserted)
    ensures Clean(owner, s, ApplyEach(s, us, now, inserted), OverflowBy(s, us, now, inserted), inserted)
    ensures ClientsBound(ApplyEach(s, us, now, inserted))
    decreases |us|
  {
    hide Applied, OwnUpdate, OverflowOf, Settles, Strays, LooseOwned, ClientsBound;
    if us == [] {
      ClearedSilently(owner, s, s, multiset{}, {}, inserted);
    } else {
      var s1 := Applied(s, us[0], now, inserted);
      UpdateClean(owner, s, us[0], now, inserted);
      UpdateKeepsBound(s, us[0], now, inserted);
      UpdatesClean(owner, s1, us[1..], now, inserted);
      hide Clean;
      CleanOn(owner, s, s1, ApplyEach(s1, us[1..], now, inserted), OverflowOf(s, us[0], now),
              OverflowBy(s1, us[1..], now, inserted), inserted);
    }
  }

  // ----- binding and reports -----

  lemma DropClean(owner: Owners, s: Pacing, v: ViewId, inserted: bool)
    requires LooseOwned(owner, s.loose) && ClientsBound(s)
    ensures Clean(owner, s, DropFrames(s, v), {}, inserted) && ClientsBound(DropFrames(s, v))
  {
    hide BarriersOf, FeedbackOf, Discards, Clean, LooseOwned;
    if v in s.views {
      assert Inherits(owner, s, DropFrames(s, v), v) by { InBarriersOf([], 0); NoFrames(); }
      LeavesClean(owner, s, DropFrames(s, v), v, s.views[v].frames, inserted);
    } else {
      ClearedSilently(owner, s, s, multiset{}, {}, inserted);
    }
  }

  lemma NoFrames()
    ensures BarriersOf([]) == []
  {
  }

  lemma DroppingClean(owner: Owners, s: Pacing, v: ViewId, applied: seq<Update>, now: Instant, inserted: bool)
    requires LooseOwned(owner, s.loose) && ClientsBound(s) && OwnUnbinding(owner, s, v, applied, now, inserted)
    ensures Clean(owner, s, Dropping(s, v, applied, now, inserted), OverflowUnbinding(s, v, applied, now, inserted),
                  inserted)
    ensures ClientsBound(Dropping(s, v, applied, now, inserted))
  {
    hide DropFrames, ApplyEach, OverflowBy, OwnUpdates, Settles, Strays, LooseOwned, ClientsBound;
    var s1 := DropFrames(s, v);
    DropClean(owner, s, v, inserted);
    if DropTells(s, v) {
      UpdatesClean(owner, s1, applied, now, inserted);
      hide Clean;
      CleanThen(owner, s, s1, ApplyEach(s1, applied, now, inserted), OverflowBy(s1, applied, now, inserted), inserted);
    }
  }

  /** The barriers of the frames an unbinding leaves in the view. */
  ghost function LeftBehind(s: Pacing, e: Event): set<Barrier> {
    match e.action
    case Unbind(v, _, applied) => SeqSet(BarriersOf(FramesOf(Dropping(s, v, applied, e.now, e.inserted), v)))
    case _ => {}
  }

  /** As the binding breaks, or the view is replaced or removed, what frames are left become strays, or go with the
      view. */
  lemma BreakStrays(owner: Owners, s: Pacing, s': Pacing, v: ViewId)
    requires LooseOwned(owner, s.loose) && ClientsBound(s)
    requires s'.loose == s.loose && s'.views - {v} == s.views - {v}
    requires v in s'.views ==>
               s'.views[v].client.None? && (s'.views[v].frames == [] || s'.views[v].frames == FramesOf(s, v))
    ensures LooseOwned(owner, s'.loose) && ClientsBound(s')
    ensures Strays(owner, s') <= Strays(owner, s) + if v in s'.views then SeqSet(BarriersOf(s'.views[v].frames)) else {}
  {
    hide LooseOwned, BarriersOf;
    forall u | u in s'.views && u != v ensures u in s.views && s'.views[u] == s.views[u] {
      assert u in s'.views - {v} && u in s.views - {v};
      assert (s'.views - {v})[u] == (s.views - {v})[u];
    }
  }

  lemma PresentClean(owner: Owners, s: Pacing, v: ViewId, r: Report, inserted: bool)
    requires LooseOwned(owner, s.loose)
    ensures Clean(owner, s, FramePresented(s, v, r), {}, inserted)
  {
    hide BarriersOf, FeedbackOf, Answers, ShownBy, TimingOf, Replaced, Clean, LooseOwned;
    if v in s.views {
      var e := s.views[v];
      PrefixBarriers(e.frames, Replaced(e.frames, r.seqNo));
      LeavesClean(owner, s, FramePresented(s, v, r), v, e.frames[..Replaced(e.frames, r.seqNo)], inserted);
    } else {
      ClearedSilently(owner, s, FramePresented(s, v, r), multiset{}, {}, inserted);
    }
  }

  lemma SuspendClean(owner: Owners, s: Pacing, v: ViewId, suspended: bool, now: Instant, inserted: bool)
    requires LooseOwned(owner, s.loose)
    ensures Clean(owner, s, ViewSuspended(s, v, suspended, now, inserted), {}, inserted)
  {
    hide ScheduleTick, NextStale, FrameClock.NextVblank, Settles, Strays, LooseOwned;
    if v in s.views {
      var e := s.views[v].(suspended := suspended, hiddenReleaseNs := s.clock.NextVblank(now));
      var s1 := s.(views := s.views[v := e]);
      EntryClean(owner, s, v, e, inserted);
      if NextStale(e.frames, !suspended).Some? {
        var stale := NextStale(e.frames, !suspended).value;
        var at := if suspended then e.hiddenReleaseNs else Max(stale, now + STALE_NS);
        ScheduleClean(owner, s1, at, inserted);
        hide Clean;
        CleanThen(owner, s, s1, ScheduleTick(s1, at, inserted), {}, inserted);
      }
    } else {
      ClearedSilently(owner, s, s, multiset{}, {}, inserted);
    }
  }

  // ----- every step -----

  /** A timer of the surface was cleared, besides any that the event adds. */
  ghost predicate FiresAt(s: Pacing, e: Event, s': Pacing, x: SurfaceId) {
    && x in s.surfaces && x in s'.surfaces
    && |s'.surfaces[x].timers|
       < |s.surfaces[x].timers| + if e.action.CommitTimed? && e.action.surface == x then 1 else 0
  }

  predicate ListedAt(s: Pacing, e: Event, x: SurfaceId) {
    x in s.timed || (e.action.CommitTimed? && e.action.surface == x)
  }

  ghost predicate CauseAt(owner: Owners, s: Pacing, e: Event, s': Pacing, c: Client) {
    || (exists b :: Signals(s, s', b) && Concerns(owner, s, s', b, c))
    || (exists x :: FiresAt(s, e, s', x) && OfClient(s, x, c))
    || (!e.inserted && exists x :: ListedAt(s, e, x) && OfClient(s, x, c))
  }

  /** Whoever had something cleared is told, but for overflow and strays; and no one it does not concern. */
  ghost predicate Told(owner: Owners, s: Pacing, e: Event, s': Pacing) {
    && (forall b :: Signals(s, s', b) && b in owner && b !in Strays(owner, s) && b !in OverflowAt(s, e) ==>
         Tells(s, s', owner[b]))
    && (forall x, c :: FiresAt(s, e, s', x) && OfClient(s, x, c) ==> Tells(s, s', c))
    && (forall c :: Tells(s, s', c) ==> CauseAt(owner, s, e, s', c))
  }

  lemma SettledTold(owner: Owners, s: Pacing, e: Event, s': Pacing)
    requires !e.action.CommitTimed?
    requires Settles(owner, s, s', Strays(owner, s) + OverflowAt(s, e), e.inserted)
    ensures Told(owner, s, e, s')
  {
    hide Strays, OverflowAt, Signals, Tells, OfClient, Concerns;
    forall x ensures FiresAt(s, e, s', x) <==> Fires(s, s', x) {}
    forall c | Tells(s, s', c) ensures CauseAt(owner, s, e, s', c) {
      assert Cause(owner, s, s', e.inserted, c);
      if b :| Signals(s, s', b) && Concerns(owner, s, s', b, c) {
      } else if x :| Fires(s, s', x) && OfClient(s, x, c) {
        assert FiresAt(s, e, s', x);
      } else {
        var x :| x in s.timed && OfClient(s, x, c);
        assert ListedAt(s, e, x);
      }
    }
  }

  /** What every state keeps, and the strays an event may add. */
  ghost predicate KeepsOwned(owner: Owners, s: Pacing, e: Event, s': Pacing) {
    && LooseOwned(owner, s'.loose) && ClientsBound(s')
    && Strays(owner, s') <= Strays(owner, s) + LeftBehind(s, e)
  }

  lemma CleanTold(owner: Owners, s: Pacing, e: Event, s': Pacing)
    requires !e.action.CommitTimed? && Clean(owner, s, s', OverflowAt(s, e), e.inserted) && ClientsBound(s')
    ensures Told(owner, s, e, s') && KeepsOwned(owner, s, e, s')
  {
    hide Settles, Strays, OverflowAt, LeftBehind, LooseOwned, ClientsBound, Told, Follows;
    SettledTold(owner, s, e, s');
    StraysFollow(owner, s, s');
  }

  /** The same signals, timers and clients told, and what was a cause of a client's being told. */
  ghost predicate SameTold(s: Pacing, s1: Pacing, s': Pacing) {
    && s'.signaled == s1.signaled && s'.unblocked == s1.unblocked && s'.surfaces == s1.surfaces
    && forall b, c :: InFrameJoined(s, s1, b, c) ==> InFrameJoined(s, s', b, c)
  }

  /** The events that break a binding, once their frames are dropped. */
  lemma BrokenTold(owner: Owners, s: Pacing, e: Event, s1: Pacing, s': Pacing)
    requires !e.action.CommitTimed? && Clean(owner, s, s1, OverflowAt(s, e), e.inserted) && SameTold(s, s1, s')
    ensures Told(owner, s, e, s')
  {
    hide Settles, Strays, OverflowAt, LooseOwned, Follows, InFrameJoined, InFrameOf;
    SettledTold(owner, s, e, s1);
    forall x ensures FiresAt(s, e, s1, x) <==> FiresAt(s, e, s', x) {}
    forall c | Tells(s, s', c) ensures CauseAt(owner, s, e, s', c) {
      assert CauseAt(owner, s, e, s1, c);
      if b :| Signals(s, s1, b) && Concerns(owner, s, s1, b, c) {
        assert Signals(s, s', b) && Concerns(owner, s, s', b, c);
      }
    }
  }

  /** A binding made as the view's frames are dropped is not the one broken. */
  lemma JoinedElsewhere(s: Pacing, s1: Pacing, s': Pacing, v: ViewId)
    requires s'.views - {v} == s1.views - {v}
    requires v in s.views && !s.views[v].bound && v in s1.views ==> s1.views[v].client.None?
    ensures forall b, c :: InFrameJoined(s, s1, b, c) ==> InFrameJoined(s, s', b, c)
  {
    hide BarriersOf;
    forall u | u in s1.views && u != v ensures u in s'.views && s'.views[u] == s1.views[u] {
      assert u in s1.views - {v} && u in s'.views - {v};
      assert (s'.views - {v})[u] == (s1.views - {v})[u];
    }
  }

  lemma UnboundDrops(s: Pacing, v: ViewId, applied: seq<Update>, now: Instant, inserted: bool)
    requires ClientsBound(s) && v in s.views && !s.views[v].bound
    ensures var s1 := Dropping(s, v, applied, now, inserted); v in s1.views && s1.views[v].client.None?
  {
    hide ApplyEach, BarriersOf, FeedbackOf;
  }

  lemma UnboundTold(owner: Owners, s: Pacing, e: Event)
    requires LooseOwned(owner, s.loose) && ClientsBound(s) && Enabled(s, e) && OwnEvent(owner, s, e)
    requires e.action.Unbind? || e.action.Create? || e.action.Dispose?
    ensures Told(owner, s, e, Step(s, e)) && KeepsOwned(owner, s, e, Step(s, e))
  {
    hide Dropping, OverflowUnbinding, OwnUnbinding, Settles, Strays, LooseOwned, ClientsBound, Told, Follows,
      BarriersOf, InFrameJoined;
    var v, applied := e.action.view, e.action.applied;
    var s1, s' := Dropping(s, v, applied, e.now, e.inserted), Step(s, e);
    DroppingClean(owner, s, v, applied, e.now, e.inserted);
    assert LooseOwned(owner, s1.loose) && Strays(owner, s1) <= Strays(owner, s) by { StraysFollow(owner, s, s1); }
    hide Clean;
    assert s'.views - {v} == s1.views - {v};
    if v in s'.views && s'.views[v].frames == [] { NoFrames(); }
    BreakStrays(owner, s1, s', v);
    if v in s.views && !s.views[v].bound { UnboundDrops(s, v, applied, e.now, e.inserted); }
    JoinedElsewhere(s, s1, s', v);
    BrokenTold(owner, s, e, s1, s');
  }

  lemma TimedTold(owner: Owners, s: Pacing, e: Event)
    requires LooseOwned(owner, s.loose) && ClientsBound(s) && Enabled(s, e) && e.action.CommitTimed?
    ensures Told(owner, s, e, Step(s, e)) && KeepsOwned(owner, s, e, Step(s, e))
  {
    hide ScheduleTick, Strays, LooseOwned, Settles, Follows;
    var x, s' := e.action.surface, Step(s, e);
    if x in s.surfaces {
      var s0 := if x in s.timed then s else s.(timed := s.timed + [x]);
      var s1 := ScheduleTick(s0, e.now, e.inserted);
      SameViews(owner, s, s0);
      ScheduleSettles(owner, s0, e.now, e.inserted);
      ScheduleBound(s0, e.now, e.inserted);
      StraysFollow(owner, s0, s1);
      SameViews(owner, s1, s');
      TimerAdded(owner, s, e, s0, s1, s');
    } else {
      assert s' == s;
    }
  }

  lemma ScheduleBound(s: Pacing, at: nat, inserted: bool)
    requires ClientsBound(s)
    ensures ClientsBound(ScheduleTick(s, at, inserted))
  {
    hide ScheduleTick;
    var s' := ScheduleTick(s, at, inserted);
    forall v | v in s'.views && s'.views[v].client.Some? ensures s'.views[v].bound {
      ScheduleKeepsQueue(s, at, inserted, v);
    }
  }

  lemma SameConcerns(owner: Owners, s: Pacing, s': Pacing, s0: Pacing, s1: Pacing)
    requires s0.views == s.views && s1.views == s'.views
    ensures forall b, c :: Concerns(owner, s0, s1, b, c) <==> Concerns(owner, s, s', b, c)
  {
    hide BarriersOf;
  }

  lemma TimerAdded(owner: Owners, s: Pacing, e: Event, s0: Pacing, s1: Pacing, s': Pacing)
    requires e.action.CommitTimed? && e.action.surface in s.surfaces
    requires s0 == s.(timed := s0.timed) && forall x :: x in s0.timed ==> ListedAt(s, e, x)
    requires Settles(owner, s0, s1, Strays(owner, s0), e.inserted)
    requires s' == AddTimer(s1, e.action.surface, e.action.target)
    ensures Told(owner, s, e, s')
  {
    SameViews(owner, s, s0);
    SameConcerns(owner, s, s', s0, s1);
    hide Strays, Concerns;
    forall x ensures FiresAt(s, e, s', x) <==> Fires(s0, s1, x) {}
    forall x, c | FiresAt(s, e, s', x) && OfClient(s, x, c) ensures Tells(s, s', c) {
      assert Fires(s0, s1, x) && OfClient(s0, x, c);
      assert Tells(s0, s1, c);
    }
    forall c | Tells(s, s', c) ensures CauseAt(owner, s, e, s', c) {
      assert Tells(s0, s1, c);
      assert Cause(owner, s0, s1, e.inserted, c);
      if b :| Signals(s0, s1, b) && Concerns(owner, s0, s1, b, c) {
        assert Signals(s, s', b);
      } else if x :| Fires(s0, s1, x) && OfClient(s0, x, c) {
        assert FiresAt(s, e, s', x) && OfClient(s, x, c);
      } else {
        var x :| x in s0.timed && OfClient(s0, x, c);
        assert ListedAt(s, e, x) && OfClient(s, x, c);
      }
    }
    forall b | Signals(s, s', b) && b in owner && b !in Strays(owner, s) ensures Tells(s, s', owner[b]) {
      assert Signals(s0, s1, b) && Tells(s0, s1, owner[b]);
    }
  }

  lemma SurfacesTold(owner: Owners, s: Pacing, e: Event)
    requires LooseOwned(owner, s.loose) && ClientsBound(s) && Enabled(s, e)
    requires e.action.NewSurface? || e.action.SurfaceGone?
    ensures Told(owner, s, e, Step(s, e)) && KeepsOwned(owner, s, e, Step(s, e))
  {
    SameViews(owner, s, Step(s, e));
    hide Strays;
  }

  lemma OthersBound(s: Pacing, e: Event)
    requires ClientsBound(s) && Enabled(s, e)
    requires e.action.Apply? || e.action.Present? || e.action.Suspend? || e.action.ClockTick?
    ensures ClientsBound(Step(s, e))
  {
    hide ScheduleTick, TickReleases, Applied, BarriersOf, FeedbackOf, NextStale, Wakes;
    match e.action
    case Apply(u) => UpdateKeepsBound(s, u, e.now, e.inserted);
    case Present(v, r) =>
    case Suspend(v, suspended) =>
      if v in s.views && NextStale(s.views[v].frames, !suspended).Some? {
        var e1 := s.views[v].(suspended := suspended, hiddenReleaseNs := s.clock.NextVblank(e.now));
        var stale := NextStale(e1.frames, !suspended).value;
        ScheduleBound(s.(views := s.views[v := e1]),
                      if suspended then e1.hiddenReleaseNs else Max(stale, e.now + STALE_NS), e.inserted);
      }
    case ClockTick =>
      TickedBound(s, e.now);
      var s1 := TickReleases(s, e.now);
      if Wakes(s1, e.now) != {} { ScheduleBound(s1, Max(Least(Wakes(s1, e.now)), e.now + MIN_DELAY_NS), e.inserted); }
  }

  lemma TickedBound(s: Pacing, now: Instant)
    requires ClientsBound(s)
    ensures ClientsBound(TickReleases(s, now))
  {
    forall v | v in s.views ensures TickView(s.views[v], now).client == s.views[v].client
                                 && TickView(s.views[v], now).bound == s.views[v].bound {}
    hide TickView, TimersCut, StillTimed, LooseDue, UnsubmittedDue, TickReleasedRows, Callable;
  }

  /** Signaled implies unblocked, in every step whatever it is. A barrier signaled has its owner unblocked in the same
      step, unless it was pushed out of the loose list or was in a frame of a view not its owner's; a timer cleared has
      its surface's client unblocked. And no one is unblocked but for a barrier of its own or in a frame of a view of
      its, for a timer of its own, or because the clock could not be armed while a surface of its was listed. Strays
      come only from an unbinding. */
  lemma StepUnblocks(owner: Owners, s: Pacing, e: Event)
    requires LooseOwned(owner, s.loose) && ClientsBound(s) && Enabled(s, e) && OwnEvent(owner, s, e)
    ensures Told(owner, s, e, Step(s, e)) && KeepsOwned(owner, s, e, Step(s, e))
  {
    hide Applied, Tick, FramePresented, ViewSuspended, Told, KeepsOwned, LooseOwned, ClientsBound, Clean, OwnUpdate,
      OverflowOf;
    if e.action.Apply? || e.action.Present? || e.action.Suspend? || e.action.ClockTick? {
      OthersBound(s, e);
      match e.action {
        case Apply(u) => UpdateClean(owner, s, u, e.now, e.inserted);
        case Present(v, r) => PresentClean(owner, s, v, r, e.inserted);
        case Suspend(v, suspended) => SuspendClean(owner, s, v, suspended, e.now, e.inserted);
        case ClockTick => TickClean(owner, s, e.now, e.inserted);
      }
      CleanTold(owner, s, e, Step(s, e));
    } else if e.action.CommitTimed? {
      TimedTold(owner, s, e);
    } else if e.action.NewSurface? || e.action.SurfaceGone? {
      SurfacesTold(owner, s, e);
    } else {
      UnboundTold(owner, s, e);
    }
  }

  // ----- runs -----

  /** The clients' events of a run hand over what is theirs. */
  ghost predicate OwnRun(owner: Owners, states: seq<Pacing>, events: seq<Event>)
    requires |states| == |events| + 1
  {
    forall i :: 0 <= i < |events| ==> OwnEvent(owner, states[i], events[i])
  }

  ghost predicate LeftEarlier(states: seq<Pacing>, events: seq<Event>, i: nat, b: Barrier)
    requires i <= |events| <= |states|
  {
    exists j :: 0 <= j < i && b in LeftBehind(states[j], events[j])
  }

  /** Every stray was left by an unbinding before. */
  lemma {:induction false} StraysLeft(owner: Owners, states: seq<Pacing>, events: seq<Event>, i: nat)
    requires IsRun(states, events) && i <= |events| && OwnRun(owner, states, events)
    ensures LooseOwned(owner, states[i].loose) && ClientsBound(states[i])
    ensures forall b :: b in Strays(owner, states[i]) ==> LeftEarlier(states, events, i, b)
  {
    hide Step, OwnEvent, LooseOwned, ClientsBound, LeftBehind, Told, Enabled;
    if i == 0 {
      InitialOwned(owner);
    } else {
      hide Strays;
      StraysLeft(owner, states, events, i - 1);
      StepUnblocks(owner, states[i - 1], events[i - 1]);
      forall b | b in Strays(owner, states[i]) ensures LeftEarlier(states, events, i, b) {
        if b in Strays(owner, states[i - 1]) {
          assert LeftEarlier(states, events, i - 1, b);
        } else {
          assert b in LeftBehind(states[i - 1], events[i - 1]);
        }
      }
    }
  }

  lemma InitialOwned(owner: Owners)
    ensures LooseOwned(owner, INITIAL.loose) && ClientsBound(INITIAL) && Strays(owner, INITIAL) == {}
  {
  }

  /** In every run, then, a barrier signaled has its client unblocked in the same step, unless that step pushed it out
      of the loose list or an earlier unbinding left it behind in a frame. */
  lemma SignaledUnblocks(owner: Owners, states: seq<Pacing>, events: seq<Event>, i: nat, b: Barrier)
    requires IsRun(states, events) && i < |events| && OwnRun(owner, states, events)
    requires Signals(states[i], states[i + 1], b) && b in owner
    ensures || Tells(states[i], states[i + 1], owner[b])
            || b in OverflowAt(states[i], events[i])
            || LeftEarlier(states, events, i, b)
  {
    hide Step, OwnEvent, Strays, LeftBehind, OverflowAt, Signals, Tells;
    StraysLeft(owner, states, events, i);
    StepUnblocks(owner, states[i], events[i]);
  }

  /** An unbinding leaves barriers behind only where an update shown in the view was applied as its frames were
      dropped. */
  lemma LeftByShowing(s: Pacing, e: Event)
    requires Enabled(s, e) && e.action.Unbind? && LeftBehind(s, e) != {}
    ensures ShownUnbinding(s, e.action.view, e.action.applied)
  {
    hide Dropping;
    NoFrames();
    var v := e.action.view;
    if v in s.views {
      UnboundEmptyIff(s, v, e.action.cleared, e.action.applied, e.now, e.inserted);
    } else {
      NotThere(s, v, e.action.cleared, e.action.applied, e.now, e.inserted);
    }
  }
}

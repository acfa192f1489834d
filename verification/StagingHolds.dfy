/** When the shell may be reading a slot, told by what happened to its layer: it was put into a tree and the tree is not
    dropped, it was kept for a fence that has not signaled, or it was kept for a frame that no later one has replaced.
    For just so long the slot is busy, and nothing is written to it. */
module StagingHolds {
  import opened Basics
  import opened Holds
  import opened Staging
  import opened StagingRuns

  // ----- on its way -----

  predicate TakesLayer(e: Event) { e.KeepFenced? || e.KeepUnfenced? }

  /** How many layers were kept from one event up to another. */
  function KeptSince(events: seq<Event>, k: nat, i: nat): (n: nat)
    requires k <= i <= |events|
    decreases i - k
  {
    if k == i then 0 else KeptSince(events, k, i - 1) + if TakesLayer(events[i - 1]) then 1 else 0
  }

  /** The k-th event put the layer into the tree, and neither has the tree been dropped since nor have more layers been
      kept than there were before it. */
  ghost predicate OnItsWay(states: seq<Scene>, events: seq<Event>, k: nat, i: nat, held: Held)
    requires i <= |events| < |states|
  {
    && k < i && states[k + 1].layers == states[k].layers + [held]
    && DropLayers !in events[k + 1..i]
    && KeptSince(events, k + 1, i) <= |states[k].layers|
  }

  lemma StepOf(states: seq<Scene>, events: seq<Event>, i: nat)
    requires IsRun(states, events) && 0 < i <= |events|
    ensures |states| == |events| + 1
    ensures Enabled(states[i - 1], events[i - 1]) && states[i] == Step(states[i - 1], events[i - 1])
  {
    hide Enabled, Step;
  }

  lemma {:induction false} LayerAt(states: seq<Scene>, events: seq<Event>, k: nat, i: nat, held: Held)
    requires IsRun(states, events) && i <= |events| && OnItsWay(states, events, k, i, held)
    ensures var p := |states[k].layers| - KeptSince(events, k + 1, i);
            p < |states[i].layers| && states[i].layers[p] == held
    decreases i
  {
    hide Step, IsRun, Enabled;
    StepOf(states, events, i);
    if k + 1 < i {
      LayersStep(states[i - 1], events[i - 1]);
      assert events[k + 1..i] == events[k + 1..i - 1] + [events[i - 1]];
      LayerAt(states, events, k, i - 1, held);
    }
  }

  /** What a step does to the layers of the tree. */
  lemma LayersStep(s: Scene, e: Event)
    requires Enabled(s, e)
    ensures TakesLayer(e) ==> s.layers != []
    ensures var after := Step(s, e).layers;
            match e
            case KeepFenced(_, _) => after == s.layers[1..]
            case KeepUnfenced(_, _) => after == s.layers[1..]
            case DropLayers => after == []
            case StageLayer(_, _, _) => after == s.layers || exists held :: after == s.layers + [held]
            case ClientLayer(b) => after == s.layers + [Held.Client(b)]
            case _ => after == s.layers
  {
    hide StageCall;
    if e.StageLayer? {
      var r := RingOf(s, e.surface);
      var shown := StageCall(r, s.nextUid, BusyIn(s, r), e.buffer, e.around).shown;
      if shown.Some? { assert Step(s, e).layers == s.layers + [Held.Staged(shown.value)]; }
    }
  }

  lemma WayStarts(states: seq<Scene>, events: seq<Event>, k: nat, layers: seq<Held>, held: Held)
    requires k < |events| < |states| && states[k].layers == layers && states[k + 1].layers == layers + [held]
    ensures OnItsWay(states, events, k, k + 1, held)
  {
  }

  lemma WayGoesOn(states: seq<Scene>, events: seq<Event>, k: nat, i: nat, held: Held)
    requires 0 < i <= |events| < |states| && OnItsWay(states, events, k, i - 1, held) && events[i - 1] != DropLayers
    requires KeptSince(events, k + 1, i) <= |states[k].layers|
    ensures OnItsWay(states, events, k, i, held)
  {
    assert events[k + 1..i] == events[k + 1..i - 1] + [events[i - 1]];
  }

  lemma {:induction false} WayOf(states: seq<Scene>, events: seq<Event>, i: nat, p: nat) returns (k: nat)
    requires IsRun(states, events) && i <= |events| && p < |states[i].layers|
    ensures k < i && OnItsWay(states, events, k, i, states[i].layers[p])
    ensures |states[k].layers| == p + KeptSince(events, k + 1, i)
    decreases i
  {
    hide Step, IsRun, Enabled, OnItsWay;
    NoLayers(states, events);
    StepOf(states, events, i);
    var s, e := states[i - 1], events[i - 1];
    LayersStep(s, e);
    if p == |states[i].layers| - 1 && states[i].layers == s.layers + [states[i].layers[p]] {
      k := i - 1;
      WayStarts(states, events, k, s.layers, states[i].layers[p]);
    } else {
      k := WayOf(states, events, i - 1, if TakesLayer(e) then p + 1 else p);
      WayGoesOn(states, events, k, i, states[i].layers[p]);
    }
  }

  lemma NoLayers(states: seq<Scene>, events: seq<Event>)
    requires IsRun(states, events)
    ensures |states| == |events| + 1 && states[0].layers == []
  {
    hide Step, Enabled;
  }

  lemma OnItsWayIff(states: seq<Scene>, events: seq<Event>, i: nat, held: Held)
    requires IsRun(states, events) && i <= |events|
    ensures held in states[i].layers <==> exists k :: OnItsWay(states, events, k, i, held)
  {
    if held in states[i].layers {
      var p :| 0 <= p < |states[i].layers| && states[i].layers[p] == held;
      var k := WayOf(states, events, i, p);
    }
    hide OnItsWay, IsRun;
    if k :| OnItsWay(states, events, k, i, held) { LayerAt(states, events, k, i, held); }
  }

  // ----- kept for a fence -----

  /** The keys a view has given out: one for each layer kept for a fence. */
  function KeysOf(events: seq<Event>, v: ViewId, i: nat): nat
    requires i <= |events|
  {
    if i == 0 then 0
    else KeysOf(events, v, i - 1) + if events[i - 1].KeepFenced? && events[i - 1].view == v then 1 else 0
  }

  /** The k-th event kept the layer for the view's fence, and neither has the fence signaled since nor has the view been
      unbound. */
  ghost predicate FencedSince(states: seq<Scene>, events: seq<Event>, v: ViewId, k: nat, i: nat, held: Held)
    requires i <= |events| <= |states|
  {
    && k < i && events[k] == KeepFenced(v, true) && states[k].layers != [] && states[k].layers[0] == held
    && Unbound(v) !in events[k + 1..i] && FenceSignaled(v, KeysOf(events, v, k + 1)) !in events[k + 1..i]
  }

  lemma {:induction false} KeysKept(states: seq<Scene>, events: seq<Event>, v: ViewId, i: nat)
    requires IsRun(states, events) && i <= |events|
    ensures HoldsOf(states[i], v).nextKey == KeysOf(events, v, i)
    ensures forall key :: key in HoldsOf(states[i], v).fenced ==> key <= KeysOf(events, v, i)
  {
    hide Step, IsRun, Enabled, HoldsOf;
    if i > 0 {
      StepOf(states, events, i);
      KeysKept(states, events, v, i - 1);
      FencedStep(states[i - 1], events[i - 1], v);
    } else {
      NothingHeld(states, events, v);
    }
  }

  lemma NothingHeld(states: seq<Scene>, events: seq<Event>, v: ViewId)
    requires IsRun(states, events)
    ensures |states| == |events| + 1 && HoldsOf(states[0], v) == NO_HOLDS
  {
    hide Step, Enabled;
  }

  /** What a step does to a view's fenced holds. */
  lemma FencedStep(s: Scene, e: Event, v: ViewId)
    requires Enabled(s, e)
    ensures e.KeepFenced? ==> s.layers != []
    ensures var h, h' := HoldsOf(s, v), HoldsOf(Step(s, e), v);
            if e.KeepFenced? && e.view == v then
              && h'.nextKey == h.nextKey + 1
              && h'.fenced == if e.inserted then h.fenced[h.nextKey + 1 := s.layers[0]] else h.fenced
            else
              && h'.nextKey == h.nextKey
              && h'.fenced == if e == Unbound(v) then map[]
                              else if e.FenceSignaled? && e.view == v then h.fenced - {e.key} else h.fenced
  {
    hide StageCall, Apply;
  }

  lemma {:induction false} KeysGrow(events: seq<Event>, v: ViewId, i: nat, j: nat)
    requires i <= j <= |events|
    ensures KeysOf(events, v, i) <= KeysOf(events, v, j)
    decreases j
  {
    if i < j { KeysGrow(events, v, i, j - 1); }
  }

  lemma FencedMore(states: seq<Scene>, events: seq<Event>, v: ViewId, k: nat, i: nat, held: Held)
    requires k + 1 < i <= |events| <= |states|
    ensures FencedSince(states, events, v, k, i, held) <==>
              && FencedSince(states, events, v, k, i - 1, held)
              && events[i - 1] != Unbound(v) && events[i - 1] != FenceSignaled(v, KeysOf(events, v, k + 1))
  {
    assert events[k + 1..i] == events[k + 1..i - 1] + [events[i - 1]];
    hide KeysOf;
  }

  lemma FenceStarts(states: seq<Scene>, events: seq<Event>, v: ViewId, k: nat)
    requires k < |events| <= |states| && events[k] == KeepFenced(v, true) && states[k].layers != []
    ensures FencedSince(states, events, v, k, k + 1, states[k].layers[0])
  {
    hide KeysOf;
  }

  lemma {:induction false} FenceOf(states: seq<Scene>, events: seq<Event>, v: ViewId, i: nat, key: nat) returns (k: nat)
    requires IsRun(states, events) && i <= |events| && key in HoldsOf(states[i], v).fenced
    ensures k < i && FencedSince(states, events, v, k, i, HoldsOf(states[i], v).fenced[key])
    ensures KeysOf(events, v, k + 1) == key
    decreases i
  {
    hide Step, HoldsOf, IsRun, Enabled, FencedSince;
    NothingHeld(states, events, v);
    StepOf(states, events, i);
    var s, e := states[i - 1], events[i - 1];
    KeysKept(states, events, v, i - 1);
    FencedStep(s, e, v);
    if e == KeepFenced(v, true) && key == HoldsOf(s, v).nextKey + 1 {
      k := i - 1;
      FenceStarts(states, events, v, k);
      assert HoldsOf(states[i], v).fenced[key] == s.layers[0];
    } else {
      k := FenceOf(states, events, v, i - 1, key);
      FencedMore(states, events, v, k, i, HoldsOf(states[i], v).fenced[key]);
    }
  }

  lemma {:induction false} FencedStill(states: seq<Scene>, events: seq<Event>, v: ViewId, k: nat, i: nat, held: Held)
    requires IsRun(states, events) && i <= |events| && FencedSince(states, events, v, k, i, held)
    ensures var key := KeysOf(events, v, k + 1);
            key in HoldsOf(states[i], v).fenced && HoldsOf(states[i], v).fenced[key] == held
    decreases i
  {
    hide Step, HoldsOf, IsRun, Enabled;
    StepOf(states, events, i);
    var s, e := states[i - 1], events[i - 1];
    KeysKept(states, events, v, i - 1);
    FencedStep(s, e, v);
    if k < i - 1 {
      FencedMore(states, events, v, k, i, held);
      KeysGrow(events, v, k + 1, i - 1);
      FencedStill(states, events, v, k, i - 1, held);
    }
  }

  /** A view keeps a layer for a fence just as long as that fence has not signaled. */
  lemma FencedIff(states: seq<Scene>, events: seq<Event>, v: ViewId, i: nat, held: Held)
    requires IsRun(states, events) && i <= |events|
    ensures held in HoldsOf(states[i], v).fenced.Values <==> exists k :: FencedSince(states, events, v, k, i, held)
  {
    assert |states| == |events| + 1;
    hide FencedSince, IsRun;
    if held in HoldsOf(states[i], v).fenced.Values {
      var key :| key in HoldsOf(states[i], v).fenced && HoldsOf(states[i], v).fenced[key] == held;
      var k := FenceOf(states, events, v, i, key);
    }
    if k :| FencedSince(states, events, v, k, i, held) { FencedStill(states, events, v, k, i, held); }
  }

  // ----- kept for a frame -----

  /** What was done to a view's other holds, in order. */
  ghost function OpsOf(states: seq<Scene>, events: seq<Event>, v: ViewId, i: nat): seq<Op>
    requires IsRun(states, events) && i <= |events|
  {
    if i == 0 then []
    else OpsOf(states, events, v, i - 1) + OpOf(states[i - 1], events[i - 1], v)
  }

  function OpOf(s: Scene, e: Event, v: ViewId): seq<Op> {
    match e
    case KeepUnfenced(w, seqNo) => if w == v && s.layers != [] then [HoldFor(seqNo, s.layers[0])] else []
    case Reported(w, seqNo) => if w == v then [Report(seqNo)] else []
    case Unbound(w) => if w == v then [GiveBack] else []
    case _ => []
  }

  lemma UnfencedStep(s: Scene, e: Event, v: ViewId)
    requires Enabled(s, e)
    ensures var ops := OpOf(s, e, v);
            HoldsOf(Step(s, e), v).unfenced == if ops == [] then HoldsOf(s, v).unfenced
                                               else Apply(HoldsOf(s, v).unfenced, ops[0])
  {
    hide StageCall, Apply;
    AllGivenBack(HoldsOf(s, v).unfenced);
  }

  lemma AllGivenBack(list: seq<Hold>)
    ensures Apply(list, GiveBack) == [] && Apply([], GiveBack) == []
  {
  }

  /** The list a view keeps is that of its submissions, its reports and its unbindings. */
  lemma {:induction false} UnfencedIs(states: seq<Scene>, events: seq<Event>, v: ViewId, i: nat)
    requires IsRun(states, events) && i <= |events|
    ensures HoldsOf(states[i], v).unfenced == ListAfter(OpsOf(states, events, v, i))
  {
    hide Step, Apply, IsRun, Enabled, HoldsOf;
    if i == 0 {
      NothingHeld(states, events, v);
    } else {
      StepOf(states, events, i);
      UnfencedIs(states, events, v, i - 1);
      UnfencedStep(states[i - 1], events[i - 1], v);
      var before, ops := OpsOf(states, events, v, i - 1), OpOf(states[i - 1], events[i - 1], v);
      if ops == [] {
        assert before + ops == before;
      } else {
        assert (before + ops)[..|before|] == before && before + ops == before + [ops[0]];
      }
    }
  }

  function HeldSince(events: seq<Event>, v: ViewId, k: nat, i: nat): (n: nat)
    requires k <= i <= |events|
    decreases i - k
  {
    if k == i then 0
    else HeldSince(events, v, k, i - 1) + if events[i - 1].KeepUnfenced? && events[i - 1].view == v then 1 else 0
  }

  /** Nothing the event does to a view ends its hold for frame n. */
  predicate Spares(e: Event, v: ViewId, n: nat) {
    match e
    case Reported(w, m) => w == v ==> m <= n
    case KeepUnfenced(w, m) => w == v ==> n <= m
    case Unbound(w) => w != v
    case _ => true
  }

  /** The k-th event kept the layer for the view's frame n, and no later frame was reported since, nor was the view
      unbound, nor were 64 layers more kept for it. Frames come in order. */
  ghost predicate WantedSince(states: seq<Scene>, events: seq<Event>, v: ViewId, k: nat, n: nat, i: nat, held: Held)
    requires i <= |events| <= |states|
  {
    && k < i && events[k] == KeepUnfenced(v, n) && states[k].layers != [] && states[k].layers[0] == held
    && (forall j :: k < j < i ==> Spares(events[j], v, n))
    && HeldSince(events, v, k + 1, i) < 64
  }

  /** A hold of the buffer for frame n or a later one, with no more holds behind it than that. */
  ghost predicate HeldAt(list: seq<Hold>, held: Held, n: nat, behind: nat) {
    exists p :: 0 <= p < |list| && list[p].1 == held && list[p].0 >= n && |list| <= p + 1 + behind
  }

  lemma HeldParts(list: seq<Hold>, held: Held, n: nat, behind: nat) returns (a: seq<Hold>, t: nat, c: seq<Hold>)
    requires HeldAt(list, held, n, behind)
    ensures list == a + [(t, held)] + c && t >= n && |c| <= behind
  {
    var p :| 0 <= p < |list| && list[p].1 == held && list[p].0 >= n && |list| <= p + 1 + behind;
    a, t, c := list[..p], list[p].0, list[p + 1..];
    assert list == list[..p] + [list[p]] + list[p + 1..];
  }

  lemma HeldOn(list: seq<Hold>, op: Op, held: Held, n: nat, behind: nat)
    requires HeldAt(list, held, n, behind) && op != GiveBack && behind < 64
    requires (op.Report? ==> op.seqNo <= n) && (op.HoldFor? ==> n <= op.seqNo && behind + 1 < 64)
    ensures HeldAt(Apply(list, op), held, n, if op.HoldFor? then behind + 1 else behind)
  {
    hide HeldAt, Apply;
    var a, t, c := HeldParts(list, held, n, behind);
    match op
    case Report(s) => HeldOnReporting(list, s, a, t, c, held, n, behind);
    case HoldFor(s, b) => HeldOnHolding(list, s, b, a, t, c, held, n, behind);
  }

  lemma HeldOnReporting(list: seq<Hold>, s: nat, a: seq<Hold>, t: nat, c: seq<Hold>, held: Held, n: nat, behind: nat)
    requires list == a + [(t, held)] + c && s <= n <= t && |c| <= behind
    ensures HeldAt(Apply(list, Report(s)), held, n, behind)
  {
    NotBeforeConcat(a + [(t, held)], c, s);
    NotBeforeConcat(a, [(t, held)], s);
    NotBeforeIs(c, s);
    NotBeforeOne(t, held, s);
    hide NotBefore;
    var p := |NotBefore(a, s)|;
    assert NotBefore(list, s) == NotBefore(a, s) + [(t, held)] + NotBefore(c, s);
    assert NotBefore(list, s)[p] == (t, held);
  }

  lemma NotBeforeOne(t: nat, held: Held, s: nat)
    requires s <= t
    ensures NotBefore([(t, held)], s) == [(t, held)]
  {
  }

  lemma WithoutJust(t: nat, held: Held, b: Held)
    ensures Without([(t, held)], b) == if held != b then [(t, held)] else []
  {
  }

  lemma HeldOnHolding(list: seq<Hold>, s: nat, b: Held, a: seq<Hold>, t: nat, c: seq<Hold>, held: Held, n: nat,
                      behind: nat)
    requires list == a + [(t, held)] + c && t >= n && |c| <= behind && behind + 1 < 64 && n <= s
    ensures HeldAt(Apply(list, HoldFor(s, b)), held, n, behind + 1)
  {
    WithoutConcat(a + [(t, held)], c, b);
    WithoutConcat(a, [(t, held)], b);
    WithoutJust(t, held, b);
    WithoutIs(c, b);
    hide Without;
    var all := Without(list, b) + [(s, b)];
    if held == b {
      assert all[|all| - 1] == (s, held);
      NewestHolds(all, |all| - 1, held, n, behind + 1);
    } else {
      var p := |Without(a, b)|;
      assert all == Without(a, b) + [(t, held)] + Without(c, b) + [(s, b)];
      assert all[p] == (t, held);
      NewestHolds(all, p, held, n, behind + 1);
    }
  }

  lemma NewestHolds(list: seq<Hold>, p: nat, held: Held, n: nat, behind: nat)
    requires p < |list| && list[p].1 == held && list[p].0 >= n && |list| <= p + 1 + behind && behind < 64
    ensures HeldAt(Newest(list), held, n, behind)
  {
    var excess := |list| - |Newest(list)|;
    assert Newest(list)[p - excess] == list[p];
  }

  lemma {:induction false} WantedStill(states: seq<Scene>, events: seq<Event>, v: ViewId, k: nat, n: nat, i: nat,
                                       held: Held)
    requires IsRun(states, events) && i <= |events| && WantedSince(states, events, v, k, n, i, held)
    ensures HeldAt(HoldsOf(states[i], v).unfenced, held, n, HeldSince(events, v, k + 1, i))
    decreases i
  {
    hide Step, HoldsOf, Apply, IsRun, Enabled;
    StepOf(states, events, i);
    var s, e := states[i - 1], events[i - 1];
    UnfencedStep(s, e, v);
    if k < i - 1 {
      WantedStill(states, events, v, k, n, i - 1, held);
      assert Spares(e, v, n);
      var ops := OpOf(s, e, v);
      if ops != [] { HeldOn(HoldsOf(s, v).unfenced, ops[0], held, n, HeldSince(events, v, k + 1, i - 1)); }
    } else {
      JustHeld(HoldsOf(s, v).unfenced, n, held);
    }
  }

  lemma JustHeld(list: seq<Hold>, n: nat, held: Held)
    ensures HeldAt(Apply(list, HoldFor(n, held)), held, n, 0)
  {
    var all := Without(list, held) + [(n, held)];
    NewestHolds(all, |all| - 1, held, n, 0);
  }

  // ----- for as long as it may be read -----

  /** The shell may be reading the slot, by what happened to its layers. */
  ghost predicate MayRead(states: seq<Scene>, events: seq<Event>, i: nat, uid: nat)
    requires i <= |events| < |states|
  {
    || (exists k :: OnItsWay(states, events, k, i, Held.Staged(uid)))
    || (exists v, k :: FencedSince(states, events, v, k, i, Held.Staged(uid)))
    || (exists v, k, n :: WantedSince(states, events, v, k, n, i, Held.Staged(uid)))
  }

  /** A slot the shell may be reading is busy. */
  lemma ReadIsBusy(states: seq<Scene>, events: seq<Event>, i: nat, uid: nat)
    requires IsRun(states, events) && i <= |events| && MayRead(states, events, i, uid)
    ensures Busy(states[i], uid)
  {
    var held := Held.Staged(uid);
    assert |states| == |events| + 1;
    hide IsRun, OnItsWay, FencedSince, WantedSince;
    if k :| OnItsWay(states, events, k, i, held) {
      OnItsWayIff(states, events, i, held);
    } else if v, k :| FencedSince(states, events, v, k, i, held) {
      FencedIff(states, events, v, i, held);
      KeptIsBusy(states[i], v, uid);
    } else {
      var v, k, n :| WantedSince(states, events, v, k, n, i, held);
      WantedStill(states, events, v, k, n, i, held);
      KeptIsBusy(states[i], v, uid);
    }
  }

  lemma KeptIsBusy(s: Scene, v: ViewId, uid: nat)
    requires Keeping(HoldsOf(s, v), Held.Staged(uid))
    ensures Busy(s, uid)
  {
  }

  /** So its pixels do not change for as long. */
  lemma ReadUntouched(states: seq<Scene>, events: seq<Event>, i: nat, j: nat, x: SurfaceId, slot: Slot)
    requires IsRun(states, events) && i <= j <= |events|
    requires forall k :: i <= k < j ==> MayRead(states, events, k, slot.uid)
    requires x in states[j].rings && slot in states[j].rings[x].slots
    ensures x in states[i].rings && slot in states[i].rings[x].slots
  {
    assert |states| == |events| + 1;
    hide IsRun, MayRead;
    forall k | i <= k < j ensures Busy(states[k], slot.uid) { ReadIsBusy(states, events, k, slot.uid); }
    BusySlotsUntouched(states, events, i, j, x, slot);
  }

  lemma OnItsWayBefore(states: seq<Scene>, events: seq<Event>, k: nat, l: nat, i: nat, held: Held)
    requires i <= |events| < |states| && k < l <= i && OnItsWay(states, events, k, i, held)
    ensures OnItsWay(states, events, k, l, held)
  {
    KeptGrows(events, k + 1, l, i);
    assert events[k + 1..l] <= events[k + 1..i];
  }

  lemma {:induction false} KeptGrows(events: seq<Event>, k: nat, l: nat, i: nat)
    requires k <= l <= i <= |events|
    ensures KeptSince(events, k, l) <= KeptSince(events, k, i)
    decreases i
  {
    if l < i { KeptGrows(events, k, l, i - 1); }
  }

  lemma {:induction false} HeldGrows(events: seq<Event>, v: ViewId, k: nat, l: nat, i: nat)
    requires k <= l <= i <= |events|
    ensures HeldSince(events, v, k, l) <= HeldSince(events, v, k, i)
    decreases i
  {
    if l < i { HeldGrows(events, v, k, l, i - 1); }
  }

  lemma RunLength(states: seq<Scene>, events: seq<Event>)
    requires IsRun(states, events)
    ensures |states| == |events| + 1
  {
    hide Step, Enabled;
  }

  lemma FencedBefore(states: seq<Scene>, events: seq<Event>, v: ViewId, k: nat, l: nat, i: nat, held: Held)
    requires k < l <= i <= |events| <= |states| && FencedSince(states, events, v, k, i, held)
    ensures FencedSince(states, events, v, k, l, held)
  {
    assert events[k + 1..l] <= events[k + 1..i];
    hide KeysOf;
  }

  lemma WantedBefore(states: seq<Scene>, events: seq<Event>, v: ViewId, k: nat, n: nat, l: nat, i: nat, held: Held)
    requires k < l <= i <= |events| <= |states| && WantedSince(states, events, v, k, n, i, held)
    ensures WantedSince(states, events, v, k, n, l, held)
  {
    HeldGrows(events, v, k + 1, l, i);
  }

  /** From the event that shows a slot, through the one that keeps its layer for a fence, to the one by which that fence
      signals or the view is unbound, the slot's pixels do not change: found afterwards it is as it was shown. */
  lemma FencedUntouched(states: seq<Scene>, events: seq<Event>, shown: nat, kept: nat, freed: nat, v: ViewId,
                        x: SurfaceId, slot: Slot)
    requires IsRun(states, events) && shown < kept < freed < |events|
    requires OnItsWay(states, events, shown, kept, Held.Staged(slot.uid))
    requires FencedSince(states, events, v, kept, freed, Held.Staged(slot.uid))
    requires x in states[freed + 1].rings && slot in states[freed + 1].rings[x].slots
    ensures x in states[shown + 1].rings && slot in states[shown + 1].rings[x].slots
  {
    hide IsRun, OnItsWay, FencedSince;
    RunLength(states, events);
    forall k | shown + 1 <= k < freed + 1 ensures MayRead(states, events, k, slot.uid) {
      if k <= kept {
        OnItsWayBefore(states, events, shown, k, kept, Held.Staged(slot.uid));
      } else {
        FencedBefore(states, events, v, kept, k, freed, Held.Staged(slot.uid));
      }
    }
    hide MayRead;
    ReadUntouched(states, events, shown + 1, freed + 1, x, slot);
  }

  /** And so through the one that keeps its layer for a frame, to the one by which a later frame is reported, the view
      is unbound, or the 64th more layer is kept for it. */
  lemma FrameUntouched(states: seq<Scene>, events: seq<Event>, shown: nat, kept: nat, freed: nat, v: ViewId, n: nat,
                       x: SurfaceId, slot: Slot)
    requires IsRun(states, events) && shown < kept < freed < |events|
    requires OnItsWay(states, events, shown, kept, Held.Staged(slot.uid))
    requires WantedSince(states, events, v, kept, n, freed, Held.Staged(slot.uid))
    requires x in states[freed + 1].rings && slot in states[freed + 1].rings[x].slots
    ensures x in states[shown + 1].rings && slot in states[shown + 1].rings[x].slots
  {
    hide IsRun, OnItsWay, WantedSince;
    RunLength(states, events);
    forall k | shown + 1 <= k < freed + 1 ensures MayRead(states, events, k, slot.uid) {
      if k <= kept {
        OnItsWayBefore(states, events, shown, k, kept, Held.Staged(slot.uid));
      } else {
        WantedBefore(states, events, v, kept, n, k, freed, Held.Staged(slot.uid));
      }
    }
    hide MayRead;
    ReadUntouched(states, events, shown + 1, freed + 1, x, slot);
  }
}

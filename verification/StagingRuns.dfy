/** Staging rings, the layers on their way to the shell and the views' holds together, over whole runs: a slot the
    shell may be reading is never written, and every label stays true.

    A slot is busy while another clone of its hold lives: in a layer being submitted, or in the holds of any view. */
module StagingRuns {
  import opened Basics
  import opened DamageCopy
  import opened Holds
  import opened Staging
  import opened StagingProofs

  type SurfaceId = nat
  type ViewId = int

  /** What one view holds (Holds). */
  datatype ViewHolds = ViewHolds(nextKey: nat, fenced: map<nat, Held>, unfenced: seq<Hold>)

  const NO_HOLDS := ViewHolds(0, map[], [])

  datatype Scene = Scene(
    rings: map<SurfaceId, Ring>,
    nextUid: nat,
    /** What each surface showed, by commit. */
    pictures: map<SurfaceId, seq<Picture>>,
    /** The layers of the tree being submitted. */
    layers: seq<Held>,
    views: map<ViewId, ViewHolds>,
    /** Every slot made, and those dropped from their ring, whose buffer ids are retired. */
    made: set<nat>,
    retired: set<nat>)

  datatype Event =
    | Commit(surface: SurfaceId, picture: Picture)
    | StageLayer(surface: SurfaceId, buffer: Buffer, around: Around)
    | ClientLayer(held: nat)
    | KeepFenced(view: ViewId, inserted: bool)
    | KeepUnfenced(view: ViewId, seqNo: nat)
    | DropLayers
    | Reported(view: ViewId, seqNo: nat)
    | FenceSignaled(view: ViewId, key: nat)
    | Unbound(view: ViewId)
    | SurfaceGone(surface: SurfaceId)

  ghost function HistoryOf(s: Scene, x: SurfaceId): History {
    if x in s.pictures then map c: nat | c < |s.pictures[x]| :: s.pictures[x][c] else map[]
  }

  function RingOf(s: Scene, x: SurfaceId): Ring {
    if x in s.rings then s.rings[x] else EMPTY
  }

  function HoldsOf(s: Scene, v: ViewId): ViewHolds {
    if v in s.views then s.views[v] else NO_HOLDS
  }

  predicate Keeping(h: ViewHolds, held: Held) {
    held in h.fenced.Values || exists e :: e in h.unfenced && e.1 == held
  }

  ghost predicate Busy(s: Scene, uid: nat) {
    Held.Staged(uid) in s.layers || exists v :: v in s.views && Keeping(s.views[v], Held.Staged(uid))
  }

  ghost function BusyIn(s: Scene, r: Ring): set<nat> {
    set u | u in Uids(r.slots) && Busy(s, u)
  }

  ghost function UidSet(slots: seq<Slot>): set<nat> {
    set slot | slot in slots :: slot.uid
  }

  ghost function SetOf(uids: seq<nat>): set<nat> { set u | u in uids }

  ghost predicate Enabled(s: Scene, e: Event) {
    match e
    case StageLayer(x, _, _) => Indexed(RingOf(s, x))
    case KeepFenced(_, _) => s.layers != []
    case KeepUnfenced(_, _) => s.layers != []
    case _ => true
  }

  /** As far as one surface goes, the tree is built from it as it is: the buffer is its current one and holds all it
      claims, and its damage is sound. Nothing is asked of the other surfaces. */
  ghost predicate FairFor(s: Scene, e: Event, x: SurfaceId) {
    match e
    case Commit(y, picture) => y == x ==> PictureOk(picture)
    case StageLayer(y, b, around) => y == x ==> HistoryOk(HistoryOf(s, x)) && Fair(b, around, HistoryOf(s, x))
    case _ => true
  }

  ghost function Step(s: Scene, e: Event): Scene
    requires Enabled(s, e)
  {
    match e
    case Commit(x, picture) =>
      s.(pictures := s.pictures[x := (if x in s.pictures then s.pictures[x] else []) + [picture]])
    case StageLayer(x, b, around) =>
      var out := StageCall(RingOf(s, x), s.nextUid, BusyIn(s, RingOf(s, x)), b, around);
      s.(rings := s.rings[x := out.ring], nextUid := out.nextUid,
         layers := if out.shown.Some? then s.layers + [Held.Staged(out.shown.value)] else s.layers,
         made := s.made + UidSet(out.ring.slots), retired := s.retired + SetOf(out.retired))
    case ClientLayer(b) => s.(layers := s.layers + [Held.Client(b)])
    case KeepFenced(v, inserted) =>
      var h := HoldsOf(s, v);
      s.(layers := s.layers[1..],
         views := s.views[v := h.(nextKey := h.nextKey + 1,
                                  fenced := if inserted then h.fenced[h.nextKey + 1 := s.layers[0]] else h.fenced)])
    case KeepUnfenced(v, seqNo) =>
      s.(layers := s.layers[1..],
         views := s.views[v := HoldsOf(s, v).(unfenced := Apply(HoldsOf(s, v).unfenced, HoldFor(seqNo, s.layers[0])))])
    case DropLayers => s.(layers := [])
    case Reported(v, seqNo) =>
      s.(views := s.views[v := HoldsOf(s, v).(unfenced := Apply(HoldsOf(s, v).unfenced, Report(seqNo)))])
    case FenceSignaled(v, key) => s.(views := s.views[v := HoldsOf(s, v).(fenced := HoldsOf(s, v).fenced - {key})])
    case Unbound(v) => s.(views := s.views[v := HoldsOf(s, v).(fenced := map[], unfenced := [])])
    case SurfaceGone(x) =>
      s.(rings := s.rings - {x}, pictures := s.pictures - {x}, retired := s.retired + UidSet(RingOf(s, x).slots))
  }

  const START := Scene(map[], 0, map[], [], map[], {}, {})

  ghost predicate IsRun(states: seq<Scene>, events: seq<Event>) {
    && |states| == |events| + 1
    && states[0] == START
    && forall i :: 0 <= i < |events| ==> Enabled(states[i], events[i]) && states[i + 1] == Step(states[i], events[i])
  }

  // ----- what every state keeps -----

  ghost predicate InRing(s: Scene, uid: nat) {
    exists x :: x in s.rings && uid in UidSet(s.rings[x].slots)
  }

  ghost predicate RingShape(r: Ring, nextUid: nat) {
    && Indexed(r)
    && (forall i, j :: 0 <= i < j < |r.slots| ==> r.slots[i].uid != r.slots[j].uid)
    && (forall slot :: slot in r.slots ==> slot.uid <= nextUid)
    && (r.newest.Some? ==> r.slots[r.newest.value].commit.Some?)
  }

  ghost predicate Sound(s: Scene) {
    && (forall x :: x in s.rings ==> RingShape(s.rings[x], s.nextUid))
    && (forall x, y :: x in s.rings && y in s.rings && x != y ==> UidSet(s.rings[x].slots) !! UidSet(s.rings[y].slots))
  }

  /** Every label of the surface's ring is true. */
  ghost predicate TrueFor(s: Scene, x: SurfaceId) {
    HistoryOk(HistoryOf(s, x)) && RingOk(RingOf(s, x), s.nextUid, HistoryOf(s, x))
  }

  /** Every slot made is in just one of two places: in a ring, or retired. */
  ghost predicate Accounted(s: Scene) {
    && (forall u :: u in s.made <==> InRing(s, u) || u in s.retired)
    && (forall u :: u in s.retired ==> !InRing(s, u))
    && (forall u :: u in s.made ==> u <= s.nextUid)
  }

  /** A busy slot was made, and if it is still in its ring it was filled. */
  ghost predicate BusyShown(s: Scene) {
    forall u :: Busy(s, u) ==>
      && u in s.made
      && forall x, slot :: x in s.rings && slot in s.rings[x].slots && slot.uid == u ==> slot.commit.Some?
  }

  // ----- one staging call -----

  lemma UidsAre(slots: seq<Slot>)
    ensures SetOf(Uids(slots)) == UidSet(slots)
    ensures forall u :: u in Uids(slots) <==> u in UidSet(slots)
  {
    forall u | u in UidSet(slots) ensures u in Uids(slots) {
      var slot :| slot in slots && slot.uid == u;
      var i :| 0 <= i < |slots| && slots[i] == slot;
      assert Uids(slots)[i] == u;
    }
  }

  /** Filling a slot changes no other, and no uid. */
  lemma FillWrites(r: Ring, nextUid: nat, i: nat, b: Buffer, around: Around, retired: seq<nat>)
    requires i < |r.slots| && !b.Unstageable?
    ensures var out := Fill(r, nextUid, i, b, around, retired);
            && (forall slot :: slot in out.ring.slots && slot.uid != r.slots[i].uid ==> slot in r.slots)
            && UidSet(out.ring.slots) == UidSet(r.slots)
            && (out.shown.Some? ==> out.shown.value in UidSet(out.ring.slots))
  {
    hide Written;
    var out := Fill(r, nextUid, i, b, around, retired);
    assert Uids(out.ring.slots) == Uids(r.slots);
    UidsAre(out.ring.slots);
    UidsAre(r.slots);
    assert r.slots[i] in r.slots;
  }

  /** A staging call writes only a slot no one else holds, makes only slots with new uids, and drops all or none. */
  lemma StageWritesFree(r: Ring, nextUid: nat, busy: set<nat>, b: Buffer, around: Around)
    requires Indexed(r) && forall u :: u in busy ==> u <= nextUid
    ensures var out := StageCall(r, nextUid, busy, b, around);
            && nextUid <= out.nextUid
            && (forall slot :: slot in out.ring.slots && slot.uid in busy ==> slot in r.slots)
            && (forall u :: u in UidSet(out.ring.slots) ==> u in UidSet(r.slots) || nextUid < u <= out.nextUid)
            && UidSet(r.slots) <= UidSet(out.ring.slots) + SetOf(out.retired)
            && SetOf(out.retired) <= UidSet(r.slots)
            && (out.retired == [] || forall u :: u in UidSet(out.ring.slots) ==> u > nextUid)
            && (out.shown.Some? ==> out.shown.value in UidSet(out.ring.slots))
  {
    UidsAre(r.slots);
    if FormatOf(b).Some? {
      SameWritesFree(ForKind(r, b), nextUid, busy, b, around, if SameKind(r, b) then [] else Uids(r.slots));
    }
    hide StageSame;
  }

  lemma SameWritesFree(r: Ring, nextUid: nat, busy: set<nat>, b: Buffer, around: Around, retired: seq<nat>)
    requires !b.Unstageable? && Indexed(r) && forall u :: u in busy ==> u <= nextUid
    ensures var out := StageSame(r, nextUid, busy, b, around, retired);
            && nextUid <= out.nextUid && out.retired == retired
            && (forall slot :: slot in out.ring.slots && slot.uid in busy ==> slot in r.slots)
            && (forall u :: u in UidSet(out.ring.slots) ==> u in UidSet(r.slots) || nextUid < u <= out.nextUid)
            && UidSet(r.slots) <= UidSet(out.ring.slots)
            && (out.shown.Some? ==> out.shown.value in UidSet(out.ring.slots))
  {
    hide Fill;
    if !Current(r, around) {
      match FirstFree(r.slots, busy, 0)
      case Some(i) => FillWrites(r, nextUid, i, b, around, retired);
      case None =>
        if |r.slots| < MAX_SLOTS && around.given.Some? {
          var m := around.given.value;
          var grown := r.(slots := r.slots + [Slot(nextUid + 1, m.stride, m.mem, None)]);
          assert UidSet(grown.slots) == UidSet(r.slots) + {nextUid + 1};
          FillWrites(grown, nextUid + 1, |r.slots|, b, around, retired);
        }
    }
  }

  /** Whatever is shown is the newest slot. */
  lemma ShownIsNewest(r: Ring, nextUid: nat, busy: set<nat>, b: Buffer, around: Around)
    requires Indexed(r)
    ensures var out := StageCall(r, nextUid, busy, b, around);
            out.shown.Some? ==>
              && out.ring.newest.Some? && out.ring.newest.value < |out.ring.slots|
              && out.ring.slots[out.ring.newest.value].uid == out.shown.value
  {
    hide Written;
  }

  lemma FillShape(r: Ring, nextUid: nat, i: nat, b: Buffer, around: Around, retired: seq<nat>)
    requires RingShape(r, nextUid) && i < |r.slots| && !b.Unstageable?
    ensures RingShape(Fill(r, nextUid, i, b, around, retired).ring, nextUid)
  {
    hide Written;
    assert r.slots[i] in r.slots;
  }

  lemma GrownShape(r: Ring, nextUid: nat, m: Memory)
    requires RingShape(r, nextUid)
    ensures RingShape(r.(slots := r.slots + [Slot(nextUid + 1, m.stride, m.mem, None)]), nextUid + 1)
  {
    assert forall i :: 0 <= i < |r.slots| ==> r.slots[i] in r.slots;
  }

  lemma StageKeepsShape(r: Ring, nextUid: nat, busy: set<nat>, b: Buffer, around: Around)
    requires RingShape(r, nextUid)
    ensures var out := StageCall(r, nextUid, busy, b, around); RingShape(out.ring, out.nextUid)
  {
    if FormatOf(b).Some? {
      var r' := ForKind(r, b);
      var retired := if SameKind(r, b) then [] else Uids(r.slots);
      assert RingShape(r', nextUid) && RingShape(r', nextUid + 1);
      hide Fill, RingShape;
      if !Current(r', around) {
        match FirstFree(r'.slots, busy, 0)
        case Some(i) => FillShape(r', nextUid, i, b, around, retired);
        case None =>
          if |r'.slots| < MAX_SLOTS && around.given.Some? {
            var m := around.given.value;
            GrownShape(r', nextUid, m);
            var grown := r'.(slots := r'.slots + [Slot(nextUid + 1, m.stride, m.mem, None)]);
            FillShape(grown, nextUid + 1, |r'.slots|, b, around, retired);
          }
      }
    }
  }

  // ----- every step -----

  /** Only staging makes a slot busy; a layer that is kept was on its way already. */
  lemma BusyCarried(s: Scene, e: Event, uid: nat)
    requires Enabled(s, e) && !e.StageLayer? && Busy(Step(s, e), uid)
    ensures Busy(s, uid)
  {
    var s' := Step(s, e);
    var held := Held.Staged(uid);
    if held in s'.layers {
      assert held in s.layers;
    } else {
      var v :| v in s'.views && Keeping(s'.views[v], held);
      if s'.views != s.views {
        KeepingCarried(s, e, held, v);
      }
      if !Keeping(HoldsOf(s, v), held) { assert s.layers[0] == held; }
    }
  }

  lemma KeepingCarried(s: Scene, e: Event, held: Held, v: ViewId)
    requires Enabled(s, e) && !e.StageLayer? && v in Step(s, e).views && Keeping(Step(s, e).views[v], held)
    ensures Keeping(HoldsOf(s, v), held) || (s.layers != [] && held == s.layers[0])
  {
    hide StageCall, Apply;
    var h, h' := HoldsOf(s, v), Step(s, e).views[v];
    ApplyKeeps(h.unfenced,
               HoldFor(if e.KeepUnfenced? then e.seqNo else 0, if s.layers != [] then s.layers[0] else held));
    ApplyKeeps(h.unfenced, Report(if e.Reported? then e.seqNo else 0));
    if held in h'.fenced.Values {
      var k :| k in h'.fenced && h'.fenced[k] == held;
      if k in h.fenced && h.fenced[k] == held { assert held in h.fenced.Values; }
    } else {
      var entry :| entry in h'.unfenced && entry.1 == held;
    }
  }

  lemma ApplyKeeps(list: seq<Hold>, op: Op)
    ensures forall h :: h in Apply(list, op) ==> h in list || (op.HoldFor? && h.1 == op.buffer)
  {
    match op
    case HoldFor(s, b) => WithoutIs(list, b);
    case Report(s) => NotBeforeIs(list, s);
    case GiveBack =>
  }

  /** A busy slot is not written: whatever is in a ring after a step and was busy before it, was there before it,
      with the same pixels. */
  lemma BusyUnwritten(s: Scene, e: Event, x: SurfaceId, slot: Slot)
    requires Enabled(s, e) && Accounted(s) && BusyShown(s)
    requires Busy(s, slot.uid) && x in Step(s, e).rings && slot in Step(s, e).rings[x].slots
    ensures x in s.rings && slot in s.rings[x].slots
  {
    if e.StageLayer? && e.surface == x {
      var r := RingOf(s, x);
      assert slot.uid in s.made;
      forall u | u in BusyIn(s, r) ensures u <= s.nextUid {
        assert u in s.made;
      }
      StageWritesFree(r, s.nextUid, BusyIn(s, r), e.buffer, e.around);
      UidsAre(r.slots);
      assert slot.uid in UidSet(StageCall(r, s.nextUid, BusyIn(s, r), e.buffer, e.around).ring.slots);
      assert slot in r.slots;
    }
  }

  lemma CommitKeeps(r: Ring, nextUid: nat, history: History, c: Commit, p: Picture)
    requires HistoryOk(history) && RingOk(r, nextUid, history) && PictureOk(p) && c !in history
    ensures HistoryOk(history[c := p]) && RingOk(r, nextUid, history[c := p])
  {
    hide Room, SlotShows;
    forall i | 0 <= i < |r.slots| ensures Labelled(r.slots[i], r, history[c := p]) {
      assert Labelled(r.slots[i], r, history);
    }
  }

  /** Staging any surface keeps the labels of every one that is staged as it is. */
  lemma StageKeepsTrue(s: Scene, e: Event, x: SurfaceId)
    requires Enabled(s, e) && e.StageLayer? && TrueFor(s, x) && FairFor(s, e, x) && Accounted(s) && BusyShown(s)
    ensures TrueFor(Step(s, e), x)
  {
    hide RingOk, HistoryOk, Fair, StageCall, Accounted, BusyShown;
    var y, s' := e.surface, Step(s, e);
    var r := RingOf(s, y);
    assert HistoryOf(s', x) == HistoryOf(s, x);
    if y == x {
      StageKeepsRing(r, s.nextUid, BusyIn(s, r), e.buffer, e.around, HistoryOf(s, x));
    } else {
      BusyMade(s, r);
      StageWritesFree(r, s.nextUid, BusyIn(s, r), e.buffer, e.around);
      RingLater(RingOf(s, x), s.nextUid, s'.nextUid, HistoryOf(s, x));
    }
  }

  lemma StageKeepsSound(s: Scene, e: Event)
    requires Enabled(s, e) && e.StageLayer? && Sound(s) && Accounted(s) && BusyShown(s)
    ensures Sound(Step(s, e))
  {
    hide StageCall;
    var x, s' := e.surface, Step(s, e);
    var r := RingOf(s, x);
    StageKeepsShape(r, s.nextUid, BusyIn(s, r), e.buffer, e.around);
    BusyMade(s, r);
    StageWritesFree(r, s.nextUid, BusyIn(s, r), e.buffer, e.around);
    forall y | y in s.rings && y != x
      ensures RingShape(s.rings[y], s'.nextUid) && UidSet(s.rings[y].slots) !! UidSet(s'.rings[x].slots)
    {
      assert RingShape(s.rings[y], s.nextUid);
    }
  }

  lemma BusyMade(s: Scene, r: Ring)
    requires Accounted(s) && BusyShown(s)
    ensures forall u :: u in BusyIn(s, r) ==> u <= s.nextUid
  {
    forall u | u in BusyIn(s, r) ensures u <= s.nextUid {
      assert u in s.made;
    }
  }

  ghost predicate InOtherRing(s: Scene, x: SurfaceId, uid: nat) {
    exists y :: y != x && y in s.rings && uid in UidSet(s.rings[y].slots)
  }

  lemma StageKeepsAccounts(s: Scene, e: Event)
    requires Enabled(s, e) && e.StageLayer? && Sound(s) && Accounted(s) && BusyShown(s)
    ensures Accounted(Step(s, e))
  {
    hide RingShape, StageCall;
    var x, s' := e.surface, Step(s, e);
    var r := RingOf(s, x);
    BusyMade(s, r);
    StageWritesFree(r, s.nextUid, BusyIn(s, r), e.buffer, e.around);
    var out := StageCall(r, s.nextUid, BusyIn(s, r), e.buffer, e.around);
    forall u ensures InRing(s', u) <==> u in UidSet(out.ring.slots) || InOtherRing(s, x, u) {
      if u in UidSet(out.ring.slots) { assert x in s'.rings; }
      if y :| y != x && y in s.rings && u in UidSet(s.rings[y].slots) {
        assert y in s'.rings && u in UidSet(s'.rings[y].slots);
      }
    }
    forall u | u in UidSet(r.slots) ensures InRing(s, u) && !InOtherRing(s, x, u) {
      assert x in s.rings;
    }
    forall u ensures InRing(s, u) <==> u in UidSet(r.slots) || InOtherRing(s, x, u) {
    }
    assert out.retired == [] ==> SetOf(out.retired) == {};
  }

  /** Whatever staging shows was filled. */
  lemma ShownFilled(s: Scene, e: Event, y: SurfaceId, slot: Slot)
    requires Enabled(s, e) && e.StageLayer? && Sound(Step(s, e))
    requires y in Step(s, e).rings && slot in Step(s, e).rings[y].slots
    requires StageCall(RingOf(s, e.surface), s.nextUid, BusyIn(s, RingOf(s, e.surface)), e.buffer, e.around).shown
        == Some(slot.uid)
    ensures slot.commit.Some?
  {
    hide StageCall;
    var x, s', r := e.surface, Step(s, e), RingOf(s, e.surface);
    ShownIsNewest(r, s.nextUid, BusyIn(s, r), e.buffer, e.around);
    var out := StageCall(r, s.nextUid, BusyIn(s, r), e.buffer, e.around);
    assert s'.rings[x] == out.ring && out.ring.slots[out.ring.newest.value] in out.ring.slots;
    assert slot.uid in UidSet(s'.rings[y].slots) && slot.uid in UidSet(s'.rings[x].slots);
    assert y == x;
    var i :| 0 <= i < |out.ring.slots| && out.ring.slots[i] == slot;
    assert RingShape(out.ring, s'.nextUid);
  }

  lemma StageKeepsBusy(s: Scene, e: Event)
    requires Enabled(s, e) && e.StageLayer? && Accounted(s) && BusyShown(s) && Sound(Step(s, e))
    ensures BusyShown(Step(s, e))
  {
    hide StageCall, Sound;
    var s' := Step(s, e);
    var r := RingOf(s, e.surface);
    BusyMade(s, r);
    StageWritesFree(r, s.nextUid, BusyIn(s, r), e.buffer, e.around);
    var out := StageCall(r, s.nextUid, BusyIn(s, r), e.buffer, e.around);
    forall u | Busy(s', u)
      ensures u in s'.made
      ensures forall y, slot :: y in s'.rings && slot in s'.rings[y].slots && slot.uid == u ==> slot.commit.Some?
    {
      NewlyBusy(s, e, u);
      forall y, slot | y in s'.rings && slot in s'.rings[y].slots && slot.uid == u ensures slot.commit.Some? {
        if Busy(s, u) { BusyUnwritten(s, e, y, slot); } else { ShownFilled(s, e, y, slot); }
      }
    }
  }

  lemma NewlyBusy(s: Scene, e: Event, u: nat)
    requires Enabled(s, e) && e.StageLayer? && Busy(Step(s, e), u)
    ensures var r := RingOf(s, e.surface);
            Busy(s, u) || StageCall(r, s.nextUid, BusyIn(s, r), e.buffer, e.around).shown == Some(u)
  {
    hide StageCall, Keeping;
  }

  /** Every step keeps every slot accounted for and every busy slot filled. */
  lemma StepKeeps(s: Scene, e: Event)
    requires Enabled(s, e) && Sound(s) && Accounted(s) && BusyShown(s)
    ensures Sound(Step(s, e)) && Accounted(Step(s, e)) && BusyShown(Step(s, e))
  {
    hide RingShape, StageCall, Busy;
    var s' := Step(s, e);
    if e.StageLayer? {
      StageKeepsSound(s, e);
      StageKeepsAccounts(s, e);
      StageKeepsBusy(s, e);
    } else {
      forall u | Busy(s', u) ensures Busy(s, u) {
        BusyCarried(s, e, u);
      }
      if e.SurfaceGone? {
        GoneStep(s, e.surface);
      } else {
        assert forall u :: InRing(s', u) <==> InRing(s, u);
      }
    }
  }

  lemma GoneStep(s: Scene, x: SurfaceId)
    requires Sound(s) && Accounted(s)
    ensures Sound(Step(s, SurfaceGone(x))) && Accounted(Step(s, SurfaceGone(x)))
  {
    hide RingShape;
    var s' := Step(s, SurfaceGone(x));
    forall u ensures InRing(s, u) <==> InRing(s', u) || u in UidSet(RingOf(s, x).slots) {
      if y :| y in s.rings && u in UidSet(s.rings[y].slots) {
        if y != x { assert y in s'.rings; }
      }
      if y :| y in s'.rings && u in UidSet(s'.rings[y].slots) { assert y in s.rings; }
      if u in UidSet(RingOf(s, x).slots) { assert x in s.rings; }
    }
    forall u | u in UidSet(RingOf(s, x).slots) ensures !InRing(s', u) {
      forall y | y in s'.rings ensures u !in UidSet(s'.rings[y].slots) {
        assert y in s.rings;
      }
    }
  }

  /** And every label of a surface, if the step is fair to that one. */
  lemma StepTrue(s: Scene, e: Event, x: SurfaceId)
    requires Enabled(s, e) && FairFor(s, e, x) && TrueFor(s, x) && Accounted(s) && BusyShown(s)
    ensures TrueFor(Step(s, e), x)
  {
    hide RingOk, HistoryOk, Fair, StageCall, PictureOk, Accounted, BusyShown;
    var s' := Step(s, e);
    match e
    case StageLayer(_, _, _) => StageKeepsTrue(s, e, x);
    case Commit(y, p) => if y == x { CommitTrue(s, x, p); } else { assert HistoryOf(s', x) == HistoryOf(s, x); }
    case SurfaceGone(y) => if y == x { NoHistory(s'.nextUid); } else { assert HistoryOf(s', x) == HistoryOf(s, x); }
    case _ => assert HistoryOf(s', x) == HistoryOf(s, x);
  }

  lemma NoHistory(nextUid: nat)
    ensures HistoryOk(map[]) && RingOk(EMPTY, nextUid, map[])
  {
  }

  lemma CommitTrue(s: Scene, x: SurfaceId, p: Picture)
    requires TrueFor(s, x) && PictureOk(p)
    ensures TrueFor(Step(s, Commit(x, p)), x)
  {
    hide RingOk, HistoryOk, PictureOk;
    var s' := Step(s, Commit(x, p));
    var was := HistoryOf(s, x);
    var n := if x in s.pictures then |s.pictures[x]| else 0;
    assert HistoryOf(s', x) == was[n := p];
    CommitKeeps(RingOf(s, x), s.nextUid, was, n, p);
  }

  // ----- runs -----

  lemma {:induction false} RunKeeps(states: seq<Scene>, events: seq<Event>, i: nat)
    requires IsRun(states, events) && i <= |events|
    ensures Sound(states[i]) && Accounted(states[i]) && BusyShown(states[i])
  {
    if i > 0 {
      RunKeeps(states, events, i - 1);
      StepKeeps(states[i - 1], events[i - 1]);
    }
  }

  /** The pixels of a slot never change while the shell may read it: found in a ring at a later state of any run, after
      being busy all along, it was there before, just as it is. */
  lemma {:induction false} BusySlotsUntouched(states: seq<Scene>, events: seq<Event>, i: nat, j: nat, x: SurfaceId,
                                              slot: Slot)
    requires IsRun(states, events) && i <= j <= |events|
    requires forall k :: i <= k < j ==> Busy(states[k], slot.uid)
    requires x in states[j].rings && slot in states[j].rings[x].slots
    ensures x in states[i].rings && slot in states[i].rings[x].slots
  {
    hide Step, Enabled, Sound, Accounted, BusyShown, Busy;
    if i < j {
      RunKeeps(states, events, j - 1);
      BusyUnwritten(states[j - 1], events[j - 1], x, slot);
      BusySlotsUntouched(states, events, i, j - 1, x, slot);
    }
  }

  /** The events of the run so far are fair to the surface. */
  ghost predicate FairSoFar(states: seq<Scene>, events: seq<Event>, i: nat, x: SurfaceId)
    requires i <= |events| <= |states|
  {
    forall k :: 0 <= k < i ==> FairFor(states[k], events[k], x)
  }

  lemma {:induction false} RunTrue(states: seq<Scene>, events: seq<Event>, i: nat, x: SurfaceId)
    requires IsRun(states, events) && i <= |events| && FairSoFar(states, events, i, x)
    ensures TrueFor(states[i], x)
  {
    hide Step, Enabled, FairFor, Sound, Accounted, BusyShown;
    if i == 0 {
      NoHistory(0);
    } else {
      hide TrueFor;
      RunTrue(states, events, i - 1, x);
      RunKeeps(states, events, i - 1);
      StepTrue(states[i - 1], events[i - 1], x);
    }
  }

  /** A slot is in its ring or retired, never both, and is retired once for all. */
  lemma SlotsAccounted(states: seq<Scene>, events: seq<Event>, i: nat, j: nat, uid: nat)
    requires IsRun(states, events) && i <= j <= |events|
    ensures uid in states[i].made ==> (InRing(states[i], uid) <==> uid !in states[i].retired)
    ensures uid in states[i].retired ==> uid in states[j].retired && !InRing(states[j], uid)
    decreases j - i
  {
    hide Step, Sound, BusyShown, InRing;
    RunKeeps(states, events, i);
    RunKeeps(states, events, j);
    if i < j {
      SlotsAccounted(states, events, i, j - 1, uid);
      RetiredOnce(states[j - 1], events[j - 1]);
    }
  }

  lemma RetiredOnce(s: Scene, e: Event)
    requires Enabled(s, e)
    ensures s.retired <= Step(s, e).retired
  {
    hide StageCall;
  }

  /** Whatever the other clients do: as long as a surface is staged as it is, in every state of every run a slot of its
      ring labelled with a commit shows just the picture the surface had at that commit. */
  lemma LabelsTrue(states: seq<Scene>, events: seq<Event>, i: nat, x: SurfaceId, slot: Slot)
    requires IsRun(states, events) && i <= |events| && FairSoFar(states, events, i, x)
    requires x in states[i].rings && slot in states[i].rings[x].slots && slot.commit.Some?
    ensures x in states[i].pictures && slot.commit.value < |states[i].pictures[x]|
    ensures PictureOk(states[i].pictures[x][slot.commit.value])
    ensures SlotShows(slot, states[i].pictures[x][slot.commit.value])
  {
    RunTrue(states, events, i, x);
    var r := states[i].rings[x];
    var k :| 0 <= k < |r.slots| && r.slots[k] == slot;
    assert Labelled(r.slots[k], r, HistoryOf(states[i], x));
  }

  /** And every time it is staged what goes to the shell is its current picture, or the newest one when all its slots
      are held; nothing does just when the buffer cannot be staged, or memory or a mapping is not to be had. */
  lemma StagedCurrent(states: seq<Scene>, events: seq<Event>, i: nat, x: SurfaceId)
    requires IsRun(states, events) && i < |events| && FairSoFar(states, events, i + 1, x)
    requires events[i].StageLayer? && events[i].surface == x
    ensures var s, e := states[i], events[i];
            var r := RingOf(s, x);
            && (FormatOf(e.buffer).Some? ==> Honest(e.buffer))
            && ShowsCurrent(r, s.nextUid, BusyIn(s, r), e.buffer, e.around)
            && states[i + 1].layers
               == s.layers + match StageCall(r, s.nextUid, BusyIn(s, r), e.buffer, e.around).shown
                             case None => []
                             case Some(uid) => [Held.Staged(uid)]
  {
    hide ShowsCurrent, StageCall, RingOk, HistoryOk, Fair;
    var s, e := states[i], events[i];
    var r := RingOf(s, x);
    RunTrue(states, events, i, x);
    RunKeeps(states, events, i);
    assert FairFor(states[i], events[i], x);
    RingIndexed(r, s.nextUid, HistoryOf(s, x));
    BusyAreFilled(s, x);
    StageShowsCurrent(r, s.nextUid, BusyIn(s, r), e.buffer, e.around, HistoryOf(s, x));
  }

  lemma BusyAreFilled(s: Scene, x: SurfaceId)
    requires BusyShown(s)
    ensures BusyFilled(RingOf(s, x), BusyIn(s, RingOf(s, x)))
  {
    var r := RingOf(s, x);
    forall i | 0 <= i < |r.slots| && r.slots[i].uid in BusyIn(s, r) ensures r.slots[i].commit.Some? {
      assert r.slots[i] in r.slots;
    }
  }
}

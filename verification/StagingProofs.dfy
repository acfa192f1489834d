/** What a staging slot shows: a slot labelled with a commit holds just the client's picture at that commit, although
    only what was damaged since is ever copied. */
module StagingProofs {
  import opened Basics
  import opened DamageCopy
  import opened Staging

  // ----- pictures -----

  /** A buffer whose pool holds all it claims. */
  ghost predicate Honest(b: Buffer) {
    match b
    case Shm(w, h, _, stride, offset, pool) =>
      forall row: nat, x: nat :: row < Extent(h) && x < Extent(w) ==> InPool(b, row, x)
    case SinglePixel(color) => |color| == 4
    case Unstageable => false
  }

  predicate InPool(b: Buffer, row: nat, x: nat)
    requires b.Shm?
  {
    b.offset + row * b.stride + x * 4 + 4 <= |b.pool|
  }

  function PictureLayout(b: Buffer): Layout
    requires b.Shm?
  {
    Layout(Extent(b.width), Extent(b.height), b.offset, b.stride, 0)
  }

  ghost function PictureOf(b: Buffer): Picture
    requires FormatOf(b).Some? && Honest(b)
  {
    match b
    case Shm(w, h, format, stride, offset, pool) =>
      Picture(w, h, format.value,
              seq(Extent(h), row requires 0 <= row < Extent(h) =>
                seq(Extent(w), x requires 0 <= x < Extent(w) =>
                  assert InPool(b, row, x); Pixel(pool, PictureLayout(b).From(row, x)))))
    case SinglePixel(color) => Picture(1, 1, Argb8888, [[color]])
  }

  ghost predicate PictureOk(p: Picture) {
    && |p.rows| == Extent(p.height)
    && forall row :: 0 <= row < |p.rows| ==> |p.rows[row]| == Extent(p.width)
  }

  predicate OfKind(p: Picture, width: int, height: int, format: Option<Format>) {
    p.width == width && p.height == height && format == Some(p.format)
  }

  // ----- slots -----

  function At(stride: nat, row: nat, x: nat): nat { row * stride + x * 4 }

  ghost predicate Room(stride: nat, mem: seq<Byte>, width: int, height: int) {
    && Extent(width) * 4 <= stride
    && forall row: nat, x: nat :: row < Extent(height) && x < Extent(width) ==> At(stride, row, x) + 4 <= |mem|
  }

  ghost predicate SlotShows(slot: Slot, p: Picture)
    requires PictureOk(p)
  {
    && Room(slot.stride, slot.mem, p.width, p.height)
    && forall row: nat, x: nat :: row < Extent(p.height) && x < Extent(p.width) ==>
         Pixel(slot.mem, At(slot.stride, row, x)) == p.rows[row][x]
  }

  type History = map<Commit, Picture>

  ghost predicate HistoryOk(history: History) {
    forall c :: c in history ==> PictureOk(history[c])
  }

  /** A slot's label is true. */
  ghost predicate Labelled(slot: Slot, r: Ring, history: History)
    requires HistoryOk(history)
  {
    slot.commit.Some? ==>
      && slot.commit.value in history
      && OfKind(history[slot.commit.value], r.width, r.height, r.format)
      && SlotShows(slot, history[slot.commit.value])
  }

  ghost predicate RingOk(r: Ring, nextUid: nat, history: History)
    requires HistoryOk(history)
  {
    && |r.slots| <= 4
    && Indexed(r)
    && (forall i, j :: 0 <= i < j < |r.slots| ==> r.slots[i].uid != r.slots[j].uid)
    && (forall i :: 0 <= i < |r.slots| ==> r.slots[i].uid <= nextUid)
    && (forall i :: 0 <= i < |r.slots| ==> Room(r.slots[i].stride, r.slots[i].mem, r.width, r.height))
    && (forall i :: 0 <= i < |r.slots| ==> Labelled(r.slots[i], r, history))
    && NewestOk(r)
  }

  /** The newest slot is the one with the latest label. */
  ghost predicate NewestOk(r: Ring)
    requires Indexed(r)
  {
    if r.newest.None? then forall i :: 0 <= i < |r.slots| ==> r.slots[i].commit.None?
    else
      && r.slots[r.newest.value].commit.Some?
      && forall i :: 0 <= i < |r.slots| && r.slots[i].commit.Some? ==>
           r.slots[i].commit.value <= r.slots[r.newest.value].commit.value
  }

  // ----- what smithay promises -----

  ghost predicate Covers(damage: seq<Rect>, p: Picture, row: nat, x: nat) {
    Damaged(damage, Layout(Extent(p.width), Extent(p.height), 0, 0, 0), row, x)
  }

  /** The damage since a commit covers every pixel that differs from it, and all of the picture since none. */
  ghost predicate Sound(around: Around, history: History, p: Picture)
    requires HistoryOk(history) && PictureOk(p)
  {
    forall row: nat, x: nat :: row < Extent(p.height) && x < Extent(p.width) ==>
      && Covers(around.damageSince(None), p, row, x)
      && forall c :: c in history && OfKind(history[c], p.width, p.height, Some(p.format))
                     && history[c].rows[row][x] != p.rows[row][x]
           ==> Covers(around.damageSince(Some(c)), p, row, x)
  }

  /** A staging call of the surface as the rest of the server makes it: the buffer is the surface's current one. */
  ghost predicate Fair(b: Buffer, around: Around, history: History)
    requires HistoryOk(history)
  {
    && (FormatOf(b).Some? ==>
          && Honest(b)
          && around.commit in history && history[around.commit] == PictureOf(b)
          && Sound(around, history, history[around.commit]))
    && (forall c :: c in history ==> c <= around.commit)
    && (around.given.Some? ==> Room(around.given.value.stride, around.given.value.mem, WidthOf(b), HeightOf(b)))
  }

  // ----- filling a slot -----

  /** The pixel a copy leaves in a slot, whether it was damaged or not. */
  lemma PixelFilled(slot: Slot, b: Buffer, damage: seq<Rect>, row: nat, x: nat)
    requires b.Shm? && Honest(b) && Room(slot.stride, slot.mem, b.width, b.height)
    requires row < Extent(b.height) && x < Extent(b.width)
    ensures var written := CopyAll(slot.mem, b.pool, LayoutOf(b, slot), damage).0;
            && |written| == |slot.mem|
            && At(slot.stride, row, x) + BPP <= |slot.mem| && InPool(b, row, x)
            && Pixel(written, At(slot.stride, row, x)) ==
                 if Damaged(damage, LayoutOf(b, slot), row, x) then Pixel(b.pool, PictureLayout(b).From(row, x))
                 else Pixel(slot.mem, At(slot.stride, row, x))
  {
    var l := LayoutOf(b, slot);
    assert InPool(b, row, x);
    assert At(slot.stride, row, x) == l.To(row, x);
    forall y: nat, z: nat | Damaged(damage, l, y, z) ensures PixelFits(l, y, z, |b.pool|, |slot.mem|) {
      assert y < Extent(b.height) && z < Extent(b.width);
      assert InPool(b, y, z) && At(slot.stride, y, z) + BPP <= |slot.mem|;
    }
    WholeIff(slot.mem, b.pool, l, damage);
    PixelAfter(slot.mem, b.pool, l, damage, row, x);
  }

  lemma CoversIs(damage: seq<Rect>, p: Picture, l: Layout, row: nat, x: nat)
    requires l.width == Extent(p.width) && l.height == Extent(p.height)
    ensures Covers(damage, p, row, x) <==> Damaged(damage, l, row, x)
  {
    var bare := Layout(Extent(p.width), Extent(p.height), 0, 0, 0);
    forall r ensures Inside(r, l, row, x) <==> Inside(r, bare, row, x) {}
    hide Inside;
  }

  /** The incremental copy equals a full one. */
  lemma WrittenShows(slot: Slot, r: Ring, b: Buffer, around: Around, history: History)
    requires HistoryOk(history) && Fair(b, around, history) && FormatOf(b).Some?
    requires SameKind(r, b) && Room(slot.stride, slot.mem, r.width, r.height) && Labelled(slot, r, history)
    ensures Written(slot, b, around).None? <==> !around.mapped
    ensures Written(slot, b, around).Some? ==> |Written(slot, b, around).value| == |slot.mem|
    ensures Written(slot, b, around).Some? ==> SlotShows(slot.(mem := Written(slot, b, around).value), PictureOf(b))
  {
    var p := PictureOf(b);
    if around.mapped {
      if b.Shm? {
        WholeIff(slot.mem, b.pool, LayoutOf(b, slot), around.damageSince(slot.commit));
        var written := Written(slot, b, around).value;
        forall row: nat, x: nat | row < Extent(p.height) && x < Extent(p.width)
          ensures Pixel(written, At(slot.stride, row, x)) == p.rows[row][x]
        {
          CopiedPixel(slot, r, b, around, history, row, x);
        }
      } else {
        assert At(slot.stride, 0, 0) + BPP <= |slot.mem|;
      }
    }
  }

  lemma CopiedPixel(slot: Slot, r: Ring, b: Buffer, around: Around, history: History, row: nat, x: nat)
    requires HistoryOk(history) && Fair(b, around, history) && FormatOf(b).Some? && b.Shm? && around.mapped
    requires SameKind(r, b) && Room(slot.stride, slot.mem, r.width, r.height) && Labelled(slot, r, history)
    requires row < Extent(b.height) && x < Extent(b.width)
    ensures var written := Written(slot, b, around).value;
            && At(slot.stride, row, x) + BPP <= |written|
            && Pixel(written, At(slot.stride, row, x)) == PictureOf(b).rows[row][x]
  {
    var p := PictureOf(b);
    var damage := around.damageSince(slot.commit);
    PixelFilled(slot, b, damage, row, x);
    CoversIs(damage, p, LayoutOf(b, slot), row, x);
    if !Covers(damage, p, row, x) {
      // Not damaged since: the slot's label says it is still the same pixel.
      assert slot.commit.Some?;
      var was := history[slot.commit.value];
      assert was.rows[row][x] == p.rows[row][x];
      assert Pixel(slot.mem, At(slot.stride, row, x)) == was.rows[row][x];
    }
  }

  // ----- the ring -----

  lemma FillKeepsRing(r: Ring, nextUid: nat, i: nat, b: Buffer, around: Around, retired: seq<nat>, history: History)
    requires HistoryOk(history) && Fair(b, around, history) && FormatOf(b).Some? && SameKind(r, b)
    requires RingOk(r, nextUid, history) && i < |r.slots|
    ensures var out := Fill(r, nextUid, i, b, around, retired);
            && RingOk(out.ring, out.nextUid, history)
            && out.shown == (if around.mapped then Some(r.slots[i].uid) else None)
            && (around.mapped ==> |out.ring.slots| == |r.slots| && SlotShows(out.ring.slots[i], PictureOf(b)))
            && (around.mapped ==> out.ring.slots[i].uid == r.slots[i].uid)
            && (!around.mapped ==> out.ring == r)
  {
    WrittenShows(r.slots[i], r, b, around, history);
    hide Written, Fair, SlotShows, Room;
    var out := Fill(r, nextUid, i, b, around, retired);
    if around.mapped {
      var mem := Written(r.slots[i], b, around).value;
      var slot := out.ring.slots[i];
      LabelIgnored(r.slots[i], mem, around.commit, PictureOf(b));
      CurrentIs(b, around, history);
      assert slot == r.slots[i].(mem := mem, commit := Some(around.commit));
      assert Labelled(slot, out.ring, history);
      assert Room(slot.stride, slot.mem, r.width, r.height) by {
        RoomKept(slot.stride, r.slots[i].mem, mem, r.width, r.height);
      }
      forall j | 0 <= j < |r.slots| && j != i
        ensures out.ring.slots[j] == r.slots[j] && Labelled(r.slots[j], out.ring, history)
      {
        assert Labelled(r.slots[j], r, history);
      }
    }
  }

  lemma LabelIgnored(slot: Slot, mem: seq<Byte>, commit: Commit, p: Picture)
    requires PictureOk(p) && SlotShows(slot.(mem := mem), p)
    ensures SlotShows(slot.(mem := mem, commit := Some(commit)), p)
  {
  }

  lemma RoomKept(stride: nat, was: seq<Byte>, mem: seq<Byte>, width: int, height: int)
    requires Room(stride, was, width, height) && |mem| == |was|
    ensures Room(stride, mem, width, height)
  {
  }

  lemma CurrentIs(b: Buffer, around: Around, history: History)
    requires HistoryOk(history) && Fair(b, around, history) && FormatOf(b).Some?
    ensures around.commit in history && history[around.commit] == PictureOf(b)
    ensures OfKind(PictureOf(b), WidthOf(b), HeightOf(b), FormatOf(b))
    ensures forall c :: c in history ==> c <= around.commit
  {
  }

  /** A new slot has no label, and a uid no slot had. */
  lemma GrownOk(r: Ring, nextUid: nat, m: Memory, history: History)
    requires HistoryOk(history) && RingOk(r, nextUid, history) && |r.slots| < MAX_SLOTS
    requires Room(m.stride, m.mem, r.width, r.height)
    ensures RingOk(r.(slots := r.slots + [Slot(nextUid + 1, m.stride, m.mem, None)]), nextUid + 1, history)
  {
    hide Room, SlotShows;
    var grown := r.(slots := r.slots + [Slot(nextUid + 1, m.stride, m.mem, None)]);
    forall i | 0 <= i < |r.slots| ensures Labelled(grown.slots[i], grown, history) {
      assert Labelled(r.slots[i], r, history);
    }
  }

  /** Whether the call has to copy, or even to allocate, or can show what is there. */
  predicate Current(r: Ring, around: Around)
    requires Indexed(r)
  {
    r.newest.Some? && r.slots[r.newest.value].commit == Some(around.commit)
  }

  predicate AllBusy(r: Ring, busy: set<nat>) {
    |r.slots| >= 4 && FirstFree(r.slots, busy, 0).None?
  }

  /** Staging as it is called keeps every label true, for any history of commits whose damage is sound. */
  lemma StageKeepsRing(r: Ring, nextUid: nat, busy: set<nat>, b: Buffer, around: Around, history: History)
    requires HistoryOk(history) && RingOk(r, nextUid, history) && Fair(b, around, history)
    ensures RingOk(StageCall(r, nextUid, busy, b, around).ring, StageCall(r, nextUid, busy, b, around).nextUid, history)
    ensures StageCall(r, nextUid, busy, b, around).nextUid >= nextUid
  {
    hide Fair, RingOk, HistoryOk, StageSame, ForKind, Uids;
    RingIndexed(r, nextUid, history);
    if FormatOf(b).Some? {
      KindKeepsRing(r, nextUid, b, history);
      RingIndexed(ForKind(r, b), nextUid, history);
      SameKeepsRing(ForKind(r, b), nextUid, busy, b, around, if SameKind(r, b) then [] else Uids(r.slots), history);
    }
  }

  /** Memory for a slot more is asked for: the ring's slots are for another kind of buffer, or none holds the commit yet
      and all of them, fewer than four, are busy. */
  predicate Asks(r: Ring, busy: set<nat>, b: Buffer, around: Around)
    requires Indexed(r)
  {
    && FormatOf(b).Some?
    && (SameKind(r, b) ==>
         && !Current(r, around)
         && |r.slots| < 4 && forall i :: 0 <= i < |r.slots| ==> r.slots[i].uid in busy)
  }

  /** That uses up a uid, whether or not the memory is given, and nothing else does. */
  lemma UidsUsed(r: Ring, nextUid: nat, busy: set<nat>, b: Buffer, around: Around)
    requires Indexed(r)
    ensures StageCall(r, nextUid, busy, b, around).nextUid == nextUid + if Asks(r, busy, b, around) then 1 else 0
  {
    hide Fill, Uids;
    if FormatOf(b).Some? { assert |ForKind(r, b).slots| < 4 <==> !SameKind(r, b) || |r.slots| < 4; }
  }

  lemma RingIndexed(r: Ring, nextUid: nat, history: History)
    requires HistoryOk(history) && RingOk(r, nextUid, history)
    ensures Indexed(r)
  {
  }

  lemma SameKeepsRing(r: Ring, nextUid: nat, busy: set<nat>, b: Buffer, around: Around, retired: seq<nat>,
                      history: History)
    requires HistoryOk(history) && RingOk(r, nextUid, history) && Fair(b, around, history)
    requires FormatOf(b).Some? && SameKind(r, b) && Indexed(r)
    ensures var out := StageSame(r, nextUid, busy, b, around, retired);
            RingOk(out.ring, out.nextUid, history) && out.nextUid >= nextUid
  {
    hide Fair, RingOk, HistoryOk, Room, Fill;
    if !Current(r, around) {
      match FirstFree(r.slots, busy, 0)
      case Some(i) => FillKeepsRing(r, nextUid, i, b, around, retired, history);
      case None =>
        if |r.slots| < MAX_SLOTS {
          RingLater(r, nextUid, nextUid + 1, history);
          if around.given.Some? {
            var m := around.given.value;
            GivenRoom(b, around, history);
            assert r.width == WidthOf(b) && r.height == HeightOf(b);
            GrownOk(r, nextUid, m, history);
            FillKeepsRing(r.(slots := r.slots + [Slot(nextUid + 1, m.stride, m.mem, None)]), nextUid + 1, |r.slots|,
                          b, around, retired, history);
          }
        }
    }
  }

  lemma GivenRoom(b: Buffer, around: Around, history: History)
    requires HistoryOk(history) && Fair(b, around, history) && around.given.Some?
    ensures Room(around.given.value.stride, around.given.value.mem, WidthOf(b), HeightOf(b))
  {
  }

  lemma RingLater(r: Ring, nextUid: nat, later: nat, history: History)
    requires HistoryOk(history) && RingOk(r, nextUid, history) && nextUid <= later
    ensures RingOk(r, later, history)
  {
    hide Room, Labelled;
  }

  lemma KindKeepsRing(r: Ring, nextUid: nat, b: Buffer, history: History)
    requires HistoryOk(history) && RingOk(r, nextUid, history)
    ensures RingOk(ForKind(r, b), nextUid, history) && SameKind(ForKind(r, b), b)
  {
    hide Room, Labelled;
  }

  /** Where a busy slot comes from: it was shown, so it was filled. */
  ghost predicate BusyFilled(r: Ring, busy: set<nat>) {
    forall i :: 0 <= i < |r.slots| && r.slots[i].uid in busy ==> r.slots[i].commit.Some?
  }

  ghost predicate ShownAt(out: Outcome, i: nat) {
    i < |out.ring.slots| && out.shown == Some(out.ring.slots[i].uid)
  }

  ghost predicate ShowsPicture(out: Outcome, p: Picture)
    requires PictureOk(p)
  {
    exists i: nat :: ShownAt(out, i) && SlotShows(out.ring.slots[i], p)
  }

  ghost predicate ShowsNewest(out: Outcome) { out.ring.newest.Some? && ShownAt(out, out.ring.newest.value) }

  /** What is shown is the current picture -- or, only when the ring may not grow and every slot in it is still held,
      the newest one staged. Nothing is shown just when the buffer cannot be staged, or a slot was needed and
      memory for it could not be had, or a copy was needed and could not be mapped. */
  ghost predicate ShowsCurrent(r: Ring, nextUid: nat, busy: set<nat>, b: Buffer, around: Around)
    requires Indexed(r) && (FormatOf(b).Some? ==> Honest(b))
  {
    var r', out := ForKind(r, b), StageCall(r, nextUid, busy, b, around);
    var copies := !Current(r', around) && !AllBusy(r', busy);
    && (out.shown.None? <==>
         || FormatOf(b).None?
         || (copies && !around.mapped)
         || (copies && FirstFree(r'.slots, busy, 0).None? && around.given.None?))
    && (out.shown.Some? && FormatOf(b).Some? ==>
         if Current(r', around) || !AllBusy(r', busy) then ShowsPicture(out, PictureOf(b))
         else out.ring == r' == r && ShowsNewest(out) && forall s :: s in r.slots ==> s.uid in busy)
  }

  /** A slot that shows the picture, when one was free or could be had, or the newest did. */
  lemma ShownIsCurrent(r: Ring, nextUid: nat, busy: set<nat>, b: Buffer, around: Around, i: nat)
    requires Indexed(r) && FormatOf(b).Some? && Honest(b) && PictureOk(PictureOf(b))
    requires ShownAt(StageCall(r, nextUid, busy, b, around), i)
    requires SlotShows(StageCall(r, nextUid, busy, b, around).ring.slots[i], PictureOf(b))
    requires var r' := ForKind(r, b);
             || Current(r', around)
             || (around.mapped && !AllBusy(r', busy)
                 && (FirstFree(r'.slots, busy, 0).Some? || around.given.Some?))
    ensures ShowsCurrent(r, nextUid, busy, b, around)
  {
    hide StageCall, SlotShows, FirstFree, AllBusy, Current, ForKind;
  }

  lemma NoneIsCurrent(r: Ring, nextUid: nat, busy: set<nat>, b: Buffer, around: Around)
    requires Indexed(r) && FormatOf(b).Some? && Honest(b) && StageCall(r, nextUid, busy, b, around).shown.None?
    requires var r' := ForKind(r, b);
             && !Current(r', around) && !AllBusy(r', busy)
             && (!around.mapped || (FirstFree(r'.slots, busy, 0).None? && around.given.None?))
    ensures ShowsCurrent(r, nextUid, busy, b, around)
  {
    hide StageCall, FirstFree, AllBusy, Current, ForKind;
  }

  /** The picture is copied into a slot, of the ring or just added to it. */
  lemma FillIsCurrent(r: Ring, nextUid: nat, busy: set<nat>, b: Buffer, around: Around, filled: Ring, uid: nat, i: nat,
                      retired: seq<nat>, history: History)
    requires HistoryOk(history) && RingOk(filled, uid, history) && Fair(b, around, history) && FormatOf(b).Some?
    requires Indexed(r) && SameKind(filled, b) && i < |filled.slots|
    requires StageCall(r, nextUid, busy, b, around) == Fill(filled, uid, i, b, around, retired)
    requires var r' := ForKind(r, b);
             && !Current(r', around) && !AllBusy(r', busy)
             && (FirstFree(r'.slots, busy, 0).Some? || around.given.Some?)
    ensures Honest(b) && ShowsCurrent(r, nextUid, busy, b, around)
  {
    FillKeepsRing(filled, uid, i, b, around, retired, history);
    assert Honest(b) && PictureOk(PictureOf(b));
    hide StageCall, Fill, SlotShows, FirstFree, AllBusy, Current, ForKind, ShowsCurrent, Fair, RingOk;
    if around.mapped {
      ShownIsCurrent(r, nextUid, busy, b, around, i);
    } else {
      NoneIsCurrent(r, nextUid, busy, b, around);
    }
  }

  /** Every slot was shown at some time, so there is a newest one. */
  lemma BusyIsCurrent(r: Ring, nextUid: nat, busy: set<nat>, b: Buffer, around: Around, history: History)
    requires HistoryOk(history) && RingOk(r, nextUid, history) && BusyFilled(r, busy) && FormatOf(b).Some? && Honest(b)
    requires !Current(ForKind(r, b), around) && AllBusy(ForKind(r, b), busy)
    ensures ShowsCurrent(r, nextUid, busy, b, around)
  {
    hide Labelled, Fill, Room, Honest, ShowsPicture;
    assert ForKind(r, b) == r && r.slots[0].uid in busy && r.slots[0].commit.Some?;
    assert ShowsNewest(StageCall(r, nextUid, busy, b, around));
  }

  /** Staging shows just that. */
  lemma StageShowsCurrent(r: Ring, nextUid: nat, busy: set<nat>, b: Buffer, around: Around, history: History)
    requires HistoryOk(history) && RingOk(r, nextUid, history) && Fair(b, around, history) && BusyFilled(r, busy)
    ensures FormatOf(b).Some? ==> Honest(b)
    ensures ShowsCurrent(r, nextUid, busy, b, around)
  {
    assert FormatOf(b).Some? ==> Honest(b) && PictureOk(PictureOf(b));
    hide Fair, Labelled, Room, Fill, SlotShows, Honest, PictureOk, BusyFilled;
    if FormatOf(b).Some? {
      var r' := ForKind(r, b);
      var retired := if SameKind(r, b) then [] else Uids(r.slots);
      KindKeepsRing(r, nextUid, b, history);
      hide ForKind, ShowsCurrent, HistoryOk;
      if Current(r', around) {
        NewestShows(r', nextUid, b, around, history);
        ShownIsCurrent(r, nextUid, busy, b, around, r'.newest.value);
      } else if AllBusy(r', busy) {
        BusyIsCurrent(r, nextUid, busy, b, around, history);
      } else {
        match FirstFree(r'.slots, busy, 0)
        case Some(i) => FillIsCurrent(r, nextUid, busy, b, around, r', nextUid, i, retired, history);
        case None =>
          if around.given.None? {
            NoneIsCurrent(r, nextUid, busy, b, around);
          } else {
            var m := around.given.value;
            GivenRoom(b, around, history);
            GrownOk(r', nextUid, m, history);
            var grown := r'.(slots := r'.slots + [Slot(nextUid + 1, m.stride, m.mem, None)]);
            FillIsCurrent(r, nextUid, busy, b, around, grown, nextUid + 1, |r'.slots|, retired, history);
          }
      }
    }
  }

  lemma NewestShows(r: Ring, nextUid: nat, b: Buffer, around: Around, history: History)
    requires HistoryOk(history) && RingOk(r, nextUid, history) && Fair(b, around, history) && FormatOf(b).Some?
    requires Current(r, around)
    ensures SlotShows(r.slots[r.newest.value], PictureOf(b))
  {
    assert Labelled(r.slots[r.newest.value], r, history);
  }

  // ----- a pool shorter than its buffer claims -----

  ghost predicate DamageShown(slot: Slot, b: Buffer, around: Around)
    requires b.Shm? && around.mapped
  {
    forall row: nat, x: nat :: Damaged(around.damageSince(slot.commit), LayoutOf(b, slot), row, x) ==>
      Shows(Written(slot, b, around).value, b.pool, LayoutOf(b, slot), row, x)
  }

  ghost predicate DamageInPool(slot: Slot, b: Buffer, around: Around)
    requires b.Shm?
  {
    forall row: nat, x: nat :: Damaged(around.damageSince(slot.commit), LayoutOf(b, slot), row, x) ==> InPool(b, row, x)
  }

  /** A slot is labelled with the commit whether or not the copy went through; it shows everything that was damaged
      exactly when the pool has all of it. */
  lemma FilledShowsDamageIff(slot: Slot, b: Buffer, around: Around)
    requires b.Shm? && around.mapped && Room(slot.stride, slot.mem, b.width, b.height)
    ensures DamageShown(slot, b, around) <==> DamageInPool(slot, b, around)
  {
    var l, damage := LayoutOf(b, slot), around.damageSince(slot.commit);
    DamageShownIff(slot.mem, b.pool, l, damage);
    if DamageInPool(slot, b, around) {
      forall row: nat, x: nat | Damaged(damage, l, row, x) ensures PixelFits(l, row, x, |b.pool|, |slot.mem|) {
        assert InPool(b, row, x) && At(slot.stride, row, x) + BPP <= |slot.mem|;
      }
    } else {
      var row: nat, x: nat :| Damaged(damage, l, row, x) && !InPool(b, row, x);
      assert !PixelFits(l, row, x, |b.pool|, |slot.mem|);
    }
  }

  /** For one: a pixel claimed of an empty pool. The new slot is labelled and shown, holding whatever it held. */
  lemma ShortPoolMislabels(mem: seq<Byte>)
    requires |mem| == 64
    ensures var b := Shm(1, 1, Some(Argb8888), 4, 0, []);
            var out := StageCall(EMPTY, 0, {}, b, Around(1, _ => [Rect(0, 0, 1, 1)], Some(Memory(64, mem)), true));
            out.shown == Some(1) && out.ring.slots == [Slot(1, 64, mem, Some(1))]
  {
    var b := Shm(1, 1, Some(Argb8888), 4, 0, []);
    var slot := Slot(1, 64, mem, None);
    var l := LayoutOf(b, slot);
    assert CopyRow(mem, [], l.From(0, 0), l.To(0, 0), 4) == None;
    assert CopyRows(mem, [], l, 0, 1, 0, 1) == (mem, false);
    assert CopyRect(mem, [], l, Rect(0, 0, 1, 1)) == (mem, false);
    assert CopyAll(mem, [], l, [Rect(0, 0, 1, 1)]) == (mem, false);
  }
}

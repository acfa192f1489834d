/** A shared-memory surface's ring of staging slots (src/staging.rs, stage, write, drop_ring, Ring and Slot).

    The client's buffer is copied into a free slot, only what changed since that slot was last filled. What the
    allocator and the mapping give, what smithay says was damaged, and which slots the shell still holds are inputs. */
module Staging {
  import opened Basics
  import opened DamageCopy

  type Commit = nat

  const MAX_SLOTS: nat := 4

  /** The two formats that are staged; any other has none of these. */
  datatype Format = Argb8888 | Xrgb8888

  datatype Buffer =
    | Shm(width: int, height: int, format: Option<Format>, stride: nat, offset: nat, pool: seq<Byte>)
    | SinglePixel(color: seq<Byte>)
    | Unstageable

  /** What a client's surface shows: rows of pixels. */
  datatype Picture = Picture(width: int, height: int, format: Format, rows: seq<seq<seq<Byte>>>)

  datatype Slot = Slot(uid: nat, stride: nat, mem: seq<Byte>, commit: Option<Commit>)

  datatype Ring = Ring(width: int, height: int, format: Option<Format>, slots: seq<Slot>, newest: Option<nat>)

  const EMPTY := Ring(0, 0, None, [], None)

  /** Memory for a slot, its rows at least a picture row apart, holding whatever it held. */
  datatype Memory = Memory(stride: nat, mem: seq<Byte>)

  /** What a staging call finds around it: the surface's commit, the damage since an earlier one, what the allocator
      gives for a new slot, and whether the slot and the client's pool can be mapped. */
  datatype Around = Around(commit: Commit, damageSince: Option<Commit> -> seq<Rect>, given: Option<Memory>,
                           mapped: bool)

  datatype Outcome = Outcome(ring: Ring, nextUid: nat, shown: Option<nat>, retired: seq<nat>)

  function Extent(v: int): nat { if v < 0 then 0 else v }

  function FormatOf(b: Buffer): Option<Format> {
    match b
    case Shm(_, _, format, _, _, _) => format
    case SinglePixel(_) => Some(Argb8888)
    case Unstageable => None
  }

  function WidthOf(b: Buffer): int { if b.Shm? then b.width else 1 }

  function HeightOf(b: Buffer): int { if b.Shm? then b.height else 1 }

  // ----- what a staging call does -----

  function Uids(slots: seq<Slot>): seq<nat> {
    seq(|slots|, i requires 0 <= i < |slots| => slots[i].uid)
  }

  predicate SameKind(r: Ring, b: Buffer) {
    r.width == WidthOf(b) && r.height == HeightOf(b) && r.format == FormatOf(b)
  }

  function ForKind(r: Ring, b: Buffer): Ring {
    if SameKind(r, b) then r else Ring(WidthOf(b), HeightOf(b), FormatOf(b), [], None)
  }

  /** The first slot no one else holds, from the given one on. */
  function FirstFree(slots: seq<Slot>, busy: set<nat>, i: nat): (free: Option<nat>)
    requires i <= |slots|
    ensures free.Some? ==> i <= free.value < |slots| && slots[free.value].uid !in busy
    ensures free.None? ==> forall j :: i <= j < |slots| ==> slots[j].uid in busy
    decreases |slots| - i
  {
    if i == |slots| then None else if slots[i].uid !in busy then Some(i) else FirstFree(slots, busy, i + 1)
  }

  function LayoutOf(b: Buffer, slot: Slot): Layout
    requires b.Shm?
  {
    Layout(Extent(b.width), Extent(b.height), b.offset, b.stride, slot.stride)
  }

  /** The slot's memory once the buffer is copied in; nothing when it could not be. */
  function Written(slot: Slot, b: Buffer, around: Around): Option<seq<Byte>>
    requires !b.Unstageable?
  {
    if !around.mapped then None
    else
      match b
      case Shm(_, _, _, _, _, pool) =>
        Some(CopyAll(slot.mem, pool, LayoutOf(b, slot), around.damageSince(slot.commit)).0)
      case SinglePixel(color) => if |slot.mem| < BPP || |color| != BPP then None else Some(color + slot.mem[BPP..])
  }

  function Fill(r: Ring, nextUid: nat, i: nat, b: Buffer, around: Around, retired: seq<nat>): (out: Outcome)
    requires i < |r.slots| && !b.Unstageable?
    ensures out.nextUid == nextUid && out.retired == retired
  {
    match Written(r.slots[i], b, around)
    case None => Outcome(r, nextUid, None, retired)
    case Some(mem) =>
      Outcome(r.(slots := r.slots[i := r.slots[i].(mem := mem, commit := Some(around.commit))], newest := Some(i)),
              nextUid, Some(r.slots[i].uid), retired)
  }

  /** The kind of buffer being the ring's. */
  function StageSame(r: Ring, nextUid: nat, busy: set<nat>, b: Buffer, around: Around, retired: seq<nat>): Outcome
    requires !b.Unstageable? && Indexed(r)
  {
    if r.newest.Some? && r.slots[r.newest.value].commit == Some(around.commit) then
      Outcome(r, nextUid, Some(r.slots[r.newest.value].uid), retired)
    else
      match FirstFree(r.slots, busy, 0)
      case Some(i) => Fill(r, nextUid, i, b, around, retired)
      case None =>
        if |r.slots| < MAX_SLOTS then
          match around.given
          case None => Outcome(r, nextUid + 1, None, retired)
          case Some(m) =>
            var grown := r.(slots := r.slots + [Slot(nextUid + 1, m.stride, m.mem, None)]);
            Fill(grown, nextUid + 1, |r.slots|, b, around, retired)
        else
          Outcome(r, nextUid, if r.newest.Some? then Some(r.slots[r.newest.value].uid) else None, retired)
  }

  function StageCall(r: Ring, nextUid: nat, busy: set<nat>, b: Buffer, around: Around): Outcome
    requires Indexed(r)
  {
    if FormatOf(b).None? then Outcome(r, nextUid, None, [])
    else StageSame(ForKind(r, b), nextUid, busy, b, around, if SameKind(r, b) then [] else Uids(r.slots))
  }

  predicate Indexed(r: Ring) { r.newest.Some? ==> r.newest.value < |r.slots| }

  // ----- the source's object -----

  class Stager {
    var nextUid: nat

    constructor ()
      ensures nextUid == 0
    {
      nextUid := 0;
    }

    method Allocate(given: Option<Memory>) returns (slot: Option<Slot>)
      modifies this
      ensures nextUid == old(nextUid) + 1
      ensures slot == match given case None => None case Some(m) => Some(Slot(nextUid, m.stride, m.mem, None))
    {
      nextUid := nextUid + 1;
      match given
      case None => slot := None;
      case Some(m) => slot := Some(Slot(nextUid, m.stride, m.mem, None));
    }
  }

  class StagingRing {
    var ring: Ring

    constructor ()
      ensures ring == EMPTY
    {
      ring := EMPTY;
    }

    /** Copy into the slot through its mapping. */
    method Write(slot: Slot, b: Buffer, around: Around) returns (mem: Option<seq<Byte>>)
      requires !b.Unstageable?
      ensures mem == Written(slot, b, around)
    {
      if !around.mapped { return None; }
      var bytes := new Byte[|slot.mem|](i requires 0 <= i < |slot.mem| => slot.mem[i]);
      assert bytes[..] == slot.mem;
      match b {
        case Shm(_, _, _, _, _, pool) =>
          CopyDamage(bytes, pool, LayoutOf(b, slot), around.damageSince(slot.commit));
        case SinglePixel(color) =>
          if |slot.mem| < BPP || |color| != BPP { return None; }
          forall k | 0 <= k < BPP { bytes[k] := color[k]; }
          assert bytes[..] == color + slot.mem[BPP..];
      }
      mem := Some(bytes[..]);
    }

    /** What is shown is a slot of the ring; the caller has to retire the ids of the slots that left it. */
    method Stage(stager: Stager, busy: set<nat>, b: Buffer, around: Around)
      returns (shown: Option<nat>, retired: seq<nat>)
      requires Indexed(ring)
      modifies this, stager
      ensures Outcome(ring, stager.nextUid, shown, retired)
          == StageCall(old(ring), old(stager.nextUid), busy, b, around)
    {
      hide Fill, FirstFree, Uids;
      shown, retired := None, [];
      if FormatOf(b).None? { return; }
      if ring.width != WidthOf(b) || ring.height != HeightOf(b) || ring.format != FormatOf(b) {
        retired := Uids(ring.slots);
        ring := Ring(WidthOf(b), HeightOf(b), FormatOf(b), [], None);
      }
      if ring.newest.Some? && ring.slots[ring.newest.value].commit == Some(around.commit) {
        shown := Some(ring.slots[ring.newest.value].uid);
        return;
      }
      var i := FreeSlot(busy);
      if i == |ring.slots| {
        if |ring.slots| >= MAX_SLOTS {
          if ring.newest.Some? { shown := Some(ring.slots[ring.newest.value].uid); }
          return;
        }
        var slot := stager.Allocate(around.given);
        if slot.None? { return; }
        ring := ring.(slots := ring.slots + [slot.value]);
      }
      shown := FillSlot(i, b, around, stager.nextUid, retired);
    }

    /** The first slot no one else holds; past the last when there is none. */
    method FreeSlot(busy: set<nat>) returns (i: nat)
      ensures i <= |ring.slots|
      ensures FirstFree(ring.slots, busy, 0) == if i < |ring.slots| then Some(i) else None
    {
      i := 0;
      while i < |ring.slots| && ring.slots[i].uid in busy
        invariant 0 <= i <= |ring.slots|
        invariant FirstFree(ring.slots, busy, 0) == FirstFree(ring.slots, busy, i)
      {
        i := i + 1;
      }
    }

    /** Write the buffer into the slot, which becomes the newest. */
    method FillSlot(i: nat, b: Buffer, around: Around, ghost nextUid: nat, ghost retired: seq<nat>)
      returns (shown: Option<nat>)
      requires i < |ring.slots| && !b.Unstageable?
      modifies this
      ensures Outcome(ring, nextUid, shown, retired) == Fill(old(ring), nextUid, i, b, around, retired)
    {
      hide Written;
      var mem := Write(ring.slots[i], b, around);
      if mem.None? { return None; }
      ring := ring.(slots := ring.slots[i := ring.slots[i].(mem := mem.value, commit := Some(around.commit))],
                    newest := Some(i));
      shown := Some(ring.slots[i].uid);
    }

    /** Hands over every uid the ring has, and leaves it empty. */
    method DropRing() returns (uids: seq<nat>)
      modifies this
      ensures ring == EMPTY && uids == Uids(old(ring.slots))
    {
      uids := Uids(ring.slots);
      ring := EMPTY;
    }
  }
}

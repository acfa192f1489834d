/** Copying a client's shared-memory buffer into a staging slot, damage by damage (src/staging.rs, copy_damage).

    A buffer is bytes in a pool that may be shorter than it claims; a slot is bytes too, its rows at least a picture
    row apart. */
module DamageCopy {
  import opened Basics

  const BPP: nat := 4

  datatype Rect = Rect(x: int, y: int, w: int, h: int)

  /** Where the picture is: its size, where it starts in the pool and its row distance there, and in the slot. */
  datatype Layout = Layout(width: nat, height: nat, offset: nat, srcStride: nat, dstStride: nat) {
    function From(row: nat, x: nat): nat { offset + row * srcStride + x * BPP }

    function To(row: nat, x: nat): nat { row * dstStride + x * BPP }
  }

  function Clamp(v: int, hi: nat): nat {
    if v < 0 then 0 else if v < hi then v else hi
  }

  predicate Inside(r: Rect, l: Layout, row: nat, x: nat) {
    && Clamp(r.x, l.width) <= x < Clamp(r.x + r.w, l.width)
    && Clamp(r.y, l.height) <= row < Clamp(r.y + r.h, l.height)
  }

  // ----- what the copy does -----

  /** One row of a rectangle, if it is within both buffers. */
  function CopyRow(dst: seq<Byte>, src: seq<Byte>, s: nat, d: nat, bytes: nat): Option<seq<Byte>> {
    if s + bytes <= |src| && d + bytes <= |dst| then Some(dst[..d] + src[s..s + bytes] + dst[d + bytes..]) else None
  }

  /** The rows of a rectangle from the given one on, until one is not within the buffers: what the slot holds then,
      and whether all was copied. */
  function CopyRows(dst: seq<Byte>, src: seq<Byte>, l: Layout, x0: nat, x1: nat, row: nat, y1: nat): (seq<Byte>, bool)
    requires x0 < x1
    decreases y1 - row
  {
    if row >= y1 then (dst, true)
    else
      match CopyRow(dst, src, l.From(row, x0), l.To(row, x0), (x1 - x0) * BPP)
      case None => (dst, false)
      case Some(written) => CopyRows(written, src, l, x0, x1, row + 1, y1)
  }

  function CopyRect(dst: seq<Byte>, src: seq<Byte>, l: Layout, r: Rect): (seq<Byte>, bool) {
    var x0, x1 := Clamp(r.x, l.width), Clamp(r.x + r.w, l.width);
    if x1 <= x0 then (dst, true)
    else CopyRows(dst, src, l, x0, x1, Clamp(r.y, l.height), Clamp(r.y + r.h, l.height))
  }

  function CopyAll(dst: seq<Byte>, src: seq<Byte>, l: Layout, damage: seq<Rect>): (seq<Byte>, bool)
    decreases |damage|
  {
    if damage == [] then (dst, true)
    else
      var (written, whole) := CopyRect(dst, src, l, damage[0]);
      if whole then CopyAll(written, src, l, damage[1..]) else (written, false)
  }

  // ----- the source's loops -----

  method CopyRowInPlace(dst: array<Byte>, src: seq<Byte>, s: nat, d: nat, bytes: nat) returns (fits: bool)
    modifies dst
    ensures fits == CopyRow(old(dst[..]), src, s, d, bytes).Some?
    ensures dst[..] == if fits then CopyRow(old(dst[..]), src, s, d, bytes).value else old(dst[..])
  {
    // The row goes through whole or not at all.
    fits := s + bytes <= |src| && d + bytes <= dst.Length;
    if fits {
      forall k | 0 <= k < bytes {
        dst[d + k] := src[s + k];
      }
    }
  }

  /** Copying the rows left comes to what copying them all does. */
  ghost predicate RowsLeft(dst: seq<Byte>, src: seq<Byte>, l: Layout, x0: nat, x1: nat, row: nat, y1: nat,
                           all: (seq<Byte>, bool))
    requires x0 < x1
  {
    CopyRows(dst, src, l, x0, x1, row, y1) == all
  }

  lemma NextRow(dst: seq<Byte>, src: seq<Byte>, l: Layout, x0: nat, x1: nat, row: nat, y1: nat, all: (seq<Byte>, bool))
    requires x0 < x1 && row < y1 && RowsLeft(dst, src, l, x0, x1, row, y1, all)
    ensures match CopyRow(dst, src, l.From(row, x0), l.To(row, x0), (x1 - x0) * BPP)
            case None => all == (dst, false)
            case Some(written) => RowsLeft(written, src, l, x0, x1, row + 1, y1, all)
  {
  }

  method CopyRectInPlace(dst: array<Byte>, src: seq<Byte>, l: Layout, r: Rect) returns (whole: bool)
    modifies dst
    ensures (dst[..], whole) == CopyRect(old(dst[..]), src, l, r)
  {
    var x0, x1 := Clamp(r.x, l.width), Clamp(r.x + r.w, l.width);
    if x1 <= x0 { return true; }
    var row, y1 := Clamp(r.y, l.height), Clamp(r.y + r.h, l.height);
    ghost var all := CopyRect(dst[..], src, l, r);
    assert RowsLeft(dst[..], src, l, x0, x1, row, y1, all);
    while row < y1
      invariant RowsLeft(dst[..], src, l, x0, x1, row, y1, all)
      decreases y1 as int - row
    {
      hide CopyRow, RowsLeft;
      NextRow(dst[..], src, l, x0, x1, row, y1, all);
      var fits := CopyRowInPlace(dst, src, l.From(row, x0), l.To(row, x0), (x1 - x0) * BPP);
      if !fits { return false; }
      row := row + 1;
    }
    whole := true;
  }

  method CopyDamage(dst: array<Byte>, src: seq<Byte>, l: Layout, damage: seq<Rect>)
    modifies dst
    ensures dst[..] == CopyAll(old(dst[..]), src, l, damage).0
  {
    hide CopyRect;
    var i := 0;
    assert damage[0..] == damage;
    while i < |damage|
      invariant 0 <= i <= |damage|
      invariant CopyAll(dst[..], src, l, damage[i..]) == CopyAll(old(dst[..]), src, l, damage)
    {
      assert damage[i..][0] == damage[i] && damage[i..][1..] == damage[i + 1..];
      var whole := CopyRectInPlace(dst, src, l, damage[i]);
      if !whole { return; }
      i := i + 1;
    }
  }

  // ----- what that means -----

  function Pixel(bytes: seq<Byte>, at: nat): seq<Byte>
    requires at + 4 <= |bytes|
  {
    bytes[at..at + 4]
  }

  /** The slot's rows are at least a picture row apart. */
  predicate Roomy(l: Layout) { l.width * BPP <= l.dstStride }

  predicate PixelFits(l: Layout, row: nat, x: nat, srcLen: nat, dstLen: nat) {
    l.From(row, x) + BPP <= srcLen && l.To(row, x) + BPP <= dstLen
  }

  ghost predicate Damaged(damage: seq<Rect>, l: Layout, row: nat, x: nat) {
    exists r :: r in damage && Inside(r, l, row, x)
  }

  /** Everything damaged is within both buffers. */
  ghost predicate Fits(l: Layout, damage: seq<Rect>, srcLen: nat, dstLen: nat) {
    forall row: nat, x: nat :: Damaged(damage, l, row, x) ==> PixelFits(l, row, x, srcLen, dstLen)
  }

  /** The slot shows the client's pixel. */
  predicate Shows(dst: seq<Byte>, src: seq<Byte>, l: Layout, row: nat, x: nat) {
    PixelFits(l, row, x, |src|, |dst|) && Pixel(dst, l.To(row, x)) == Pixel(src, l.From(row, x))
  }

  /** The slot's pixel is as it was. */
  predicate Same(dst: seq<Byte>, was: seq<Byte>, l: Layout, row: nat, x: nat) {
    |dst| == |was| && (l.To(row, x) + BPP <= |dst| ==> Pixel(dst, l.To(row, x)) == Pixel(was, l.To(row, x)))
  }

  lemma {:induction false} RowsApart(l: Layout, row: nat, row': nat)
    requires row < row'
    ensures row * l.dstStride + l.dstStride <= row' * l.dstStride
  {
    var before := row' - 1;
    assert row' * l.dstStride == before * l.dstStride + l.dstStride;
    if row < before { RowsApart(l, row, before); }
  }

  /** Copying a stretch of one row sets its pixels and no others. */
  lemma RowCopied(dst: seq<Byte>, src: seq<Byte>, l: Layout, x0: nat, x1: nat, row: nat, y: nat, x: nat)
    requires Roomy(l) && x0 < x1 <= l.width && x < l.width
    requires CopyRow(dst, src, l.From(row, x0), l.To(row, x0), (x1 - x0) * BPP).Some?
    ensures var written := CopyRow(dst, src, l.From(row, x0), l.To(row, x0), (x1 - x0) * BPP).value;
            if y == row && x0 <= x < x1 then Shows(written, src, l, y, x) else Same(written, dst, l, y, x)
  {
    var d, s, bytes := l.To(row, x0), l.From(row, x0), (x1 - x0) * BPP;
    var written := CopyRow(dst, src, s, d, bytes).value;
    assert |written| == |dst|;
    if y < row { RowsApart(l, y, row); }
    if row < y { RowsApart(l, row, y); }
    assert forall k :: 0 <= k < |dst| ==> written[k] == if d <= k < d + bytes then src[s + (k - d)] else dst[k];
  }

  /** Each row of a stretch is within both buffers, from the given one on. */
  ghost predicate RowsFit(l: Layout, x0: nat, x1: nat, row: nat, y1: nat, srcLen: nat, dstLen: nat) {
    forall y: nat, x: nat :: row <= y < y1 && x0 <= x < x1 ==> PixelFits(l, y, x, srcLen, dstLen)
  }

  lemma RowFits(l: Layout, x0: nat, x1: nat, row: nat, srcLen: nat, dstLen: nat)
    requires x0 < x1
    ensures (forall x: nat :: x0 <= x < x1 ==> PixelFits(l, row, x, srcLen, dstLen))
       <==> l.From(row, x0) + (x1 - x0) * BPP <= srcLen && l.To(row, x0) + (x1 - x0) * BPP <= dstLen
  {
    if forall x: nat :: x0 <= x < x1 ==> PixelFits(l, row, x, srcLen, dstLen) {
      assert PixelFits(l, row, x1 - 1, srcLen, dstLen);
    }
  }

  lemma {:induction false} RowsWhole(dst: seq<Byte>, src: seq<Byte>, l: Layout, x0: nat, x1: nat, row: nat, y1: nat)
    requires x0 < x1
    ensures var (written, whole) := CopyRows(dst, src, l, x0, x1, row, y1);
            |written| == |dst| && (whole <==> RowsFit(l, x0, x1, row, y1, |src|, |dst|))
    decreases y1 - row
  {
    if row < y1 {
      RowFits(l, x0, x1, row, |src|, |dst|);
      var copied := CopyRow(dst, src, l.From(row, x0), l.To(row, x0), (x1 - x0) * BPP);
      if copied.Some? {
        assert |copied.value| == |dst|;
        RowsWhole(copied.value, src, l, x0, x1, row + 1, y1);
      } else {
        var x: nat :| x0 <= x < x1 && !PixelFits(l, row, x, |src|, |dst|);
      }
    }
  }

  lemma {:induction false} RowsCopied(dst: seq<Byte>, src: seq<Byte>, l: Layout, x0: nat, x1: nat, row: nat, y1: nat,
                                      y: nat, x: nat)
    requires Roomy(l) && x0 < x1 <= l.width && x < l.width
    requires RowsFit(l, x0, x1, row, y1, |src|, |dst|)
    ensures var written := CopyRows(dst, src, l, x0, x1, row, y1).0;
            if row <= y < y1 && x0 <= x < x1 then Shows(written, src, l, y, x) else Same(written, dst, l, y, x)
    decreases y1 - row
  {
    if row < y1 {
      RowFits(l, x0, x1, row, |src|, |dst|);
      var written := CopyRow(dst, src, l.From(row, x0), l.To(row, x0), (x1 - x0) * BPP).value;
      assert |written| == |dst|;
      RowCopied(dst, src, l, x0, x1, row, y, x);
      RowsCopied(written, src, l, x0, x1, row + 1, y1, y, x);
    }
  }

  lemma RectIs(dst: seq<Byte>, src: seq<Byte>, l: Layout, r: Rect)
    ensures var (written, whole) := CopyRect(dst, src, l, r);
            |written| == |dst| && (whole <==> Fits(l, [r], |src|, |dst|))
  {
    var x0, x1 := Clamp(r.x, l.width), Clamp(r.x + r.w, l.width);
    var y0, y1 := Clamp(r.y, l.height), Clamp(r.y + r.h, l.height);
    forall row: nat, x: nat ensures Damaged([r], l, row, x) <==> x0 <= x < x1 && y0 <= row < y1 {
      assert r in [r];
    }
    if x0 < x1 { RowsWhole(dst, src, l, x0, x1, y0, y1); }
  }

  lemma RectCopied(dst: seq<Byte>, src: seq<Byte>, l: Layout, r: Rect, y: nat, x: nat)
    requires Roomy(l) && Fits(l, [r], |src|, |dst|) && x < l.width
    ensures var written := CopyRect(dst, src, l, r).0;
            if Inside(r, l, y, x) then Shows(written, src, l, y, x) else Same(written, dst, l, y, x)
  {
    var x0, x1 := Clamp(r.x, l.width), Clamp(r.x + r.w, l.width);
    var y0, y1 := Clamp(r.y, l.height), Clamp(r.y + r.h, l.height);
    forall row: nat, x: nat | x0 <= x < x1 && y0 <= row < y1 ensures PixelFits(l, row, x, |src|, |dst|) {
      assert r in [r] && Inside(r, l, row, x) && Damaged([r], l, row, x);
    }
    if x0 < x1 { RowsCopied(dst, src, l, x0, x1, y0, y1, y, x); }
  }

  lemma FitsParts(l: Layout, damage: seq<Rect>, srcLen: nat, dstLen: nat)
    requires damage != []
    ensures Fits(l, damage, srcLen, dstLen) <==>
              Fits(l, [damage[0]], srcLen, dstLen) && Fits(l, damage[1..], srcLen, dstLen)
  {
    hide Inside, PixelFits;
    forall row: nat, x: nat
      ensures Damaged(damage, l, row, x) <==> Damaged([damage[0]], l, row, x) || Damaged(damage[1..], l, row, x)
    {
      DamagedParts(damage, l, row, x);
    }
  }

  lemma DamagedParts(damage: seq<Rect>, l: Layout, row: nat, x: nat)
    requires damage != []
    ensures Damaged([damage[0]], l, row, x) <==> Inside(damage[0], l, row, x)
    ensures Damaged(damage, l, row, x) <==> Inside(damage[0], l, row, x) || Damaged(damage[1..], l, row, x)
  {
    hide Inside;
    assert damage[0] in [damage[0]] && damage[0] in damage;
  }

  /** Exactly when the copy goes through: everything damaged is within the pool and the slot. */
  lemma {:induction false} WholeIff(dst: seq<Byte>, src: seq<Byte>, l: Layout, damage: seq<Rect>)
    ensures |CopyAll(dst, src, l, damage).0| == |dst|
    ensures CopyAll(dst, src, l, damage).1 <==> Fits(l, damage, |src|, |dst|)
    decreases |damage|
  {
    hide CopyRect, Inside, PixelFits;
    if damage != [] {
      RectIs(dst, src, l, damage[0]);
      FitsParts(l, damage, |src|, |dst|);
      var (written, whole) := CopyRect(dst, src, l, damage[0]);
      if whole { WholeIff(written, src, l, damage[1..]); }
    }
  }

  /** Then a pixel that was damaged is the client's, and any other is as it was. */
  lemma {:induction false} PixelAfter(dst: seq<Byte>, src: seq<Byte>, l: Layout, damage: seq<Rect>, y: nat, x: nat)
    requires Roomy(l) && Fits(l, damage, |src|, |dst|) && x < l.width
    ensures var written := CopyAll(dst, src, l, damage).0;
            if Damaged(damage, l, y, x) then Shows(written, src, l, y, x) else Same(written, dst, l, y, x)
    decreases |damage|
  {
    hide CopyRect, Inside, Pixel;
    if damage != [] {
      RectIs(dst, src, l, damage[0]);
      RectCopied(dst, src, l, damage[0], y, x);
      FitsParts(l, damage, |src|, |dst|);
      DamagedParts(damage, l, y, x);
      var written := CopyRect(dst, src, l, damage[0]).0;
      PixelAfter(written, src, l, damage[1..], y, x);
    }
  }

  /** The incremental copy shows the client everything damaged exactly when all of it is within both buffers. A pool
      shorter than its buffer claims leaves some of the damage unshown. */
  lemma DamageShownIff(dst: seq<Byte>, src: seq<Byte>, l: Layout, damage: seq<Rect>)
    requires Roomy(l)
    ensures (forall y: nat, x: nat :: Damaged(damage, l, y, x) ==> Shows(CopyAll(dst, src, l, damage).0, src, l, y, x))
       <==> Fits(l, damage, |src|, |dst|)
  {
    WholeIff(dst, src, l, damage);
    if Fits(l, damage, |src|, |dst|) {
      forall y: nat, x: nat | Damaged(damage, l, y, x)
        ensures Shows(CopyAll(dst, src, l, damage).0, src, l, y, x)
      {
        PixelAfter(dst, src, l, damage, y, x);
      }
    }
  }
}

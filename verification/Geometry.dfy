/** Where a client's content lands in its view (src/state.rs, Fit and ViewEntry::fit; src/submit.rs, physical and
    layer_for). Over the reals: what floating point rounds away is no part of it, but what it makes of dividing by zero
    is. */
module Geometry {
  import opened Basics

  /** A scale around the origin followed by an offset. */
  datatype Fit = Fit(scale: real, dx: real, dy: real)

  const IDENTITY := Fit(1.0, 0.0, 0.0)

  /** A quotient of floating point numbers: dividing by zero gives an infinity, or no number for zero by zero. */
  datatype Ratio = Finite(value: real) | Infinite(positive: bool) | NotANumber

  function Quotient(a: real, b: real): Ratio {
    if b != 0.0 then Finite(a / b)
    else if a == 0.0 then NotANumber
    else Infinite(a > 0.0)
  }

  /** The smaller one; of a number and none, the number. */
  function Smaller(a: Ratio, b: Ratio): Ratio {
    match a
    case NotANumber => b
    case Infinite(positive) => if b.NotANumber? || !positive then a else b
    case Finite(x) =>
      match b
      case NotANumber => a
      case Infinite(positive) => if positive then a else b
      case Finite(y) => if x < y then a else b
  }

  /** The scale at which content of a size fits the view. */
  function ScaleTo(vw: real, vh: real, rw: int, rh: int): Ratio {
    Smaller(Quotient(vw, rw as real), Quotient(vh, rh as real))
  }

  predicate Usable(r: Ratio) { r.Finite? && r.value > 0.0 }

  /** Content of a size scaled to fit a view, aspect kept, centered. */
  function Contain(vw: real, vh: real, rw: int, rh: int): Fit {
    var scale := ScaleTo(vw, vh, rw, rh);
    if !Usable(scale) then IDENTITY
    else Fit(scale.value, (vw - rw as real * scale.value) / 2.0, (vh - rh as real * scale.value) / 2.0)
  }

  /** Along one axis, to the view and back. */
  function Out(x: real, s: real, d: real): real { x * s + d }

  function Back(x: real, s: real, d: real): real
    requires s != 0.0
  {
    (x - d) / s
  }

  function ToView(f: Fit, x: real, y: real): (real, real) { (Out(x, f.scale, f.dx), Out(y, f.scale, f.dy)) }

  function ToClient(f: Fit, x: real, y: real): (real, real)
    requires f.scale != 0.0
  {
    (Back(x, f.scale, f.dx), Back(y, f.scale, f.dy))
  }

  /** To the nearest integer, halves away from zero. */
  function Round(v: real): int {
    if v >= 0.0 then (v + 0.5).Floor else -((-v + 0.5).Floor)
  }

  // ----- the view -----

  /** A view: its size in physical pixels once known, the pixels per logical one, and the size its client is asked for
      in place of the view's, if any. */
  datatype View = View(size: Option<(int, int)>, dpr: real, requested: Option<(int, int)>)

  function LogicalSize(v: View): Option<(int, int)>
    requires v.dpr > 0.0
  {
    if v.size.None? then None
    else Some((Round(v.size.value.0 as real / v.dpr), Round(v.size.value.1 as real / v.dpr)))
  }

  function ClientSize(v: View): Option<(int, int)>
    requires v.dpr > 0.0
  {
    if v.requested.Some? then v.requested else LogicalSize(v)
  }

  function Larger(a: int, b: int): int { if a < b then b else a }

  /** What is to fit: the size asked for, or the window where the client made it larger. */
  function ContentSize(asked: (int, int), window: Option<(int, int)>): (int, int) {
    if window.None? then asked else (Larger(asked.0, window.value.0), Larger(asked.1, window.value.1))
  }

  function Content(v: View, window: Option<(int, int)>): (int, int)
    requires v.dpr > 0.0 && v.size.Some?
  {
    ContentSize(ClientSize(v).value, window)
  }

  function FitOf(v: View, window: Option<(int, int)>): Fit
    requires v.dpr > 0.0
  {
    if v.size.None? then IDENTITY
    else
      var content := Content(v, window);
      if v.requested.None? && Some(content) == LogicalSize(v) then IDENTITY
      else Contain(v.size.value.0 as real / v.dpr, v.size.value.1 as real / v.dpr, content.0, content.1)
  }

  /** The content is scaled to the view: it is not what the view itself had its client asked for, and can be scaled. */
  predicate Scaled(v: View, window: Option<(int, int)>)
    requires v.dpr > 0.0
  {
    && v.size.Some?
    && !(v.requested.None? && Some(Content(v, window)) == LogicalSize(v))
    && Usable(ScaleTo(v.size.value.0 as real / v.dpr, v.size.value.1 as real / v.dpr, Content(v, window).0,
                      Content(v, window).1))
  }

  // ----- on the shell's pixels -----

  const I32_MIN: int := -0x8000_0000
  const I32_MAX: int := 0x7fff_ffff
  const U32_MAX: int := 0xffff_ffff

  function Clamp(v: int, lo: int, hi: int): int { if v < lo then lo else if v > hi then hi else v }

  function Physical(v: real, dpr: real): int { Round(v * dpr) }

  /** A rectangle of the client's logical space, and of physical pixels. */
  datatype Rect = Rect(x: int, y: int, w: int, h: int)

  /** A coordinate of the client's, along one axis, in physical pixels. */
  function Edge(x: int, s: real, d: real, dpr: real): int { Physical(Out(x as real, s, d), dpr) }

  /** Where a layer goes: edges round, not sizes. */
  function Placed(r: Rect, f: Fit, dpr: real): Rect {
    var (x0, y0) := ToView(f, r.x as real, r.y as real);
    var (x1, y1) := ToView(f, (r.x + r.w) as real, (r.y + r.h) as real);
    Rect(Clamp(Physical(x0, dpr), I32_MIN, I32_MAX), Clamp(Physical(y0, dpr), I32_MIN, I32_MAX),
         Clamp(Physical(x1, dpr) - Physical(x0, dpr), 0, U32_MAX),
         Clamp(Physical(y1, dpr) - Physical(y0, dpr), 0, U32_MAX))
  }

  // ----- properties -----

  ghost predicate PartOf(r: Rect, content: (int, int)) {
    0 <= r.x && 0 <= r.w && r.x + r.w <= content.0 && 0 <= r.y && 0 <= r.h && r.y + r.h <= content.1
  }

  /** In the view's own pixels. */
  ghost predicate Within(v: View, r: Rect)
    requires v.size.Some?
  {
    0 <= r.x && r.x + r.w <= v.size.value.0 && 0 <= r.y && r.y + r.h <= v.size.value.1
  }

  /** The content, from the origin on, as it is in the view. */
  ghost predicate Inside(vw: real, vh: real, f: Fit, w: int, h: int) {
    && 0.0 <= f.dx && Out(w as real, f.scale, f.dx) <= vw
    && 0.0 <= f.dy && Out(h as real, f.scale, f.dy) <= vh
  }

  lemma QuotientTimes(a: real, b: real)
    requires b != 0.0
    ensures a / b * b == a
  {
  }

  lemma FactorOrdered(b: real, s: real, t: real)
    requires 0.0 <= b && s <= t
    ensures b * s <= b * t
  {
  }

  /** A usable scale is one that neither side exceeds, and that one of the sides of the content makes exact. */
  lemma ScaleFits(vw: real, vh: real, rw: int, rh: int)
    requires vw >= 0.0 && vh >= 0.0 && Usable(ScaleTo(vw, vh, rw, rh))
    ensures var s := ScaleTo(vw, vh, rw, rh).value;
            && rw >= 0 && rh >= 0
            && rw as real * s <= vw && rh as real * s <= vh
            && (rw as real * s == vw || rh as real * s == vh)
  {
    var s := ScaleTo(vw, vh, rw, rh).value;
    var a, b := Quotient(vw, rw as real), Quotient(vh, rh as real);
    SideFits(vw, rw, s);
    SideFits(vh, rh, s);
    assert a == Finite(s) || b == Finite(s);
  }

  lemma SideFits(view: real, side: int, s: real)
    requires view >= 0.0 && s > 0.0
    requires var q := Quotient(view, side as real);
             q.NotANumber? || (q.Infinite? && q.positive) || (q.Finite? && s <= q.value)
    ensures side >= 0 && side as real * s <= view
    ensures Quotient(view, side as real) == Finite(s) ==> side as real * s == view
  {
    var q := Quotient(view, side as real);
    if q.Finite? {
      QuotientTimes(view, side as real);
      if side < 0 {
        NegativeQuotient(view, side as real);
      } else {
        FactorOrdered(side as real, s, q.value);
      }
    }
  }

  lemma NegativeQuotient(a: real, b: real)
    requires a >= 0.0 && b < 0.0
    ensures a / b <= 0.0
  {
    QuotientTimes(a, b);
  }

  /** A side of the content is no obstacle to scaling it: the view's has the same sign, or there is none of it to scale,
      in a view that has some or none. */
  predicate SideScales(view: real, side: int) {
    (side > 0 && view > 0.0) || (side < 0 && view < 0.0) || (side == 0 && view >= 0.0)
  }

  /** Content can be scaled to fit exactly when neither of its sides is an obstacle to it, and it has one: in a view
      with an area, when it has no negative side and a positive one. */
  lemma ScalesIff(vw: real, vh: real, rw: int, rh: int)
    ensures Usable(ScaleTo(vw, vh, rw, rh)) <==> SideScales(vw, rw) && SideScales(vh, rh) && (rw != 0 || rh != 0)
    ensures vw > 0.0 && vh > 0.0 ==>
              (Usable(ScaleTo(vw, vh, rw, rh)) <==> rw >= 0 && rh >= 0 && (rw > 0 || rh > 0))
  {
    if rw != 0 { SignOfQuotient(vw, rw as real); }
    if rh != 0 { SignOfQuotient(vh, rh as real); }
  }

  lemma SignOfQuotient(a: real, b: real)
    requires b != 0.0
    ensures a / b > 0.0 <==> (a > 0.0 && b > 0.0) || (a < 0.0 && b < 0.0)
  {
    QuotientTimes(a, b);
    if a / b > 0.0 {
      if b > 0.0 { FactorOrdered(b, 0.0, a / b); } else { FactorOrdered(-b, 0.0, a / b); }
    }
  }

  /** Fitting keeps the whole content inside the view, touching both its edges along one axis and centered along the
      other -- whatever the sizes, unless there is no way to scale it and it is shown as it is. */
  lemma ContainFits(vw: real, vh: real, rw: int, rh: int)
    requires vw >= 0.0 && vh >= 0.0 && Usable(ScaleTo(vw, vh, rw, rh))
    ensures var f := Contain(vw, vh, rw, rh);
            && f.scale > 0.0
            && Inside(vw, vh, f, rw, rh)
            && f.dx == vw - Out(rw as real, f.scale, f.dx) && f.dy == vh - Out(rh as real, f.scale, f.dy)
            && ((f.dx == 0.0 && Out(rw as real, f.scale, f.dx) == vw)
                || (f.dy == 0.0 && Out(rh as real, f.scale, f.dy) == vh))
  {
    ScaleFits(vw, vh, rw, rh);
  }

  /** The window is part of that content, so none of it is cut off either. */
  lemma WindowFits(v: View, window: (int, int))
    requires v.dpr > 0.0 && v.size.Some? && v.size.value.0 >= 0 && v.size.value.1 >= 0
    requires Scaled(v, Some(window))
    ensures var f := FitOf(v, Some(window));
            Inside(v.size.value.0 as real / v.dpr, v.size.value.1 as real / v.dpr, f, window.0, window.1)
  {
    var vw, vh := v.size.value.0 as real / v.dpr, v.size.value.1 as real / v.dpr;
    var content := Content(v, Some(window));
    NotNegative(v.size.value.0, v.dpr);
    NotNegative(v.size.value.1, v.dpr);
    hide Out, Round, ScaleTo;
    var f := FitOf(v, Some(window));
    ContainFits(vw, vh, content.0, content.1);
    OutOrdered(window.0, content.0, f.scale, f.dx);
    OutOrdered(window.1, content.1, f.scale, f.dy);
  }

  lemma NotNegative(size: int, dpr: real)
    requires size >= 0 && dpr > 0.0
    ensures size as real / dpr >= 0.0
  {
  }

  lemma OutOrdered(a: int, b: int, s: real, d: real)
    requires a <= b && s > 0.0
    ensures Out(a as real, s, d) <= Out(b as real, s, d)
  {
  }

  /** Going to the view and back, either way round, is going nowhere. */
  lemma FitInverse(f: Fit, x: real, y: real)
    requires f.scale != 0.0
    ensures ToClient(f, ToView(f, x, y).0, ToView(f, x, y).1) == (x, y)
    ensures ToView(f, ToClient(f, x, y).0, ToClient(f, x, y).1) == (x, y)
  {
    BackAndForth(x, f.scale, f.dx);
    BackAndForth(y, f.scale, f.dy);
    hide Out, Back;
  }

  lemma BackAndForth(x: real, s: real, d: real)
    requires s != 0.0
    ensures Back(Out(x, s, d), s, d) == x
    ensures Out(Back(x, s, d), s, d) == x
  {
    assert Out(x, s, d) - d == x * s;
    QuotientTimes(x - d, s);
    TimesQuotient(x, s);
  }

  lemma TimesQuotient(x: real, s: real)
    requires s != 0.0
    ensures x * s / s == x
  {
  }

  /** Every fit the server uses can be undone. */
  lemma FitUsable(v: View, window: Option<(int, int)>)
    requires v.dpr > 0.0
    ensures FitOf(v, window).scale > 0.0
  {
    hide ScaleTo, ContentSize, ClientSize, LogicalSize;
  }

  // ----- rounding -----

  /** The nearest integer, and halfway between two the one away from zero. */
  ghost predicate Nearest(n: int, v: real) {
    if v >= 0.0 then n as real - 0.5 <= v < n as real + 0.5 else n as real - 0.5 < v <= n as real + 0.5
  }

  lemma RoundIsNearest(v: real, n: int)
    ensures Round(v) == n <==> Nearest(n, v)
  {
  }

  /** The content is what the client is asked for, or its window where that is larger: a size of the client's own if one
      was requested, else the view's in logical pixels. */
  lemma ContentIs(v: View, window: Option<(int, int)>)
    requires v.dpr > 0.0 && v.size.Some?
    ensures exists w, h ::
              && (if v.requested.Some? then (w, h) == v.requested.value
                  else Nearest(w, v.size.value.0 as real / v.dpr) && Nearest(h, v.size.value.1 as real / v.dpr))
              && Content(v, window).0 == (if window.Some? && window.value.0 > w then window.value.0 else w)
              && Content(v, window).1 == (if window.Some? && window.value.1 > h then window.value.1 else h)
  {
    var (w, h) := if v.requested.Some? then v.requested.value
                  else (Round(v.size.value.0 as real / v.dpr), Round(v.size.value.1 as real / v.dpr));
    RoundIsNearest(v.size.value.0 as real / v.dpr, w);
    RoundIsNearest(v.size.value.1 as real / v.dpr, h);
    hide Round, Nearest;
    assert Content(v, window).0 == (if window.Some? && window.value.0 > w then window.value.0 else w);
  }

  lemma RoundMonotone(a: real, b: real)
    requires a <= b
    ensures Round(a) <= Round(b)
  {
  }

  lemma RoundInteger(n: int)
    ensures Round(n as real) == n
  {
  }

  lemma TimesOrdered(a: real, b: real, s: real)
    requires a <= b && s > 0.0
    ensures a * s <= b * s
  {
  }

  lemma EdgesOrdered(a: int, b: int, s: real, d: real, dpr: real)
    requires a <= b && s > 0.0 && dpr > 0.0
    ensures Edge(a, s, d, dpr) <= Edge(b, s, d, dpr)
  {
    OutOrdered(a, b, s, d);
    hide Out, Round;
    TimesOrdered(Out(a as real, s, d), Out(b as real, s, d), dpr);
    RoundMonotone(Out(a as real, s, d) * dpr, Out(b as real, s, d) * dpr);
  }

  /** No edge is out of range. */
  ghost predicate Representable(r: Rect, f: Fit, dpr: real) {
    && -0x8000_0000 <= Edge(r.x, f.scale, f.dx, dpr) && Edge(r.x + r.w, f.scale, f.dx, dpr) <= 0x7fff_ffff
    && -0x8000_0000 <= Edge(r.y, f.scale, f.dy, dpr) && Edge(r.y + r.h, f.scale, f.dy, dpr) <= 0x7fff_ffff
  }

  /** The number of the range that is nearest. */
  ghost predicate CutTo(n: int, v: int, lo: int, hi: int) {
    lo <= n <= hi && (lo <= v <= hi ==> n == v) && (v < lo ==> n == lo) && (v > hi ==> n == hi)
  }

  /** Out of range too, a layer's position and its sides come as near to its edges as 32 bits do. */
  lemma PlacedCut(r: Rect, f: Fit, dpr: real)
    ensures var p := Placed(r, f, dpr);
            var (left, right) := (Edge(r.x, f.scale, f.dx, dpr), Edge(r.x + r.w, f.scale, f.dx, dpr));
            var (top, bottom) := (Edge(r.y, f.scale, f.dy, dpr), Edge(r.y + r.h, f.scale, f.dy, dpr));
            && CutTo(p.x, left, -0x8000_0000, 0x7fff_ffff) && CutTo(p.w, right - left, 0, 0xffff_ffff)
            && CutTo(p.y, top, -0x8000_0000, 0x7fff_ffff) && CutTo(p.h, bottom - top, 0, 0xffff_ffff)
  {
    hide Out, Physical;
  }

  /** A layer's edges are those of its rectangle, each rounded on its own. */
  lemma PlacedEdges(r: Rect, f: Fit, dpr: real)
    requires r.w >= 0 && r.h >= 0 && f.scale > 0.0 && dpr > 0.0 && Representable(r, f, dpr)
    ensures var p := Placed(r, f, dpr);
            && p.x == Edge(r.x, f.scale, f.dx, dpr) && p.x + p.w == Edge(r.x + r.w, f.scale, f.dx, dpr)
            && p.y == Edge(r.y, f.scale, f.dy, dpr) && p.y + p.h == Edge(r.y + r.h, f.scale, f.dy, dpr)
  {
    hide Out, Physical;
    EdgesOrdered(r.x, r.x + r.w, f.scale, f.dx, dpr);
    EdgesOrdered(r.y, r.y + r.h, f.scale, f.dy, dpr);
  }

  /** Neighbors stay flush: rectangles that meet along an edge meet along one on the screen, with no gap and no overlap;
      apart, they stay apart. */
  lemma NeighborsFlush(a: Rect, b: Rect, f: Fit, dpr: real)
    requires a.w >= 0 && a.h >= 0 && b.w >= 0 && b.h >= 0 && f.scale > 0.0 && dpr > 0.0
    requires Representable(a, f, dpr) && Representable(b, f, dpr)
    ensures var p, q := Placed(a, f, dpr), Placed(b, f, dpr);
            && (a.x + a.w == b.x ==> p.x + p.w == q.x)
            && (a.y + a.h == b.y ==> p.y + p.h == q.y)
            && (a.x + a.w <= b.x ==> p.x + p.w <= q.x)
            && (a.y + a.h <= b.y ==> p.y + p.h <= q.y)
  {
    hide Placed, Edge, Representable;
    PlacedEdges(a, f, dpr);
    PlacedEdges(b, f, dpr);
    if a.x + a.w <= b.x { EdgesOrdered(a.x + a.w, b.x, f.scale, f.dx, dpr); }
    if a.y + a.h <= b.y { EdgesOrdered(a.y + a.h, b.y, f.scale, f.dy, dpr); }
  }

  lemma EdgeInside(x: int, side: int, s: real, d: real, size: int, dpr: real)
    requires 0 <= x <= side && s > 0.0 && d >= 0.0 && dpr > 0.0 && size >= 0
    requires Out(side as real, s, d) <= size as real / dpr
    ensures 0 <= Edge(x, s, d, dpr) <= size
  {
    var out, limit := Out(x as real, s, d), size as real / dpr;
    OutOrdered(x, side, s, d);
    OutOrdered(0, x, s, d);
    assert Out(0 as real, s, d) == d;
    QuotientTimes(size as real, dpr);
    hide Out, Round;
    TimesOrdered(0.0, out, dpr);
    TimesOrdered(out, limit, dpr);
    RoundMonotone(0.0, out * dpr);
    RoundMonotone(out * dpr, size as real);
    RoundInteger(0);
    RoundInteger(size);
  }

  /** Content that fits its view is placed inside the view's own pixels, whatever its rectangles are. */
  lemma PlacedInside(v: View, f: Fit, content: (int, int), r: Rect)
    requires v.dpr > 0.0 && v.size.Some? && f.scale > 0.0
    requires 0 <= v.size.value.0 <= I32_MAX && 0 <= v.size.value.1 <= I32_MAX
    requires Inside(v.size.value.0 as real / v.dpr, v.size.value.1 as real / v.dpr, f, content.0, content.1)
    requires PartOf(r, content)
    ensures Within(v, Placed(r, f, v.dpr))
  {
    hide Out, Placed, Edge;
    var (w, h) := v.size.value;
    EdgeInside(r.x, content.0, f.scale, f.dx, w, v.dpr);
    EdgeInside(r.x + r.w, content.0, f.scale, f.dx, w, v.dpr);
    EdgeInside(r.y, content.1, f.scale, f.dy, h, v.dpr);
    EdgeInside(r.y + r.h, content.1, f.scale, f.dy, h, v.dpr);
    PlacedEdges(r, f, v.dpr);
  }

  /** So a view's content, its window included, never leaves the view where it is scaled to it: in physical pixels,
      after rounding. */
  lemma ContentStaysInside(v: View, window: Option<(int, int)>, r: Rect)
    requires v.dpr > 0.0 && v.size.Some? && Scaled(v, window) && PartOf(r, Content(v, window))
    requires 0 <= v.size.value.0 <= I32_MAX && 0 <= v.size.value.1 <= I32_MAX
    ensures Within(v, Placed(r, FitOf(v, window), v.dpr))
  {
    var content := Content(v, window);
    var vw, vh := v.size.value.0 as real / v.dpr, v.size.value.1 as real / v.dpr;
    NotNegative(v.size.value.0, v.dpr);
    NotNegative(v.size.value.1, v.dpr);
    hide Out, Placed, Round, ScaleTo, Inside;
    ContainFits(vw, vh, content.0, content.1);
    PlacedInside(v, FitOf(v, window), content, r);
  }

  /** Shown as it is, content keeps what rounding added to the size its client was asked for. All of it stays in the
      view exactly when it is scaled to it, or has a negative side, or neither side is longer than the view's pixels. */
  lemma ContentInsideIff(v: View, window: Option<(int, int)>)
    requires v.dpr > 0.0 && v.size.Some?
    requires 0 <= v.size.value.0 <= I32_MAX && 0 <= v.size.value.1 <= I32_MAX
    ensures var content := Content(v, window);
            (forall r :: PartOf(r, content) ==> Within(v, Placed(r, FitOf(v, window), v.dpr))) <==>
              || Scaled(v, window)
              || content.0 < 0 || content.1 < 0
              || (Physical(content.0 as real, v.dpr) <= v.size.value.0
                  && Physical(content.1 as real, v.dpr) <= v.size.value.1)
  {
    var content := Content(v, window);
    if Scaled(v, window) {
      hide Placed, Scaled, FitOf, Physical;
      forall r | PartOf(r, content) ensures Within(v, Placed(r, FitOf(v, window), v.dpr)) {
        ContentStaysInside(v, window, r);
      }
    } else {
      assert FitOf(v, window) == IDENTITY;
      hide Placed, Scaled, FitOf, Physical;
      if content.0 >= 0 && content.1 >= 0 { UnscaledInsideIff(v, content); }
    }
  }

  lemma UnscaledInsideIff(v: View, content: (int, int))
    requires v.dpr > 0.0 && v.size.Some? && 0 <= content.0 && 0 <= content.1
    requires 0 <= v.size.value.0 <= I32_MAX && 0 <= v.size.value.1 <= I32_MAX
    ensures (forall r :: PartOf(r, content) ==> Within(v, Placed(r, IDENTITY, v.dpr))) <==>
              && Physical(content.0 as real, v.dpr) <= v.size.value.0
              && Physical(content.1 as real, v.dpr) <= v.size.value.1
  {
    var (w, h) := content;
    UnscaledEdge(0, v.dpr);
    UnscaledEdge(w, v.dpr);
    UnscaledEdge(h, v.dpr);
    hide Out, Physical, Round;
    if Physical(w as real, v.dpr) <= v.size.value.0 && Physical(h as real, v.dpr) <= v.size.value.1 {
      forall r | PartOf(r, content) ensures Within(v, Placed(r, IDENTITY, v.dpr)) {
        EdgesOrdered(0, r.x, 1.0, 0.0, v.dpr);
        EdgesOrdered(r.x, r.x + r.w, 1.0, 0.0, v.dpr);
        EdgesOrdered(r.x + r.w, w, 1.0, 0.0, v.dpr);
        EdgesOrdered(0, r.y, 1.0, 0.0, v.dpr);
        EdgesOrdered(r.y, r.y + r.h, 1.0, 0.0, v.dpr);
        EdgesOrdered(r.y + r.h, h, 1.0, 0.0, v.dpr);
        hide Placed, Edge;
        PlacedEdges(r, IDENTITY, v.dpr);
      }
    } else {
      var whole := Rect(0, 0, w, h);
      assert PartOf(whole, content) && !Within(v, Placed(whole, IDENTITY, v.dpr));
    }
  }

  lemma UnscaledEdge(x: int, dpr: real)
    ensures Edge(x, 1.0, 0.0, dpr) == Physical(x as real, dpr)
    ensures x == 0 ==> Edge(x, 1.0, 0.0, dpr) == 0
  {
  }

  /** A view of 1000 by 600 pixels at one and a half to a logical one: its client is asked for 667 by 400, and fills
      that, which is a pixel wider than the view. */
  lemma ContentLeavesView()
    ensures var v := View(Some((1000, 600)), 1.5, None);
            && ClientSize(v) == Some((667, 400)) && !Scaled(v, None)
            && Placed(Rect(0, 0, 667, 400), FitOf(v, None), v.dpr) == Rect(0, 0, 1001, 600)
  {
    assert 1000.0 / 1.5 + 0.5 == 2001.5 / 3.0;
  }
}

/** What the shell may still be reading of a view (src/submit.rs, Holds; src/tree.rs, Held).

    A buffer the shell gave a release fence for is held until the fence signals. One without is held until a later
    frame is reported, on a list that also has a hard bound. */
module Holds {
  import opened Basics

  /** The client's own buffer, or a staging slot by its uid: two holds are equal when they keep the same one. */
  datatype Held = Client(buffer: nat) | Staged(uid: nat)

  type Hold = (nat, Held)

  const MAX_UNFENCED: nat := 64

  // ----- what the operations do to the unfenced holds -----

  function Without(list: seq<Hold>, b: Held): seq<Hold> {
    if list == [] then [] else (if list[0].1 != b then [list[0]] else []) + Without(list[1..], b)
  }

  function NotBefore(list: seq<Hold>, s: nat): seq<Hold> {
    if list == [] then [] else (if list[0].0 >= s then [list[0]] else []) + NotBefore(list[1..], s)
  }

  /** The newest holds of a list, as many as there may be. */
  function Newest(list: seq<Hold>): seq<Hold> {
    if |list| > MAX_UNFENCED then list[|list| - MAX_UNFENCED..] else list
  }

  datatype Op = HoldFor(seqNo: nat, buffer: Held) | Report(seqNo: nat) | GiveBack

  /** One operation on the list as the server keeps it. */
  function Apply(list: seq<Hold>, op: Op): seq<Hold> {
    match op
    case HoldFor(s, b) => Newest(Without(list, b) + [(s, b)])
    case Report(s) => NotBefore(list, s)
    case GiveBack => []
  }

  function ListAfter(ops: seq<Op>): seq<Hold> {
    if ops == [] then [] else Apply(ListAfter(ops[..|ops| - 1]), ops[|ops| - 1])
  }

  // ----- the source's object -----

  class HoldTable {
    var nextKey: nat
    /** One hold per fence, by key. */
    var fenced: map<nat, Held>
    /** Holds without a fence, each with its frame, oldest first. */
    var unfenced: seq<Hold>

    ghost predicate Valid()
      reads this
    {
      (forall k :: k in fenced ==> k <= nextKey) && |unfenced| <= MAX_UNFENCED
    }

    /** Everything that is not given back yet. */
    ghost function Contents(): set<Held>
      reads this
    {
      fenced.Values + (set h | h in unfenced :: h.1)
    }

    constructor ()
      ensures Valid() && Contents() == {} && unfenced == [] && fenced == map[]
    {
      nextKey, fenced, unfenced := 0, map[], [];
    }

    /** Hold the buffer until its fence signals; with nothing to tell of that, give it back now. */
    method HoldFenced(buffer: Held, inserted: bool) returns (key: nat)
      requires Valid()
      modifies this`nextKey, this`fenced
      ensures Valid() && key == nextKey == old(nextKey) + 1 && key !in old(fenced)
      ensures fenced == if inserted then old(fenced)[key := buffer] else old(fenced)
    {
      nextKey := nextKey + 1;
      key := nextKey;
      if inserted {
        fenced := fenced[key := buffer];
      }
    }

    /** The fence of one hold signaled: only that hold goes. */
    method FenceSignaled(key: nat)
      requires Valid()
      modifies this`fenced
      ensures Valid() && fenced == old(fenced) - {key}
    {
      fenced := fenced - {key};
    }

    method HoldUnfenced(s: nat, buffer: Held)
      requires Valid()
      modifies this`unfenced
      ensures Valid() && unfenced == Apply(old(unfenced), HoldFor(s, buffer))
    {
      // One hold per buffer, so a client with few buffers cannot make the list grow.
      var kept: seq<Hold> := [];
      var i := 0;
      hide Without;
      assert kept == Without(unfenced[..0], buffer) by { WithoutNone(buffer); }
      while i < |unfenced|
        invariant 0 <= i <= |unfenced| && unfenced == old(unfenced)
        invariant kept == Without(unfenced[..i], buffer)
      {
        WithoutOneMore(unfenced, i, buffer);
        if unfenced[i].1 != buffer { kept := kept + [unfenced[i]]; }
        i := i + 1;
      }
      assert unfenced[..i] == unfenced;
      WithoutIs(unfenced, buffer);
      unfenced := kept + [(s, buffer)];
      // One hold too many: the front of the list makes room.
      if |unfenced| > MAX_UNFENCED {
        unfenced := unfenced[1..];
      }
    }

    /** Holds for this frame and later ones are left, in order. */
    method Presented(s: nat)
      requires Valid()
      modifies this`unfenced
      ensures Valid() && unfenced == Apply(old(unfenced), Report(s))
    {
      var kept: seq<Hold> := [];
      var i := 0;
      while i < |unfenced|
        invariant 0 <= i <= |unfenced| && unfenced == old(unfenced)
        invariant kept == NotBefore(unfenced[..i], s)
      {
        NotBeforeOneMore(unfenced, i, s);
        if unfenced[i].0 >= s { kept := kept + [unfenced[i]]; }
        i := i + 1;
      }
      assert unfenced[..i] == unfenced;
      NotBeforeIs(unfenced, s);
      unfenced := kept;
    }

    /** Give everything back. */
    method Clear()
      requires Valid()
      modifies this`fenced, this`unfenced
      ensures Valid() && Contents() == {} && fenced == map[] && unfenced == Apply(old(unfenced), GiveBack)
    {
      fenced, unfenced := map[], [];
    }
  }

  // ----- lists -----

  lemma WithoutNone(b: Held)
    ensures Without([], b) == []
  {
  }

  lemma {:induction false} WithoutOneMore(list: seq<Hold>, i: nat, b: Held)
    requires i < |list|
    ensures Without(list[..i + 1], b) == Without(list[..i], b) + if list[i].1 != b then [list[i]] else []
  {
    if i > 0 {
      assert list[..i][1..] == list[1..][..i - 1] && list[..i + 1][1..] == list[1..][..i];
      WithoutOneMore(list[1..], i - 1, b);
    }
  }

  lemma {:induction false} NotBeforeOneMore(list: seq<Hold>, i: nat, s: nat)
    requires i < |list|
    ensures NotBefore(list[..i + 1], s) == NotBefore(list[..i], s) + if list[i].0 >= s then [list[i]] else []
  {
    if i > 0 {
      assert list[..i][1..] == list[1..][..i - 1] && list[..i + 1][1..] == list[1..][..i];
      NotBeforeOneMore(list[1..], i - 1, s);
    }
  }

  lemma {:induction false} WithoutIs(list: seq<Hold>, b: Held)
    ensures |Without(list, b)| <= |list|
    ensures forall h :: h in Without(list, b) <==> h in list && h.1 != b
  {
    if list != [] { WithoutIs(list[1..], b); }
  }

  lemma {:induction false} NotBeforeIs(list: seq<Hold>, s: nat)
    ensures |NotBefore(list, s)| <= |list|
    ensures forall h :: h in NotBefore(list, s) <==> h in list && h.0 >= s
  {
    if list != [] { NotBeforeIs(list[1..], s); }
  }

  lemma {:induction false} WithoutConcat(x: seq<Hold>, y: seq<Hold>, b: Held)
    ensures Without(x + y, b) == Without(x, b) + Without(y, b)
  {
    if x == [] {
      assert x + y == y;
    } else {
      WithoutFirst(x, b);
      WithoutFirst(x + y, b);
      hide Without;
      assert (x + y)[1..] == x[1..] + y;
      WithoutConcat(x[1..], y, b);
      Associates(if x[0].1 != b then [x[0]] else [], Without(x[1..], b), Without(y, b));
    }
  }

  lemma WithoutFirst(list: seq<Hold>, b: Held)
    requires list != []
    ensures Without(list, b) == (if list[0].1 != b then [list[0]] else []) + Without(list[1..], b)
  {
  }

  lemma Associates(a: seq<Hold>, b: seq<Hold>, c: seq<Hold>)
    ensures a + (b + c) == (a + b) + c
  {
  }

  lemma {:induction false} NotBeforeConcat(x: seq<Hold>, y: seq<Hold>, s: nat)
    ensures NotBefore(x + y, s) == NotBefore(x, s) + NotBefore(y, s)
  {
    if x == [] {
      assert x + y == y;
    } else {
      NotBeforeFirst(x, s);
      NotBeforeFirst(x + y, s);
      hide NotBefore;
      assert (x + y)[1..] == x[1..] + y;
      NotBeforeConcat(x[1..], y, s);
      Associates(if x[0].0 >= s then [x[0]] else [], NotBefore(x[1..], s), NotBefore(y, s));
    }
  }

  lemma NotBeforeFirst(list: seq<Hold>, s: nat)
    requires list != []
    ensures NotBefore(list, s) == (if list[0].0 >= s then [list[0]] else []) + NotBefore(list[1..], s)
  {
  }

  ghost predicate Keeps(list: seq<Hold>, b: Held) {
    exists i :: 0 <= i < |list| && list[i].1 == b
  }

  /** By frame, and each buffer once. */
  ghost predicate Sorted(list: seq<Hold>) {
    forall i, j :: 0 <= i < j < |list| ==> list[i].0 <= list[j].0 && list[i].1 != list[j].1
  }

  lemma SortedParts(x: seq<Hold>, y: seq<Hold>)
    ensures Sorted(x + y) <==>
              && Sorted(x) && Sorted(y)
              && forall g, h :: g in x && h in y ==> g.0 <= h.0 && g.1 != h.1
  {
    if Sorted(x + y) { PartsSorted(x, y); }
    if Sorted(x) && Sorted(y) && forall g, h :: g in x && h in y ==> g.0 <= h.0 && g.1 != h.1 { SortedWhole(x, y); }
    hide Sorted;
  }

  lemma PartsSorted(x: seq<Hold>, y: seq<Hold>)
    requires Sorted(x + y)
    ensures Sorted(x) && Sorted(y) && forall g, h :: g in x && h in y ==> g.0 <= h.0 && g.1 != h.1
  {
    var list := x + y;
    assert forall i :: 0 <= i < |x| ==> x[i] == list[i];
    assert forall i :: 0 <= i < |y| ==> y[i] == list[|x| + i];
    forall g, h | g in x && h in y ensures g.0 <= h.0 && g.1 != h.1 {
      var i :| 0 <= i < |x| && x[i] == g;
      var j :| 0 <= j < |y| && y[j] == h;
      assert list[i] == g && list[|x| + j] == h;
    }
  }

  lemma SortedWhole(x: seq<Hold>, y: seq<Hold>)
    requires Sorted(x) && Sorted(y) && forall g, h :: g in x && h in y ==> g.0 <= h.0 && g.1 != h.1
    ensures Sorted(x + y)
  {
    var list := x + y;
    forall i, j | 0 <= i < j < |list| ensures list[i].0 <= list[j].0 && list[i].1 != list[j].1 {
      if i < |x| && |x| <= j { assert list[i] in x && list[j] in y; }
    }
  }

  lemma {:induction false} WithoutOne(list: seq<Hold>, b: Held)
    requires Sorted(list)
    ensures !Keeps(list, b) ==> Without(list, b) == list
    ensures Keeps(list, b) ==> |Without(list, b)| == |list| - 1
    ensures Sorted(Without(list, b))
  {
    if list != [] {
      var h, rest := list[0], list[1..];
      assert list == [h] + rest && Without(list, b) == (if h.1 != b then [h] else []) + Without(rest, b);
      hide Without, Sorted, Keeps;
      SortedParts([h], rest);
      WithoutOne(rest, b);
      WithoutIs(rest, b);
      SortedParts([h], Without(rest, b));
      KeepsIs(list, b);
      KeepsIs(rest, b);
      assert [] + Without(rest, b) == Without(rest, b);
    }
  }

  lemma KeepsIs(list: seq<Hold>, b: Held)
    ensures Keeps(list, b) <==> exists h :: h in list && h.1 == b
  {
    if h :| h in list && h.1 == b {
      var i :| 0 <= i < |list| && list[i] == h;
    }
  }

  lemma {:induction false} NotBeforeSorted(list: seq<Hold>, s: nat)
    requires Sorted(list)
    ensures Sorted(NotBefore(list, s))
    ensures list != [] && list[0].0 >= s ==> NotBefore(list, s) == list
  {
    if list != [] {
      var h, rest := list[0], list[1..];
      assert list == [h] + rest && NotBefore(list, s) == (if h.0 >= s then [h] else []) + NotBefore(rest, s);
      assert rest == [] ==> NotBefore(rest, s) == [];
      hide NotBefore, Sorted;
      SortedParts([h], rest);
      NotBeforeSorted(rest, s);
      if h.0 >= s {
        NotBeforeIs(rest, s);
        SortedParts([h], NotBefore(rest, s));
        if rest != [] { assert rest[0] in rest; }
      } else {
        assert [] + NotBefore(rest, s) == NotBefore(rest, s);
      }
    }
  }

  // ----- without the hard bound -----

  function Unbounded(ops: seq<Op>): seq<Hold> {
    if ops == [] then []
    else
      var before := Unbounded(ops[..|ops| - 1]);
      match ops[|ops| - 1]
      case HoldFor(s, b) => Without(before, b) + [(s, b)]
      case Report(s) => NotBefore(before, s)
      case GiveBack => []
  }

  /** What was done to one buffer since everything was last given back: the frame it was last held for, and the
      highest one reported since that. */
  function Standing(ops: seq<Op>, b: Held): Option<(nat, nat)> {
    if ops == [] then None
    else
      var before := Standing(ops[..|ops| - 1], b);
      match ops[|ops| - 1]
      case HoldFor(s, c) => if c == b then Some((s, 0)) else before
      case Report(s) => if before.Some? then Some((before.value.0, Max(before.value.1, s))) else None
      case GiveBack => None
  }

  predicate StillRead(ops: seq<Op>, t: nat, b: Held) {
    && Standing(ops, b).Some?
    && Standing(ops, b).value.0 == t
    && Standing(ops, b).value.1 <= t
  }

  /** Frames are submitted under growing numbers. */
  ghost predicate Ordered(ops: seq<Op>) {
    forall i, j :: 0 <= i < j < |ops| && ops[i].HoldFor? && ops[j].HoldFor? ==> ops[i].seqNo <= ops[j].seqNo
  }

  lemma {:induction false} StandingIsHeld(ops: seq<Op>, b: Held)
    ensures Standing(ops, b).Some? ==> HoldFor(Standing(ops, b).value.0, b) in ops
  {
    if ops != [] { StandingIsHeld(ops[..|ops| - 1], b); }
  }

  /** The list keeps a buffer just when no frame after the one it was last held for was reported since. */
  lemma {:induction false} UnboundedKeeps(ops: seq<Op>)
    ensures forall t: nat, b :: (t, b) in Unbounded(ops) <==> StillRead(ops, t, b)
  {
    if ops != [] {
      var before := Unbounded(ops[..|ops| - 1]);
      UnboundedKeeps(ops[..|ops| - 1]);
      match ops[|ops| - 1]
      case HoldFor(s, b) => WithoutIs(before, b);
      case Report(s) => NotBeforeIs(before, s);
      case GiveBack =>
    }
  }

  /** And it is in the order of the frames, each buffer once. */
  lemma {:induction false} UnboundedIs(ops: seq<Op>)
    requires Ordered(ops)
    ensures Sorted(Unbounded(ops))
    ensures forall t: nat, b :: (t, b) in Unbounded(ops) <==> StillRead(ops, t, b)
  {
    UnboundedKeeps(ops);
    if ops != [] {
      var earlier := ops[..|ops| - 1];
      UnboundedIs(earlier);
      var before := Unbounded(earlier);
      hide Sorted, StillRead;
      match ops[|ops| - 1]
      case HoldFor(s, b) =>
        HoldsSubmitted(ops, s, b);
        WithoutIs(before, b);
        WithoutOne(before, b);
        SortedParts(Without(before, b), [(s, b)]);
        assert Sorted([(s, b)]) by { OneSorted((s, b)); }
      case Report(s) => NotBeforeSorted(before, s);
      case GiveBack => NoneSorted();
    }
  }

  lemma OneSorted(h: Hold)
    ensures Sorted([h])
  {
  }

  lemma NoneSorted()
    ensures Sorted([])
  {
  }

  lemma HoldsSubmitted(ops: seq<Op>, s: nat, b: Held)
    requires ops != [] && Ordered(ops) && ops[|ops| - 1] == HoldFor(s, b)
    requires forall t: nat, c :: (t, c) in Unbounded(ops[..|ops| - 1]) <==> StillRead(ops[..|ops| - 1], t, c)
    ensures forall h :: h in Unbounded(ops[..|ops| - 1]) ==> h.0 <= s
  {
    var earlier := ops[..|ops| - 1];
    forall h | h in Unbounded(earlier) ensures h.0 <= s {
      assert (h.0, h.1) == h && StillRead(earlier, h.0, h.1);
      StandingIsHeld(earlier, h.1);
      var i :| 0 <= i < |earlier| && earlier[i] == HoldFor(h.0, h.1);
      assert ops[i] == earlier[i];
    }
  }

  // ----- the bound -----

  lemma NewestSplits(list: seq<Hold>) returns (evicted: seq<Hold>)
    requires Sorted(list)
    ensures list == evicted + Newest(list) && Sorted(Newest(list)) && Sorted(evicted)
    ensures forall g, h :: g in evicted && h in Newest(list) ==> g.0 <= h.0 && g.1 != h.1
    ensures evicted != [] ==> |Newest(list)| == MAX_UNFENCED
    ensures |Newest(list)| <= MAX_UNFENCED
  {
    evicted := list[..|list| - |Newest(list)|];
    assert list == evicted + Newest(list);
    SortedParts(evicted, Newest(list));
  }

  lemma NewestOf(evicted: seq<Hold>, kept: seq<Hold>)
    requires |kept| >= MAX_UNFENCED
    ensures Newest(evicted + kept) == Newest(kept)
  {
  }

  /** Evicting as it goes leaves the list just what evicting at the end would. */
  lemma HoldEvicts(list: seq<Hold>, s: nat, b: Held)
    requires Sorted(list)
    ensures Newest(Without(Newest(list), b) + [(s, b)]) == Newest(Without(list, b) + [(s, b)])
  {
    hide Without, Sorted, Keeps, Newest;
    var evicted := NewestSplits(list);
    var kept := Newest(list);
    WithoutConcat(evicted, kept, b);
    WithoutOne(kept, b);
    WithoutOne(evicted, b);
    KeepsIs(kept, b);
    KeepsIs(evicted, b);
    var now := Without(kept, b) + [(s, b)];
    assert Without(list, b) + [(s, b)] == Without(evicted, b) + now;
    if evicted == [] {
      assert [] + kept == kept;
    } else {
      NewestOf(Without(evicted, b), now);
    }
  }

  lemma ReportEvicts(list: seq<Hold>, s: nat)
    requires Sorted(list)
    ensures NotBefore(Newest(list), s) == Newest(NotBefore(list, s))
  {
    hide NotBefore, Sorted, Newest;
    var evicted := NewestSplits(list);
    var kept := Newest(list);
    NotBeforeConcat(evicted, kept, s);
    NotBeforeIs(kept, s);
    NotBeforeIs(evicted, s);
    NotBeforeSorted(kept, s);
    if NotBefore(evicted, s) != [] {
      var h := NotBefore(evicted, s)[0];
      assert h in NotBefore(evicted, s) && kept[0] in kept;
      NewestOf(NotBefore(evicted, s), kept);
      NewestOf([], kept);
      assert [] + kept == kept;
      NewestFits(kept);
    } else {
      assert [] + NotBefore(kept, s) == NotBefore(kept, s);
      NewestFits(NotBefore(kept, s));
    }
  }

  lemma NewestFits(list: seq<Hold>)
    requires |list| <= MAX_UNFENCED
    ensures Newest(list) == list
  {
  }

  /** The server's list over any operations: the newest 64 of what would be kept without the bound, which keeps a
      buffer just when no frame after the one it was last held for was reported since. */
  lemma {:induction false} HeldExactly(ops: seq<Op>)
    requires Ordered(ops)
    ensures var all := Unbounded(ops); ListAfter(ops) == if |all| > 64 then all[|all| - 64..] else all
    ensures Sorted(ListAfter(ops)) && |ListAfter(ops)| <= 64
    ensures forall t: nat, b :: (t, b) in Unbounded(ops) <==> StillRead(ops, t, b)
  {
    UnboundedIs(ops);
    hide Sorted, StillRead;
    if ops != [] {
      var earlier := ops[..|ops| - 1];
      HeldExactly(earlier);
      UnboundedIs(earlier);
      AppliedToNewest(Unbounded(earlier), ops[|ops| - 1], ops);
    }
    hide ListAfter, Unbounded;
    NewestSorted(Unbounded(ops));
  }

  lemma NewestSorted(list: seq<Hold>)
    requires Sorted(list)
    ensures Sorted(Newest(list)) && |Newest(list)| <= MAX_UNFENCED
  {
  }

  /** An operation on the newest comes to the newest of the operation on all. */
  lemma AppliedToNewest(list: seq<Hold>, op: Op, ops: seq<Op>)
    requires Sorted(list) && ops != [] && op == ops[|ops| - 1] && list == Unbounded(ops[..|ops| - 1])
    requires Sorted(Unbounded(ops))
    ensures Apply(Newest(list), op) == Newest(Unbounded(ops))
  {
    assert Unbounded(ops) == match op
                             case HoldFor(s, b) => Without(list, b) + [(s, b)]
                             case Report(s) => NotBefore(list, s)
                             case GiveBack => [];
    hide Unbounded, Without, NotBefore;
    match op
    case HoldFor(s, b) => HoldEvicts(list, s, b);
    case Report(s) => ReportEvicts(list, s);
    case GiveBack => NewestFits([]);
  }

  // ----- with a shell that only reports frames it was given -----

  function LastHeldFor(ops: seq<Op>, b: Held): Option<nat> {
    if ops == [] then None
    else if ops[|ops| - 1].HoldFor? && ops[|ops| - 1].buffer == b then Some(ops[|ops| - 1].seqNo)
    else LastHeldFor(ops[..|ops| - 1], b)
  }

  function HighestReport(ops: seq<Op>): nat {
    if ops == [] then 0
    else
      var before := HighestReport(ops[..|ops| - 1]);
      if ops[|ops| - 1].Report? then Max(before, ops[|ops| - 1].seqNo) else before
  }

  ghost predicate Reported(ops: seq<Op>) {
    forall i, j :: 0 <= i < j < |ops| && ops[i].Report? && ops[j].HoldFor? ==> ops[i].seqNo <= ops[j].seqNo
  }

  lemma {:induction false} StandingIs(ops: seq<Op>, b: Held)
    requires Reported(ops) && GiveBack !in ops
    ensures Standing(ops, b).Some? == LastHeldFor(ops, b).Some?
    ensures Standing(ops, b).Some? ==>
              && Standing(ops, b).value.0 == LastHeldFor(ops, b).value
              && (Standing(ops, b).value.1 <= Standing(ops, b).value.0
                  <==> HighestReport(ops) <= Standing(ops, b).value.0)
  {
    if ops != [] {
      var earlier := ops[..|ops| - 1];
      StandingIs(earlier, b);
      if ops[|ops| - 1].HoldFor? { HighestIsReport(earlier); }
    }
  }

  lemma {:induction false} HighestIsReport(ops: seq<Op>)
    ensures HighestReport(ops) == 0 || exists i :: 0 <= i < |ops| && ops[i] == Report(HighestReport(ops))
  {
    if ops != [] {
      var earlier := ops[..|ops| - 1];
      HighestIsReport(earlier);
      if ops[|ops| - 1].Report? && ops[|ops| - 1].seqNo >= HighestReport(earlier) {
        assert ops[|ops| - 1] == Report(HighestReport(ops));
      } else if HighestReport(earlier) != 0 {
        var i :| 0 <= i < |earlier| && earlier[i] == Report(HighestReport(earlier));
        assert ops[i] == earlier[i];
      }
    }
  }

  /** With nothing evicted or given back, a buffer is held just when the frame it was last held for is no earlier
      than the highest one reported. */
  lemma HeldUntilPassed(ops: seq<Op>, b: Held)
    requires Ordered(ops) && Reported(ops) && GiveBack !in ops && |Unbounded(ops)| <= 64
    ensures Keeps(ListAfter(ops), b) <==> LastHeldFor(ops, b).Some? && LastHeldFor(ops, b).value >= HighestReport(ops)
  {
    HeldExactly(ops);
    StandingIs(ops, b);
    var list := ListAfter(ops);
    if Keeps(list, b) {
      var i :| 0 <= i < |list| && list[i].1 == b;
      assert (list[i].0, b) in list;
    }
    if LastHeldFor(ops, b).Some? && LastHeldFor(ops, b).value >= HighestReport(ops) {
      assert (LastHeldFor(ops, b).value, b) in list;
    }
  }

  // ----- the hard bound is safe -----

  function LayersOf(ops: seq<Op>, s: nat): nat {
    if ops == [] then 0
    else LayersOf(ops[..|ops| - 1], s) + if ops[|ops| - 1].HoldFor? && ops[|ops| - 1].seqNo == s then 1 else 0
  }

  function CountOf(list: seq<Hold>, s: nat): nat {
    if list == [] then 0 else (if list[0].0 == s then 1 else 0) + CountOf(list[1..], s)
  }

  lemma {:induction false} CountConcat(x: seq<Hold>, y: seq<Hold>, s: nat)
    ensures CountOf(x + y, s) == CountOf(x, s) + CountOf(y, s)
  {
    if x == [] {
      assert x + y == y;
    } else {
      assert (x + y)[1..] == x[1..] + y;
      CountConcat(x[1..], y, s);
    }
  }

  lemma {:induction false} CountLeft(list: seq<Hold>, b: Held, from: nat, s: nat)
    ensures CountOf(Without(list, b), s) <= CountOf(list, s)
    ensures CountOf(NotBefore(list, from), s) <= CountOf(list, s)
  {
    if list != [] {
      CountLeft(list[1..], b, from, s);
      CountConcat([list[0]], Without(list[1..], b), s);
      CountConcat([list[0]], NotBefore(list[1..], from), s);
      CountConcat([list[0]], list[1..], s);
      assert list == [list[0]] + list[1..] && [] + Without(list[1..], b) == Without(list[1..], b)
          && [] + NotBefore(list[1..], from) == NotBefore(list[1..], from);
    }
  }

  lemma {:induction false} CountedInOps(ops: seq<Op>, s: nat)
    ensures CountOf(Unbounded(ops), s) <= LayersOf(ops, s)
  {
    if ops != [] {
      var earlier := ops[..|ops| - 1];
      CountedInOps(earlier, s);
      match ops[|ops| - 1]
      case HoldFor(t, b) =>
        CountLeft(Unbounded(earlier), b, 0, s);
        CountConcat(Without(Unbounded(earlier), b), [(t, b)], s);
      case Report(t) => CountLeft(Unbounded(earlier), Staged(0), t, s);
      case GiveBack =>
    }
  }

  lemma {:induction false} TwoFramesCount(list: seq<Hold>, s: nat, s': nat)
    requires s != s'
    requires forall h :: h in list ==> h.0 == s || h.0 == s'
    ensures |list| == CountOf(list, s) + CountOf(list, s')
  {
    if list != [] { TwoFramesCount(list[1..], s, s'); }
  }

  /** Nothing passed the frame since operation i: it was not reported past, and nothing was given back. */
  ghost predicate NotPassedSince(ops: seq<Op>, i: nat, s: nat) {
    forall j :: i < j < |ops| ==> ops[j] != GiveBack && (ops[j].Report? ==> ops[j].seqNo <= s)
  }

  lemma {:induction false} StillStands(ops: seq<Op>, i: nat, s: nat, b: Held)
    requires Ordered(ops) && i < |ops| && ops[i] == HoldFor(s, b) && NotPassedSince(ops, i, s)
    ensures Standing(ops, b).Some? && Standing(ops, b).value.0 >= s >= Standing(ops, b).value.1
  {
    if i < |ops| - 1 { StillStands(ops[..|ops| - 1], i, s, b); }
  }

  /** The hard bound never gives back a buffer of the two newest frames with layers: as long as the shell takes no
      more than half as many layers as there may be holds, a buffer held for frame s, with no more than one frame s'
      after it and neither reported past, is still held. */
  lemma HardBoundIsSafe(ops: seq<Op>, i: nat, s: nat, s': nat, b: Held, maxLayers: nat)
    requires Ordered(ops) && 2 * maxLayers <= 64
    requires forall n :: LayersOf(ops, n) <= maxLayers
    requires i < |ops| && ops[i] == HoldFor(s, b) && NotPassedSince(ops, i, s)
    requires s < s' && forall j :: i < j < |ops| && ops[j].HoldFor? ==> ops[j].seqNo == s || ops[j].seqNo == s'
    ensures exists t :: t >= s && (t, b) in ListAfter(ops)
  {
    UnboundedIs(ops);
    StillStands(ops, i, s, b);
    var list := Unbounded(ops);
    var t := Standing(ops, b).value.0;
    assert StillRead(ops, t, b) && (t, b) in list;
    var p :| 0 <= p < |list| && list[p] == (t, b);
    hide Sorted, Unbounded, StillRead, Standing;
    FewFrom(ops, i, s, s', p);
    HeldExactly(ops);
    assert Newest(list)[p - (|list| - |Newest(list)|)] == (t, b);
  }

  /** From a hold of frame s on, the list has only the layers of two frames. */
  lemma FewFrom(ops: seq<Op>, i: nat, s: nat, s': nat, p: nat)
    requires Ordered(ops) && i < |ops| && ops[i].HoldFor? && ops[i].seqNo == s
    requires s < s' && forall j :: i < j < |ops| && ops[j].HoldFor? ==> ops[j].seqNo == s || ops[j].seqNo == s'
    requires p < |Unbounded(ops)| && Unbounded(ops)[p].0 >= s
    ensures |Unbounded(ops)[p..]| <= LayersOf(ops, s) + LayersOf(ops, s')
  {
    var list := Unbounded(ops);
    UnboundedIs(ops);
    hide Sorted, Unbounded, Standing, LayersOf, CountOf, Ordered, StillRead;
    forall h | h in list[p..] ensures h.0 == s || h.0 == s' {
      FrameAtLeast(list, p, h);
      OfTwoFrames(ops, i, s, s', h);
    }
    TwoFramesCount(list[p..], s, s');
    assert list == list[..p] + list[p..];
    CountConcat(list[..p], list[p..], s);
    CountConcat(list[..p], list[p..], s');
    CountedInOps(ops, s);
    CountedInOps(ops, s');
  }

  lemma OfTwoFrames(ops: seq<Op>, i: nat, s: nat, s': nat, h: Hold)
    requires Ordered(ops) && i < |ops| && ops[i].HoldFor? && ops[i].seqNo == s
    requires forall j :: i < j < |ops| && ops[j].HoldFor? ==> ops[j].seqNo == s || ops[j].seqNo == s'
    requires h.0 >= s && StillRead(ops, h.0, h.1)
    ensures h.0 == s || h.0 == s'
  {
    StandingIsHeld(ops, h.1);
    hide Standing;
    var j :| 0 <= j < |ops| && ops[j] == HoldFor(h.0, h.1);
    if j < i { assert ops[j].seqNo <= ops[i].seqNo; }
  }

  lemma FrameAtLeast(list: seq<Hold>, p: nat, h: Hold)
    requires Sorted(list) && p < |list| && h in list[p..]
    ensures h in list && h.0 >= list[p].0
  {
    var k :| 0 <= k < |list[p..]| && list[p..][k] == h;
    assert list[p + k] == h;
  }
}

/** Stock types shared by the components, and the saturating u64 arithmetic the timing code uses. */
module Basics {

  datatype Option<+T> = None | Some(value: T)

  const MAX_U64: nat := 0xffff_ffff_ffff_ffff

  type U64 = n: nat | n <= MAX_U64

  const MAX_U32: nat := 0xffff_ffff

  type U32 = n: nat | n <= MAX_U32

  /** What the monotonic clock can read: the nanosecond counters stay a second clear of wrapping, as they do for
      centuries. */
  type Instant = n: nat | n < MAX_U64 - 1_000_000_000

  type Byte = n: nat | n < 256

  function SatAdd(a: nat, b: nat): U64 {
    if a + b > MAX_U64 then MAX_U64 else a + b
  }

  function SatMul(a: nat, b: nat): U64 {
    if a * b > MAX_U64 then MAX_U64 else a * b
  }

  function SatSub(a: nat, b: nat): nat {
    if a < b then 0 else a - b
  }

  function Max(a: nat, b: nat): nat {
    if a < b then b else a
  }

  function Min(a: nat, b: nat): nat {
    if a < b then a else b
  }

  ghost predicate IsLeast(all: set<int>, n: int) {
    n in all && forall x :: x in all ==> n <= x
  }

  lemma {:induction false} LeastExists(all: set<int>)
    requires exists n :: n in all
    ensures exists n :: IsLeast(all, n)
  {
    var x :| x in all;
    if z :| z in all - {x} {
      LeastExists(all - {x});
      var y :| IsLeast(all - {x}, y);
      var least := if x < y then x else y;
      forall u | u in all ensures least <= u {
        if u != x { assert u in all - {x}; }
      }
      assert IsLeast(all, least);
    } else {
      assert forall u :: u in all ==> u == x || u in all - {x};
      assert IsLeast(all, x);
    }
  }

  /** The next key of a hash table to be visited: any of those left. */
  method AnyOf<T(==)>(left: set<T>) returns (v: T)
    requires left != {}
    ensures v in left
  {
    v :| v in left;
  }

  /** There is always a number not used yet. */
  lemma {:induction false} Unused(used: set<int>) returns (n: int)
    ensures n >= 0 && forall u :: u in used ==> u < n
  {
    n := 0;
    if x :| x in used {
      var top := Unused(used - {x});
      n := if x < top then top else x + 1;
      forall u | u in used ensures u < n {
        if u != x { assert u in used - {x}; }
      }
    }
  }
}

/** The display's refresh cycle and commit timing (src/timing.rs, FrameClock). */
module FrameClocks {
  import opened Basics

  const DEFAULT_REFRESH_NS: nat := 16_666_667
  const TARGET_SLACK_NS: nat := 500_000

  /** A refresh period: never zero, since only a positive one is ever taken over, and reported in 32 bits. */
  type Period = n: nat | 0 < n <= MAX_U32 witness 1

  /** A small copied value in the source too; the server's state reassigns its field. */
  datatype FrameClock = FrameClock(ustNs: U64, refreshNs: Period) {

    /** The phase only ever moves forward, and a refresh of 0 stands for none reported. */
    function Update(ust: U64, refresh: U32): FrameClock {
      FrameClock(if ust > ustNs then ust else ustNs,
                 if refresh > 0 then refresh else refreshNs)
    }

    /** The next point of the grid, as far as u64 time goes. */
    function NextVblank(t: nat): U64 {
      if t < ustNs then ustNs
      else SatAdd(ustNs, SatMul((t - ustNs) / refreshNs + 1, refreshNs))
    }

    /** Targets up to this one are met by the next vblank. */
    function Due(now: nat): U64 {
      SatAdd(NextVblank(now), TARGET_SLACK_NS)
    }

    /** A refresh before the vblank that meets the target. */
    function ReleaseAt(target: U64): U64 {
      var t := SatSub(target, TARGET_SLACK_NS);
      SatSub(NextVblank(SatSub(t, 1)), refreshNs)
    }

    /** The vblank grid from the last reported vblank on, past the end of u64 time too. */
    ghost function Grid(k: nat): nat {
      if k == 0 then ustNs else Grid(k - 1) + refreshNs
    }

    /** The target's vblank is past the end of u64 time, so `ReleaseAt` saturates. */
    predicate Saturates(target: U64) {
      && target > TARGET_SLACK_NS + ustNs
      && ustNs + ((target - TARGET_SLACK_NS - 1 - ustNs) / refreshNs + 1) * refreshNs > MAX_U64
    }
  }

  const INITIAL_CLOCK := FrameClock(0, DEFAULT_REFRESH_NS)

  /** Grid points are refreshes apart. */
  lemma {:induction false} GridOrdered(c: FrameClock, j: nat, k: nat)
    requires j < k
    ensures c.Grid(j) + c.refreshNs <= c.Grid(k)
  {
    if j + 1 < k { GridOrdered(c, j, k - 1); }
  }

  lemma {:induction false} GridIs(c: FrameClock, k: nat)
    ensures c.Grid(k) == c.ustNs + k * c.refreshNs
  {
    if k > 0 {
      GridIs(c, k - 1);
      assert k * c.refreshNs == (k - 1) * c.refreshNs + c.refreshNs;
    }
  }

  /** Division finds the grid step a time falls in. */
  lemma StepOf(c: FrameClock, t: nat) returns (q: nat)
    requires c.ustNs <= t
    ensures c.Grid(q) <= t < c.Grid(q + 1) == c.Grid(q) + c.refreshNs
    ensures c.NextVblank(t) == Min(MAX_U64, c.Grid(q + 1))
    ensures c.ustNs + ((t - c.ustNs) / c.refreshNs + 1) * c.refreshNs == c.Grid(q + 1)
  {
    var d := t - c.ustNs;
    q := d / c.refreshNs;
    assert d == q * c.refreshNs + d % c.refreshNs;
    GridIs(c, q);
    GridIs(c, q + 1);
  }

  /** The prediction is the earliest vblank of the grid strictly after t, and only the end of u64 time cuts
      it short. */
  lemma NextVblankIsEarliest(c: FrameClock, t: nat)
    ensures c.ustNs <= c.NextVblank(t) <= MAX_U64
    ensures forall k: nat :: c.Grid(k) > t ==> c.NextVblank(t) <= c.Grid(k)
    ensures c.NextVblank(t) == MAX_U64 || exists k: nat :: c.NextVblank(t) == c.Grid(k) > t
  {
    if t < c.ustNs {
      assert c.NextVblank(t) == c.Grid(0) > t;
      forall k: nat ensures c.Grid(0) <= c.Grid(k) {
        if k > 0 { GridOrdered(c, 0, k); }
      }
    } else {
      var q := StepOf(c, t);
      forall k: nat | c.Grid(k) > t
        ensures c.Grid(q + 1) <= c.Grid(k)
      {
        if k < q { GridOrdered(c, k, q); }
        if k > q + 1 { GridOrdered(c, q + 1, k); }
      }
      if q > 0 { GridOrdered(c, 0, q); }
    }
  }

  /** Before a grid point's predecessor there is no time whose next vblank is earlier than the point. */
  lemma NextVblankAtLeast(c: FrameClock, q: nat, now: U64)
    requires c.Grid(q) <= now
    ensures c.NextVblank(now) >= Min(MAX_U64, c.Grid(q + 1))
  {
    if q > 0 { GridOrdered(c, 0, q); }
    var p := StepOf(c, now);
    if p < q { GridOrdered(c, p, q); }
    if q < p { GridOrdered(c, q + 1, p + 1); }
  }

  /** One half of the commit-timing pair: an update applied no earlier than its release time meets its target. */
  lemma ReleasedIsDue(c: FrameClock, target: U64, now: U64)
    requires !c.Saturates(target)
    requires now >= c.ReleaseAt(target)
    ensures target <= c.Due(now)
  {
    if target > TARGET_SLACK_NS + c.ustNs {
      var q := StepOf(c, target - TARGET_SLACK_NS - 1);
      NextVblankAtLeast(c, q, now);
    } else {
      NextVblankIsEarliest(c, now);
    }
  }

  /** The other half: a target that is met now was to be released by now. */
  lemma DueIsReleased(c: FrameClock, target: U64, now: U64)
    requires target > TARGET_SLACK_NS + c.ustNs || c.ustNs <= c.refreshNs
    requires target <= c.Due(now)
    ensures now >= c.ReleaseAt(target)
  {
    var before := SatSub(SatSub(target, TARGET_SLACK_NS), 1);
    if before >= c.ustNs {
      var q := StepOf(c, before);
      if target > TARGET_SLACK_NS {
        var p := StepOf(c, now);
        if p < q { GridOrdered(c, p, q); }
        if q < p { GridOrdered(c, q, p); }
      }
    }
  }

  /** Exactly when the release time is never too late: unless the target's vblank lies past the end of u64 time. */
  lemma ReleaseNeverTooLate(c: FrameClock, target: U64)
    ensures (forall now: U64 :: c.ReleaseAt(target) <= now ==> target <= c.Due(now))
       <==> !c.Saturates(target)
  {
    if !c.Saturates(target) {
      forall now: U64 | c.ReleaseAt(target) <= now
        ensures target <= c.Due(now)
      {
        ReleasedIsDue(c, target, now);
      }
    } else {
      // Applied exactly at its release time, the update misses its target.
      var q := StepOf(c, target - TARGET_SLACK_NS - 1);
      var now := c.ReleaseAt(target);
      NextVblankIsEarliest(c, now);
      assert now < c.Grid(q) && c.Due(now) < target;
    }
  }

  /** Exactly when the release time is never too early: unless the target is at or before a reported vblank
      that is more than a refresh after time zero. */
  lemma ReleaseNeverTooEarly(c: FrameClock, target: U64)
    ensures (forall now: U64 :: target <= c.Due(now) ==> c.ReleaseAt(target) <= now)
       <==> (target > TARGET_SLACK_NS + c.ustNs || c.ustNs <= c.refreshNs)
  {
    if target > TARGET_SLACK_NS + c.ustNs || c.ustNs <= c.refreshNs {
      forall now: U64 | target <= c.Due(now)
        ensures c.ReleaseAt(target) <= now
      {
        DueIsReleased(c, target, now);
      }
    } else {
      // At time zero the reported vblank is still ahead and meets the target, long before the release time.
      assert target <= c.Due(0) && 0 < c.ReleaseAt(target);
    }
  }

  /** With the clock as it starts, the last target there is saturates: applied at its release time it is missed. */
  lemma LastTargetMissed()
    ensures var now := INITIAL_CLOCK.ReleaseAt(MAX_U64);
            INITIAL_CLOCK.Saturates(MAX_U64) && INITIAL_CLOCK.Due(now) < MAX_U64
  {
  }

  /** Once a vblank a second after time zero was reported, a target before it can be met right away and is released only
      a refresh before that vblank. */
  lemma EarlierTargetWaits()
    ensures var c := INITIAL_CLOCK.Update(1_000_000_000, 0);
            500_000_000 <= c.Due(0) && c.ReleaseAt(500_000_000) == 1_000_000_000 - DEFAULT_REFRESH_NS
  {
  }
}

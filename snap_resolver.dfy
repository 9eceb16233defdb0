/**
 * The snap function registered with the scroll library: given the current
 * normalised scroll progress, it leaves a position in a flowing section
 * alone and moves a position in (or near) a pinned range onto the nearest
 * range center.
 */
module SnapResolver {
  import opened SnapRanges

  /** How far outside a pinned range, in normalised units, a position still snaps. */
  const Tolerance: real := 0.02

  /** `value` lies in `r` widened by the tolerance on both sides, bounds included. */
  predicate Covers(r: Range, value: real) {
    r.start - Tolerance <= value <= r.end + Tolerance
  }

  /** The membership test (`some`): whether any range covers `value`. */
  function InPinned(ranges: seq<Range>, value: real): (b: bool)
    ensures b <==> exists i :: 0 <= i < |ranges| && Covers(ranges[i], value)
  {
    if ranges == [] then false
    else Covers(ranges[0], value) || InPinned(ranges[1..], value)
  }

  function Abs(x: real): real {
    if x < 0.0 then -x else x
  }

  /** Distance of a candidate center from the scroll position. */
  function Dist(center: real, value: real): real {
    Abs(center - value)
  }

  /** The reducer: takes `r`'s center only when it is strictly closer than the running best. */
  function Closer(closest: real, r: Range, value: real): real {
    if Dist(r.center, value) < Dist(closest, value) then r.center else closest
  }

  /** The left fold (`reduce`) of `Closer` over the ranges, starting from `closest`. */
  function Nearest(ranges: seq<Range>, closest: real, value: real): real {
    if ranges == [] then closest
    else Nearest(ranges[1..], Closer(closest, ranges[0], value), value)
  }

  /** The seed of the fold: the first range's center, or 0 without ranges. */
  function Seed(ranges: seq<Range>): real {
    if ranges == [] then 0.0 else ranges[0].center
  }

  /**
   * Index `i` holds a center at minimal distance from `value`, and every
   * earlier range is strictly farther away: the first nearest range.
   */
  ghost predicate FirstNearest(ranges: seq<Range>, value: real, i: int) {
    && 0 <= i < |ranges|
    && (forall j :: 0 <= j < |ranges| ==> Dist(ranges[i].center, value) <= Dist(ranges[j].center, value))
    && (forall j :: 0 <= j < i ==> Dist(ranges[i].center, value) < Dist(ranges[j].center, value))
  }

  /**
   * The fold either keeps its seed, which is then at least as close as every
   * center, or ends on the center of the first nearest range, which is then
   * strictly closer than the seed.
   */
  lemma {:induction false} NearestFold(ranges: seq<Range>, closest: real, value: real)
    ensures var r := Nearest(ranges, closest, value);
      || (r == closest
          && forall j :: 0 <= j < |ranges| ==> Dist(closest, value) <= Dist(ranges[j].center, value))
      || (exists i :: FirstNearest(ranges, value, i)
            && r == ranges[i].center && Dist(r, value) < Dist(closest, value))
  {
    if ranges != [] {
      var rest := ranges[1..];
      var next := Closer(closest, ranges[0], value);
      var r := Nearest(rest, next, value);
      NearestFold(rest, next, value);
      if r == next && forall j :: 0 <= j < |rest| ==> Dist(next, value) <= Dist(rest[j].center, value) {
        if next == ranges[0].center && Dist(ranges[0].center, value) < Dist(closest, value) {
          assert FirstNearest(ranges, value, 0) by {
            forall j | 0 < j < |ranges|
              ensures Dist(ranges[0].center, value) <= Dist(ranges[j].center, value)
            {
              assert ranges[j] == rest[j - 1];
            }
          }
        } else {
          forall j | 0 < j < |ranges|
            ensures Dist(closest, value) <= Dist(ranges[j].center, value)
          {
            assert ranges[j] == rest[j - 1];
          }
        }
      } else {
        var k :| FirstNearest(rest, value, k) && r == rest[k].center && Dist(r, value) < Dist(next, value);
        assert FirstNearest(ranges, value, k + 1) by {
          forall j | 0 < j < |ranges|
            ensures Dist(r, value) <= Dist(ranges[j].center, value)
          {
            assert ranges[j] == rest[j - 1];
          }
          forall j | 0 < j < k + 1
            ensures Dist(r, value) < Dist(ranges[j].center, value)
          {
            assert ranges[j] == rest[j - 1];
          }
        }
      }
    }
  }

  /**
   * The registered snap function. A position that no pinned range covers
   * (within the tolerance) is returned unchanged; otherwise the result is the
   * center of one of the ranges.
   */
  function SnapTo(ranges: seq<Range>, value: real): (r: real)
    ensures !InPinned(ranges, value) ==> r == value
    ensures InPinned(ranges, value) ==> exists i :: 0 <= i < |ranges| && r == ranges[i].center
  {
    if !InPinned(ranges, value) then value
    else
      NearestFold(ranges, Seed(ranges), value);
      Nearest(ranges, Seed(ranges), value)
  }

  /** In the snapping case no range's center is strictly closer to the position than the result. */
  lemma SnapToNearest(ranges: seq<Range>, value: real)
    requires InPinned(ranges, value)
    ensures forall j :: 0 <= j < |ranges| ==> Dist(SnapTo(ranges, value), value) <= Dist(ranges[j].center, value)
  {
    SnapToFirstNearest(ranges, value);
  }

  /**
   * In the snapping case the result is the center of the first range, in
   * list order, among those nearest to the position: every earlier range is
   * strictly farther.
   */
  lemma SnapToFirstNearest(ranges: seq<Range>, value: real)
    requires InPinned(ranges, value)
    ensures exists i :: FirstNearest(ranges, value, i) && SnapTo(ranges, value) == ranges[i].center
  {
    NearestFold(ranges, Seed(ranges), value);
    assert Nearest(ranges, Seed(ranges), value) == Seed(ranges) ==> FirstNearest(ranges, value, 0);
  }

  /** Snapping a snapped position changes nothing. */
  lemma SnapToIdempotent(ranges: seq<Range>, value: real)
    ensures SnapTo(ranges, SnapTo(ranges, value)) == SnapTo(ranges, value)
  {
    var c := SnapTo(ranges, value);
    if InPinned(ranges, value) && InPinned(ranges, c) {
      var i :| 0 <= i < |ranges| && c == ranges[i].center;
      SnapToNearest(ranges, c);
      assert Dist(SnapTo(ranges, c), c) <= Dist(ranges[i].center, c);
    }
  }

  /**
   * Worked cases: one region [0.2, 0.4] with center 0.3, and two regions
   * [0.05, 0.15] and [0.75, 0.85] with centers 0.1 and 0.8.
   */
  lemma SnapToExamples()
    ensures SnapTo([Range(0.2, 0.4, 0.3)], 0.7) == 0.7
    ensures SnapTo([Range(0.2, 0.4, 0.3)], 0.21) == 0.3
    ensures SnapTo([Range(0.2, 0.4, 0.3)], 0.39) == 0.3
    ensures SnapTo([Range(0.2, 0.4, 0.3)], 0.181) == 0.3
    ensures SnapTo([Range(0.2, 0.4, 0.3)], 0.17) == 0.17
    ensures SnapTo([Range(0.05, 0.15, 0.1), Range(0.75, 0.85, 0.8)], 0.12) == 0.1
    ensures SnapTo([Range(0.05, 0.15, 0.1), Range(0.75, 0.85, 0.8)], 0.79) == 0.8
    ensures SnapTo([Range(0.1, 0.3, 0.2), Range(0.3, 0.5, 0.4)], 0.3) == 0.2
  {
  }
}

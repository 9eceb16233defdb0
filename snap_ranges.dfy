/**
 * Setup of the global snap: the pinned triggers are turned into ranges of
 * normalised scroll progress (pixel offsets divided by the page's maximum
 * scroll), or no snap is registered at all.
 */
module SnapRanges {
  import opened Wrappers
  import opened PinnedTriggers

  /** A pinned region in normalised scroll units and the point it snaps to. */
  datatype Range = Range(start: real, end: real, center: real)

  /** The trigger's end offset; a trigger without one is a single point. */
  function EndOf(t: Trigger): real {
    t.end.GetOr(t.start)
  }

  /** Normalises one pinned trigger by the page's maximum scroll `maxScroll`. */
  function Normalize(t: Trigger, maxScroll: real): Range
    requires maxScroll != 0.0
  {
    var e := EndOf(t);
    Range(t.start / maxScroll, e / maxScroll, (t.start + (e - t.start) * 0.5) / maxScroll)
  }

  /**
   * A normalised range scales back to the trigger's offsets, its center is the
   * midpoint of its bounds, a trigger without an end gives a single point, and
   * with a positive `maxScroll` and `end >= start` the center lies between the bounds.
   */
  lemma NormalizeMidpoint(t: Trigger, maxScroll: real)
    requires maxScroll != 0.0
    ensures var r := Normalize(t, maxScroll);
      && r.start * maxScroll == t.start && r.end * maxScroll == EndOf(t)
      && r.center == r.start + (r.end - r.start) / 2.0
      && (t.end.None? ==> r.start == r.center == r.end)
      && (0.0 < maxScroll && t.start <= EndOf(t) ==> r.start <= r.center <= r.end)
  {
    var r := Normalize(t, maxScroll);
    assert r.center * maxScroll == (r.start + (r.end - r.start) / 2.0) * maxScroll;
  }

  /** Normalises every trigger of the working list, in order. */
  function NormalizeAll(pinned: seq<Trigger>, maxScroll: real): (r: seq<Range>)
    requires maxScroll != 0.0
    ensures |r| == |pinned|
    ensures forall i :: 0 <= i < |r| ==> r[i] == Normalize(pinned[i], maxScroll)
  {
    if pinned == [] then []
    else [Normalize(pinned[0], maxScroll)] + NormalizeAll(pinned[1..], maxScroll)
  }

  /**
   * The setup step: `None` when the page is not laid out (`maxScroll` is 0)
   * or nothing pins, in which case no snap is registered; otherwise the
   * normalised ranges of the pinned triggers by ascending start.
   */
  function Setup(triggers: seq<Trigger>, maxScroll: real): (r: Option<seq<Range>>)
    ensures r.None? <==> maxScroll == 0.0 || forall i :: 0 <= i < |triggers| ==> !triggers[i].pin
  {
    var pinned := PinnedByStart(triggers);
    PinnedByStartEmpty(triggers);
    if maxScroll == 0.0 || |pinned| == 0 then None
    else Some(NormalizeAll(pinned, maxScroll))
  }

  /** Every registered range is the normalisation of some pinned trigger. */
  lemma SetupRangeFromPinned(triggers: seq<Trigger>, maxScroll: real)
    ensures match Setup(triggers, maxScroll)
      case None => true
      case Some(rs) => forall i :: 0 <= i < |rs| ==>
          exists j :: 0 <= j < |triggers| && triggers[j].pin && rs[i] == Normalize(triggers[j], maxScroll)
  {
    if maxScroll != 0.0 {
      var pinned := PinnedByStart(triggers);
      forall i | 0 <= i < |pinned|
        ensures exists j :: 0 <= j < |triggers| && triggers[j].pin && pinned[i] == triggers[j]
      {
        var t := pinned[i];
        assert multiset(pinned)[t] > 0;
        assert t in triggers;
      }
    }
  }

  /** Every pinned trigger gives a registered range, once `maxScroll` is not 0. */
  lemma SetupRangeForPinned(triggers: seq<Trigger>, maxScroll: real, j: int)
    requires maxScroll != 0.0
    requires 0 <= j < |triggers| && triggers[j].pin
    ensures Setup(triggers, maxScroll).Some?
    ensures exists i ::
              && 0 <= i < |Setup(triggers, maxScroll).value|
              && Setup(triggers, maxScroll).value[i] == Normalize(triggers[j], maxScroll)
  {
    var pinned := PinnedByStart(triggers);
    var t := triggers[j];
    assert multiset(triggers)[t] > 0;
    assert t in pinned;
    var i :| 0 <= i < |pinned| && pinned[i] == t;
    assert Setup(triggers, maxScroll).value[i] == Normalize(triggers[j], maxScroll);
  }

  /** A non-zero number divided by itself is 1. */
  lemma DivideSelf(m: real)
    requires m != 0.0
    ensures m / m == 1.0
  {
  }

  /** Dividing by a positive number keeps the order. */
  lemma DivideMonotone(a: real, b: real, m: real)
    requires 0.0 < m && a <= b
    ensures a / m <= b / m
  {
    assert a / m * m <= b / m * m;
  }

  /** With a positive `maxScroll` the ranges are ordered by non-decreasing start. */
  lemma SetupRangesOrdered(triggers: seq<Trigger>, maxScroll: real)
    requires 0.0 < maxScroll
    ensures match Setup(triggers, maxScroll)
      case None => true
      case Some(rs) => forall i, j :: 0 <= i < j < |rs| ==> rs[i].start <= rs[j].start
  {
    var pinned := PinnedByStart(triggers);
    var rs := NormalizeAll(pinned, maxScroll);
    forall i, j | 0 <= i < j < |rs| ensures rs[i].start <= rs[j].start {
      assert pinned[i].start <= pinned[j].start;
      DivideMonotone(pinned[i].start, pinned[j].start, maxScroll);
    }
  }

  /** A trigger lying inside the scrollable page with a non-negative extent. */
  predicate WithinPage(t: Trigger, maxScroll: real) {
    0.0 <= t.start <= EndOf(t) <= maxScroll
  }

  /** A trigger inside the page normalises into 0 <= start <= center <= end <= 1. */
  lemma NormalizeWithinPage(t: Trigger, maxScroll: real)
    requires 0.0 < maxScroll && WithinPage(t, maxScroll)
    ensures var r := Normalize(t, maxScroll);
      0.0 <= r.start <= r.center <= r.end <= 1.0
  {
    NormalizeMidpoint(t, maxScroll);
    DivideMonotone(0.0, t.start, maxScroll);
    DivideMonotone(EndOf(t), maxScroll, maxScroll);
    DivideSelf(maxScroll);
  }

  /**
   * When every pinned trigger lies inside the page and `end >= start`, every
   * range satisfies 0 <= start <= center <= end <= 1.
   */
  lemma SetupRangesBounded(triggers: seq<Trigger>, maxScroll: real)
    requires 0.0 < maxScroll
    requires forall i :: 0 <= i < |triggers| && triggers[i].pin ==> WithinPage(triggers[i], maxScroll)
    ensures match Setup(triggers, maxScroll)
      case None => true
      case Some(rs) => forall i :: 0 <= i < |rs| ==> 0.0 <= rs[i].start <= rs[i].center <= rs[i].end <= 1.0
  {
    SetupRangeFromPinned(triggers, maxScroll);
    if Setup(triggers, maxScroll).Some? {
      var rs := Setup(triggers, maxScroll).value;
      forall i | 0 <= i < |rs| ensures 0.0 <= rs[i].start <= rs[i].center <= rs[i].end <= 1.0 {
        var j :| 0 <= j < |triggers| && triggers[j].pin && rs[i] == Normalize(triggers[j], maxScroll);
        assert WithinPage(triggers[j], maxScroll);
        NormalizeWithinPage(triggers[j], maxScroll);
      }
    }
  }
}

/**
 * The scroll triggers the snap coordinator reads once at setup, and the
 * working list it builds from them: only the pinned triggers, ordered by
 * ascending `start` with a stable sort (equal starts keep their input order).
 */
module PinnedTriggers {
  import opened Wrappers

  /** A registered scroll trigger: its pixel extent and whether it pins. */
  datatype Trigger = Trigger(start: real, end: Option<real>, pin: bool)

  /** Keeps the triggers whose `pin` is set, in their input order. */
  function FilterPinned(triggers: seq<Trigger>): (r: seq<Trigger>)
    ensures forall i :: 0 <= i < |r| ==> r[i].pin
    ensures forall t :: multiset(r)[t] == if t.pin then multiset(triggers)[t] else 0
  {
    if triggers == [] then []
    else
      var rest := FilterPinned(triggers[1..]);
      assert triggers == [triggers[0]] + triggers[1..];
      if triggers[0].pin then [triggers[0]] + rest else rest
  }

  lemma ConcatAssoc<T>(a: seq<T>, b: seq<T>, c: seq<T>)
    ensures a + (b + c) == (a + b) + c
  {
  }

  /** The filter keeps input order: filtering a concatenation concatenates the filtered parts. */
  lemma {:induction false} FilterPinnedAppend(s: seq<Trigger>, t: seq<Trigger>)
    ensures FilterPinned(s + t) == FilterPinned(s) + FilterPinned(t)
  {
    if s == [] {
      assert s + t == t;
    } else {
      var u := s + t;
      assert u != [] && u[0] == s[0] && u[1..] == s[1..] + t;
      FilterPinnedAppend(s[1..], t);
      var rest := FilterPinned(s[1..]);
      if s[0].pin {
        assert FilterPinned(u) == [s[0]] + FilterPinned(u[1..]);
        ConcatAssoc([s[0]], rest, FilterPinned(t));
      }
    }
  }

  ghost predicate SortedByStart(s: seq<Trigger>) {
    forall i, j :: 0 <= i < j < |s| ==> s[i].start <= s[j].start
  }

  /**
   * Places `x` in front of the first element whose start is not smaller than
   * its own, so that `x` stays ahead of the elements of `t` with an equal start.
   */
  function Insert(x: Trigger, t: seq<Trigger>): (r: seq<Trigger>)
    ensures multiset(r) == multiset(t) + multiset{x}
  {
    if t == [] || x.start <= t[0].start then [x] + t
    else
      assert t == [t[0]] + t[1..];
      [t[0]] + Insert(x, t[1..])
  }

  /** Every start in `Insert(x, t)` is at least `b` when `x` and all of `t` are. */
  lemma {:induction false} InsertBounded(x: Trigger, t: seq<Trigger>, b: real)
    requires b <= x.start
    requires forall i :: 0 <= i < |t| ==> b <= t[i].start
    ensures forall i :: 0 <= i < |Insert(x, t)| ==> b <= Insert(x, t)[i].start
  {
    if t != [] && t[0].start < x.start {
      InsertBounded(x, t[1..], b);
    }
  }

  /** Inserting into a list sorted by start keeps it sorted. */
  lemma {:induction false} InsertSorted(x: Trigger, t: seq<Trigger>)
    requires SortedByStart(t)
    ensures SortedByStart(Insert(x, t))
  {
    if t != [] && t[0].start < x.start {
      InsertSorted(x, t[1..]);
      InsertBounded(x, t[1..], t[0].start);
    }
  }

  /** A stable sort by ascending `start` (the comparator `a.start - b.start`). */
  function SortByStart(s: seq<Trigger>): (r: seq<Trigger>)
    ensures SortedByStart(r)
    ensures multiset(r) == multiset(s)
  {
    if s == [] then []
    else
      assert s == [s[0]] + s[1..];
      var sorted := SortByStart(s[1..]);
      InsertSorted(s[0], sorted);
      Insert(s[0], sorted)
  }

  /** The working list of the snap coordinator: pinned triggers by ascending start. */
  function PinnedByStart(triggers: seq<Trigger>): (r: seq<Trigger>)
    ensures SortedByStart(r)
    ensures forall i :: 0 <= i < |r| ==> r[i].pin
    ensures forall t :: multiset(r)[t] == if t.pin then multiset(triggers)[t] else 0
  {
    var p := FilterPinned(triggers);
    var r := SortByStart(p);
    assert forall i :: 0 <= i < |r| ==> r[i] in multiset(p);
    r
  }

  /** The elements of `s` whose start is exactly `k`, in their order in `s`. */
  function WithStart(s: seq<Trigger>, k: real): seq<Trigger> {
    if s == [] then []
    else (if s[0].start == k then [s[0]] else []) + WithStart(s[1..], k)
  }

  /** Among the elements with start `k`, `x` lands in front of those of `t`. */
  lemma {:induction false} InsertWithStart(x: Trigger, t: seq<Trigger>, k: real)
    ensures WithStart(Insert(x, t), k) == (if x.start == k then [x] else []) + WithStart(t, k)
  {
    if t == [] || x.start <= t[0].start {
      assert ([x] + t)[1..] == t;
    } else {
      var rest := Insert(x, t[1..]);
      assert ([t[0]] + rest)[1..] == rest;
      InsertWithStart(x, t[1..], k);
    }
  }

  /** The sort is stable: triggers with equal starts keep their relative order. */
  lemma {:induction false} SortByStartStable(s: seq<Trigger>, k: real)
    ensures WithStart(SortByStart(s), k) == WithStart(s, k)
  {
    if s != [] {
      SortByStartStable(s[1..], k);
      InsertWithStart(s[0], SortByStart(s[1..]), k);
    }
  }

  /**
   * Among the pinned triggers, those with the same start appear in the
   * working list in the order in which they were registered.
   */
  lemma PinnedByStartStable(triggers: seq<Trigger>, k: real)
    ensures WithStart(PinnedByStart(triggers), k) == WithStart(FilterPinned(triggers), k)
  {
    SortByStartStable(FilterPinned(triggers), k);
  }

  /** The working list is empty exactly when no trigger pins. */
  lemma PinnedByStartEmpty(triggers: seq<Trigger>)
    ensures PinnedByStart(triggers) == [] <==> forall i :: 0 <= i < |triggers| ==> !triggers[i].pin
  {
    var r := PinnedByStart(triggers);
    if r == [] {
      forall i | 0 <= i < |triggers| ensures !triggers[i].pin {
        var t := triggers[i];
        assert multiset(triggers)[t] > 0;
        assert multiset(r)[t] == 0;
      }
    } else {
      var t := r[0];
      assert t.pin && multiset(r)[t] > 0;
      assert t in triggers;
    }
  }
}

# Global scroll-snap resolver

A Dafny model of the scroll-snap coordinator of a single-page portfolio site
(`src/App.tsx`). After the page's sections have registered their scroll
triggers, the coordinator:

1. keeps the triggers that pin, sorted by ascending `start` (a stable sort);
2. gives up, registering no snap, when the page's maximum scroll is 0 or
   nothing pins;
3. normalises each pinned trigger into a range `{start, end, center}` of
   scroll progress (offsets divided by the maximum scroll, a missing `end`
   standing for `start`, the center being the midpoint);
4. registers a snap function: a position that no range covers, each range
   widened by a tolerance of 0.02 on both sides, is left where it is; any
   other position moves to the nearest range center, the earlier range in
   list order winning exact ties.

Everything is modelled with exact `real` arithmetic as pure functions and
lemmas, following the code's own expression style:

- `wrappers.dfy` — `Option`, used for a trigger's optional `end` and for
  "no snap registered".
- `pinned_triggers.dfy` (`PinnedTriggers`) — the trigger record, the `pin`
  filter, a stable insertion sort by `start`, and the working list.
- `snap_ranges.dfy` (`SnapRanges`) — normalisation and the setup guard:
  `Setup` returns `None` where the code returns without registering.
- `snap_resolver.dfy` (`SnapResolver`) — the membership test (`some`), the
  nearest-center `reduce` as a left fold with a strict `<`, and `SnapTo`.

Two edge cases of the code, which the model keeps as they are:

- A trigger whose `end` is before its `start` is not clamped to a single
  point. Such a range covers only positions that are within the tolerance of
  both its bounds, and it covers none once `start - end` exceeds 0.04. Its
  center still takes part in the nearest-center search whenever some range
  covers the position. `SnapToIdempotent` holds for such ranges too.
- Only a maximum scroll of exactly 0 is rejected (a falsy number), so a
  negative one still registers ranges. `SetupRangesOrdered` and
  `SetupRangesBounded` assume a positive one.

## Model

| member | source | states |
|---|---|---|
| `PinnedTriggers.FilterPinned` | src/App.tsx:20-21 | every kept trigger pins, and each pinning trigger is kept as many times as it occurs in the input, each non-pinning one not at all |
| `PinnedTriggers.FilterPinnedAppend` | src/App.tsx:21 | the filter of `FilterPinned` keeps input order: filtering a concatenation gives the concatenation of the filtered parts; with the multiplicities stated by `FilterPinned`, this fixes the filter's output as the order-keeping `.filter` |
| `PinnedTriggers.Insert` | src/App.tsx:22 | inserting one trigger adds exactly that trigger to the multiset of elements |
| `PinnedTriggers.InsertSorted` | src/App.tsx:22 | inserting into a list sorted by `start` keeps it sorted |
| `PinnedTriggers.SortByStart` | src/App.tsx:22 | the result is sorted by non-decreasing `start` and is a permutation of the input |
| `PinnedTriggers.SortByStartStable` | src/App.tsx:22 | the sort is stable: for every start value `k`, the triggers with start `k` appear in the same order as in the input |
| `PinnedTriggers.PinnedByStart` | src/App.tsx:20-22 | the working list is sorted by `start` and contains exactly the pinning triggers, with their multiplicities |
| `PinnedTriggers.PinnedByStartStable` | src/App.tsx:20-22 | pinned triggers with equal starts keep their registration order in the working list |
| `PinnedTriggers.PinnedByStartEmpty` | src/App.tsx:20-26 | the working list is empty exactly when no trigger pins |
| `SnapRanges.NormalizeMidpoint` | src/App.tsx:29-33 | about `Normalize` (the map body) and `EndOf` (`st.end ?? st.start`): start and end scale back to the trigger's offsets (`end ?? start` for the end); the center equals `start + (end - start) / 2`; a missing end gives `start == center == end`; with a positive maximum scroll and `end >= start`, `start <= center <= end` |
| `SnapRanges.NormalizeAll` | src/App.tsx:29-33 | one range per working-list trigger, in the same order, each its normalisation |
| `SnapRanges.Setup` | src/App.tsx:20-33 | no snap is registered exactly when the maximum scroll is 0 or no trigger pins |
| `SnapRanges.SetupRangeFromPinned` | src/App.tsx:20-33 | every registered range is the normalisation of some pinning trigger |
| `SnapRanges.SetupRangeForPinned` | src/App.tsx:20-33 | with a non-zero maximum scroll, a pinning trigger means a snap is registered and that trigger gives one of its ranges |
| `SnapRanges.SetupRangesOrdered` | src/App.tsx:22-33 | with a positive maximum scroll, the registered ranges have non-decreasing starts |
| `SnapRanges.NormalizeWithinPage` | src/App.tsx:29-33 | a trigger with `0 <= start <= end <= maxScroll` gives `0 <= start <= center <= end <= 1` |
| `SnapRanges.SetupRangesBounded` | src/App.tsx:24-33 | when every pinning trigger lies within the page, every registered range satisfies `0 <= start <= center <= end <= 1` |
| `SnapResolver.InPinned` | src/App.tsx:40-42 | with `Covers` as the `some` predicate at line 41: true exactly when some range covers the position, with both widened bounds inclusive |
| `SnapResolver.NearestFold` | src/App.tsx:47-53 | about `Nearest` (the `reduce`) with reducer `Closer` (lines 48-51): the fold either keeps its seed, which is then no farther than any center, or ends on the center of the first nearest range, which is then strictly closer than the seed |
| `SnapResolver.SnapTo` | src/App.tsx:38-56 | the fold is seeded by `Seed` (`pinnedRanges[0]?.center ?? 0`, line 52); a position that no widened range covers is returned unchanged; otherwise the result is the center of one of the ranges |
| `SnapResolver.SnapToNearest` | src/App.tsx:40-53 | in the snapping case no range's center is strictly closer to the position than the result |
| `SnapResolver.SnapToFirstNearest` | src/App.tsx:47-53 | in the snapping case the result is the center of a range at minimal distance such that every earlier range is strictly farther: exact ties go to the earliest range in list order |
| `SnapResolver.SnapToIdempotent` | src/App.tsx:38-56 | snapping an already snapped position returns it unchanged |
| `SnapResolver.SnapToExamples` | src/App.tsx:38-56 | worked cases: a position outside a range passes through; positions inside it or just inside its widened bound (0.181) snap to its center, while 0.17 does not; the nearer of two regions wins; on an exact tie the earlier range wins |

## Left out

- The scroll-library calls: reading the registered triggers, measuring the maximum scroll, registering the snap, the refresh, and disposing every trigger on teardown (src/App.tsx:20, 24, 36, 64, 69). The trigger list and the maximum scroll are plain inputs. Registering a snap is modelled as `Setup` returning `Some(ranges)`, and the registered callback as `SnapTo(ranges, ·)`.
- The 100 ms deferral of setup and its cancellation (src/App.tsx:19, 65, 68): this is timing only.
- The snap `duration`, `delay` and `ease` (src/App.tsx:57-59): these values are passed to the library and nothing is computed from them.
- Floating-point rounding in the divisions and in the 0.02 comparisons, as well as NaN and undefined values. Real arithmetic is exact, and "falsy" maximum scroll is modelled as 0.
- The `pin` option is modelled as a boolean. Its truthiness for selector or element values is not modelled.
- The section components, the contact form and the navigation bar hold only animation configuration, markup, and a scroll threshold. They are not part of this model.

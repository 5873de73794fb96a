# Offset list

A model, in Dafny, of the offset list of a virtualised list component: a
run-length index over item indices. It answers "at which offset (in pixels)
does item `i` start", "which items are visible between two offsets" and
"which items have indices `a..=b`". The list keeps three ordered maps side by
side:

- the **size index**: the first index of each run, mapped to the size of every item of that run. A run of size 0 is a *placeholder*.
- the **offset index**: the first index of each run, mapped to the summed size of all items before it.
- the **pixel index**: an offset, mapped back to the run written at that offset.

Every ordered map is a `map<nat, nat>` (`TreeUtils.Tree`). Floor and ceiling
lookups are `Lte` and `Ceiling`. Iterating in key order is `Ascending` on the
key set. The meaning of a size index is given by `SizeAt` and `ItemSize` (the
size of each item) and `Span` (the summed size of a range of items). An offset
index is right for a size index when `Synced` holds: the two have the same
keys, item 0 is covered, and each run's offset is the `Span` of the items
before it.

The model has three layers:

- `tree_utils.dfy`: the floor lookup and the splitting of a range of keys into runs (`ranges_within`).
- `offset_model.dfy`: what each operation computes, as functions on maps. These are:
  - the propagation of offsets (`PropagatedOffsets`, `PropagatedPixels`);
  - the general insert (`InsertedSizes`, `Removed`);
  - the reserved spots (`SpotSizes`).

  The properties of these functions are proved as lemmas.
- `offset_list.dfy`: the `OffsetList` class, whose methods change its three fields as the source does. Each method is proved against the functions of `offset_model.dfy`. The loops of the source are methods with loop invariants: `Propagate`, `FillZeros`, `RunsFrom`, the merge loop of `InsertRun`, `IndexRange`, `WalkRuns` and `EmitRun`.

`scenarios.dfy` replays the unit scenarios of the source on the model. Each
method builds a list through the class's own methods and asserts the sizes,
offsets and answers the scenario expects. The two worked examples of
`ranges_within` are the methods `TreeUtils.SingleRunExample` and
`TreeUtils.SeveralRunsExample`.

## Model

| member | source | states |
|---|---|---|
| TreeUtils.Lte | src/offset_list/tree_utils.rs:18-22 | the floor lookup returns a key of the tree at or below `start` together with its value |
| TreeUtils.LteIsGreatest | src/offset_list/tree_utils.rs:18-22 | no key of the tree lies between the key `Lte` finds and `start`: it is the greatest key at or below `start` |
| TreeUtils.Ceiling | src/offset_list.rs:218-222 | the first entry at or above `k` is a key of the tree at or above `k`, and no key at or above `k` is smaller |
| TreeUtils.Min | src/offset_list.rs:38 | the least key of a non-empty key set is in the set and below every other key |
| TreeUtils.AscendingInOrder | src/offset_list.rs:38-49 | iterating a key range lists every key of the set exactly once, in strictly increasing order |
| TreeUtils.RunsFrom | src/offset_list/tree_utils.rs:29-39 | the loop turns each visited key into a run that ends right before the next key (the last one at `LAST_RANGE_END`) and carries that key's value |
| TreeUtils.RunsAtKeys | src/offset_list/tree_utils.rs:24-42 | the runs start at the floor of `start`, one per key up to `end`, in increasing order, contiguous, with the tree's sizes, and the last ends at `LAST_RANGE_END` |
| TreeUtils.RunsCover | src/offset_list/tree_utils.rs:24-42 | every run after the first starts past `start` and at or before `end`; every run but the last is non-empty and ends before `end`; no key falls strictly inside a run |
| TreeUtils.RangesWithin | src/offset_list/tree_utils.rs:24-42 | `ranges_within(tree, start, end)` returns exactly the runs overlapping `start..=end` as `RunsAtKeys` describes them |
| OffsetModel.SizeAtIsLte | src/offset_list.rs:274-279 | the size of item `i` is the value at the floor key of `i`, or no size when there is no key at or below `i` |
| OffsetModel.SameRun | src/offset_list.rs:274-279 | two items with no run start between them have the same size |
| OffsetModel.SpanSplit | src/offset_list.rs:50 | summed sizes add up over adjacent index ranges |
| OffsetModel.SpanRun | src/offset_list.rs:50 | within one run, the summed size grows by the run's size per item: the product `(index - prev_index) * prev_size` |
| OffsetModel.RunOffset | src/offset_list.rs:160-164 | in a synced list, the run offset plus the run's size times the distance into the run is the summed size before the item |
| OffsetModel.OffsetIsPrefixSum | src/offset_list.rs:160-170 | in a synced list, both formulas of `offset_of` and `total` equal the summed size of the items before `index` and up to `index` |
| OffsetModel.RunSizes | src/offset_list.rs:190-204 | every index inside a run returned by `ranges_within` has that run's size |
| OffsetModel.FirstInsertOffsets | src/offset_list.rs:83-87 | the first insert's propagation writes offset 0 for run 0 when `start <= 1` and writes nothing when `start >= 2` |
| OffsetModel.PropagationRecurrence | src/offset_list.rs:32-57 | each recomputed key gets the previous recomputed key's offset plus the gap times the previous size, and the anchor keeps its own offset |
| OffsetModel.PropagationKeepsBelow | src/offset_list.rs:38-51 | entries of the offset index below `Prev(start)` and keys outside the size index are left as they were |
| OffsetModel.PropagationSyncs | src/offset_list.rs:32-57 | when the offsets below `Prev(start)` and the anchor's offset are right, the propagation makes the whole offset index synced |
| OffsetModel.InsertedKey | src/offset_list.rs:112-155 | after the general insert, a key is present exactly when it is the new run's start, the restored tail at `end + 1` or an old key not removed, with the matching size |
| OffsetModel.InsertSetsSizes | src/offset_list.rs:112-157 | after the general insert, items `start..=end` have the new size and every other item keeps its size |
| OffsetModel.InsertKeepsCoalesced | src/offset_list.rs:133-155 | the general insert keeps neighbouring runs of different sizes: it never leaves two adjacent runs with the same size |
| OffsetModel.CoalescedUnique | src/offset_list.rs:133-155 | two coalesced size indices that give every item the same size are equal |
| OffsetModel.InsertedAnchor | src/offset_list.rs:112-119 | the general insert keeps the run containing `start - 1` where it was, so a second insert looks back to the same run |
| OffsetModel.InsertIdempotent | src/offset_list.rs:112-157 | on any size index the general path accepts, coalesced or not, repeating the same insert changes nothing |
| OffsetModel.InsertResyncs | src/offset_list.rs:112-157 | the general insert on a synced list, with the removed runs dropped from the offsets and a propagation from `start`, leaves the list synced |
| OffsetModel.InsertKeepsKeys | src/offset_list.rs:137-157 | whenever the offset index has the keys of the size index before the general insert, it still does afterwards, whether or not its offsets were right |
| OffsetModel.MergeRuns | src/offset_list.rs:112-151 | the runs the merge loop drops are exactly `Removed`; the first run carries the anchor's size; only the last run can split its tail at `end + 1`, and it does so exactly when the tail must be restored |
| OffsetModel.MergeEnds | src/offset_list.rs:123-155 | after the merge loop, `should_insert` says whether `start` needs a key of its own; the size, offset and pixel indices are the closed forms with the removed runs and their pixel entries dropped |
| OffsetModel.SpotsLayout | src/offset_list.rs:74-77 | after the spot loop, a key exists exactly at a spot or right after one; a spot has the given size and the index after a spot is a placeholder |
| OffsetModel.SpotsSync | src/offset_list.rs:69-80 | reserving spots from item 0 and propagating from 0 leaves a synced list |
| OffsetModel.PixelsKeep | src/offset_list.rs:49-56 | the propagation leaves pixel entries at offsets it does not write untouched |
| OffsetModel.LastWriteWins | src/offset_list.rs:49-56 | every offset the propagation writes ends up in the pixel index, naming a key written at or after that point |
| OffsetModel.PixelsInvert | src/offset_list.rs:49-56 | when the written offsets strictly increase, each written offset maps back to its own key |
| OffsetModel.RepointSound | src/offset_list.rs:51-52 | corrected update of one run: dropping the run's old pixel entry before writing the new one keeps every pixel entry pointing at a run with that offset |
| OffsetModel.RepointAllSound | src/offset_list.rs:49-56 | corrected update of a sequence of runs: it keeps the pixel index sound, and each written run ends at its target offset while the other runs keep theirs |
| OffsetModel.RepointedPropagationSound | src/offset_list.rs:32-57 | with the corrected pixel update, `update_offset_tree` keeps the pixel index sound against the propagated offsets |
| OffsetLists.OffsetList.constructor | src/offset_list.rs:24-30 | a new list has three empty indices |
| OffsetLists.OffsetList.UpdateOffsetTree | src/offset_list.rs:32-57 | the size index is unchanged; the offset and pixel indices become the propagation from `start` |
| OffsetLists.OffsetList.RemoveIndex | src/offset_list.rs:59-67 | run `index` leaves the size and offset indices, and the pixel entry at its old offset leaves the pixel index |
| OffsetLists.OffsetList.InsertSpots | src/offset_list.rs:69-80 | on an empty list, the size index becomes the spot layout, and the offsets and pixels become its propagation from item 0 |
| OffsetLists.OffsetList.Insert | src/offset_list.rs:82-158 | an empty list becomes one run from item 0; an insert at a placeholder takes the placeholder path; otherwise the general path; the new indices are stated for all three cases |
| OffsetLists.OffsetList.InsertAtPlaceholder | src/offset_list.rs:89-110 | if the run before the placeholder already has the new size, the list collapses to one run from 0 and the pixels are kept; otherwise every placeholder gets the new size and offsets are propagated from `start` |
| OffsetLists.OffsetList.InsertRun | src/offset_list.rs:112-157 | the general insert leaves the size index as `InsertedSizes`, drops the removed runs from the offsets and their offsets from the pixels, then propagates from `start` |
| OffsetLists.OffsetList.RangeSizeAndOffset | src/offset_list.rs:274-286 | returns the run containing `index`: its size, its offset and its first index, which is the greatest run start at or below `index` |
| OffsetLists.OffsetList.OffsetOf | src/offset_list.rs:160-164 | in a synced list, `offset_of(index)` is the summed size of the items before `index` |
| OffsetLists.OffsetList.Total | src/offset_list.rs:166-170 | `total(index)` is `offset_of(index)` plus the item's size; in a synced list it is the summed size up to and including `index` |
| OffsetLists.OffsetList.ItemAt | src/offset_list.rs:172-179 | `item_at(index)` reports `index`, its size and `offset_of(index)`, which in a synced list is the summed size before it |
| OffsetLists.OffsetList.IndexRange | src/offset_list.rs:181-207 | an empty list answers `{0, 0, 0}`; otherwise there is one item per index of `startIndex..=endIndex`, in order, each with its own size and offset 0 |
| OffsetLists.OffsetList.Range | src/offset_list.rs:209-272 | the answer is exactly the walk `RangeItems` over the runs the pixel window selects. Indices increase and stay at or above `minIndex`. Sized items stay at or below `maxIndex` and `endOffset`. A size-0 item can only be last. In a synced list with no stale pixel entry, each sized item has its true size and offset |
| OffsetLists.Propagate | src/offset_list.rs:38-56 | the loop of `update_offset_tree` computes exactly `PropagatedOffsets` and `PropagatedPixels` |
| OffsetLists.FillZeros | src/offset_list.rs:102-106 | every placeholder gets the new size; other runs and the keys are unchanged |
| OffsetLists.WalkRuns | src/offset_list.rs:226-269 | the loop over the runs emits exactly `WalkFrom` from the first run |
| OffsetLists.WalkRun | src/offset_list.rs:227-268 | one run either stops the walk with one size-0 item (a placeholder) or emits `RunItems` from its first visible index |
| OffsetLists.EmitRun | src/offset_list.rs:254-268 | the inner loop emits exactly `RunItems`: consecutive indices up to `min(range.end, maxIndex)`, stopping once the offset passes `endOffset` |
| OffsetLists.Skip | src/offset_list.rs:227-242 | the first visible index is at or above both the run start and `minIndex`, and the offset matches it. It is `minIndex`, the run start, or the item containing `startOffset` |
| OffsetLists.RunItemsAt | src/offset_list.rs:256-267 | item `j` of a run's items has index `index + j`, within `last`, and offset `offset + j * size`, within `endOffset` |
| OffsetLists.RunItemsEnd | src/offset_list.rs:256-259 | the run's items stop only at `last` or at the first offset past `endOffset` |
| OffsetLists.RunItemsInRun | src/offset_list.rs:254-268 | the items of one run lie in the run, inside the index window and within `endOffset`, with increasing indices |
| OffsetLists.WalkFromSound | src/offset_list.rs:226-269 | the walk's items have increasing indices at or above `minIndex`. Sized items come from one of the walked runs, within `maxIndex` and `endOffset`. A size-0 item only ends the walk |
| OffsetLists.RangeReachesAll | src/offset_list.rs:216-232 | when the pixel window is defined, every run `range` visits has a size, a nonzero one when `startOffset` lies past it, so no lookup or division fails |
| OffsetLists.EmittedInRun | src/offset_list.rs:226-268 | in a synced, stale-free list, an item emitted from a walked run has the size of its index and the summed size before it as offset |
| OffsetLists.RangeSound | src/offset_list.rs:209-272 | every sized item of the walk, in a synced, stale-free list, carries its true size and offset |
| OffsetLists.FillResyncs | src/offset_list.rs:101-108 | after placeholders of a synced list are filled, propagating from item 0 makes the list synced again |
| OffsetListScenarios.SecondInsertStep | src/offset_list.rs:305-314 | inserting size 20 at items 3 to 7 into one run of 10 gives runs at 0, 3, 8 with offsets 0, 30, 130 |
| OffsetListScenarios.InBetweenFirstStep | src/offset_list.rs:317-326 | first insert of the in-between scenario, as the sizes and offsets it leaves |
| OffsetListScenarios.InBetweenSecondStep | src/offset_list.rs:317-326 | inserting size 3 at items 3 to 7 between runs gives keys 0, 3, 8, 9, 11 and offsets 0, 3, 18, 19, 23 |
| OffsetListScenarios.OverlapFirstStep | src/offset_list.rs:330-339 | first insert of the overlap scenario |
| OffsetListScenarios.OverlapSecondStep | src/offset_list.rs:330-339 | an insert covering a whole run removes it: keys 0, 2, 10 and offsets 0, 2, 26 |
| OffsetListScenarios.SameFirstStep | src/offset_list.rs:354-363 | inserting the size a run already has adds no key |
| OffsetListScenarios.SameSecondStep | src/offset_list.rs:354-363 | a second insert of the same size far away still leaves the single key 0 |
| OffsetListScenarios.ReInsertStep | src/offset_list.rs:367-375 | re-inserting at item 0 with a new size gives keys 0, 1 with sizes 10, 5 |
| OffsetListScenarios.NewInsertStep | src/offset_list.rs:379-387 | a run inside a run splits it: keys 0, 3, 6 with sizes 10, 20, 10 |
| OffsetListScenarios.JoinStartStep | src/offset_list.rs:391-400 | an insert of the same size overlapping a run's end joins them: keys 0, 3, 8 |
| OffsetListScenarios.JoinFirstStep | src/offset_list.rs:404-413 | the run of 20 at items 5 to 7 in a run of 10 |
| OffsetListScenarios.JoinEndStep | src/offset_list.rs:404-413 | an insert of the same size overlapping a run's start joins them: keys 0, 3, 8 |
| OffsetListScenarios.OverrideStep | src/offset_list.rs:417-426 | an insert of another size over a run replaces it: keys 0, 4, 8 with sizes 10, 30, 10 |
| OffsetListScenarios.JoinOverrideFirstStep | src/offset_list.rs:430-441 | first insert of the join-override scenario |
| OffsetListScenarios.JoinOverrideSecondStep | src/offset_list.rs:430-441 | second insert of the join-override scenario |
| OffsetListScenarios.JoinOverrideThirdStep | src/offset_list.rs:430-441 | an insert of the first run's size over all other runs leaves the single run 0 of size 5 |
| OffsetListScenarios.SpotsSizes | src/offset_list.rs:445-453 | spots 0, 10, 20 of size 5 give keys 0, 1, 10, 11, 20, 21 with sizes 5, 0, 5, 0, 5, 0 |
| OffsetListScenarios.SpotsOffsets | src/offset_list.rs:445-458 | their offsets are 0, 5, 5, 10, 10, 15 |
| OffsetListScenarios.SpotsFilled | src/offset_list.rs:462-471 | filling the placeholders with 10 gives sizes 5, 10, 5, 10, 5, 10 on the same keys |
| OffsetListScenarios.FilledFromStart | src/offset_list.rs:462-471 | after that fill from item 1, the offsets are 0, 5, 95, 100, 190, 195 |
| OffsetListScenarios.StaleAfterFill | src/offset_list.rs:101-108 | the same fill from item 11 leaves the offset index out of sync |
| OffsetListScenarios.QueryFacts | src/offset_list.rs:475-501 | runs of size 1, 2, 1 from items 0, 2, 5 are in sync; the sums before items 7, 8 and 10 are 10, 11 and 13 |
| OffsetListScenarios.RangeFirstPixels | src/offset_list.rs:523-526 | the first insert of the `range` scenario writes pixel 0 for run 0 |
| OffsetListScenarios.RangeSecondPixels | src/offset_list.rs:523-526 | the second insert writes pixels 20 and 80 for runs 2 and 5 |
| OffsetListScenarios.RangeWindow | src/offset_list.rs:523-528 | the window from 13 to 79 is defined on that list |
| OffsetListScenarios.RangeRuns | src/offset_list.rs:523-528 | the window selects the runs 0, 2..=4 and 5.. of the offset index |
| OffsetListScenarios.RangeWalk | src/offset_list.rs:523-550 | the walk over them gives items 1 to 4 with sizes 10, 20, 20, 20 and offsets 10, 20, 40, 60 |
| OffsetListScenarios.RangeListSound | src/offset_list.rs:523-550 | the list of the `range` scenario is synced and its pixel index has no stale entry, so `Range`'s soundness clause applies to it |
| OffsetListScenarios.StaleSplitStep | src/offset_list.rs:112-157 | inserting size 20 at item 5 into one run of 10 gives runs at 0, 5, 6 with offsets 0, 50, 70 |
| OffsetListScenarios.StaleSplitPixels | src/offset_list.rs:49-56 | that insert writes pixels 50 and 70 for runs 5 and 6 |
| OffsetListScenarios.StaleShrinkStep | src/offset_list.rs:112-157 | then inserting size 1 at items 0 to 4 gives runs at 0, 5, 6 with offsets 0, 5, 25, and the pixel index that results |
| OffsetListScenarios.StaleShrinkPixels | src/offset_list.rs:49-56 | that insert writes pixels 0, 5 and 25 and leaves the old entries 50 and 70 in place |
| OffsetListScenarios.StaleWindow | src/offset_list.rs:216-222 | the window from 0 to 45 is defined on that list, ending at the stale entry 50 |
| OffsetListScenarios.StaleRuns | src/offset_list.rs:216-226 | the window selects the runs 0..=4 and 5.. of the offset index; the last is open-ended |
| OffsetListScenarios.StaleRunItems | src/offset_list.rs:234-267 | the two runs give items 0 to 4 of size 1 and items 5 to 7 of size 20 at offsets 5, 25, 45 |
| OffsetListScenarios.StaleWalk | src/offset_list.rs:226-269 | the walk over both runs gives those eight items |
| OffsetListScenarios.StaleListFacts | src/offset_list.rs:49-56 | the list is synced, items 6 and 7 have size 10, item 7 starts at 35, and the pixel entry 50 is stale |
| OffsetListScenarios.StalePixelRange | src/offset_list.rs:209-272 | as written, `range(0, 45, 0, 100)` on that synced list reports items 6 and 7 with size 20 and item 7 at offset 45 |

## Left out

- Integer width: every index, size and offset is an unbounded `nat`. The source's `u32` arithmetic in `(index - prev_index) * prev_size + prev_offset`, `spot + 1` and `end + 1` can wrap (release build) or panic (debug build); the model has no overflow. Only `end + 1` is kept inside range, by the precondition `end < LAST_RANGE_END` on the general insert.
- Panics become preconditions:
  - `lte` finding no key;
  - the `expect`s on the size and offset indices;
  - `insert_spots` on a non-empty list, or with no spot at 0, where `update_offset_tree(0)` would find no floor;
  - `start - 1` at a placeholder at index 0;
  - the division by a zero size in `range`;
  - the `ranges_within` call whose floor lies past its end;
  - `range`'s `expect("we should find such end index")`, when no pixel entry lies at or above `endOffset` (one run of size 10 and `range(0, 100, 0, 9)`, for example). It becomes the clause `KeysFrom(pixel, endOffset) != {}` of `PixelWindowDefined`.
- `wasm_bindgen` export, `Debug`, and the `PartialEq` of `Range` in the tests are not modelled: they are bindings, not behaviour.
- The complexity of B-tree operations is not modelled. An ordered map is a `map` plus sorted key sequences.
- OffsetLists.OffsetList.Range: the contract gives the answer exactly, as `RangeItems`, and proves soundness. It does not prove completeness (that every visible item is listed) outside the concrete scenario `RangeScenario`.
- OffsetLists.OffsetList.Insert: the general path requires `start <= end`, and so does `InsertRun`. The source does not check it. `insert(5, 4, 20)` on one run `{0: 10}` restores the tail at 5 and then writes the new run at 5, giving `{0: 10, 5: 20}`: every item from 5 on gets size 20, though the range `5..=4` is empty. When the run containing `start - 1` begins after `end + 1`, the range handed to the B-tree is reversed and the source panics. `InsertedSizes` and its lemmas describe `start <= end` only.
- The pixel index is not proved free of stale entries after arbitrary operations. The source never removes the entry at a run's old offset when it recomputes that offset (see Findings). The collapse of the placeholder path keeps the whole pixel index while resetting the offsets. `Range` is therefore proved sound only under `PixelSound` (no stale entry).
- `FillZeros` visits the keys in increasing order, as `iter_mut` does. The result does not depend on the order, and the contract states only the result.

## Findings

| source | as written | input that shows it | evidently intended | confidence | as-written member | corrected member |
|---|---|---|---|---|---|---|
| src/offset_list.rs:49-56 | the propagation writes each recomputed run at its new offset in the pixel index but never removes the entry at the run's old offset. A later `range` can end its window at that stale entry | `insert(0, 0, 10)`, `insert(5, 5, 20)`, `insert(0, 4, 1)`, then `range(0, 45, 0, 100)`. The stale entry 50 still names run 5, now at offset 5. Items 6 and 7 come back with size 20, though both have size 10, and item 7 at offset 45 instead of 35 | moving a run also moves its pixel entry, so every entry names a run at that offset and `range` reports true sizes and offsets | not executed | OffsetListScenarios.StalePixelRange | OffsetModel.RepointedPropagationSound |
| src/offset_list.rs:101-108 | the placeholder path fills every size-0 run, wherever it is, then propagates offsets only from the run containing `start - 1`. Runs between item 0 and that run whose sizes just changed keep their old offsets | `insert_spots([0, 10, 20], 5)` then `insert(11, 11, 10)`. Item 10 keeps offset 5, but the items before it now sum to 95, so `offset_of(10)` answers 5 | after the fill, offsets are recomputed from item 0, which syncs the list | not executed | OffsetListScenarios.StaleAfterFill | OffsetLists.FillResyncs |

`OffsetListScenarios.StaleOffsetsAfterFill` replays that input through the
class and shows `OffsetOf(10) == 5` against a summed size of 95. The
source's own test `test_insert_size_after_spot` inserts at the first
placeholder (item 1). There the propagation starts at item 0, so it
recomputes every run and the fault does not show. `OffsetList.Insert`
keeps the behaviour as written, so the model stays faithful to the code.
`FillResyncs` proves the corrected propagation.

`OffsetListScenarios.StalePixelScenario` replays the second input through
`Insert` and `Range`. After the third insert the list is synced, but run 5
has moved from offset 50 to 5 and the pixel entry 50 still names it.
`range` takes that entry as the end of its window, so run 5 becomes the
last, open-ended run and is walked past item 6, where the next run starts.
`Repoint` is the corrected update of one run: it drops the run's old pixel
entry when that entry still names the run. `RepointedPropagationSound`
proves that propagation with it keeps `PixelSound`. `OffsetLists.RangeSound`
then gives every sized item of `range` its true size and offset.

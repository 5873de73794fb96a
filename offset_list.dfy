/**
 The offset list: a run-length index over item indices that keeps, side by
 side, the size of every run, the offset (summed size before it) of every
 run, and a reverse index from offsets back to runs.
 */
module OffsetLists {
  import opened TreeUtils
  import opened OffsetModel

  /** One item as the queries report it. */
  datatype Item = Item(size: nat, offset: nat, index: nat)

  class OffsetList {
    /** First index of each run |-> size of every item of the run. */
    var sizeTree: Tree
    /** First index of each run |-> offset of the run. */
    var offsetTree: Tree
    /** Offset |-> first index of the run written there. */
    var pixelTree: Tree

    constructor ()
      ensures sizeTree == map[] && offsetTree == map[] && pixelTree == map[]
    {
      sizeTree := map[];
      offsetTree := map[];
      pixelTree := map[];
    }

    /**
     `update_offset_tree(start)`: recompute the offset of every run from the
     anchor (the run containing `Prev(start)`) on, and record each recomputed
     offset in the pixel index.
     */
    method UpdateOffsetTree(start: nat)
      requires HasFloor(sizeTree, Prev(start))
      modifies this
      ensures sizeTree == old(sizeTree)
      ensures offsetTree == PropagatedOffsets(sizeTree, old(offsetTree), start)
      ensures pixelTree == PropagatedPixels(sizeTree, old(offsetTree), old(pixelTree), start)
    {
      offsetTree, pixelTree := Propagate(sizeTree, offsetTree, pixelTree, start);
    }

    /**
     `remove_index(index)`: drop run `index` from the size and offset
     indices, and drop the pixel entry at its offset.
     */
    method RemoveIndex(index: nat)
      requires index in offsetTree
      modifies this
      ensures sizeTree == old(sizeTree) - {index}
      ensures offsetTree == old(offsetTree) - {index}
      ensures pixelTree == old(pixelTree) - {old(offsetTree)[index]}
    {
      sizeTree := sizeTree - {index};
      var pixel := offsetTree[index];
      offsetTree := offsetTree - {index};
      pixelTree := pixelTree - {pixel};
    }

    /**
     `insert_spots(spots, size)`: into an empty size index, write a run of
     `size` at every spot followed by a placeholder at the next index, then
     propagate the offsets from item 0.
     */
    method InsertSpots(spots: seq<nat>, size: nat)
      requires sizeTree == map[]
      requires 0 in spots
      modifies this
      ensures sizeTree == SpotSizes(spots, size)
      ensures HasFloor(sizeTree, 0)
      ensures offsetTree == PropagatedOffsets(sizeTree, old(offsetTree), 0)
      ensures pixelTree == PropagatedPixels(sizeTree, old(offsetTree), old(pixelTree), 0)
    {
      for i := 0 to |spots|
        invariant sizeTree == SpotSizes(spots[..i], size)
        invariant offsetTree == old(offsetTree) && pixelTree == old(pixelTree)
      {
        assert spots[..i + 1][..i] == spots[..i];
        sizeTree := sizeTree[spots[i] := size];
        sizeTree := sizeTree[spots[i] + 1 := 0];
      }
      assert spots[..|spots|] == spots;
      SpotsLayout(spots, size, 0);
      assert 0 in sizeTree && 0 <= Prev(0);
      UpdateOffsetTree(0);
    }

    /**
     `insert(start, end, size)`: give the items `start..=end` the size `size`.
     An empty list becomes one run of `size` from item 0; an insert at a
     placeholder (a run of size 0) takes the placeholder path; otherwise the
     runs overlapping `Prev(start)..=end + 1` are merged and split.
     */
    method Insert(start: nat, end: nat, size: nat)
      requires sizeTree != map[] && start in sizeTree && sizeTree[start] == 0 ==> start >= 1 && start - 1 in sizeTree
      requires sizeTree != map[] && !(start in sizeTree && sizeTree[start] == 0) ==>
                 && start <= end < LAST_RANGE_END
                 && HasFloor(sizeTree, Prev(start))
                 && Removed(sizeTree, start, end, size) <= offsetTree.Keys
      modifies this
      ensures old(sizeTree) == map[] ==>
                && sizeTree == map[0 := size]
                && HasFloor(sizeTree, Prev(start))
                && offsetTree == PropagatedOffsets(sizeTree, old(offsetTree), start)
                && pixelTree == PropagatedPixels(sizeTree, old(offsetTree), old(pixelTree), start)
      ensures old(sizeTree) != map[] && start in old(sizeTree) && old(sizeTree)[start] == 0 ==>
                if old(sizeTree)[start - 1] == size then
                  sizeTree == map[0 := size] && offsetTree == map[0 := 0] && pixelTree == old(pixelTree)
                else
                  && FillsPlaceholders(old(sizeTree), sizeTree, size)
                  && HasFloor(sizeTree, Prev(start))
                  && offsetTree == PropagatedOffsets(sizeTree, old(offsetTree), start)
                  && pixelTree == PropagatedPixels(sizeTree, old(offsetTree), old(pixelTree), start)
      ensures old(sizeTree) != map[] && !(start in old(sizeTree) && old(sizeTree)[start] == 0) ==>
                var removed := Removed(old(sizeTree), start, end, size);
                && sizeTree == InsertedSizes(old(sizeTree), start, end, size)
                && HasFloor(sizeTree, Prev(start))
                && offsetTree == PropagatedOffsets(sizeTree, old(offsetTree) - removed, start)
                && pixelTree == PropagatedPixels(sizeTree, old(offsetTree) - removed, old(pixelTree) - OffsetsOf(old(offsetTree), removed), start)
    {
      if sizeTree == map[] {
        sizeTree := map[0 := size];
        assert 0 in sizeTree && 0 <= Prev(start);
        UpdateOffsetTree(start);
        return;
      }
      if start in sizeTree && sizeTree[start] == 0 {
        InsertAtPlaceholder(start, size);
        return;
      }
      InsertRun(start, end, size);
    }

    /**
     The placeholder path of `insert`: when the run before `start` already has
     the new size the whole list collapses to one run of it (the pixel index
     is left as it was); otherwise every placeholder takes the new size and
     the offsets are propagated from `start`.
     */
    method InsertAtPlaceholder(start: nat, size: nat)
      requires start in sizeTree && sizeTree[start] == 0
      requires start >= 1 && start - 1 in sizeTree
      modifies this
      ensures old(sizeTree)[start - 1] == size ==>
                sizeTree == map[0 := size] && offsetTree == map[0 := 0] && pixelTree == old(pixelTree)
      ensures old(sizeTree)[start - 1] != size ==>
                && FillsPlaceholders(old(sizeTree), sizeTree, size)
                && HasFloor(sizeTree, Prev(start))
                && offsetTree == PropagatedOffsets(sizeTree, old(offsetTree), start)
                && pixelTree == PropagatedPixels(sizeTree, old(offsetTree), old(pixelTree), start)
    {
      var groupSize := sizeTree[start - 1];
      if groupSize == size {
        sizeTree := map[0 := size];
        offsetTree := map[0 := 0];
      } else {
        sizeTree := FillZeros(sizeTree, size);
        assert start - 1 in sizeTree && start - 1 <= Prev(start);
        UpdateOffsetTree(start);
      }
    }

    /**
     The general path of `insert`: visit the runs overlapping
     `Prev(start)..=end + 1`; the first decides whether the new run needs a key
     of its own, every later one that starts inside the new run or has its
     size is removed, and a run covered only in part keeps its tail at
     `end + 1`. Then the offsets are propagated from `start`.
     */
    method InsertRun(start: nat, end: nat, size: nat)
      requires start <= end < LAST_RANGE_END
      requires HasFloor(sizeTree, Prev(start))
      requires Removed(sizeTree, start, end, size) <= offsetTree.Keys
      modifies this
      ensures var removed := Removed(old(sizeTree), start, end, size);
              && sizeTree == InsertedSizes(old(sizeTree), start, end, size)
              && HasFloor(sizeTree, Prev(start))
              && offsetTree == PropagatedOffsets(sizeTree, old(offsetTree) - removed, start)
              && pixelTree == PropagatedPixels(sizeTree, old(offsetTree) - removed, old(pixelTree) - OffsetsOf(old(offsetTree), removed), start)
    {
      ghost var m, o, p := sizeTree, offsetTree, pixelTree;
      var ranges := RangesWithin(sizeTree, Prev(start), end + 1);
      var firstPassDone, shouldInsert := false, false;
      MergeStarts(m, o, p, start, end, size, ranges);
      for i := 0 to |ranges|
        invariant MergeInvariant(m, o, p, start, end, size, ranges, i, sizeTree, offsetTree, pixelTree, firstPassDone, shouldInsert)
      {
        ghost var sizes, offsets, pixels, done, should := sizeTree, offsetTree, pixelTree, firstPassDone, shouldInsert;
        var r := ranges[i];
        if !firstPassDone {
          shouldInsert := r.size != size;
          firstPassDone := true;
        } else if end >= r.start || size == r.size {
          MergeCanRemove(m, o, p, start, end, size, ranges, i, sizeTree, offsetTree, pixelTree, firstPassDone, shouldInsert);
          RemoveIndex(r.start);
        }
        if r.end > end && end >= r.start {
          if r.size != size {
            sizeTree := sizeTree[end + 1 := r.size];
          }
        }
        MergeAdvances(m, o, p, start, end, size, ranges, i, sizes, offsets, pixels, done, should,
                      sizeTree, offsetTree, pixelTree, firstPassDone, shouldInsert);
      }
      MergeEnds(m, o, p, start, end, size, ranges, sizeTree, offsetTree, pixelTree, firstPassDone, shouldInsert);
      if shouldInsert {
        sizeTree := sizeTree[start := size];
      }
      InsertedKeepsAnchor(m, start, end, size);
      UpdateOffsetTree(start);
    }
    /**
     `range_size_and_offset(index)`: the run that contains `index`, found by a
     floor lookup in the size index — its size, its offset and its first
     index. It is the greatest run start at or below `index`.
     */
    function RangeSizeAndOffset(index: nat): (r: (nat, nat, nat))
      reads this
      requires HasFloor(sizeTree, index)
      requires Lte(sizeTree, index).0 in offsetTree
      ensures r.2 in sizeTree && r.2 in offsetTree && r.2 <= index && r.2 == Lte(sizeTree, index).0
      ensures r.0 == sizeTree[r.2] && r.0 == Lte(sizeTree, index).1 && r.1 == offsetTree[r.2]
      ensures forall k :: k in sizeTree && k <= index ==> k <= r.2
      ensures SizeAt(sizeTree, index) == Some(r.0)
    {
      LteIsGreatest(sizeTree, index);
      SizeAtIsLte(sizeTree, index);
      var rangeIndex := Lte(sizeTree, index).0;
      (sizeTree[rangeIndex], offsetTree[rangeIndex], rangeIndex)
    }

    /**
     `offset_of(index)`: the offset of item `index`, its run's offset plus one
     run size per item of the run before it. In a synced list this is the
     summed size of all items before `index`.
     */
    function OffsetOf(index: nat): (r: nat)
      reads this
      requires HasFloor(sizeTree, index)
      requires Lte(sizeTree, index).0 in offsetTree
      ensures Synced(sizeTree, offsetTree) ==> r == Span(sizeTree, 0, index)
    {
      var (size, offset, rangeIndex) := RangeSizeAndOffset(index);
      assert Synced(sizeTree, offsetTree) ==> (index - rangeIndex) * size + offset == Span(sizeTree, 0, index) by {
        if Synced(sizeTree, offsetTree) {
          RunFormula(sizeTree, offsetTree, index, rangeIndex, size, offset);
        }
      }
      (index - rangeIndex) * size + offset
    }

    /**
     `total(index)`: the far edge of item `index`, its offset plus the size of
     its run. In a synced list this is the summed size of the items up to and
     including `index`.
     */
    function Total(index: nat): (r: nat)
      reads this
      requires HasFloor(sizeTree, index)
      requires Lte(sizeTree, index).0 in offsetTree
      ensures r == OffsetOf(index) + ItemSize(sizeTree, index)
      ensures Synced(sizeTree, offsetTree) ==> r == Span(sizeTree, 0, index + 1)
    {
      var (size, offset, rangeIndex) := RangeSizeAndOffset(index);
      ProductSteps(index - rangeIndex, size);
      assert Synced(sizeTree, offsetTree) ==> (index - rangeIndex + 1) * size + offset == Span(sizeTree, 0, index + 1) by {
        if Synced(sizeTree, offsetTree) {
          RunFormula(sizeTree, offsetTree, index, rangeIndex, size, offset);
        }
      }
      (index - rangeIndex + 1) * size + offset
    }

    /** `item_at(index)`: item `index` with the size of its run and its offset. */
    function ItemAt(index: nat): (r: Item)
      reads this
      requires HasFloor(sizeTree, index)
      requires Lte(sizeTree, index).0 in offsetTree
      ensures r.index == index && r.size == ItemSize(sizeTree, index) && r.offset == OffsetOf(index)
      ensures Synced(sizeTree, offsetTree) ==> r.offset == Span(sizeTree, 0, index)
    {
      var (size, offset, rangeIndex) := RangeSizeAndOffset(index);
      Item(size, (index - rangeIndex) * size + offset, index)
    }

    /**
     `index_range(startIndex, endIndex)`: one item per index of
     `startIndex..=endIndex`, in order, each with the size of its run and
     offset 0; an empty list answers with the single item `{0, 0, 0}`.
     */
    method IndexRange(startIndex: nat, endIndex: nat) returns (result: seq<Item>)
      requires endIndex <= LAST_RANGE_END
      requires sizeTree != map[] ==> HasFloor(sizeTree, startIndex) && Lte(sizeTree, startIndex).0 <= endIndex
      ensures sizeTree == map[] ==> result == [Item(0, 0, 0)]
      ensures sizeTree != map[] ==> |result| == if startIndex <= endIndex then endIndex - startIndex + 1 else 0
      ensures sizeTree != map[] ==>
                forall j :: 0 <= j < |result| ==> result[j] == Item(ItemSize(sizeTree, startIndex + j), 0, startIndex + j)
    {
      if sizeTree == map[] {
        return [Item(0, 0, 0)];
      }
      var ranges := RangesWithin(sizeTree, startIndex, endIndex);
      result := [];
      for i := 0 to |ranges|
        invariant forall j :: 0 <= j < |result| ==> result[j] == Item(ItemSize(sizeTree, startIndex + j), 0, startIndex + j)
        invariant startIndex > endIndex ==> result == []
        invariant startIndex <= endIndex && i < |ranges| ==>
                    startIndex + |result| == if ranges[i].start < startIndex then startIndex else ranges[i].start
        invariant startIndex <= endIndex && i == |ranges| ==> startIndex + |result| == endIndex + 1
      {
        var range := ranges[i];
        RunsCover(sizeTree, startIndex, endIndex, ranges, i);
        if i < |ranges| - 1 {
          RunsCover(sizeTree, startIndex, endIndex, ranges, i + 1);
        }
        var start := if startIndex < range.start then range.start else startIndex;
        var end := if range.end < endIndex then range.end else endIndex;
        var index := start;
        while index <= end
          invariant startIndex <= endIndex ==> start <= index <= end + 1 && index == startIndex + |result|
          invariant startIndex > endIndex ==> result == []
          invariant forall j :: 0 <= j < |result| ==> result[j] == Item(ItemSize(sizeTree, startIndex + j), 0, startIndex + j)
        {
          RunSizes(sizeTree, startIndex, endIndex, ranges, i, index);
          result := result + [Item(range.size, 0, index)];
          index := index + 1;
        }
      }
    }
    /**
     `range(startOffset, endOffset, minIndex, maxIndex)`: the items from the
     run whose offset is the nearest at or below `startOffset` up to the run
     whose offset is the nearest at or above `endOffset`, clipped to the
     index window `minIndex..=maxIndex`, each no further than `endOffset`.
     Items come in increasing index order; a placeholder run yields one item
     of size 0 and ends the answer. In a synced list whose pixel index has no
     stale entry, every sized item carries its own size and offset.
     */
    method Range(startOffset: nat, endOffset: nat, minIndex: nat, maxIndex: nat) returns (result: seq<Item>)
      requires maxIndex <= LAST_RANGE_END
      requires PixelWindowDefined(sizeTree, offsetTree, pixelTree, startOffset, endOffset)
      ensures forall j :: 0 <= j < |result| ==> minIndex <= result[j].index
      ensures forall j :: 0 <= j < |result| && result[j].size != 0 ==>
                result[j].index <= maxIndex && result[j].offset <= endOffset
      ensures forall j :: 0 <= j < |result| && result[j].size == 0 ==> j == |result| - 1
      ensures forall j, l :: 0 <= j < l < |result| ==> result[j].index < result[l].index
      ensures Synced(sizeTree, offsetTree) && PixelSound(offsetTree, pixelTree) ==>
                forall j :: 0 <= j < |result| && result[j].size != 0 ==>
                  result[j].size == ItemSize(sizeTree, result[j].index)
                  && result[j].offset == Span(sizeTree, 0, result[j].index)
      ensures exists ranges :: PixelRuns(offsetTree, pixelTree, startOffset, endOffset, ranges)
                && result == RangeItems(sizeTree, offsetTree, pixelTree, startOffset, endOffset, minIndex, maxIndex, ranges)
    {
      var (_, startIndex) := Lte(pixelTree, startOffset);
      var (_, endIndex) := Ceiling(pixelTree, endOffset);
      var ranges := RangesWithin(offsetTree, startIndex, endIndex);
      RangeReachesAll(sizeTree, offsetTree, pixelTree, startOffset, endOffset, ranges);
      result := WalkRuns(sizeTree, ranges, startOffset, endOffset, minIndex, maxIndex);
      WalkFromSound(sizeTree, ranges, startOffset, endOffset, minIndex, maxIndex, 0);
      RangeSound(sizeTree, offsetTree, pixelTree, startOffset, endOffset, ranges, result);
      assert PixelRuns(offsetTree, pixelTree, startOffset, endOffset, ranges);
    }
  }

  /**
   The loop of `update_offset_tree`: walk the runs from the anchor on in key
   order, carrying the previous run's first index, size and offset, and write
   each run's offset into the offset index and the pixel index.
   */
  method Propagate(sizes: Tree, offsets: Tree, pixels: Tree, start: nat) returns (offsetMap: Tree, pixelMap: Tree)
    requires HasFloor(sizes, Prev(start))
    ensures offsetMap == PropagatedOffsets(sizes, offsets, start)
    ensures pixelMap == PropagatedPixels(sizes, offsets, pixels, start)
  {
    var lte := if start == 0 then 0 else start - 1;
    var updated := Ascending(KeysFrom(sizes, lte));
    var (startIndex, startSize) := Lte(sizes, lte);
    var prevOffset := if startIndex in offsets then offsets[startIndex] else 0;
    var prevSize, prevIndex := startSize, startIndex;
    assert lte == Prev(start) && updated == Updated(sizes, start);
    PropagationStarts(sizes, offsets, pixels, start);
    offsetMap, pixelMap := offsets, pixels;
    for i := 0 to |updated|
      invariant PropagationInvariant(sizes, offsets, pixels, start, i, prevIndex, prevSize, prevOffset, offsetMap, pixelMap)
    {
      var index := updated[i];
      PropagationOrder(sizes, offsets, pixels, start, i, prevIndex, prevSize, prevOffset, offsetMap, pixelMap);
      var size := sizes[index];
      var offset := (index - prevIndex) * prevSize + prevOffset;
      PropagationAdvances(sizes, offsets, pixels, start, i, prevIndex, prevSize, prevOffset, offsetMap, pixelMap,
                          index, size, offset);
      offsetMap := offsetMap[index := offset];
      pixelMap := pixelMap[offset := index];
      prevIndex, prevOffset, prevSize := index, offset, size;
    }
    PropagationEnds(sizes, offsets, pixels, start, prevIndex, prevSize, prevOffset, offsetMap, pixelMap);
  }

  /** `after` is `before` with every placeholder (size 0) given the size `size`, on the same keys. */
  ghost predicate FillsPlaceholders(before: Tree, after: Tree, size: nat)
  {
    && after.Keys == before.Keys
    && forall k :: k in after ==> after[k] == if before[k] == 0 then size else before[k]
  }

  /** The `iter_mut` loop of the placeholder path: every size-0 value of `sizes` becomes `size`. */
  method FillZeros(sizes: Tree, size: nat) returns (filled: Tree)
    ensures FillsPlaceholders(sizes, filled, size)
  {
    var keys := Ascending(sizes.Keys);
    filled := sizes;
    ghost var visited: set<nat> := {};
    for i := 0 to |keys|
      invariant visited == set j | 0 <= j < i :: keys[j]
      invariant filled.Keys == sizes.Keys
      invariant forall k :: k in filled ==> filled[k] == if sizes[k] == 0 && k in visited then size else sizes[k]
    {
      var key := keys[i];
      assert key in sizes && key !in visited by {
        AscendingInOrder(sizes.Keys);
      }
      if filled[key] == 0 {
        filled := filled[key := size];
      }
      visited := visited + {key};
    }
    forall k | k in sizes
      ensures k in visited
    {
      AscendingInOrder(sizes.Keys);
      var j :| 0 <= j < |keys| && keys[j] == k;
    }
  }

  /**
   Filling placeholders changes the sizes of runs anywhere in the list, so the
   offsets are only right again when the propagation starts from item 0:
   propagating from 0 after a fill of a synced list syncs it.
   */
  lemma FillResyncs(before: Tree, after: Tree, offsets: Tree, size: nat)
    requires Synced(before, offsets)
    requires FillsPlaceholders(before, after, size)
    ensures HasFloor(after, Prev(0))
    ensures Synced(after, PropagatedOffsets(after, offsets, 0))
  {
    assert 0 in after && 0 <= Prev(0);
    LteIsGreatest(after, 0);
    assert Anchor(after, 0) == 0;
    PropagationSyncs(after, offsets, 0);
  }

  /**
   Run `i` of `ranges` can be walked once every run before it had a size
   other than 0: it has a size, one other than 0 if `startOffset` lies past
   its offset.
   */
  ghost predicate Walkable(sizes: Tree, ranges: seq<Range>, startOffset: nat, i: nat)
    requires i < |ranges|
  {
    (forall j :: 0 <= j < i ==> ranges[j].start in sizes && sizes[ranges[j].start] != 0) ==>
      ranges[i].start in sizes && (ranges[i].size < startOffset ==> sizes[ranges[i].start] != 0)
  }

  /**
   The items `range` emits from run `i` of `ranges` on: each sized run gives
   its `RunItems`, and the first placeholder run gives one size-0 item and ends
   the walk.
   */
  ghost function WalkFrom(sizes: Tree, ranges: seq<Range>, startOffset: nat, endOffset: nat,
                          minIndex: nat, maxIndex: nat, i: nat): seq<Item>
    requires i <= |ranges|
    requires forall j :: 0 <= j < |ranges| ==> Walkable(sizes, ranges, startOffset, j)
    requires forall j :: 0 <= j < i ==> ranges[j].start in sizes && sizes[ranges[j].start] != 0
    decreases |ranges| - i
  {
    if i == |ranges| then []
    else
      assert Walkable(sizes, ranges, startOffset, i);
      var size := sizes[ranges[i].start];
      var (start, offset) := Skip(ranges[i], size, startOffset, minIndex);
      if size == 0 then [Item(0, offset, start)]
      else RunItems(size, offset, start, Last(ranges[i], maxIndex), endOffset)
           + WalkFrom(sizes, ranges, startOffset, endOffset, minIndex, maxIndex, i + 1)
  }

  /** One step of `WalkFrom`: run `i` either ends the walk or is followed by the walk from `i + 1`. */
  lemma WalkFromStep(sizes: Tree, ranges: seq<Range>, startOffset: nat, endOffset: nat,
                     minIndex: nat, maxIndex: nat, i: nat)
    requires i < |ranges|
    requires forall j :: 0 <= j < |ranges| ==> Walkable(sizes, ranges, startOffset, j)
    requires forall j :: 0 <= j < i ==> ranges[j].start in sizes && sizes[ranges[j].start] != 0
    ensures ranges[i].start in sizes
    ensures ranges[i].size < startOffset ==> sizes[ranges[i].start] != 0
    ensures var size := sizes[ranges[i].start];
            var first := Skip(ranges[i], size, startOffset, minIndex);
            WalkFrom(sizes, ranges, startOffset, endOffset, minIndex, maxIndex, i)
            == if size == 0 then [Item(0, first.1, first.0)]
               else RunItems(size, first.1, first.0, Last(ranges[i], maxIndex), endOffset)
                    + WalkFrom(sizes, ranges, startOffset, endOffset, minIndex, maxIndex, i + 1)
  {
    assert Walkable(sizes, ranges, startOffset, i);
  }

  /**
   What the walk from run `i` emits: indices at or above `minIndex` and the
   start of run `i`, increasing; a size-0 item only at the very end; and every
   sized item inside the index window, within `endOffset`, and emitted from one
   of the runs from `i` on.
   */
  lemma {:induction false} WalkFromSound(sizes: Tree, ranges: seq<Range>, startOffset: nat, endOffset: nat,
                                         minIndex: nat, maxIndex: nat, i: nat)
    requires i <= |ranges|
    requires forall j :: 0 <= j < |ranges| ==> Walkable(sizes, ranges, startOffset, j)
    requires forall j :: 0 <= j < |ranges| - 1 ==> ranges[j].start <= ranges[j].end < ranges[j + 1].start
    requires forall j :: 0 <= j < i ==> ranges[j].start in sizes && sizes[ranges[j].start] != 0
    ensures var r := WalkFrom(sizes, ranges, startOffset, endOffset, minIndex, maxIndex, i);
            && (forall j :: 0 <= j < |r| ==> minIndex <= r[j].index)
            && (i < |ranges| ==> forall j :: 0 <= j < |r| ==> ranges[i].start <= r[j].index)
            && (forall j :: 0 <= j < |r| && r[j].size != 0 ==>
                  && r[j].index <= maxIndex && r[j].offset <= endOffset
                  && exists m :: i <= m < |ranges| && EmittedFrom(r[j], ranges[m], sizes))
            && (forall j :: 0 <= j < |r| && r[j].size == 0 ==> j == |r| - 1)
            && (forall j, l :: 0 <= j < l < |r| ==> r[j].index < r[l].index)
    decreases |ranges| - i
  {
    if i < |ranges| {
      WalkFromStep(sizes, ranges, startOffset, endOffset, minIndex, maxIndex, i);
      var size := sizes[ranges[i].start];
      var first := Skip(ranges[i], size, startOffset, minIndex);
      if size != 0 {
        var items := RunItems(size, first.1, first.0, Last(ranges[i], maxIndex), endOffset);
        RunItemsInRun(ranges[i], size, first.0, first.1, endOffset, minIndex, maxIndex);
        WalkFromSound(sizes, ranges, startOffset, endOffset, minIndex, maxIndex, i + 1);
        WalkJoin(sizes, ranges, startOffset, endOffset, minIndex, maxIndex, i, items,
                 WalkFrom(sizes, ranges, startOffset, endOffset, minIndex, maxIndex, i + 1));
      }
    }
  }

  /** The items of sized run `i` followed by what the walk from `i + 1` emits keep the promise of `WalkFromSound`. */
  lemma WalkJoin(sizes: Tree, ranges: seq<Range>, startOffset: nat, endOffset: nat,
                 minIndex: nat, maxIndex: nat, i: nat, items: seq<Item>, rest: seq<Item>)
    requires i < |ranges| && ranges[i].start in sizes && sizes[ranges[i].start] != 0
    requires forall j :: 0 <= j < |ranges| - 1 ==> ranges[j].start <= ranges[j].end < ranges[j + 1].start
    requires forall j :: 0 <= j < |items| ==> RunItem(items[j], ranges[i], sizes[ranges[i].start])
    requires forall j :: 0 <= j < |items| ==> minIndex <= items[j].index <= maxIndex && items[j].offset <= endOffset
    requires forall j, l :: 0 <= j < l < |items| ==> items[j].index < items[l].index
    requires forall j :: 0 <= j < |rest| ==> minIndex <= rest[j].index
    requires i + 1 < |ranges| ==> forall j :: 0 <= j < |rest| ==> ranges[i + 1].start <= rest[j].index
    requires i + 1 == |ranges| ==> rest == []
    requires forall j :: 0 <= j < |rest| && rest[j].size != 0 ==>
               && rest[j].index <= maxIndex && rest[j].offset <= endOffset
               && exists m :: i + 1 <= m < |ranges| && EmittedFrom(rest[j], ranges[m], sizes)
    requires forall j :: 0 <= j < |rest| && rest[j].size == 0 ==> j == |rest| - 1
    requires forall j, l :: 0 <= j < l < |rest| ==> rest[j].index < rest[l].index
    ensures var r := items + rest;
            && (forall j :: 0 <= j < |r| ==> minIndex <= r[j].index)
            && (forall j :: 0 <= j < |r| ==> ranges[i].start <= r[j].index)
            && (forall j :: 0 <= j < |r| && r[j].size != 0 ==>
                  && r[j].index <= maxIndex && r[j].offset <= endOffset
                  && exists m :: i <= m < |ranges| && EmittedFrom(r[j], ranges[m], sizes))
            && (forall j :: 0 <= j < |r| && r[j].size == 0 ==> j == |r| - 1)
            && (forall j, l :: 0 <= j < l < |r| ==> r[j].index < r[l].index)
  {
    var r := items + rest;
    forall j | 0 <= j < |r|
      ensures ranges[i].start <= r[j].index
      ensures r[j].size != 0 ==> exists m :: i <= m < |ranges| && EmittedFrom(r[j], ranges[m], sizes)
      ensures r[j].size == 0 ==> j == |r| - 1
    {
      if j < |items| {
        assert r[j] == items[j];
        assert EmittedFrom(r[j], ranges[i], sizes);
      } else {
        assert r[j] == rest[j - |items|];
      }
    }
    forall j, l | 0 <= j < l < |r|
      ensures r[j].index < r[l].index
    {
      if j < |items| && l >= |items| {
        assert r[j] == items[j] && r[l] == rest[l - |items|];
      }
    }
  }

  /**
   What `range(startOffset, endOffset, minIndex, maxIndex)` returns, given the
   runs `ranges` of the offset index that the pixel window selects.
   */
  ghost function RangeItems(size: Tree, offset: Tree, pixel: Tree, startOffset: nat, endOffset: nat,
                            minIndex: nat, maxIndex: nat, ranges: seq<Range>): seq<Item>
    requires PixelWindowDefined(size, offset, pixel, startOffset, endOffset)
    requires PixelRuns(offset, pixel, startOffset, endOffset, ranges)
  {
    RangeReachesAll(size, offset, pixel, startOffset, endOffset, ranges);
    WalkFrom(size, ranges, startOffset, endOffset, minIndex, maxIndex, 0)
  }

  /**
   The loop of `range` over the runs `ranges` of the offset index (each run's
   `size` field holds its offset), run by run with `WalkRun`; the walk ends
   early at a placeholder run.
   */
  method WalkRuns(sizes: Tree, ranges: seq<Range>, startOffset: nat, endOffset: nat, minIndex: nat, maxIndex: nat)
    returns (result: seq<Item>)
    requires forall i :: 0 <= i < |ranges| ==> Walkable(sizes, ranges, startOffset, i)
    ensures result == WalkFrom(sizes, ranges, startOffset, endOffset, minIndex, maxIndex, 0)
  {
    result := [];
    for i := 0 to |ranges|
      invariant forall j :: 0 <= j < i ==> ranges[j].start in sizes && sizes[ranges[j].start] != 0
      invariant result + WalkFrom(sizes, ranges, startOffset, endOffset, minIndex, maxIndex, i)
                == WalkFrom(sizes, ranges, startOffset, endOffset, minIndex, maxIndex, 0)
    {
      var range := ranges[i];
      WalkFromStep(sizes, ranges, startOffset, endOffset, minIndex, maxIndex, i);
      var items, stop := WalkRun(range, sizes[range.start], startOffset, endOffset, minIndex, maxIndex);
      if stop {
        result := result + items;
        return;
      }
      assert result + WalkFrom(sizes, ranges, startOffset, endOffset, minIndex, maxIndex, i)
             == (result + items) + WalkFrom(sizes, ranges, startOffset, endOffset, minIndex, maxIndex, i + 1);
      result := result + items;
    }
  }

  /**
   The body of the loop of `range` for one run `range` of size `size`: skip
   the items that end before `startOffset`, then those below `minIndex`; a
   placeholder run (`stop`) yields one item of size 0; otherwise emit the
   items up to the run's end or `maxIndex`, stepping the offset by the run's
   size, while the offset stays within `endOffset`.
   */
  method WalkRun(range: Range, size: nat, startOffset: nat, endOffset: nat, minIndex: nat, maxIndex: nat)
    returns (items: seq<Item>, stop: bool)
    requires range.size < startOffset ==> size != 0
    ensures stop <==> size == 0
    ensures var (start, offset) := Skip(range, size, startOffset, minIndex);
            items == if stop then [Item(0, offset, start)] else RunItems(size, offset, start, Last(range, maxIndex), endOffset)
  {
    var (start, offset) := Skip(range, size, startOffset, minIndex);
    if size == 0 {
      return [Item(0, offset, start)], true;
    }
    var end := if range.end < maxIndex then range.end else maxIndex;
    items := EmitRun(size, offset, start, end, endOffset);
    stop := false;
  }

  /** The inner loop of `range`: emit items of `size` from `index` to `last` while the offset stays within `endOffset`. */
  method EmitRun(size: nat, offset: nat, index: nat, last: nat, endOffset: nat) returns (items: seq<Item>)
    ensures items == RunItems(size, offset, index, last, endOffset)
  {
    var at: nat, next: nat := index, offset;
    items := [];
    while at <= last
      invariant items + RunItems(size, next, at, last, endOffset) == RunItems(size, offset, index, last, endOffset)
    {
      if next > endOffset {
        break;
      }
      var rest := RunItems(size, next + size, at + 1, last, endOffset);
      assert items + RunItems(size, next, at, last, endOffset) == (items + [Item(size, next, at)]) + rest;
      items := items + [Item(size, next, at)];
      next := next + size;
      at := at + 1;
    }
  }

  /**
   Every item a sized run emits lies in that run, at the run's offset plus one
   `size` per item before it, within the index window and `endOffset`, in
   increasing index order.
   */
  lemma {:induction false} RunItemsInRun(range: Range, size: nat, start: nat, offset: nat, endOffset: nat, minIndex: nat, maxIndex: nat)
    requires range.start <= start && minIndex <= start
    requires offset == range.size + Times(start - range.start, size)
    ensures var items := RunItems(size, offset, start, Last(range, maxIndex), endOffset);
            && (forall j :: 0 <= j < |items| ==> RunItem(items[j], range, size))
            && (forall j :: 0 <= j < |items| ==> minIndex <= items[j].index <= maxIndex && items[j].offset <= endOffset)
            && (forall j, l :: 0 <= j < l < |items| ==> items[j].index < items[l].index)
  {
    var items := RunItems(size, offset, start, Last(range, maxIndex), endOffset);
    forall j | 0 <= j < |items|
      ensures RunItem(items[j], range, size)
      ensures minIndex <= items[j].index <= maxIndex && items[j].offset <= endOffset
    {
      RunItemsAt(size, offset, start, Last(range, maxIndex), endOffset, j);
      ItemInRun(range, size, start, offset, j, items[j]);
    }
    forall j, l | 0 <= j < l < |items|
      ensures items[j].index < items[l].index
    {
      RunItemsAt(size, offset, start, Last(range, maxIndex), endOffset, j);
      RunItemsAt(size, offset, start, Last(range, maxIndex), endOffset, l);
    }
  }

  /** The `j`-th item from `start` on, at `offset` plus `j` sizes, sits where its run puts it. */
  lemma ItemInRun(range: Range, size: nat, start: nat, offset: nat, j: nat, it: Item)
    requires range.start <= start && start + j <= range.end
    requires offset == range.size + Times(start - range.start, size)
    requires it == Item(size, offset + Times(j, size), start + j)
    ensures RunItem(it, range, size)
  {
    TimesAdd(start - range.start, j, size);
    assert it.index - range.start == (start - range.start) + j;
  }

  /** The last index `range` may emit from run `range`: the run's end, or `maxIndex` if that comes first. */
  function Last(range: Range, maxIndex: nat): (r: nat)
    ensures r <= range.end && r <= maxIndex && (r == range.end || r == maxIndex)
  {
    if range.end < maxIndex then range.end else maxIndex
  }

  /**
   The items `range` emits from a sized run: from `index` at `offset` on, one
   `size` apart, up to index `last`, while the offset stays within `endOffset`.
   */
  function RunItems(size: nat, offset: nat, index: nat, last: nat, endOffset: nat): seq<Item>
    decreases last + 1 - index
  {
    if index > last || offset > endOffset then []
    else [Item(size, offset, index)] + RunItems(size, offset + size, index + 1, last, endOffset)
  }

  /** Item `j` of `RunItems` is index `index + j` at `offset` plus `j` sizes, up to `last` and within `endOffset`. */
  lemma {:induction false} RunItemsAt(size: nat, offset: nat, index: nat, last: nat, endOffset: nat, j: nat)
    requires j < |RunItems(size, offset, index, last, endOffset)|
    ensures RunItems(size, offset, index, last, endOffset)[j] == Item(size, offset + Times(j, size), index + j)
    ensures index + j <= last && offset + Times(j, size) <= endOffset
    decreases j
  {
    if j > 0 {
      RunItemsAt(size, offset + size, index + 1, last, endOffset, j - 1);
      TimesAdd(1, j - 1, size);
    }
  }

  /** `RunItems` stops only past `last` or past `endOffset`. */
  lemma {:induction false} RunItemsEnd(size: nat, offset: nat, index: nat, last: nat, endOffset: nat)
    ensures var n := |RunItems(size, offset, index, last, endOffset)|;
            index + n > last || offset + Times(n, size) > endOffset
    decreases last + 1 - index
  {
    if index <= last && offset <= endOffset {
      RunItemsEnd(size, offset + size, index + 1, last, endOffset);
      TimesAdd(1, |RunItems(size, offset + size, index + 1, last, endOffset)|, size);
    }
  }

  /**
   Where `range` starts in run `range` of size `size`: past the items that end
   before `startOffset`, then no lower than `minIndex`, with the offset of the
   item it starts at. That item is the first one that reaches past
   `startOffset`, unless the run's first item or `minIndex` comes later.
   */
  function Skip(range: Range, size: nat, startOffset: nat, minIndex: nat): (r: (nat, nat))
    requires range.size < startOffset ==> size != 0
    ensures range.start <= r.0 && minIndex <= r.0
    ensures r.1 == range.size + Times(r.0 - range.start, size)
    ensures r.0 == minIndex || r.0 == range.start || r.1 <= startOffset < r.1 + size
    ensures range.size < startOffset ==> startOffset < r.1 + size
  {
    var s := if range.size < startOffset then range.start + (startOffset - range.size) / size else range.start;
    ProductNat(s - range.start, size);
    var o := range.size + (s - range.start) * size;
    assert range.size < startOffset ==> o <= startOffset < o + size by {
      if range.size < startOffset {
        var d := startOffset - range.size;
        assert d == (d / size) * size + d % size;
      }
    }
    TimesIsProduct(s - range.start, size);
    if s < minIndex then
      MulAdd(s - range.start, minIndex - s, size);
      TimesIsProduct(minIndex - range.start, size);
      (minIndex, o + (minIndex - s) * size)
    else
      (s, o)
  }

  /** Item `it` of size `size` lies in run `r` and sits one `size` per item past the run's offset. */
  predicate RunItem(it: Item, r: Range, size: nat)
  {
    && it.size == size
    && r.start <= it.index <= r.end
    && it.offset == r.size + Times(it.index - r.start, size)
  }

  /** Every run that `range` walks can be walked. */
  lemma RangeReachesAll(size: Tree, offset: Tree, pixel: Tree, startOffset: nat, endOffset: nat, ranges: seq<Range>)
    requires PixelWindowDefined(size, offset, pixel, startOffset, endOffset)
    requires PixelRuns(offset, pixel, startOffset, endOffset, ranges)
    ensures forall i :: 0 <= i < |ranges| ==> Walkable(size, ranges, startOffset, i)
    ensures forall i :: 0 <= i < |ranges| - 1 ==> ranges[i].start <= ranges[i].end < ranges[i + 1].start
  {
    forall i | 0 <= i < |ranges| - 1
      ensures ranges[i].start <= ranges[i].end
    {
      RunsCover(offset, Lte(pixel, startOffset).1, Ceiling(pixel, endOffset).1, ranges, i);
    }
    forall i | 0 <= i < |ranges|
      ensures Walkable(size, ranges, startOffset, i)
    {
      if forall j :: 0 <= j < i ==> ranges[j].start in size && size[ranges[j].start] != 0 {
        RangeReaches(size, offset, pixel, startOffset, endOffset, ranges, i);
      }
    }
  }

  /**
   Item `it` was emitted while `range` walked run `r`: it lies inside the run,
   has the run's size, and sits one run size per item past the run's offset.
   */
  ghost predicate EmittedFrom(it: Item, r: Range, sizes: Tree)
  {
    && r.start in sizes
    && r.start <= it.index <= r.end
    && it.size == sizes[r.start]
    && it.offset == r.size + Times(it.index - r.start, it.size)
  }

  /** The runs `range` walks: those of the offset index from the pixel entry at or below `startOffset` to the one at or above `endOffset`. */
  ghost predicate PixelRuns(offset: Tree, pixel: Tree, startOffset: nat, endOffset: nat, ranges: seq<Range>)
  {
    && HasFloor(pixel, startOffset)
    && KeysFrom(pixel, endOffset) != {}
    && HasFloor(offset, Lte(pixel, startOffset).1)
    && OverlappingRuns(offset, Lte(pixel, startOffset).1, Ceiling(pixel, endOffset).1, ranges)
  }

  /**
   When `range` reaches run `i` (every run before it had a size other than 0),
   the run has a size, and one other than 0 if `startOffset` lies past it.
   */
  lemma RangeReaches(size: Tree, offset: Tree, pixel: Tree, startOffset: nat, endOffset: nat, ranges: seq<Range>, i: nat)
    requires PixelWindowDefined(size, offset, pixel, startOffset, endOffset)
    requires PixelRuns(offset, pixel, startOffset, endOffset, ranges)
    requires i < |ranges|
    requires forall j :: 0 <= j < i ==> ranges[j].start in size && size[ranges[j].start] != 0
    ensures ranges[i].start in size
    ensures ranges[i].size < startOffset ==> size[ranges[i].start] != 0
  {
    var first, last := Lte(pixel, startOffset).1, Ceiling(pixel, endOffset).1;
    var window := KeysBetween(offset, Lte(offset, first).0, last);
    var k := ranges[i].start;
    assert k in Starts(ranges);
    forall j | j in window && j < k
      ensures j in size && size[j] != 0
    {
      var m :| 0 <= m < |ranges| && ranges[m].start == j;
      assert m < i;
    }
    assert SizedBefore(size, window, k);
  }

  /** The last run of the walk starts at the index the pixel entry at or above `endOffset` names, at an offset at or above `endOffset`. */
  lemma LastRunReachesEnd(offset: Tree, pixel: Tree, startOffset: nat, endOffset: nat, ranges: seq<Range>)
    requires PixelSound(offset, pixel)
    requires PixelRuns(offset, pixel, startOffset, endOffset, ranges)
    ensures ranges[|ranges| - 1].start == Ceiling(pixel, endOffset).1
    ensures ranges[|ranges| - 1].size >= endOffset
  {
    var first, last := Lte(pixel, startOffset).1, Ceiling(pixel, endOffset).1;
    var n := |ranges|;
    assert last in offset && offset[last] == Ceiling(pixel, endOffset).0;
    LteIsGreatest(offset, first);
    assert last in KeysBetween(offset, Lte(offset, first).0, last);
    var q :| 0 <= q < n && ranges[q].start == last;
    assert ranges[n - 1].start in Starts(ranges);
    assert q == n - 1;
  }

  /** An item no further than a run's own offset, emitted from that run, is its first item. */
  lemma FirstOfRun(it: Item, r: Range, size: Tree, endOffset: nat)
    requires EmittedFrom(it, r, size) && it.size != 0
    requires it.offset <= endOffset <= r.size
    ensures it.index == r.start
  {
  }

  /** An item emitted from run `r` with no key of the size index between the run's start and it has the size of its run. */
  lemma EmittedSize(size: Tree, r: Range, it: Item)
    requires EmittedFrom(it, r, size)
    requires forall x :: r.start < x <= it.index ==> x !in size
    ensures it.size == ItemSize(size, it.index)
  {
    SameRun(size, r.start, it.index);
  }

  /** When run `r` starts at the summed size of the items before it, so does every item emitted from it, up to the next key of the size index. */
  lemma EmittedOffset(size: Tree, r: Range, it: Item)
    requires EmittedFrom(it, r, size) && r.size == Span(size, 0, r.start)
    requires forall x :: r.start < x <= it.index ==> x !in size
    ensures it.offset == Span(size, 0, it.index)
  {
    SpanRun(size, 0, r.start, it.index);
  }

  /**
   In a synced list whose pixel index has no stale entry, an item emitted from
   run `m` of the walk, no further than `endOffset`, lies in the run of the
   size index that starts there, so it has that run's size and its offset is
   the summed size of the items before it.
   */
  lemma EmittedInRun(size: Tree, offset: Tree, pixel: Tree, startOffset: nat, endOffset: nat,
                     ranges: seq<Range>, m: nat, it: Item)
    requires Synced(size, offset) && PixelSound(offset, pixel)
    requires PixelRuns(offset, pixel, startOffset, endOffset, ranges)
    requires m < |ranges| && EmittedFrom(it, ranges[m], size)
    requires it.size != 0 && it.offset <= endOffset
    ensures it.size == ItemSize(size, it.index)
    ensures it.offset == Span(size, 0, it.index)
  {
    var first, last := Lte(pixel, startOffset).1, Ceiling(pixel, endOffset).1;
    var r := ranges[m];
    RunsCover(offset, first, last, ranges, m);
    if m == |ranges| - 1 {
      LastRunReachesEnd(offset, pixel, startOffset, endOffset, ranges);
      FirstOfRun(it, r, size, endOffset);
    }
    EmittedSize(size, r, it);
    assert offset[r.start] == Span(size, 0, r.start);
    EmittedOffset(size, r, it);
  }

  /** What the walk of `range` has emitted meets the promise of `range` in a synced, stale-free list. */
  lemma RangeSound(size: Tree, offset: Tree, pixel: Tree, startOffset: nat, endOffset: nat,
                   ranges: seq<Range>, result: seq<Item>)
    requires PixelRuns(offset, pixel, startOffset, endOffset, ranges)
    requires forall j :: 0 <= j < |result| && result[j].size != 0 ==>
               result[j].offset <= endOffset && exists m :: 0 <= m < |ranges| && EmittedFrom(result[j], ranges[m], size)
    ensures Synced(size, offset) && PixelSound(offset, pixel) ==>
              forall j :: 0 <= j < |result| && result[j].size != 0 ==>
                result[j].size == ItemSize(size, result[j].index)
                && result[j].offset == Span(size, 0, result[j].index)
  {
    if Synced(size, offset) && PixelSound(offset, pixel) {
      forall j | 0 <= j < |result| && result[j].size != 0
        ensures result[j].size == ItemSize(size, result[j].index)
        ensures result[j].offset == Span(size, 0, result[j].index)
      {
        var m :| 0 <= m < |ranges| && EmittedFrom(result[j], ranges[m], size);
        EmittedInRun(size, offset, pixel, startOffset, endOffset, ranges, m, result[j]);
      }
    }
  }
}

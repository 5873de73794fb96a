/**
 The meaning of the three indices of the offset list and the closed forms of
 its mutations, stated over the ordered maps of `TreeUtils`.

 The size index maps the first item of each run to the size every item of the
 run has; a run ends one before the next key. `SizeAt` gives the size of one
 item, `Span` the summed size of a stretch of items, and an offset index is
 `Synced` with a size index when every run starts at the summed size of all
 items before it.
 */
module OffsetModel {
  import opened TreeUtils

  datatype Option<T> = None | Some(value: T)

  /** `start - 1`, saturating at 0: the point from which `insert` and `update_offset_tree` look back. */
  function Prev(start: nat): nat
  {
    if start == 0 then 0 else start - 1
  }

  /**
   The size of item `i`: the value at the nearest key at or below `i`, that is
   the size of the run that contains `i`; `None` before the first run.
   */
  function SizeAt(size: Tree, i: nat): Option<nat>
    decreases i
  {
    if i in size then Some(size[i]) else if i == 0 then None else SizeAt(size, i - 1)
  }

  /** The size of item `i`, counting an item before the first run as 0. */
  function ItemSize(size: Tree, i: nat): nat
  {
    match SizeAt(size, i)
    case None => 0
    case Some(w) => w
  }

  /** The summed size of the items `lo..hi - 1`. */
  function Span(size: Tree, lo: nat, hi: nat): nat
    decreases hi - lo
  {
    if hi <= lo then 0 else Span(size, lo, hi - 1) + ItemSize(size, hi - 1)
  }

  /**
   The offset index agrees with the size index: both have the same keys, item 0
   is covered, and every run starts at the summed size of the items before it.
   */
  ghost predicate Synced(size: Tree, offset: Tree)
  {
    && 0 in size
    && offset.Keys == size.Keys
    && forall k {:trigger offset[k]} :: k in size ==> offset[k] == Span(size, 0, k)
  }

  /** No two neighbouring runs have the same size: every key of the size index starts a new size. */
  ghost predicate Coalesced(size: Tree)
  {
    forall k :: k in size && k > 0 ==> SizeAt(size, k - 1) != Some(size[k])
  }

  // ----- Facts about floors and item sizes -----

  lemma FloorMono(tree: Tree, a: nat, b: nat)
    requires HasFloor(tree, a) && a <= b
    ensures HasFloor(tree, b)
  {
    var j :| j in tree && j <= a;
    assert j <= b;
  }

  /** `SizeAt` is what `lte` finds: the value at the greatest key at most `i`, if there is one. */
  lemma {:induction false} SizeAtIsLte(size: Tree, i: nat)
    ensures SizeAt(size, i) == if HasFloor(size, i) then Some(Lte(size, i).1) else None
    decreases i
  {
    if i !in size && i > 0 {
      SizeAtIsLte(size, i - 1);
      if HasFloor(size, i) {
        var r := Lte(size, i).0;
        assert r <= i - 1;
        assert HasFloor(size, i - 1);
      } else {
        assert !HasFloor(size, i - 1);
      }
    } else if i !in size {
      assert !HasFloor(size, i);
    }
  }

  /** With no key in `a + 1..=b`, items `a` and `b` lie in the same run. */
  lemma {:induction false} SameRun(size: Tree, a: nat, b: nat)
    requires a <= b
    requires forall x :: a < x <= b ==> x !in size
    ensures SizeAt(size, b) == SizeAt(size, a)
    decreases b
  {
    if b > a {
      SameRun(size, a, b - 1);
    }
  }

  /** Two size indices that agree on every key up to `i` give item `i` the same size. */
  lemma {:induction false} SameBelow(m: Tree, m': Tree, i: nat)
    requires forall k :: k <= i ==> (k in m <==> k in m')
    requires forall k :: k <= i && k in m ==> m[k] == m'[k]
    ensures SizeAt(m, i) == SizeAt(m', i)
    decreases i
  {
    if i !in m && i > 0 {
      SameBelow(m, m', i - 1);
    }
  }

  // ----- Facts about summed sizes -----

  /** Summed sizes add up over adjacent stretches. */
  lemma {:induction false} SpanSplit(size: Tree, a: nat, b: nat, c: nat)
    requires a <= b <= c
    ensures Span(size, a, c) == Span(size, a, b) + Span(size, b, c)
    decreases c - b
  {
    if c > b {
      SpanSplit(size, a, b, c - 1);
    }
  }

  /**
   `n * w` as repeated addition: proofs about runs reason with this linear
   definition and convert to the product once, with `TimesIsProduct`.
   */
  function Times(n: nat, w: nat): nat
  {
    if n == 0 then 0 else Times(n - 1, w) + w
  }

  lemma {:induction false} TimesIsProduct(n: nat, w: nat)
    ensures Times(n, w) == n * w
  {
    if n > 0 {
      TimesIsProduct(n - 1, w);
      assert (n - 1) * w + w == n * w;
    }
  }

  lemma {:induction false} TimesAdd(a: nat, b: nat, w: nat)
    ensures Times(a + b, w) == Times(a, w) + Times(b, w)
    decreases b
  {
    if b > 0 {
      TimesAdd(a, b - 1, w);
    }
  }

  /** Products distribute over sums; proofs about stepping offsets use this. */
  lemma MulAdd(a: nat, b: nat, w: nat)
    ensures a * w + b * w == (a + b) * w
  {
    TimesAdd(a, b, w);
    TimesIsProduct(a, w);
    TimesIsProduct(b, w);
    TimesIsProduct(a + b, w);
  }

  lemma ProductNat(a: nat, w: nat)
    ensures a * w >= 0
  {
    TimesIsProduct(a, w);
  }

  /** Inside one run, starting at key `p`, every item has the run's size. */
  lemma {:induction false} SpanRun(size: Tree, lo: nat, p: nat, k: nat)
    requires lo <= p <= k && p in size
    requires forall x :: p < x < k ==> x !in size
    ensures Span(size, lo, k) == Span(size, lo, p) + Times(k - p, size[p])
    decreases k - p
  {
    if k > p {
      SpanRun(size, lo, p, k - 1);
      SameRun(size, p, k - 1);
    }
  }

  /** Two size indices that give items `lo..hi - 1` the same sizes sum them alike. */
  lemma {:induction false} SpanAgree(m: Tree, m': Tree, lo: nat, hi: nat)
    requires forall j :: lo <= j < hi ==> SizeAt(m, j) == SizeAt(m', j)
    ensures Span(m, lo, hi) == Span(m', lo, hi)
    decreases hi - lo
  {
    if hi > lo {
      SpanAgree(m, m', lo, hi - 1);
      assert SizeAt(m, hi - 1) == SizeAt(m', hi - 1);
    }
  }

  // ----- Point queries -----

  /** The items before `i` are those before its run plus `i - run` items of the run's size. */
  lemma SpanToFloor(size: Tree, i: nat)
    requires 0 in size
    ensures HasFloor(size, i)
    ensures Span(size, 0, i) == Span(size, 0, Lte(size, i).0) + Times(i - Lte(size, i).0, Lte(size, i).1)
  {
    assert 0 in size && 0 <= i;
    LteIsGreatest(size, i);
    SpanRun(size, 0, Lte(size, i).0, i);
  }

  /** One more item adds the size of the run it lies in. */
  lemma RunStep(size: Tree, i: nat)
    requires HasFloor(size, i)
    ensures Span(size, 0, i + 1) == Span(size, 0, i) + Lte(size, i).1
  {
    SizeAtIsLte(size, i);
  }

  lemma ProductSteps(n: nat, w: nat)
    ensures n * w == Times(n, w)
    ensures (n + 1) * w == Times(n, w) + w
  {
    TimesIsProduct(n, w);
    TimesIsProduct(n + 1, w);
  }

  /** In a synced list, item `i` starts at its run's offset plus `i - run` items of the run's size. */
  lemma RunOffset(size: Tree, offset: Tree, i: nat)
    requires Synced(size, offset)
    ensures HasFloor(size, i) && Lte(size, i).0 in offset
    ensures offset[Lte(size, i).0] + Times(i - Lte(size, i).0, Lte(size, i).1) == Span(size, 0, i)
  {
    SpanToFloor(size, i);
  }

  /**
   In a synced list, the offset of item `i` computed from its run (the run's
   offset plus `i - run` items of the run's size) is the summed size of all
   items before `i`, and one more item of the run's size gives the summed size
   up to and including `i`.
   */
  lemma OffsetIsPrefixSum(size: Tree, offset: Tree, i: nat)
    requires Synced(size, offset)
    ensures HasFloor(size, i) && Lte(size, i).0 in offset
    ensures (i - Lte(size, i).0) * Lte(size, i).1 + offset[Lte(size, i).0] == Span(size, 0, i)
    ensures (i - Lte(size, i).0 + 1) * Lte(size, i).1 + offset[Lte(size, i).0] == Span(size, 0, i + 1)
  {
    RunOffset(size, offset, i);
    var r, w := Lte(size, i).0, Lte(size, i).1;
    RunStep(size, i);
    ProductSteps(i - r, w);
  }

  /** The offset formula of one run, for a run start, size and offset already looked up. */
  lemma RunFormula(size: Tree, offset: Tree, i: nat, start: nat, w: nat, o: nat)
    requires Synced(size, offset)
    requires HasFloor(size, i) && start == Lte(size, i).0 && w == Lte(size, i).1
    requires start in offset && o == offset[start]
    ensures (i - start) * w + o == Span(size, 0, i)
    ensures (i - start + 1) * w + o == Span(size, 0, i + 1)
  {
    OffsetIsPrefixSum(size, offset, i);
  }

  /** Inside a run that `ranges_within(size, start, end)` reports, every item up to `end` has the run's size. */
  lemma RunSizes(size: Tree, start: nat, end: nat, ranges: seq<Range>, i: nat, idx: nat)
    requires HasFloor(size, start)
    requires OverlappingRuns(size, start, end, ranges)
    requires i < |ranges| && ranges[i].start <= idx <= ranges[i].end && idx <= end
    ensures ItemSize(size, idx) == ranges[i].size
  {
    RunsCover(size, start, end, ranges, i);
    SameRun(size, ranges[i].start, idx);
  }

  // ----- Range query by pixel offset -----

  /**
   Every entry of the pixel index points back at a run whose offset is that
   entry's pixel: no stale entry is left.
   */
  ghost predicate PixelSound(offset: Tree, pixel: Tree)
  {
    forall p :: p in pixel ==> pixel[p] in offset && offset[pixel[p]] == p
  }

  /** Every run start of `window` before `k` is a key of the size index with a size other than 0. */
  ghost predicate SizedBefore(size: Tree, window: set<nat>, k: nat)
  {
    forall j :: j in window && j < k ==> j in size && size[j] != 0
  }

  /**
   What `range(startOffset, endOffset, ..)` needs to run without a panic: a
   pixel entry at or below `startOffset`, one at or above `endOffset`, runs of
   the offset index between the indices they name, and, for every run it
   reaches (each one before the first placeholder), a size in the size index,
   other than 0 when `startOffset` lies past the run's offset.
   */
  ghost predicate PixelWindowDefined(size: Tree, offset: Tree, pixel: Tree, startOffset: nat, endOffset: nat)
  {
    && HasFloor(pixel, startOffset)
    && KeysFrom(pixel, endOffset) != {}
    && var first := Lte(pixel, startOffset).1;
    && var last := Ceiling(pixel, endOffset).1;
    && HasFloor(offset, first)
    && Lte(offset, first).0 <= last
    && var window := KeysBetween(offset, Lte(offset, first).0, last);
    && forall k :: k in window && SizedBefore(size, window, k) ==>
                     k in size && (offset[k] < startOffset ==> size[k] != 0)
  }

  // ----- Offset propagation: update_offset_tree -----

  /** The run from which `update_offset_tree(start)` propagates: the one containing `Prev(start)`. */
  function Anchor(size: Tree, start: nat): nat
    requires HasFloor(size, Prev(start))
  {
    Lte(size, Prev(start)).0
  }

  /** The offset the propagation starts from: the anchor's current offset, or 0 if it has none. */
  function BaseOffset(size: Tree, offset: Tree, start: nat): nat
    requires HasFloor(size, Prev(start))
  {
    var a := Anchor(size, start);
    if a in offset then offset[a] else 0
  }

  /**
   The offset index after `update_offset_tree(start)`: every key of the size
   index from `Prev(start)` on gets the anchor's offset plus the summed size of
   the items from the anchor up to it; every other entry is left as it was.
   */
  function PropagatedOffsets(size: Tree, offset: Tree, start: nat): Tree
    requires HasFloor(size, Prev(start))
  {
    var a := Anchor(size, start);
    var base := BaseOffset(size, offset, start);
    offset + map k | k in KeysFrom(size, Prev(start)) :: base + Span(size, a, k)
  }

  /**
   The first insert seeds the size index with one run from item 0; the
   propagation from `start` writes offset 0 for it only when `start <= 1`,
   because from `start >= 2` on it visits no key at all.
   */
  lemma FirstInsertOffsets(size: nat, start: nat)
    ensures HasFloor(map[0 := size], Prev(start))
    ensures PropagatedOffsets(map[0 := size], map[], start) == if start <= 1 then map[0 := 0] else map[]
  {
    var m := map[0 := size];
    assert 0 in m && 0 <= Prev(start);
    if start <= 1 {
      assert KeysFrom(m, Prev(start)) == {0};
    } else {
      assert KeysFrom(m, Prev(start)) == {};
    }
  }

  /**
   Propagation follows the recurrence of `update_offset_tree`: a recomputed key
   `k` gets the offset of the run `p` before it plus `k - p` items of that run's
   size, where the anchor itself contributes the base offset.
   */
  lemma PropagationRecurrence(size: Tree, offset: Tree, start: nat, k: nat)
    requires HasFloor(size, Prev(start))
    requires k in size && Prev(start) <= k
    ensures var o := PropagatedOffsets(size, offset, start);
            var a := Anchor(size, start);
            var base := BaseOffset(size, offset, start);
            && k in o
            && (k == a ==> o[k] == base)
            && (k > a ==>
                  var p := Lte(size, k - 1).0;
                  && a <= p
                  && (p == a || p in o)
                  && o[k] == (if p == a then base else o[p]) + (k - p) * size[p])
  {
    var o := PropagatedOffsets(size, offset, start);
    var a := Anchor(size, start);
    assert k in KeysFrom(size, Prev(start));
    if k > a {
      var p := Lte(size, k - 1).0;
      LteIsGreatest(size, k - 1);
      LteIsGreatest(size, Prev(start));
      SpanRun(size, a, p, k);
      TimesIsProduct(k - p, size[p]);
      if p != a {
        assert p in KeysFrom(size, Prev(start));
      }
    }
  }

  /** The keys that propagation recomputes, in the order it visits them. */
  function Updated(size: Tree, start: nat): seq<nat>
  {
    Ascending(KeysFrom(size, Prev(start)))
  }

  /** Every recomputed key is a key of the size index and of the propagated offset index. */
  lemma UpdatedKeysFinal(size: Tree, offset: Tree, start: nat)
    requires HasFloor(size, Prev(start))
    ensures var u := Updated(size, start);
            forall i :: 0 <= i < |u| ==> u[i] in size && u[i] in PropagatedOffsets(size, offset, start)
  {
    AscendingInOrder(KeysFrom(size, Prev(start)));
  }

  /**
   Propagation visits the keys in order without skipping one: no key lies
   between the anchor and the first recomputed key, nor between two
   consecutive recomputed keys.
   */
  lemma PropagationGap(size: Tree, start: nat, i: nat)
    requires HasFloor(size, Prev(start))
    requires i < |Updated(size, start)|
    ensures var u := Updated(size, start);
            var p := if i == 0 then Anchor(size, start) else u[i - 1];
            && p in size && p <= u[i]
            && forall x :: p < x < u[i] ==> x !in size
  {
    var u := Updated(size, start);
    AscendingInOrder(KeysFrom(size, Prev(start)));
    LteIsGreatest(size, Prev(start));
    assert u[i] in KeysFrom(size, Prev(start));
    forall x | x in size && x < u[i] && (if i == 0 then Anchor(size, start) else u[i - 1]) < x
      ensures false
    {
      if x >= Prev(start) {
        var j := UpdatedIndex(size, start, x);
      }
    }
  }

  /** A key of the size index at or after `Prev(start)` has a position among the recomputed keys. */
  lemma UpdatedIndex(size: Tree, start: nat, x: nat) returns (j: nat)
    ensures x in size && Prev(start) <= x ==> j < |Updated(size, start)| && Updated(size, start)[j] == x
  {
    j := 0;
    if x in size && Prev(start) <= x {
      AscendingInOrder(KeysFrom(size, Prev(start)));
      assert x in KeysFrom(size, Prev(start));
      j :| 0 <= j < |Updated(size, start)| && Updated(size, start)[j] == x;
    }
  }

  /**
   One step of the propagation loop: the offset of the previous key plus
   `k - p` items of its size is the propagated offset of the next key `k`.
   */
  lemma PropagationStep(size: Tree, offset: Tree, start: nat, i: nat, index: nat,
                        prev: nat, prevSize: nat, prevOffset: nat, final: Tree)
    requires HasFloor(size, Prev(start))
    requires i < |Updated(size, start)| && index == Updated(size, start)[i]
    requires prev == if i == 0 then Anchor(size, start) else Updated(size, start)[i - 1]
    requires prev in size && prevSize == size[prev]
    requires prevOffset == BaseOffset(size, offset, start) + Span(size, Anchor(size, start), prev)
    requires final == PropagatedOffsets(size, offset, start)
    ensures index in size && index in final && prev <= index
    ensures final[index] == BaseOffset(size, offset, start) + Span(size, Anchor(size, start), index)
    ensures 0 <= (index - prev) * prevSize && (index - prev) * prevSize + prevOffset == final[index]
  {
    var u := Updated(size, start);
    PropagationGap(size, start, i);
    UpdatedKeysFinal(size, offset, start);
    AscendingInOrder(KeysFrom(size, Prev(start)));
    assert index in KeysFrom(size, Prev(start));
    assert Anchor(size, start) <= prev by {
      if i > 0 {
        assert u[i - 1] in KeysFrom(size, Prev(start));
      }
    }
    SpanRun(size, Anchor(size, start), prev, index);
    TimesIsProduct(index - prev, prevSize);
  }

  /** `offset` with the entries of `vals` at `keys` written over it. */
  function Overlay(offset: Tree, keys: seq<nat>, vals: Tree): Tree
    requires forall j :: 0 <= j < |keys| ==> keys[j] in vals
  {
    offset + map k | k in keys :: vals[k]
  }

  /** Writing one more key overlays its entry and nothing else. */
  lemma OverlayStep(offset: Tree, keys: seq<nat>, vals: Tree, n: nat, before: Tree, key: nat, value: nat)
    requires forall j :: 0 <= j < |keys| ==> keys[j] in vals
    requires n < |keys| && key == keys[n] && value == vals[key]
    requires before == Overlay(offset, keys[..n], vals)
    ensures before[key := value] == Overlay(offset, keys[..n + 1], vals)
  {
    var after := Overlay(offset, keys[..n + 1], vals);
    assert keys[..n + 1] == keys[..n] + [key];
    forall x | x in after
      ensures x in before[key := value] && after[x] == before[key := value][x]
    {
      if x != key && x in keys[..n + 1] {
        assert x in keys[..n];
      }
    }
  }

  /** Overlaying every recomputed offset onto the old index gives the propagated index. */
  lemma OverlayPropagates(size: Tree, offset: Tree, start: nat)
    requires HasFloor(size, Prev(start))
    requires forall j :: 0 <= j < |Updated(size, start)| ==> Updated(size, start)[j] in PropagatedOffsets(size, offset, start)
    ensures Overlay(offset, Updated(size, start), PropagatedOffsets(size, offset, start)) == PropagatedOffsets(size, offset, start)
  {
    var u := Updated(size, start);
    var o := PropagatedOffsets(size, offset, start);
    var r := Overlay(offset, u, o);
    forall x | x in o
      ensures x in r && r[x] == o[x]
    {
      if x in KeysFrom(size, Prev(start)) {
        AscendingInOrder(KeysFrom(size, Prev(start)));
        assert x in u;
      }
    }
  }

  /**
   The state of the propagation loop after it has visited the first `i`
   recomputed keys: the previous run, its size and offset, and the two
   indices written so far.
   */
  ghost predicate PropagationInvariant(size: Tree, offset: Tree, pixel: Tree, start: nat, i: nat,
                                       prev: nat, prevSize: nat, prevOffset: nat, offsetMap: Tree, pixelMap: Tree)
  {
    && HasFloor(size, Prev(start))
    && var u := Updated(size, start);
    && var final := PropagatedOffsets(size, offset, start);
    && i <= |u|
    && (forall j :: 0 <= j < |u| ==> u[j] in final)
    && prev in size && prevSize == size[prev]
    && prev == (if i == 0 then Anchor(size, start) else u[i - 1])
    && prevOffset == BaseOffset(size, offset, start) + Span(size, Anchor(size, start), prev)
    && offsetMap == Overlay(offset, u[..i], final)
    && WritePixelsFrom(pixelMap, u, i, final) == WritePixelsFrom(pixel, u, 0, final)
  }

  /** The loop starts from the anchor, its old offset and the untouched indices. */
  lemma PropagationStarts(size: Tree, offset: Tree, pixel: Tree, start: nat)
    requires HasFloor(size, Prev(start))
    ensures var a := Anchor(size, start);
            PropagationInvariant(size, offset, pixel, start, 0, a, size[a], BaseOffset(size, offset, start), offset, pixel)
  {
    UpdatedKeysFinal(size, offset, start);
    assert Updated(size, start)[..0] == [];
  }

  /** The next key to visit is a run after the previous one. */
  lemma PropagationOrder(size: Tree, offset: Tree, pixel: Tree, start: nat, i: nat,
                         prev: nat, prevSize: nat, prevOffset: nat, offsetMap: Tree, pixelMap: Tree)
    requires PropagationInvariant(size, offset, pixel, start, i, prev, prevSize, prevOffset, offsetMap, pixelMap)
    requires i < |Updated(size, start)|
    ensures Updated(size, start)[i] in size && prev <= Updated(size, start)[i]
    ensures 0 <= (Updated(size, start)[i] - prev) * prevSize
  {
    var index := Updated(size, start)[i];
    PropagationStep(size, offset, start, i, index, prev, prevSize, prevOffset, PropagatedOffsets(size, offset, start));
  }

  /**
   One turn of the loop: the next key `index` gets the previous offset plus
   `index - prev` items of the previous size, and both indices record it.
   */
  lemma PropagationAdvances(size: Tree, offset: Tree, pixel: Tree, start: nat, i: nat,
                            prev: nat, prevSize: nat, prevOffset: nat, offsetMap: Tree, pixelMap: Tree,
                            index: nat, indexSize: nat, indexOffset: nat)
    requires PropagationInvariant(size, offset, pixel, start, i, prev, prevSize, prevOffset, offsetMap, pixelMap)
    requires i < |Updated(size, start)| && index == Updated(size, start)[i]
    requires index in size && indexSize == size[index] && prev <= index
    requires indexOffset == (index - prev) * prevSize + prevOffset
    ensures PropagationInvariant(size, offset, pixel, start, i + 1, index, indexSize, indexOffset,
                                 offsetMap[index := indexOffset], pixelMap[indexOffset := index])
  {
    var final := PropagatedOffsets(size, offset, start);
    var u := Updated(size, start);
    PropagationStep(size, offset, start, i, index, prev, prevSize, prevOffset, final);
    OverlayStep(offset, u, final, i, offsetMap, index, indexOffset);
  }

  /** When every key has been visited the two indices are the propagated ones. */
  lemma PropagationEnds(size: Tree, offset: Tree, pixel: Tree, start: nat,
                        prev: nat, prevSize: nat, prevOffset: nat, offsetMap: Tree, pixelMap: Tree)
    requires HasFloor(size, Prev(start))
    requires PropagationInvariant(size, offset, pixel, start, |Updated(size, start)|, prev, prevSize, prevOffset, offsetMap, pixelMap)
    ensures offsetMap == PropagatedOffsets(size, offset, start)
    ensures var u := Updated(size, start);
            (forall j :: 0 <= j < |u| ==> u[j] in offsetMap)
            && pixelMap == WritePixels(pixel, u, offsetMap)
  {
    var u := Updated(size, start);
    assert u[..|u|] == u && u[0..] == u;
    OverlayPropagates(size, offset, start);
    WritePixelsFromSuffix(pixel, u, 0, PropagatedOffsets(size, offset, start));
  }

  /** Outside `Prev(start)..`, propagation leaves the offset index as it was. */
  lemma PropagationKeepsBelow(size: Tree, offset: Tree, start: nat, k: nat)
    requires HasFloor(size, Prev(start))
    requires k < Prev(start) || k !in size
    ensures var o := PropagatedOffsets(size, offset, start);
            (k in o <==> k in offset) && (k in offset ==> o[k] == offset[k])
  {
    assert k !in KeysFrom(size, Prev(start));
  }

  /**
   Propagation repairs the offset index: when the offset index holds only keys
   of the size index, is right for every key before `Prev(start)`, and the
   anchor's offset (0 when it has none) is right, the propagated index is
   synced.
   */
  lemma PropagationSyncs(size: Tree, offset: Tree, start: nat)
    requires 0 in size
    requires offset.Keys <= size.Keys
    requires forall k :: k in size && k < Prev(start) ==> k in offset && offset[k] == Span(size, 0, k)
    requires HasFloor(size, Prev(start)) ==> BaseOffset(size, offset, start) == Span(size, 0, Anchor(size, start))
    ensures HasFloor(size, Prev(start))
    ensures Synced(size, PropagatedOffsets(size, offset, start))
  {
    assert HasFloor(size, Prev(start)) by { assert 0 in size && 0 <= Prev(start); }
    var o := PropagatedOffsets(size, offset, start);
    var a := Anchor(size, start);
    forall k | k in size
      ensures k in o && o[k] == Span(size, 0, k)
    {
      if k >= Prev(start) {
        assert k in KeysFrom(size, Prev(start));
        SpanSplit(size, 0, a, k);
      }
    }
  }

  // ----- The general path of insert -----

  /**
   The run starts that the general path of `insert(start, end, size)` removes:
   every key after the anchor up to `end + 1` that starts inside the new run or
   has the new size (and so merges with it).
   */
  function Removed(m: Tree, start: nat, end: nat, size: nat): set<nat>
    requires HasFloor(m, Prev(start))
  {
    set k | k in m && Anchor(m, start) < k <= end + 1 && (k <= end || m[k] == size)
  }

  /** The run that contains `end + 1` before the insert. */
  function TailRun(m: Tree, start: nat, end: nat): (nat, nat)
    requires HasFloor(m, Prev(start)) && start <= end
  {
    FloorMono(m, Prev(start), end + 1);
    Lte(m, end + 1)
  }

  /** `insert` adds a key at `end + 1` to restore the size of a run it covered only in part. */
  predicate RestoresTail(m: Tree, start: nat, end: nat, size: nat)
    requires HasFloor(m, Prev(start)) && start <= end
  {
    TailRun(m, start, end).0 <= end && TailRun(m, start, end).1 != size
  }

  /** `insert` adds a key at `start`, unless the run before it already has the new size. */
  predicate StartsRun(m: Tree, start: nat, size: nat)
    requires HasFloor(m, Prev(start))
  {
    m[Anchor(m, start)] != size
  }

  /**
   The size index after the general path of `insert(start, end, size)`: the
   removed keys are gone, `end + 1` restores the tail of a partly covered run,
   and `start` begins the new run.
   */
  function InsertedSizes(m: Tree, start: nat, end: nat, size: nat): Tree
    requires HasFloor(m, Prev(start)) && start <= end
  {
    var kept := m - Removed(m, start, end, size);
    var tail := if RestoresTail(m, start, end, size) then kept[end + 1 := TailRun(m, start, end).1] else kept;
    if StartsRun(m, start, size) then tail[start := size] else tail
  }

  /** The keys and values of `InsertedSizes`, one key at a time. */
  lemma InsertedKey(m: Tree, start: nat, end: nat, size: nat, k: nat)
    requires HasFloor(m, Prev(start)) && start <= end
    ensures var m' := InsertedSizes(m, start, end, size);
            && (k in m' <==>
                  (k == start && StartsRun(m, start, size))
                  || (k == end + 1 && RestoresTail(m, start, end, size))
                  || (k in m && k !in Removed(m, start, end, size)))
            && (k in m' ==>
                  m'[k] == if k == start && StartsRun(m, start, size) then size
                           else if k == end + 1 && RestoresTail(m, start, end, size) then TailRun(m, start, end).1
                           else m[k])
  {
  }

  /**
   Viewed as a function from item to size, the general insert sets every item
   of `start..=end` to `size` and leaves every other item as it was.
   */
  lemma {:induction false} InsertSetsSizes(m: Tree, start: nat, end: nat, size: nat, i: nat)
    requires HasFloor(m, Prev(start)) && start <= end
    ensures SizeAt(InsertedSizes(m, start, end, size), i) == if start <= i <= end then Some(size) else SizeAt(m, i)
    decreases i
  {
    var m' := InsertedSizes(m, start, end, size);
    var f := Anchor(m, start);
    InsertedKey(m, start, end, size, i);
    LteIsGreatest(m, Prev(start));
    if i in m' {
      if i == end + 1 && RestoresTail(m, start, end, size) {
        SizeAtIsLte(m, end + 1);
      } else if !(i == start && StartsRun(m, start, size)) {
        assert i in m && i !in Removed(m, start, end, size);
        if start <= i <= end {
          assert i == f;
        }
      }
    } else if i == 0 {
      assert f in m && f !in Removed(m, start, end, size);
      InsertedKey(m, start, end, size, f);
      assert 0 !in m;
    } else {
      InsertSetsSizes(m, start, end, size, i - 1);
      if i == start {
        SizeAtIsLte(m, Prev(start));
      } else if i == end + 1 {
        SizeAtIsLte(m, end + 1);
        LteIsGreatest(m, end + 1);
      } else if i < start || i > end + 1 {
        assert i !in m;
      }
    }
  }

  /** The anchor survives the insert, so the size index still covers `Prev(start)` afterwards. */
  lemma InsertedKeepsAnchor(m: Tree, start: nat, end: nat, size: nat)
    requires HasFloor(m, Prev(start)) && start <= end
    ensures Anchor(m, start) in InsertedSizes(m, start, end, size)
    ensures HasFloor(InsertedSizes(m, start, end, size), Prev(start))
  {
    InsertedKey(m, start, end, size, Anchor(m, start));
  }

  /** The general insert never leaves two neighbouring runs with the same size. */
  lemma InsertKeepsCoalesced(m: Tree, start: nat, end: nat, size: nat)
    requires HasFloor(m, Prev(start)) && start <= end
    requires Coalesced(m)
    ensures Coalesced(InsertedSizes(m, start, end, size))
  {
    var m' := InsertedSizes(m, start, end, size);
    forall k | k in m' && k > 0
      ensures SizeAt(m', k - 1) != Some(m'[k])
    {
      InsertKeepsCoalescedAt(m, start, end, size, k);
    }
  }

  lemma InsertKeepsCoalescedAt(m: Tree, start: nat, end: nat, size: nat, k: nat)
    requires HasFloor(m, Prev(start)) && start <= end
    requires Coalesced(m)
    requires k in InsertedSizes(m, start, end, size) && k > 0
    ensures SizeAt(InsertedSizes(m, start, end, size), k - 1) != Some(InsertedSizes(m, start, end, size)[k])
  {
    InsertedKey(m, start, end, size, k);
    InsertSetsSizes(m, start, end, size, k - 1);
    if k == start && StartsRun(m, start, size) {
      SizeAtIsLte(m, Prev(start));
    } else if !(k == end + 1 && RestoresTail(m, start, end, size)) {
      LteIsGreatest(m, Prev(start));
    }
  }

  /** Two coalesced size indices that give every item the same size are equal. */
  lemma CoalescedUnique(a: Tree, b: Tree)
    requires Coalesced(a) && Coalesced(b)
    requires forall i :: SizeAt(a, i) == SizeAt(b, i)
    ensures a == b
  {
    forall k | k in a
      ensures k in b && b[k] == a[k]
    {
      CoalescedKey(a, b, k);
    }
    forall k | k in b
      ensures k in a
    {
      CoalescedKey(b, a, k);
    }
  }

  lemma CoalescedKey(a: Tree, b: Tree, k: nat)
    requires Coalesced(a) && k in a
    requires SizeAt(a, k) == SizeAt(b, k)
    requires k > 0 ==> SizeAt(a, k - 1) == SizeAt(b, k - 1)
    ensures k in b && b[k] == a[k]
  {
  }

  /** The general insert keeps the run that contains `Prev(start)` where it was. */
  lemma InsertedAnchor(m: Tree, start: nat, end: nat, size: nat)
    requires HasFloor(m, Prev(start)) && start <= end
    ensures HasFloor(InsertedSizes(m, start, end, size), Prev(start))
    ensures Anchor(InsertedSizes(m, start, end, size), start) == Anchor(m, start)
  {
    var m' := InsertedSizes(m, start, end, size);
    InsertedKeepsAnchor(m, start, end, size);
    LteIsGreatest(m, Prev(start));
    LteIsGreatest(m', Prev(start));
    InsertedKey(m, start, end, size, Anchor(m', start));
  }

  /**
   Inserting the same run twice changes nothing the second time, whatever the
   size index was before: the first insert already gives items `start..=end`
   the new size, so the second removes at most the key at `start` and puts it
   back with the same size.
   */
  lemma InsertIdempotent(m: Tree, start: nat, end: nat, size: nat)
    requires HasFloor(m, Prev(start)) && start <= end
    ensures HasFloor(InsertedSizes(m, start, end, size), Prev(start))
    ensures var m' := InsertedSizes(m, start, end, size);
            InsertedSizes(m', start, end, size) == m'
  {
    var m' := InsertedSizes(m, start, end, size);
    var a := Anchor(m, start);
    InsertedAnchor(m, start, end, size);
    LteIsGreatest(m, Prev(start));
    InsertedKey(m, start, end, size, a);
    assert StartsRun(m', start, size) <==> StartsRun(m, start, size) && start > 0;
    assert !RestoresTail(m', start, end, size) by {
      InsertSetsSizes(m, start, end, size, end);
      FloorMono(m', Prev(start), end + 1);
      SizeAtIsLte(m', end + 1);
    }
    forall k | k in Removed(m', start, end, size)
      ensures k == start && StartsRun(m, start, size)
    {
      InsertedKey(m, start, end, size, k);
    }
    var m'' := InsertedSizes(m', start, end, size);
    forall k
      ensures (k in m'' <==> k in m') && (k in m'' ==> m''[k] == m'[k])
    {
      InsertedKey(m', start, end, size, k);
      InsertedKey(m, start, end, size, k);
    }
  }

  /**
   The general insert keeps the list synced: with the removed keys dropped
   from the offset index, propagating from `start` gives every run of the new
   size index its summed-size offset.
   */
  lemma InsertResyncs(m: Tree, offset: Tree, start: nat, end: nat, size: nat)
    requires Synced(m, offset)
    requires start <= end
    ensures HasFloor(m, Prev(start))
    ensures HasFloor(InsertedSizes(m, start, end, size), Prev(start))
    ensures Synced(InsertedSizes(m, start, end, size),
                   PropagatedOffsets(InsertedSizes(m, start, end, size), offset - Removed(m, start, end, size), start))
  {
    assert 0 in m && 0 <= Prev(start);
    var m' := InsertedSizes(m, start, end, size);
    var o' := offset - Removed(m, start, end, size);
    InsertedKeepsAnchor(m, start, end, size);
    InsertedKey(m, start, end, size, 0);
    forall k | k in o'
      ensures k in m'
    {
      InsertedKey(m, start, end, size, k);
    }
    forall k | k in m' && k <= Prev(start)
      ensures k in o' && o'[k] == Span(m', 0, k)
    {
      InsertedKey(m, start, end, size, k);
      forall j | 0 <= j < k
        ensures SizeAt(m, j) == SizeAt(m', j)
      {
        InsertSetsSizes(m, start, end, size, j);
      }
      SpanAgree(m, m', 0, k);
    }
    PropagationSyncs(m', o', start);
  }

  /**
   The general insert keeps the offset index on the keys of the size index,
   whether or not the offsets it holds are correct: the removed runs leave
   both indices and the propagation from `start` writes every new run start.
   */
  lemma InsertKeepsKeys(m: Tree, offset: Tree, start: nat, end: nat, size: nat)
    requires HasFloor(m, Prev(start)) && start <= end
    requires offset.Keys == m.Keys
    ensures HasFloor(InsertedSizes(m, start, end, size), Prev(start))
    ensures PropagatedOffsets(InsertedSizes(m, start, end, size), offset - Removed(m, start, end, size), start).Keys
            == InsertedSizes(m, start, end, size).Keys
  {
    var m' := InsertedSizes(m, start, end, size);
    var o' := offset - Removed(m, start, end, size);
    InsertedKeepsAnchor(m, start, end, size);
    var p := PropagatedOffsets(m', o', start);
    forall k | k in p
      ensures k in m'
    {
      InsertedKey(m, start, end, size, k);
    }
    forall k | k in m'
      ensures k in p
    {
      InsertedKey(m, start, end, size, k);
      if k !in o' {
        assert k in KeysFrom(m', Prev(start));
      }
    }
  }

  // ----- The loop of the general insert -----

  /** The loop of `insert` removes a run it visits after the first when it starts inside the new run or has its size. */
  predicate Absorbed(r: Range, end: nat, size: nat)
  {
    end >= r.start || size == r.size
  }

  /** The loop of `insert` restores a tail at run `r` when `r` starts at or before `end`, runs past it and has another size. */
  predicate SplitsTail(r: Range, end: nat, size: nat)
  {
    r.end > end && end >= r.start && r.size != size
  }

  /** The run starts the loop of `insert` has removed after visiting `ranges[..i]`. */
  function Dropped(ranges: seq<Range>, i: nat, end: nat, size: nat): set<nat>
  {
    set j | 1 <= j < i && j < |ranges| && Absorbed(ranges[j], end, size) :: ranges[j].start
  }

  /** The offsets recorded for `keys`: the pixel entries that `remove_index` deletes with them. */
  function OffsetsOf(offset: Tree, keys: set<nat>): set<nat>
  {
    set k | k in keys && k in offset :: offset[k]
  }

  /**
   The runs of the general insert, `ranges_within(size, Prev(start), end + 1)`,
   remove exactly the keys `Removed`, and only the last of them, when it covers
   `end + 1` from before `end + 1`, restores a tail.
   */
  lemma MergeRuns(m: Tree, start: nat, end: nat, size: nat, ranges: seq<Range>)
    requires HasFloor(m, Prev(start)) && start <= end < LAST_RANGE_END
    requires OverlappingRuns(m, Prev(start), end + 1, ranges)
    ensures Dropped(ranges, |ranges|, end, size) == Removed(m, start, end, size)
    ensures ranges[0].size == m[Anchor(m, start)]
    ensures forall j :: 0 <= j < |ranges| ==>
              (SplitsTail(ranges[j], end, size) <==> j == |ranges| - 1 && RestoresTail(m, start, end, size))
    ensures ranges[|ranges| - 1].start == TailRun(m, start, end).0
    ensures ranges[|ranges| - 1].size == TailRun(m, start, end).1
  {
    var a := Anchor(m, start);
    var n := |ranges|;
    var keys := KeysBetween(m, a, end + 1);
    assert ranges[0].start in Starts(ranges);
    forall x | x in Dropped(ranges, n, end, size)
      ensures x in Removed(m, start, end, size)
    {
      var j :| 1 <= j < n && Absorbed(ranges[j], end, size) && ranges[j].start == x;
      assert x in Starts(ranges);
      assert ranges[0].start < x;
    }
    forall x | x in Removed(m, start, end, size)
      ensures x in Dropped(ranges, n, end, size)
    {
      assert x in keys;
      var j :| 0 <= j < n && ranges[j].start == x;
      assert j != 0;
    }
    forall k | k in keys
      ensures k <= ranges[n - 1].start
    {
      var j :| 0 <= j < n && ranges[j].start == k;
      assert j == n - 1 || ranges[j].start < ranges[n - 1].start;
    }
    assert ranges[n - 1].start in Starts(ranges);
    FloorMono(m, Prev(start), end + 1);
    LteIsGreatest(m, end + 1);
    assert Lte(m, end + 1).0 in keys;
    forall j | 0 <= j < n - 1
      ensures !SplitsTail(ranges[j], end, size)
    {
      assert ranges[j + 1].start in Starts(ranges);
    }
  }

  /** One visit of the loop of `insert`: what the first visit records and what a later one removes. */
  lemma DroppedStep(ranges: seq<Range>, i: nat, end: nat, size: nat)
    requires i < |ranges|
    requires forall j, l :: 0 <= j < l < |ranges| ==> ranges[j].start < ranges[l].start
    ensures ranges[i].start !in Dropped(ranges, i, end, size)
    ensures Dropped(ranges, i + 1, end, size)
            == if i >= 1 && Absorbed(ranges[i], end, size) then Dropped(ranges, i, end, size) + {ranges[i].start}
               else Dropped(ranges, i, end, size)
    ensures i >= 1 && Absorbed(ranges[i], end, size) ==> ranges[i].start in Dropped(ranges, |ranges|, end, size)
  {
  }

  /**
   The state of the loop of `insert` after visiting `ranges[..i]`: the dropped
   runs are gone from the three indices, the first visit has recorded whether
   the new run needs a key of its own, and after the last visit the tail is
   restored.
   */
  ghost predicate MergeInvariant(m: Tree, o: Tree, p: Tree, start: nat, end: nat, size: nat, ranges: seq<Range>,
                                 i: nat, sizes: Tree, offsets: Tree, pixels: Tree,
                                 firstPassDone: bool, shouldInsert: bool)
    requires HasFloor(m, Prev(start)) && start <= end
  {
    var gone := Dropped(ranges, i, end, size);
    && i <= |ranges|
    && firstPassDone == (i > 0)
    && shouldInsert == (i > 0 && StartsRun(m, start, size))
    && offsets == o - gone
    && pixels == p - OffsetsOf(o, gone)
    && sizes == if i == |ranges| && RestoresTail(m, start, end, size) then (m - gone)[end + 1 := TailRun(m, start, end).1]
                else m - gone
  }

  lemma MergeStarts(m: Tree, o: Tree, p: Tree, start: nat, end: nat, size: nat, ranges: seq<Range>)
    requires HasFloor(m, Prev(start)) && start <= end
    requires |ranges| > 0
    ensures MergeInvariant(m, o, p, start, end, size, ranges, 0, m, o, p, false, false)
  {
    assert Dropped(ranges, 0, end, size) == {};
    assert OffsetsOf(o, {}) == {};
  }

  /**
   One visit of the loop of `insert`, given the state before it and the state
   it leaves: the run is removed if absorbed, and the tail restored if split.
   */
  lemma MergeAdvances(m: Tree, o: Tree, p: Tree, start: nat, end: nat, size: nat, ranges: seq<Range>,
                      i: nat, sizes: Tree, offsets: Tree, pixels: Tree, firstPassDone: bool, shouldInsert: bool,
                      sizes': Tree, offsets': Tree, pixels': Tree, firstPassDone': bool, shouldInsert': bool)
    requires HasFloor(m, Prev(start)) && start <= end < LAST_RANGE_END
    requires OverlappingRuns(m, Prev(start), end + 1, ranges)
    requires Removed(m, start, end, size) <= o.Keys
    requires MergeInvariant(m, o, p, start, end, size, ranges, i, sizes, offsets, pixels, firstPassDone, shouldInsert)
    requires i < |ranges|
    requires var r := ranges[i];
             var removes := i >= 1 && Absorbed(r, end, size);
             var sizes1 := if removes then sizes - {r.start} else sizes;
             && firstPassDone' && shouldInsert' == (if i == 0 then r.size != size else shouldInsert)
             && offsets' == (if removes then offsets - {r.start} else offsets)
             && pixels' == (if removes && r.start in offsets then pixels - {offsets[r.start]} else pixels)
             && sizes' == if SplitsTail(r, end, size) then sizes1[end + 1 := r.size] else sizes1
    ensures MergeInvariant(m, o, p, start, end, size, ranges, i + 1, sizes', offsets', pixels', firstPassDone', shouldInsert')
  {
    MergeRuns(m, start, end, size, ranges);
    DroppedStep(ranges, i, end, size);
    var r := ranges[i];
    var removes := i >= 1 && Absorbed(r, end, size);
    if removes {
      assert r.start in o;
    }
    MergeDropStep(m, o, p, Dropped(ranges, i, end, size), Dropped(ranges, i + 1, end, size), r.start, removes);
    assert SplitsTail(r, end, size) <==> i + 1 == |ranges| && RestoresTail(m, start, end, size);
    if SplitsTail(r, end, size) {
      assert r.size == TailRun(m, start, end).1;
    }
  }

  /** Removing one more run from the three indices is removing it together with the runs already gone. */
  lemma MergeDropStep(m: Tree, o: Tree, p: Tree, gone: set<nat>, gone': set<nat>, k: nat, removes: bool)
    requires gone' == if removes then gone + {k} else gone
    requires removes ==> k in o && k !in gone
    ensures (if removes then (m - gone) - {k} else m - gone) == m - gone'
    ensures (if removes then (o - gone) - {k} else o - gone) == o - gone'
    ensures (if removes && k in o - gone then (p - OffsetsOf(o, gone)) - {(o - gone)[k]} else p - OffsetsOf(o, gone))
            == p - OffsetsOf(o, gone')
  {
    if removes {
      DropOne(m, gone, k);
      DropOne(o, gone, k);
      OffsetsOfOne(o, gone, k);
    }
  }

  lemma OffsetsOfOne(o: Tree, gone: set<nat>, k: nat)
    requires k in o
    ensures OffsetsOf(o, gone + {k}) == OffsetsOf(o, gone) + {o[k]}
  {
  }

  lemma DropOne(t: Tree, gone: set<nat>, k: nat)
    ensures (t - gone) - {k} == t - (gone + {k})
  {
  }

  /** A run the loop of `insert` absorbs still has its offset, so `remove_index` finds it. */
  lemma MergeCanRemove(m: Tree, o: Tree, p: Tree, start: nat, end: nat, size: nat, ranges: seq<Range>,
                       i: nat, sizes: Tree, offsets: Tree, pixels: Tree, firstPassDone: bool, shouldInsert: bool)
    requires HasFloor(m, Prev(start)) && start <= end < LAST_RANGE_END
    requires OverlappingRuns(m, Prev(start), end + 1, ranges)
    requires Removed(m, start, end, size) <= o.Keys
    requires MergeInvariant(m, o, p, start, end, size, ranges, i, sizes, offsets, pixels, firstPassDone, shouldInsert)
    requires 1 <= i < |ranges| && Absorbed(ranges[i], end, size)
    ensures ranges[i].start in offsets
  {
    MergeRuns(m, start, end, size, ranges);
    DroppedStep(ranges, i, end, size);
  }

  /**
   After the last visit, adding the new run's key when the first visit asked
   for it gives the closed form of the general insert.
   */
  lemma MergeEnds(m: Tree, o: Tree, p: Tree, start: nat, end: nat, size: nat, ranges: seq<Range>,
                  sizes: Tree, offsets: Tree, pixels: Tree, firstPassDone: bool, shouldInsert: bool)
    requires HasFloor(m, Prev(start)) && start <= end < LAST_RANGE_END
    requires OverlappingRuns(m, Prev(start), end + 1, ranges)
    requires MergeInvariant(m, o, p, start, end, size, ranges, |ranges|, sizes, offsets, pixels, firstPassDone, shouldInsert)
    ensures shouldInsert == StartsRun(m, start, size)
    ensures (if shouldInsert then sizes[start := size] else sizes) == InsertedSizes(m, start, end, size)
    ensures offsets == o - Removed(m, start, end, size)
    ensures pixels == p - OffsetsOf(o, Removed(m, start, end, size))
  {
    MergeRuns(m, start, end, size, ranges);
  }

  // ----- Spot reservation: insert_spots -----

  /**
   The size index that `insert_spots(spots, size)` writes into an empty one:
   for each spot in turn, the spot starts a run of `size` and the next index a
   placeholder run of size 0.
   */
  function SpotSizes(spots: seq<nat>, size: nat): Tree
    decreases |spots|
  {
    if spots == [] then map[]
    else
      var last := spots[|spots| - 1];
      SpotSizes(spots[..|spots| - 1], size)[last := size][last + 1 := 0]
  }

  /** Some spot of `spots` lies right before `k`. */
  predicate FollowsSpot(spots: seq<nat>, k: nat)
  {
    exists j :: 0 <= j < |spots| && spots[j] + 1 == k
  }

  /**
   The reserved spots have keys of their own and placeholders right after
   them: `k` is a key exactly when it is a spot or follows one; a spot that
   follows no spot has the given size, and an index that follows a spot and is
   no spot itself is a placeholder.
   */
  lemma {:induction false} SpotsLayout(spots: seq<nat>, size: nat, k: nat)
    ensures k in SpotSizes(spots, size) <==> k in spots || FollowsSpot(spots, k)
    ensures k in spots && !FollowsSpot(spots, k) ==> SpotSizes(spots, size)[k] == size
    ensures k !in spots && FollowsSpot(spots, k) ==> SpotSizes(spots, size)[k] == 0
    decreases |spots|
  {
    if spots != [] {
      var init := spots[..|spots| - 1];
      var last := spots[|spots| - 1];
      SpotsLayout(init, size, k);
      assert spots == init + [last];
      assert k in spots <==> k in init || k == last;
      assert FollowsSpot(spots, k) <==> FollowsSpot(init, k) || last + 1 == k by {
        if FollowsSpot(spots, k) && last + 1 != k {
          var j :| 0 <= j < |spots| && spots[j] + 1 == k;
          assert init[j] + 1 == k;
        }
        if FollowsSpot(init, k) {
          var j :| 0 <= j < |init| && init[j] + 1 == k;
          assert spots[j] + 1 == k;
        }
      }
    }
  }

  /** Reserving spots from item 0 on and propagating from 0 syncs the offset index. */
  lemma SpotsSync(spots: seq<nat>, size: nat)
    requires 0 in spots
    ensures 0 in SpotSizes(spots, size)
    ensures Synced(SpotSizes(spots, size), PropagatedOffsets(SpotSizes(spots, size), map[], 0))
  {
    SpotsLayout(spots, size, 0);
    PropagationSyncs(SpotSizes(spots, size), map[], 0);
  }

  // ----- Pixel index: the writes of update_offset_tree -----

  /**
   The pixel index after writing `pixel[offset[k]] := k` for every key of
   `keys` in turn, first to last.
   */
  function WritePixels(pixel: Tree, keys: seq<nat>, offset: Tree): Tree
    requires forall i :: 0 <= i < |keys| ==> keys[i] in offset
    decreases |keys|
  {
    if keys == [] then pixel
    else WritePixels(pixel[offset[keys[0]] := keys[0]], keys[1..], offset)
  }

  /** Writing the keys from position `i` on, one index at a time. */
  function WritePixelsFrom(pixel: Tree, keys: seq<nat>, i: nat, offset: Tree): Tree
    requires forall j :: 0 <= j < |keys| ==> keys[j] in offset
    decreases |keys| - i
  {
    if i >= |keys| then pixel
    else WritePixelsFrom(pixel[offset[keys[i]] := keys[i]], keys, i + 1, offset)
  }

  /** Writing from position `i` on is writing the suffix `keys[i..]`. */
  lemma {:induction false} WritePixelsFromSuffix(pixel: Tree, keys: seq<nat>, i: nat, offset: Tree)
    requires forall j :: 0 <= j < |keys| ==> keys[j] in offset
    requires i <= |keys|
    ensures WritePixelsFrom(pixel, keys, i, offset) == WritePixels(pixel, keys[i..], offset)
    decreases |keys| - i
  {
    if i < |keys| {
      WritePixelsFromSuffix(pixel[offset[keys[i]] := keys[i]], keys, i + 1, offset);
      assert keys[i..][0] == keys[i];
      assert keys[i..][1..] == keys[i + 1..];
    }
  }

  /**
   The pixel index after `update_offset_tree(start)`: each recomputed key, in
   increasing order, is written at its propagated offset.
   */
  function PropagatedPixels(size: Tree, offset: Tree, pixel: Tree, start: nat): Tree
    requires HasFloor(size, Prev(start))
  {
    UpdatedKeysFinal(size, offset, start);
    WritePixels(pixel, Updated(size, start), PropagatedOffsets(size, offset, start))
  }

  /** The offsets that writing `keys` touches. */
  function Written(keys: seq<nat>, offset: Tree): set<nat>
    requires forall i :: 0 <= i < |keys| ==> keys[i] in offset
  {
    set i | 0 <= i < |keys| :: offset[keys[i]]
  }

  /** An offset that no key writes keeps its old entry. */
  lemma {:induction false} PixelsKeep(pixel: Tree, keys: seq<nat>, offset: Tree, o: nat)
    requires forall i :: 0 <= i < |keys| ==> keys[i] in offset
    requires o !in Written(keys, offset)
    ensures var w := WritePixels(pixel, keys, offset);
            (o in w <==> o in pixel) && (o in pixel ==> w[o] == pixel[o])
    decreases |keys|
  {
    if keys != [] {
      assert offset[keys[0]] != o;
      var rest := keys[1..];
      assert o !in Written(rest, offset) by {
        forall i | 0 <= i < |rest|
          ensures offset[rest[i]] != o
        {
          assert rest[i] == keys[i + 1];
        }
      }
      PixelsKeep(pixel[offset[keys[0]] := keys[0]], rest, offset, o);
    }
  }

  /**
   The last write to an offset wins: the offset written by `keys[i]` ends up
   holding a key from `keys[i..]` that has the same offset.
   */
  lemma {:induction false} LastWriteWins(pixel: Tree, keys: seq<nat>, offset: Tree, i: nat)
    requires forall j :: 0 <= j < |keys| ==> keys[j] in offset
    requires i < |keys|
    ensures var w := WritePixels(pixel, keys, offset);
            && offset[keys[i]] in w
            && w[offset[keys[i]]] in keys[i..]
            && w[offset[keys[i]]] in offset
            && offset[w[offset[keys[i]]]] == offset[keys[i]]
    decreases |keys|
  {
    var rest := keys[1..];
    var p := pixel[offset[keys[0]] := keys[0]];
    var w := WritePixels(pixel, keys, offset);
    assert w == WritePixels(p, rest, offset);
    if i > 0 {
      LastWriteWins(p, rest, offset, i - 1);
      assert rest[i - 1] == keys[i];
      assert rest[i - 1..] == keys[i..];
    } else {
      var o := offset[keys[0]];
      if o in Written(rest, offset) {
        var j :| 0 <= j < |rest| && offset[rest[j]] == o;
        LastWriteWins(p, rest, offset, j);
        assert rest[j..] == keys[j + 1..];
        assert w[o] in keys[j + 1..];
      } else {
        PixelsKeep(p, rest, offset, o);
      }
    }
  }

  /**
   When offsets strictly increase along `keys` (as they do when every run has a
   positive size), the written pixel index inverts them exactly.
   */
  lemma PixelsInvert(pixel: Tree, keys: seq<nat>, offset: Tree, i: nat)
    requires forall j :: 0 <= j < |keys| ==> keys[j] in offset
    requires forall j, l :: 0 <= j < l < |keys| ==> offset[keys[j]] < offset[keys[l]]
    requires i < |keys|
    ensures offset[keys[i]] in WritePixels(pixel, keys, offset)
    ensures WritePixels(pixel, keys, offset)[offset[keys[i]]] == keys[i]
  {
    LastWriteWins(pixel, keys, offset, i);
    var k := WritePixels(pixel, keys, offset)[offset[keys[i]]];
    var j :| i <= j < |keys| && keys[j] == k by {
      assert k in keys[i..];
    }
  }

  // ----- A pixel update that leaves no stale entry -----

  /**
   Moving run `k` to offset `o` in the pixel index: the entry at the run's
   old offset is dropped when it still names `k`, and `o` then names `k`.
   */
  function Repoint(offset: Tree, pixel: Tree, k: nat, o: nat): Tree
  {
    var kept := if k in offset && offset[k] in pixel && pixel[offset[k]] == k then pixel - {offset[k]} else pixel;
    kept[o := k]
  }

  /** One move keeps every pixel entry pointing back at a run with that offset. */
  lemma RepointSound(offset: Tree, pixel: Tree, k: nat, o: nat)
    requires PixelSound(offset, pixel)
    ensures PixelSound(offset[k := o], Repoint(offset, pixel, k, o))
  {
    var r := Repoint(offset, pixel, k, o);
    forall p | p in r
      ensures r[p] in offset[k := o] && offset[k := o][r[p]] == p
    {
      if p != o {
        assert p in pixel && r[p] == pixel[p];
      }
    }
  }

  /**
   Writing `keys` in order into the offset index at their `target` offsets,
   moving each one's pixel entry with `Repoint`: the offset index and the
   pixel index afterwards.
   */
  function RepointAll(offset: Tree, pixel: Tree, keys: seq<nat>, target: Tree): (Tree, Tree)
    requires forall j :: 0 <= j < |keys| ==> keys[j] in target
    decreases |keys|
  {
    if keys == [] then (offset, pixel)
    else RepointAll(offset[keys[0] := target[keys[0]]], Repoint(offset, pixel, keys[0], target[keys[0]]), keys[1..], target)
  }

  /** The moves keep the pixel index sound, and the offset index ends with the targets of the keys written. */
  lemma {:induction false} RepointAllSound(offset: Tree, pixel: Tree, keys: seq<nat>, target: Tree)
    requires forall j :: 0 <= j < |keys| ==> keys[j] in target
    requires PixelSound(offset, pixel)
    ensures PixelSound(RepointAll(offset, pixel, keys, target).0, RepointAll(offset, pixel, keys, target).1)
    ensures var r := RepointAll(offset, pixel, keys, target).0;
            forall k :: (k in r <==> k in offset || k in keys) && (k in r ==> r[k] == if k in keys then target[k] else offset[k])
    decreases |keys|
  {
    if keys != [] {
      var k := keys[0];
      RepointSound(offset, pixel, k, target[k]);
      RepointAllSound(offset[k := target[k]], Repoint(offset, pixel, k, target[k]), keys[1..], target);
      forall x
        ensures x in keys <==> x == k || x in keys[1..]
      {
        if x in keys {
          var j :| 0 <= j < |keys| && keys[j] == x;
          if j > 0 {
            assert keys[1..][j - 1] == x;
          }
        }
      }
    }
  }

  /**
   The pixel index after `update_offset_tree(start)` when each write first
   drops the run's old pixel entry: the corrected form of the pixel update.
   */
  function RepointedPixels(size: Tree, offset: Tree, pixel: Tree, start: nat): Tree
    requires HasFloor(size, Prev(start))
  {
    UpdatedKeysFinal(size, offset, start);
    RepointAll(offset, pixel, Updated(size, start), PropagatedOffsets(size, offset, start)).1
  }

  /**
   With the corrected pixel update, propagation keeps the pixel index sound:
   every entry names a run whose propagated offset is that entry's pixel.
   */
  lemma RepointedPropagationSound(size: Tree, offset: Tree, pixel: Tree, start: nat)
    requires HasFloor(size, Prev(start))
    requires PixelSound(offset, pixel)
    ensures PixelSound(PropagatedOffsets(size, offset, start), RepointedPixels(size, offset, pixel, start))
  {
    var u := Updated(size, start);
    var target := PropagatedOffsets(size, offset, start);
    UpdatedKeysFinal(size, offset, start);
    RepointAllSound(offset, pixel, u, target);
    AscendingInOrder(KeysFrom(size, Prev(start)));
    var r := RepointAll(offset, pixel, u, target).0;
    forall k
      ensures (k in r <==> k in target) && (k in r ==> r[k] == target[k])
    {
      if k in u {
        assert k in KeysFrom(size, Prev(start));
      }
    }
    assert r == target;
  }
}

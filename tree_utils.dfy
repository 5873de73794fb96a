/**
 Ordered-map helpers of the offset list: the floor lookup `lte` and the
 enumerator `ranges_within` of the runs that overlap an index window.

 A `BTreeMap<u32, u32>` is modelled by a `map<nat, nat>`; the iteration order
 of the ordered map (increasing keys) is recovered with `Ascending`.
 */
module TreeUtils {

  /** An ordered map from `u32` to `u32`, here over unbounded naturals. */
  type Tree = map<nat, nat>

  /** End of the last run: `u32::MAX`. */
  const LAST_RANGE_END: nat := 0xFFFF_FFFF

  /** A run of items `start..=end` that all have the same `size`. */
  datatype Range = Range(start: nat, end: nat, size: nat)

  /** Some key of `tree` is at most `k`, so that `lte(tree, k)` does not panic. */
  predicate HasFloor(tree: Tree, k: nat)
  {
    exists j :: j in tree && j <= k
  }

  /**
   `lte`: a key of `tree` that is at most `start`, with its value; `LteIsGreatest`
   shows it is the greatest such key.
   */
  function Lte(tree: Tree, start: nat): (r: (nat, nat))
    requires HasFloor(tree, start)
    ensures r.0 in tree && r.0 <= start && r.1 == tree[r.0]
    decreases start
  {
    if start in tree then (start, tree[start]) else Lte(tree, start - 1)
  }

  /** No key of `tree` lies strictly between `lte(tree, start)` and `start`. */
  lemma {:induction false} LteIsGreatest(tree: Tree, start: nat)
    requires HasFloor(tree, start)
    ensures forall k :: k in tree && k <= start ==> k <= Lte(tree, start).0
    decreases start
  {
    if start !in tree {
      assert HasFloor(tree, start - 1) by {
        var j :| j in tree && j <= start;
        assert j <= start - 1;
      }
      LteIsGreatest(tree, start - 1);
    }
  }

  /**
   The least key of `tree` at or above `k`, with its value: what
   `tree.range(k..).next()` finds.
   */
  function Ceiling(tree: Tree, k: nat): (r: (nat, nat))
    requires KeysFrom(tree, k) != {}
    ensures r.0 in tree && k <= r.0 && r.1 == tree[r.0]
    ensures forall x :: x in tree && k <= x ==> r.0 <= x
  {
    var c := Min(KeysFrom(tree, k));
    assert forall x :: x in tree && k <= x ==> x in KeysFrom(tree, k);
    (c, tree[c])
  }

  /** Keys of `tree` in `lo..=hi`: the keys that `tree.range(lo..=hi)` visits. */
  function KeysBetween(tree: Tree, lo: nat, hi: nat): set<nat>
  {
    set k | k in tree && lo <= k <= hi
  }

  /** Keys of `tree` from `lo` on: the keys that `tree.range(lo..)` visits. */
  function KeysFrom(tree: Tree, lo: nat): set<nat>
  {
    set k | k in tree && lo <= k
  }

  /** `m` is the least element of `s`. */
  predicate IsLeast(s: set<nat>, m: nat)
  {
    m in s && forall x :: x in s ==> m <= x
  }

  lemma {:induction false} LeastExists(s: set<nat>)
    requires s != {}
    ensures exists m :: IsLeast(s, m)
    decreases |s|
  {
    var y :| y in s;
    if s == {y} {
      assert IsLeast(s, y);
    } else {
      LeastExists(s - {y});
      var m :| IsLeast(s - {y}, m);
      var least := if y < m then y else m;
      forall x | x in s
        ensures least <= x
      {
        if x != y {
          assert x in s - {y};
        }
      }
      assert IsLeast(s, least);
    }
  }

  /** The least element of a non-empty set of naturals. */
  function Min(s: set<nat>): (m: nat)
    requires s != {}
    ensures m in s && forall x :: x in s ==> m <= x
  {
    LeastExists(s);
    var m :| IsLeast(s, m);
    m
  }

  /** The elements of `s` in increasing order: the order an ordered map iterates its keys. */
  function Ascending(s: set<nat>): seq<nat>
    decreases |s|
  {
    if s == {} then [] else var m := Min(s); [m] + Ascending(s - {m})
  }

  /** `r` lists the elements of `s` in strictly increasing order. */
  ghost predicate ListsInOrder(s: set<nat>, r: seq<nat>)
  {
    && |r| == |s|
    && (forall i :: 0 <= i < |r| ==> r[i] in s)
    && (forall x :: x in s ==> x in r)
    && (forall i, j :: 0 <= i < j < |r| ==> r[i] < r[j])
  }

  lemma {:induction false} AscendingInOrder(s: set<nat>)
    ensures ListsInOrder(s, Ascending(s))
    decreases |s|
  {
    if s != {} {
      var m := Min(s);
      AscendingInOrder(s - {m});
      var rest := Ascending(s - {m});
      var r := Ascending(s);
      assert r == [m] + rest;
      forall i | 0 <= i < |r|
        ensures r[i] in s
      {
        if i > 0 {
          assert r[i] == rest[i - 1];
        }
      }
      forall i, j | 0 <= i < j < |r|
        ensures r[i] < r[j]
      {
        assert r[j] == rest[j - 1] && r[j] in s - {m};
        if i > 0 {
          assert r[i] == rest[i - 1];
        }
      }
      forall x | x in s
        ensures x in r
      {
        if x != m {
          assert x in s - {m};
        }
      }
    }
  }

  /** The first index of every run in `ranges`. */
  function Starts(ranges: seq<Range>): set<nat>
  {
    set i | 0 <= i < |ranges| :: ranges[i].start
  }

  /**
   `ranges` are the runs that start at the keys `nodes`, in order: each run ends
   one before the next one starts and the last one ends at `LAST_RANGE_END`.
   */
  ghost predicate RunsAt(tree: Tree, nodes: seq<nat>, ranges: seq<Range>)
  {
    && |ranges| == |nodes| > 0
    && (forall j :: 0 <= j < |nodes| ==> nodes[j] in tree)
    && (forall j {:trigger ranges[j]} :: 0 <= j < |ranges| ==>
          ranges[j].start == nodes[j] && ranges[j].size == tree[nodes[j]])
    && (forall j {:trigger ranges[j]} :: 0 <= j < |ranges| - 1 ==> ranges[j].end + 1 == nodes[j + 1])
    && ranges[|ranges| - 1].end == LAST_RANGE_END
  }

  lemma RunsAtKeys(tree: Tree, lo: nat, end: nat, ranges: seq<Range>)
    requires lo in tree && lo <= end
    requires RunsAt(tree, Ascending(KeysBetween(tree, lo, end)), ranges)
    ensures |ranges| > 0 && ranges[0].start == lo
    ensures ranges[|ranges| - 1].end == LAST_RANGE_END
    ensures |ranges| == |KeysBetween(tree, lo, end)|
    ensures Starts(ranges) == KeysBetween(tree, lo, end)
    ensures forall i :: 0 <= i < |ranges| ==> ranges[i].start in tree && ranges[i].size == tree[ranges[i].start]
    ensures forall i, j :: 0 <= i < j < |ranges| ==> ranges[i].start < ranges[j].start
    ensures forall i :: 0 <= i < |ranges| - 1 ==> ranges[i].end == ranges[i + 1].start - 1
  {
    var nodes := Ascending(KeysBetween(tree, lo, end));
    AscendingInOrder(KeysBetween(tree, lo, end));
    assert lo in KeysBetween(tree, lo, end);
    forall k | k in Starts(ranges)
      ensures k in KeysBetween(tree, lo, end)
    {
      var i :| 0 <= i < |ranges| && ranges[i].start == k;
      assert nodes[i] == k;
    }
    forall k | k in KeysBetween(tree, lo, end)
      ensures k in Starts(ranges)
    {
      var i :| 0 <= i < |nodes| && nodes[i] == k;
      assert ranges[i].start == k;
    }
  }

  /** The loop of `ranges_within`: one run per key of `nodes`, each ending one before the next key. */
  method RunsFrom(tree: Tree, nodes: seq<nat>) returns (ranges: seq<Range>)
    requires |nodes| > 0
    requires forall j :: 0 <= j < |nodes| ==> nodes[j] in tree
    requires forall j, l :: 0 <= j < l < |nodes| ==> nodes[j] < nodes[l]
    ensures RunsAt(tree, nodes, ranges)
  {
    var first, size := nodes[0], tree[nodes[0]];
    ranges := [];
    for i := 1 to |nodes|
      invariant |ranges| == i - 1
      invariant first == nodes[i - 1] && size == tree[first]
      invariant forall j {:trigger ranges[j]} :: 0 <= j < i - 1 ==> ranges[j].start == nodes[j]
      invariant forall j {:trigger ranges[j]} :: 0 <= j < i - 1 ==> ranges[j].size == tree[nodes[j]]
      invariant forall j {:trigger ranges[j]} :: 0 <= j < i - 1 ==> ranges[j].end + 1 == nodes[j + 1]
    {
      assert nodes[i - 1] < nodes[i];
      var run := Range(first, nodes[i] - 1, size);
      assert run.start == nodes[i - 1] && run.size == tree[nodes[i - 1]] && run.end + 1 == nodes[i];
      ranges := ranges + [run];
      first, size := nodes[i], tree[nodes[i]];
    }
    ranges := ranges + [Range(first, LAST_RANGE_END, size)];
  }

  /**
   `ranges` are the runs of `tree` that overlap `start..=end`, in order. The
   first one is the run containing `start`; the starts are exactly the keys
   from there to `end`, strictly increasing, each with its size; each run ends
   one before the next one starts, and the last one ends at `LAST_RANGE_END`
   whatever keys lie past `end`.
   */
  ghost predicate OverlappingRuns(tree: Tree, start: nat, end: nat, ranges: seq<Range>)
    requires HasFloor(tree, start)
  {
    && |ranges| > 0 && ranges[0].start == Lte(tree, start).0
    && Starts(ranges) == KeysBetween(tree, Lte(tree, start).0, end)
    && |ranges| == |KeysBetween(tree, Lte(tree, start).0, end)|
    && (forall i :: 0 <= i < |ranges| ==> ranges[i].start in tree && ranges[i].size == tree[ranges[i].start])
    && (forall i, j :: 0 <= i < j < |ranges| ==> ranges[i].start < ranges[j].start)
    && (forall i :: 0 <= i < |ranges| - 1 ==> ranges[i].end == ranges[i + 1].start - 1)
    && ranges[|ranges| - 1].end == LAST_RANGE_END
  }

  /**
   Every run after the first starts past `start`, every run before the last
   ends before `end`, and no key of `tree` lies inside a run up to `end`.
   */
  lemma RunsCover(tree: Tree, start: nat, end: nat, ranges: seq<Range>, i: nat)
    requires HasFloor(tree, start)
    requires OverlappingRuns(tree, start, end, ranges)
    requires i < |ranges|
    ensures ranges[i].start <= end || i == 0
    ensures i > 0 ==> ranges[i].start > start
    ensures i < |ranges| - 1 ==> ranges[i].end < end && ranges[i].start <= ranges[i].end
    ensures forall x :: x in tree && ranges[i].start < x <= end ==> x > ranges[i].end
  {
    var lo := Lte(tree, start).0;
    LteIsGreatest(tree, start);
    assert ranges[i].start in Starts(ranges);
    if i < |ranges| - 1 {
      assert ranges[i + 1].start in Starts(ranges);
    }
    forall x | x in tree && ranges[i].start < x <= end
      ensures x > ranges[i].end
    {
      assert x in KeysBetween(tree, lo, end);
      var j :| 0 <= j < |ranges| && ranges[j].start == x;
      if j > i + 1 {
        assert ranges[i + 1].start < ranges[j].start;
      }
    }
  }

  /** `ranges_within`: the runs of `tree` that overlap `start..=end`. */
  method RangesWithin(tree: Tree, start: nat, end: nat) returns (ranges: seq<Range>)
    requires HasFloor(tree, start)
    requires Lte(tree, start).0 <= end
    ensures OverlappingRuns(tree, start, end, ranges)
  {
    var lo := Lte(tree, start).0;
    var nodes := Ascending(KeysBetween(tree, lo, end));
    AscendingInOrder(KeysBetween(tree, lo, end));
    assert lo in KeysBetween(tree, lo, end);
    forall j | 0 <= j < |nodes|
      ensures nodes[j] in tree
    {
      assert nodes[j] in KeysBetween(tree, lo, end);
    }
    ranges := RunsFrom(tree, nodes);
    RunsAtKeys(tree, lo, end, ranges);
  }

  /** The first worked example: one run covers everything. */
  method SingleRunExample()
  {
    var tree := map[0 := 10];
    assert 0 in tree;
    var ranges := RangesWithin(tree, 5, 20);
    assert KeysBetween(tree, 0, 20) == {0};
    assert ranges == [Range(0, LAST_RANGE_END, 10)];
  }

  /** The second worked example: the run containing 6 starts at 5; the last run still ends at the maximum. */
  method SeveralRunsExample()
  {
    var tree := map[0 := 10, 5 := 20, 10 := 8, 20 := 30];
    assert 5 in tree;
    assert Lte(tree, 6).0 == 5;
    var ranges := RangesWithin(tree, 6, 27);
    assert KeysBetween(tree, 5, 27) == {5, 10, 20};
    assert ranges[1].start == 10 && ranges[2].start == 20;
    assert ranges == [Range(5, 9, 20), Range(10, 19, 8), Range(20, LAST_RANGE_END, 30)];
  }
}

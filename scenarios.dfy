/**
 The unit scenarios of the offset list, replayed on the model: each method
 builds a list through the public operations and asserts the indices, sizes,
 offsets or answers that the scenario expects. The lemmas beside them work
 out, on concrete maps, what one insert does to the size and offset indices.
 */
module OffsetListScenarios {
  import opened TreeUtils
  import opened OffsetModel
  import opened OffsetLists

  /** `insert(start, end, size)` on the general path takes sizes `m` and offsets `o` to `m2` and `o2`. */
  ghost predicate InsertGives(m: Tree, o: Tree, start: nat, end: nat, size: nat, m2: Tree, o2: Tree)
  {
    && start <= end < LAST_RANGE_END
    && HasFloor(m, Prev(start))
    && Removed(m, start, end, size) <= o.Keys
    && InsertedSizes(m, start, end, size) == m2
    && HasFloor(m2, Prev(start))
    && PropagatedOffsets(m2, o - Removed(m, start, end, size), start) == o2
  }

  /** An insert on the general path, whose outcome `InsertGives` has worked out. */
  method ApplyInsert(list: OffsetList, start: nat, end: nat, size: nat, ghost m2: Tree, ghost o2: Tree)
    requires list.sizeTree != map[] && !(start in list.sizeTree && list.sizeTree[start] == 0)
    requires InsertGives(list.sizeTree, list.offsetTree, start, end, size, m2, o2)
    modifies list
    ensures list.sizeTree == m2 && list.offsetTree == o2
  {
    list.Insert(start, end, size);
  }

  /** An insert on the general path, whose outcome on all three indices has been worked out. */
  method ApplyInsertPixels(list: OffsetList, start: nat, end: nat, size: nat, ghost m2: Tree, ghost o2: Tree, ghost p2: Tree)
    requires list.sizeTree != map[] && !(start in list.sizeTree && list.sizeTree[start] == 0)
    requires InsertGives(list.sizeTree, list.offsetTree, start, end, size, m2, o2)
    requires var removed := Removed(list.sizeTree, start, end, size);
             PropagatedPixels(m2, list.offsetTree - removed, list.pixelTree - OffsetsOf(list.offsetTree, removed), start) == p2
    modifies list
    ensures list.sizeTree == m2 && list.offsetTree == o2 && list.pixelTree == p2
  {
    list.Insert(start, end, size);
  }

  /** A first insert at item 0 gives one run of that size at offset 0. */
  method InitialInsert()
  {
    var list := new OffsetList();
    list.Insert(0, 0, 10);
    FirstInsertOffsets(10, 0);
    assert list.sizeTree == map[0 := 10];
    assert list.offsetTree == map[0 := 0];
  }

  lemma SecondInsertStep()
    ensures InsertGives(map[0 := 10], map[0 := 0], 3, 7, 20,
                        map[0 := 10, 3 := 20, 8 := 10], map[0 := 0, 3 := 30, 8 := 130])
  {
    SecondInsertSizes();
    SecondInsertOffsets(map[0 := 10, 3 := 20, 8 := 10]);
  }

  lemma SecondInsertSizes()
    ensures HasFloor(map[0 := 10], Prev(3))
    ensures Removed(map[0 := 10], 3, 7, 20) == {}
    ensures InsertedSizes(map[0 := 10], 3, 7, 20) == map[0 := 10, 3 := 20, 8 := 10]
  {
    assert 0 in map[0 := 10] && 0 <= Prev(3);
  }

  lemma SecondInsertOffsets(m: Tree)
    requires m == map[0 := 10, 3 := 20, 8 := 10]
    ensures HasFloor(m, Prev(3))
    ensures PropagatedOffsets(m, map[0 := 0] - {}, 3) == map[0 := 0, 3 := 30, 8 := 130]
  {
    assert 0 in m;
    assert Anchor(m, 3) == 0 by { LteIsGreatest(m, 2); }
    assert KeysFrom(m, 2) == {3, 8};
    SpanNext(m, 0, 0, 3, 10, 0);
    SpanNext(m, 0, 3, 8, 20, 30);
    var r := PropagatedOffsets(m, map[0 := 0] - {}, 3);
    assert r.Keys == {0, 3, 8};
    assert r[0] == 0 && r[3] == 30 && r[8] == 130;
  }

  /** A run inside the first one splits it in three, and the offsets follow. */
  method SecondOffsetInsert()
  {
    var list := OneRun(10);
    SecondInsertStep();
    list.Insert(3, 7, 20);
    assert list.sizeTree == map[0 := 10, 3 := 20, 8 := 10];
    assert list.offsetTree == map[0 := 0, 3 := 30, 8 := 130];
  }

  lemma InBetweenFirstStep()
    ensures InsertGives(map[0 := 1], map[0 := 0], 9, 10, 2,
                        map[0 := 1, 9 := 2, 11 := 1], map[0 := 0, 9 := 9, 11 := 13])
  {
    InBetweenFirstSizes();
    InBetweenFirstOffsets(map[0 := 1, 9 := 2, 11 := 1]);
  }

  lemma InBetweenFirstSizes()
    ensures HasFloor(map[0 := 1], Prev(9))
    ensures Removed(map[0 := 1], 9, 10, 2) == {}
    ensures InsertedSizes(map[0 := 1], 9, 10, 2) == map[0 := 1, 9 := 2, 11 := 1]
  {
    assert 0 in map[0 := 1] && 0 <= Prev(9);
  }

  lemma InBetweenFirstOffsets(m: Tree)
    requires m == map[0 := 1, 9 := 2, 11 := 1]
    ensures HasFloor(m, Prev(9))
    ensures PropagatedOffsets(m, map[0 := 0] - {}, 9) == map[0 := 0, 9 := 9, 11 := 13]
  {
    assert 0 in m;
    assert Anchor(m, 9) == 0 by { LteIsGreatest(m, 8); }
    assert KeysFrom(m, 8) == {9, 11};
    SpanNext(m, 0, 0, 9, 1, 0);
    SpanNext(m, 0, 9, 11, 2, 9);
    var r := PropagatedOffsets(m, map[0 := 0] - {}, 9);
    assert r.Keys == {0, 9, 11};
    assert r[0] == 0 && r[9] == 9 && r[11] == 13;
  }

  lemma InBetweenSecondStep()
    ensures InsertGives(map[0 := 1, 9 := 2, 11 := 1], map[0 := 0, 9 := 9, 11 := 13], 3, 7, 3,
                        map[0 := 1, 3 := 3, 8 := 1, 9 := 2, 11 := 1], map[0 := 0, 3 := 3, 8 := 18, 9 := 19, 11 := 23])
  {
    InBetweenSecondSizes();
    InBetweenSecondOffsets(map[0 := 1, 3 := 3, 8 := 1, 9 := 2, 11 := 1]);
  }

  lemma InBetweenSecondSizes()
    ensures HasFloor(map[0 := 1, 9 := 2, 11 := 1], Prev(3))
    ensures Removed(map[0 := 1, 9 := 2, 11 := 1], 3, 7, 3) == {}
    ensures InsertedSizes(map[0 := 1, 9 := 2, 11 := 1], 3, 7, 3) == map[0 := 1, 3 := 3, 8 := 1, 9 := 2, 11 := 1]
  {
    assert 0 in map[0 := 1, 9 := 2, 11 := 1] && 0 <= Prev(3);
  }

  lemma InBetweenSecondOffsets(m: Tree)
    requires m == map[0 := 1, 3 := 3, 8 := 1, 9 := 2, 11 := 1]
    ensures HasFloor(m, Prev(3))
    ensures PropagatedOffsets(m, map[0 := 0, 9 := 9, 11 := 13] - {}, 3) == map[0 := 0, 3 := 3, 8 := 18, 9 := 19, 11 := 23]
  {
    assert 0 in m;
    assert Anchor(m, 3) == 0 by { LteIsGreatest(m, 2); }
    assert KeysFrom(m, 2) == {3, 8, 9, 11};
    SpanNext(m, 0, 0, 3, 1, 0);
    SpanNext(m, 0, 3, 8, 3, 3);
    SpanNext(m, 0, 8, 9, 1, 18);
    SpanNext(m, 0, 9, 11, 2, 19);
    var r := PropagatedOffsets(m, map[0 := 0, 9 := 9, 11 := 13] - {}, 3);
    assert r.Keys == {0, 3, 8, 9, 11};
    assert r[0] == 0 && r[3] == 3 && r[8] == 18 && r[9] == 19 && r[11] == 23;
  }

  lemma OverlapFirstStep()
    ensures InsertGives(map[0 := 1], map[0 := 0], 3, 7, 2,
                        map[0 := 1, 3 := 2, 8 := 1], map[0 := 0, 3 := 3, 8 := 13])
  {
    OverlapFirstSizes();
    OverlapFirstOffsets(map[0 := 1, 3 := 2, 8 := 1]);
  }

  lemma OverlapFirstSizes()
    ensures HasFloor(map[0 := 1], Prev(3))
    ensures Removed(map[0 := 1], 3, 7, 2) == {}
    ensures InsertedSizes(map[0 := 1], 3, 7, 2) == map[0 := 1, 3 := 2, 8 := 1]
  {
    assert 0 in map[0 := 1] && 0 <= Prev(3);
  }

  lemma OverlapFirstOffsets(m: Tree)
    requires m == map[0 := 1, 3 := 2, 8 := 1]
    ensures HasFloor(m, Prev(3))
    ensures PropagatedOffsets(m, map[0 := 0] - {}, 3) == map[0 := 0, 3 := 3, 8 := 13]
  {
    assert 0 in m;
    assert Anchor(m, 3) == 0 by { LteIsGreatest(m, 2); }
    assert KeysFrom(m, 2) == {3, 8};
    SpanNext(m, 0, 0, 3, 1, 0);
    SpanNext(m, 0, 3, 8, 2, 3);
    var r := PropagatedOffsets(m, map[0 := 0] - {}, 3);
    assert r.Keys == {0, 3, 8};
    assert r[0] == 0 && r[3] == 3 && r[8] == 13;
  }

  lemma OverlapSecondStep()
    ensures InsertGives(map[0 := 1, 3 := 2, 8 := 1], map[0 := 0, 3 := 3, 8 := 13], 2, 9, 3,
                        map[0 := 1, 2 := 3, 10 := 1], map[0 := 0, 2 := 2, 10 := 26])
  {
    OverlapSecondSizes();
    OverlapSecondOffsets(map[0 := 1, 2 := 3, 10 := 1]);
  }

  lemma OverlapSecondSizes()
    ensures HasFloor(map[0 := 1, 3 := 2, 8 := 1], Prev(2))
    ensures Removed(map[0 := 1, 3 := 2, 8 := 1], 2, 9, 3) == {3, 8}
    ensures InsertedSizes(map[0 := 1, 3 := 2, 8 := 1], 2, 9, 3) == map[0 := 1, 2 := 3, 10 := 1]
  {
    assert 0 in map[0 := 1, 3 := 2, 8 := 1] && 0 <= Prev(2);
  }

  lemma OverlapSecondOffsets(m: Tree)
    requires m == map[0 := 1, 2 := 3, 10 := 1]
    ensures HasFloor(m, Prev(2))
    ensures PropagatedOffsets(m, map[0 := 0, 3 := 3, 8 := 13] - {3, 8}, 2) == map[0 := 0, 2 := 2, 10 := 26]
  {
    assert 0 in m;
    assert Anchor(m, 2) == 0 by { LteIsGreatest(m, 1); }
    assert KeysFrom(m, 1) == {2, 10};
    SpanNext(m, 0, 0, 2, 1, 0);
    SpanNext(m, 0, 2, 10, 3, 2);
    var r := PropagatedOffsets(m, map[0 := 0, 3 := 3, 8 := 13] - {3, 8}, 2);
    assert r.Keys == {0, 2, 10};
    assert r[0] == 0 && r[2] == 2 && r[10] == 26;
  }

  lemma SameFirstStep()
    ensures InsertGives(map[0 := 10], map[0 := 0], 1, 1, 10,
                        map[0 := 10], map[0 := 0])
  {
    SameFirstSizes();
    SameFirstOffsets(map[0 := 10]);
  }

  lemma SameFirstSizes()
    ensures HasFloor(map[0 := 10], Prev(1))
    ensures Removed(map[0 := 10], 1, 1, 10) == {}
    ensures InsertedSizes(map[0 := 10], 1, 1, 10) == map[0 := 10]
  {
    assert 0 in map[0 := 10] && 0 <= Prev(1);
  }

  lemma SameFirstOffsets(m: Tree)
    requires m == map[0 := 10]
    ensures HasFloor(m, Prev(1))
    ensures PropagatedOffsets(m, map[0 := 0] - {}, 1) == map[0 := 0]
  {
    assert 0 in m;
    assert Anchor(m, 1) == 0 by { LteIsGreatest(m, 0); }
    assert KeysFrom(m, 0) == {0};
  }

  lemma SameSecondStep()
    ensures InsertGives(map[0 := 10], map[0 := 0], 20, 21, 10,
                        map[0 := 10], map[0 := 0])
  {
    SameSecondSizes();
    SameSecondOffsets(map[0 := 10]);
  }

  lemma SameSecondSizes()
    ensures HasFloor(map[0 := 10], Prev(20))
    ensures Removed(map[0 := 10], 20, 21, 10) == {}
    ensures InsertedSizes(map[0 := 10], 20, 21, 10) == map[0 := 10]
  {
    assert 0 in map[0 := 10] && 0 <= Prev(20);
  }

  lemma SameSecondOffsets(m: Tree)
    requires m == map[0 := 10]
    ensures HasFloor(m, Prev(20))
    ensures PropagatedOffsets(m, map[0 := 0] - {}, 20) == map[0 := 0]
  {
    assert 0 in m;
    assert Anchor(m, 20) == 0 by { LteIsGreatest(m, 19); }
    assert KeysFrom(m, 19) == {};
  }

  lemma ReInsertStep()
    ensures InsertGives(map[0 := 5], map[0 := 0], 0, 0, 10,
                        map[0 := 10, 1 := 5], map[0 := 0, 1 := 10])
  {
    ReInsertSizes();
    ReInsertOffsets(map[0 := 10, 1 := 5]);
  }

  lemma ReInsertSizes()
    ensures HasFloor(map[0 := 5], Prev(0))
    ensures Removed(map[0 := 5], 0, 0, 10) == {}
    ensures InsertedSizes(map[0 := 5], 0, 0, 10) == map[0 := 10, 1 := 5]
  {
    assert 0 in map[0 := 5] && 0 <= Prev(0);
  }

  lemma ReInsertOffsets(m: Tree)
    requires m == map[0 := 10, 1 := 5]
    ensures HasFloor(m, Prev(0))
    ensures PropagatedOffsets(m, map[0 := 0] - {}, 0) == map[0 := 0, 1 := 10]
  {
    assert 0 in m;
    assert Anchor(m, 0) == 0 by { LteIsGreatest(m, 0); }
    assert KeysFrom(m, 0) == {0, 1};
    SpanNext(m, 0, 0, 1, 10, 0);
    var r := PropagatedOffsets(m, map[0 := 0] - {}, 0);
    assert r.Keys == {0, 1};
    assert r[0] == 0 && r[1] == 10;
  }

  lemma NewInsertStep()
    ensures InsertGives(map[0 := 10], map[0 := 0], 3, 5, 20,
                        map[0 := 10, 3 := 20, 6 := 10], map[0 := 0, 3 := 30, 6 := 90])
  {
    NewInsertSizes();
    NewInsertOffsets(map[0 := 10, 3 := 20, 6 := 10]);
  }

  lemma NewInsertSizes()
    ensures HasFloor(map[0 := 10], Prev(3))
    ensures Removed(map[0 := 10], 3, 5, 20) == {}
    ensures InsertedSizes(map[0 := 10], 3, 5, 20) == map[0 := 10, 3 := 20, 6 := 10]
  {
    assert 0 in map[0 := 10] && 0 <= Prev(3);
  }

  lemma NewInsertOffsets(m: Tree)
    requires m == map[0 := 10, 3 := 20, 6 := 10]
    ensures HasFloor(m, Prev(3))
    ensures PropagatedOffsets(m, map[0 := 0] - {}, 3) == map[0 := 0, 3 := 30, 6 := 90]
  {
    assert 0 in m;
    assert Anchor(m, 3) == 0 by { LteIsGreatest(m, 2); }
    assert KeysFrom(m, 2) == {3, 6};
    SpanNext(m, 0, 0, 3, 10, 0);
    SpanNext(m, 0, 3, 6, 20, 30);
    var r := PropagatedOffsets(m, map[0 := 0] - {}, 3);
    assert r.Keys == {0, 3, 6};
    assert r[0] == 0 && r[3] == 30 && r[6] == 90;
  }

  lemma JoinStartStep()
    ensures InsertGives(map[0 := 10, 3 := 20, 6 := 10], map[0 := 0, 3 := 30, 6 := 90], 5, 7, 20,
                        map[0 := 10, 3 := 20, 8 := 10], map[0 := 0, 3 := 30, 8 := 130])
  {
    JoinStartSizes();
    JoinStartOffsets(map[0 := 10, 3 := 20, 8 := 10]);
  }

  lemma JoinStartSizes()
    ensures HasFloor(map[0 := 10, 3 := 20, 6 := 10], Prev(5))
    ensures Removed(map[0 := 10, 3 := 20, 6 := 10], 5, 7, 20) == {6}
    ensures InsertedSizes(map[0 := 10, 3 := 20, 6 := 10], 5, 7, 20) == map[0 := 10, 3 := 20, 8 := 10]
  {
    assert 3 in map[0 := 10, 3 := 20, 6 := 10] && 3 <= Prev(5);
  }

  lemma JoinStartOffsets(m: Tree)
    requires m == map[0 := 10, 3 := 20, 8 := 10]
    ensures HasFloor(m, Prev(5))
    ensures PropagatedOffsets(m, map[0 := 0, 3 := 30, 6 := 90] - {6}, 5) == map[0 := 0, 3 := 30, 8 := 130]
  {
    assert 0 in m;
    assert Anchor(m, 5) == 3 by { LteIsGreatest(m, 4); }
    assert KeysFrom(m, 4) == {8};
    SpanNext(m, 3, 3, 8, 20, 0);
    var r := PropagatedOffsets(m, map[0 := 0, 3 := 30, 6 := 90] - {6}, 5);
    assert r.Keys == {0, 3, 8};
    assert r[0] == 0 && r[3] == 30 && r[8] == 130;
  }

  lemma JoinFirstStep()
    ensures InsertGives(map[0 := 10], map[0 := 0], 5, 7, 20,
                        map[0 := 10, 5 := 20, 8 := 10], map[0 := 0, 5 := 50, 8 := 110])
  {
    JoinFirstSizes();
    JoinFirstOffsets(map[0 := 10, 5 := 20, 8 := 10]);
  }

  lemma JoinFirstSizes()
    ensures HasFloor(map[0 := 10], Prev(5))
    ensures Removed(map[0 := 10], 5, 7, 20) == {}
    ensures InsertedSizes(map[0 := 10], 5, 7, 20) == map[0 := 10, 5 := 20, 8 := 10]
  {
    assert 0 in map[0 := 10] && 0 <= Prev(5);
  }

  lemma JoinFirstOffsets(m: Tree)
    requires m == map[0 := 10, 5 := 20, 8 := 10]
    ensures HasFloor(m, Prev(5))
    ensures PropagatedOffsets(m, map[0 := 0] - {}, 5) == map[0 := 0, 5 := 50, 8 := 110]
  {
    assert 0 in m;
    assert Anchor(m, 5) == 0 by { LteIsGreatest(m, 4); }
    assert KeysFrom(m, 4) == {5, 8};
    SpanNext(m, 0, 0, 5, 10, 0);
    SpanNext(m, 0, 5, 8, 20, 50);
    var r := PropagatedOffsets(m, map[0 := 0] - {}, 5);
    assert r.Keys == {0, 5, 8};
    assert r[0] == 0 && r[5] == 50 && r[8] == 110;
  }

  lemma JoinEndStep()
    ensures InsertGives(map[0 := 10, 5 := 20, 8 := 10], map[0 := 0, 5 := 50, 8 := 110], 3, 5, 20,
                        map[0 := 10, 3 := 20, 8 := 10], map[0 := 0, 3 := 30, 8 := 130])
  {
    JoinEndSizes();
    JoinEndOffsets(map[0 := 10, 3 := 20, 8 := 10]);
  }

  lemma JoinEndSizes()
    ensures HasFloor(map[0 := 10, 5 := 20, 8 := 10], Prev(3))
    ensures Removed(map[0 := 10, 5 := 20, 8 := 10], 3, 5, 20) == {5}
    ensures InsertedSizes(map[0 := 10, 5 := 20, 8 := 10], 3, 5, 20) == map[0 := 10, 3 := 20, 8 := 10]
  {
    assert 0 in map[0 := 10, 5 := 20, 8 := 10] && 0 <= Prev(3);
  }

  lemma JoinEndOffsets(m: Tree)
    requires m == map[0 := 10, 3 := 20, 8 := 10]
    ensures HasFloor(m, Prev(3))
    ensures PropagatedOffsets(m, map[0 := 0, 5 := 50, 8 := 110] - {5}, 3) == map[0 := 0, 3 := 30, 8 := 130]
  {
    assert 0 in m;
    assert Anchor(m, 3) == 0 by { LteIsGreatest(m, 2); }
    assert KeysFrom(m, 2) == {3, 8};
    SpanNext(m, 0, 0, 3, 10, 0);
    SpanNext(m, 0, 3, 8, 20, 30);
    var r := PropagatedOffsets(m, map[0 := 0, 5 := 50, 8 := 110] - {5}, 3);
    assert r.Keys == {0, 3, 8};
    assert r[0] == 0 && r[3] == 30 && r[8] == 130;
  }

  lemma OverrideStep()
    ensures InsertGives(map[0 := 10, 5 := 20, 8 := 10], map[0 := 0, 5 := 50, 8 := 110], 4, 7, 30,
                        map[0 := 10, 4 := 30, 8 := 10], map[0 := 0, 4 := 40, 8 := 160])
  {
    OverrideSizes();
    OverrideOffsets(map[0 := 10, 4 := 30, 8 := 10]);
  }

  lemma OverrideSizes()
    ensures HasFloor(map[0 := 10, 5 := 20, 8 := 10], Prev(4))
    ensures Removed(map[0 := 10, 5 := 20, 8 := 10], 4, 7, 30) == {5}
    ensures InsertedSizes(map[0 := 10, 5 := 20, 8 := 10], 4, 7, 30) == map[0 := 10, 4 := 30, 8 := 10]
  {
    assert 0 in map[0 := 10, 5 := 20, 8 := 10] && 0 <= Prev(4);
  }

  lemma OverrideOffsets(m: Tree)
    requires m == map[0 := 10, 4 := 30, 8 := 10]
    ensures HasFloor(m, Prev(4))
    ensures PropagatedOffsets(m, map[0 := 0, 5 := 50, 8 := 110] - {5}, 4) == map[0 := 0, 4 := 40, 8 := 160]
  {
    assert 0 in m;
    assert Anchor(m, 4) == 0 by { LteIsGreatest(m, 3); }
    assert KeysFrom(m, 3) == {4, 8};
    SpanNext(m, 0, 0, 4, 10, 0);
    SpanNext(m, 0, 4, 8, 30, 40);
    var r := PropagatedOffsets(m, map[0 := 0, 5 := 50, 8 := 110] - {5}, 4);
    assert r.Keys == {0, 4, 8};
    assert r[0] == 0 && r[4] == 40 && r[8] == 160;
  }

  lemma JoinOverrideFirstStep()
    ensures InsertGives(map[0 := 5], map[0 := 0], 4, 5, 10,
                        map[0 := 5, 4 := 10, 6 := 5], map[0 := 0, 4 := 20, 6 := 40])
  {
    JoinOverrideFirstSizes();
    JoinOverrideFirstOffsets(map[0 := 5, 4 := 10, 6 := 5]);
  }

  lemma JoinOverrideFirstSizes()
    ensures HasFloor(map[0 := 5], Prev(4))
    ensures Removed(map[0 := 5], 4, 5, 10) == {}
    ensures InsertedSizes(map[0 := 5], 4, 5, 10) == map[0 := 5, 4 := 10, 6 := 5]
  {
    assert 0 in map[0 := 5] && 0 <= Prev(4);
  }

  lemma JoinOverrideFirstOffsets(m: Tree)
    requires m == map[0 := 5, 4 := 10, 6 := 5]
    ensures HasFloor(m, Prev(4))
    ensures PropagatedOffsets(m, map[0 := 0] - {}, 4) == map[0 := 0, 4 := 20, 6 := 40]
  {
    assert 0 in m;
    assert Anchor(m, 4) == 0 by { LteIsGreatest(m, 3); }
    assert KeysFrom(m, 3) == {4, 6};
    SpanNext(m, 0, 0, 4, 5, 0);
    SpanNext(m, 0, 4, 6, 10, 20);
    var r := PropagatedOffsets(m, map[0 := 0] - {}, 4);
    assert r.Keys == {0, 4, 6};
    assert r[0] == 0 && r[4] == 20 && r[6] == 40;
  }

  lemma JoinOverrideSecondStep()
    ensures InsertGives(map[0 := 5, 4 := 10, 6 := 5], map[0 := 0, 4 := 20, 6 := 40], 6, 7, 20,
                        map[0 := 5, 4 := 10, 6 := 20, 8 := 5], map[0 := 0, 4 := 20, 6 := 40, 8 := 80])
  {
    JoinOverrideSecondSizes();
    JoinOverrideSecondOffsets(map[0 := 5, 4 := 10, 6 := 20, 8 := 5]);
  }

  lemma JoinOverrideSecondSizes()
    ensures HasFloor(map[0 := 5, 4 := 10, 6 := 5], Prev(6))
    ensures Removed(map[0 := 5, 4 := 10, 6 := 5], 6, 7, 20) == {6}
    ensures InsertedSizes(map[0 := 5, 4 := 10, 6 := 5], 6, 7, 20) == map[0 := 5, 4 := 10, 6 := 20, 8 := 5]
  {
    assert 4 in map[0 := 5, 4 := 10, 6 := 5] && 4 <= Prev(6);
  }

  lemma JoinOverrideSecondOffsets(m: Tree)
    requires m == map[0 := 5, 4 := 10, 6 := 20, 8 := 5]
    ensures HasFloor(m, Prev(6))
    ensures PropagatedOffsets(m, map[0 := 0, 4 := 20, 6 := 40] - {6}, 6) == map[0 := 0, 4 := 20, 6 := 40, 8 := 80]
  {
    assert 0 in m;
    assert Anchor(m, 6) == 4 by { LteIsGreatest(m, 5); }
    assert KeysFrom(m, 5) == {6, 8};
    SpanNext(m, 4, 4, 6, 10, 0);
    SpanNext(m, 4, 6, 8, 20, 20);
    var r := PropagatedOffsets(m, map[0 := 0, 4 := 20, 6 := 40] - {6}, 6);
    assert r.Keys == {0, 4, 6, 8};
    assert r[0] == 0 && r[4] == 20 && r[6] == 40 && r[8] == 80;
  }

  lemma JoinOverrideThirdStep()
    ensures InsertGives(map[0 := 5, 4 := 10, 6 := 20, 8 := 5], map[0 := 0, 4 := 20, 6 := 40, 8 := 80], 3, 8, 5,
                        map[0 := 5], map[0 := 0])
  {
    JoinOverrideThirdSizes();
    JoinOverrideThirdOffsets(map[0 := 5]);
  }

  lemma JoinOverrideThirdSizes()
    ensures HasFloor(map[0 := 5, 4 := 10, 6 := 20, 8 := 5], Prev(3))
    ensures Removed(map[0 := 5, 4 := 10, 6 := 20, 8 := 5], 3, 8, 5) == {4, 6, 8}
    ensures InsertedSizes(map[0 := 5, 4 := 10, 6 := 20, 8 := 5], 3, 8, 5) == map[0 := 5]
  {
    assert 0 in map[0 := 5, 4 := 10, 6 := 20, 8 := 5] && 0 <= Prev(3);
  }

  lemma JoinOverrideThirdOffsets(m: Tree)
    requires m == map[0 := 5]
    ensures HasFloor(m, Prev(3))
    ensures PropagatedOffsets(m, map[0 := 0, 4 := 20, 6 := 40, 8 := 80] - {4, 6, 8}, 3) == map[0 := 0]
  {
    assert 0 in m;
    assert Anchor(m, 3) == 0 by { LteIsGreatest(m, 2); }
    assert KeysFrom(m, 2) == {};
  }

  /** The first insert into an empty list: one run of `size` from item 0 at offset 0. */
  method OneRun(size: nat) returns (list: OffsetList)
    ensures fresh(list)
    ensures list.sizeTree == map[0 := size] && list.offsetTree == map[0 := 0]
  {
    list := new OffsetList();
    list.Insert(0, 0, size);
    FirstInsertOffsets(size, 0);
  }

  /** A run between two others shifts the offsets of every later run. */
  method InBetweenInsert()
  {
    var list := OneRun(1);
    InBetweenFirstStep();
    ApplyInsert(list, 9, 10, 2, map[0 := 1, 9 := 2, 11 := 1], map[0 := 0, 9 := 9, 11 := 13]);
    InBetweenSecondStep();
    ApplyInsert(list, 3, 7, 3, map[0 := 1, 3 := 3, 8 := 1, 9 := 2, 11 := 1], map[0 := 0, 3 := 3, 8 := 18, 9 := 19, 11 := 23]);
  }

  /** A run over two run starts removes them and keeps the tail of the last one. */
  method OverlapInsert()
  {
    var list := OneRun(1);
    OverlapFirstStep();
    ApplyInsert(list, 3, 7, 2, map[0 := 1, 3 := 2, 8 := 1], map[0 := 0, 3 := 3, 8 := 13]);
    OverlapSecondStep();
    ApplyInsert(list, 2, 9, 3, map[0 := 1, 2 := 3, 10 := 1], map[0 := 0, 2 := 2, 10 := 26]);
  }

  /** Inserting the size a run already has changes nothing. */
  method SameInsert()
  {
    var list := OneRun(10);
    SameFirstStep();
    ApplyInsert(list, 1, 1, 10, map[0 := 10], map[0 := 0]);
    SameSecondStep();
    ApplyInsert(list, 20, 21, 10, map[0 := 10], map[0 := 0]);
  }

  /** Resizing item 0 alone splits the first run after it. */
  method ReInsertAtStart()
  {
    var list := OneRun(5);
    ReInsertStep();
    ApplyInsert(list, 0, 0, 10, map[0 := 10, 1 := 5], map[0 := 0, 1 := 10]);
  }

  /** A run inside the first one splits it in three. */
  method NewInsert()
  {
    var list := OneRun(10);
    NewInsertStep();
    ApplyInsert(list, 3, 5, 20, map[0 := 10, 3 := 20, 6 := 10], map[0 := 0, 3 := 30, 6 := 90]);
  }

  /** A run that starts inside a run of the same size joins it. */
  method JoinStart()
  {
    var list := OneRun(10);
    NewInsertStep();
    ApplyInsert(list, 3, 5, 20, map[0 := 10, 3 := 20, 6 := 10], map[0 := 0, 3 := 30, 6 := 90]);
    JoinStartStep();
    ApplyInsert(list, 5, 7, 20, map[0 := 10, 3 := 20, 8 := 10], map[0 := 0, 3 := 30, 8 := 130]);
  }

  /** A run that ends where a run of the same size starts joins it. */
  method JoinEnd()
  {
    var list := OneRun(10);
    JoinFirstStep();
    ApplyInsert(list, 5, 7, 20, map[0 := 10, 5 := 20, 8 := 10], map[0 := 0, 5 := 50, 8 := 110]);
    JoinEndStep();
    ApplyInsert(list, 3, 5, 20, map[0 := 10, 3 := 20, 8 := 10], map[0 := 0, 3 := 30, 8 := 130]);
  }

  /** A run of another size over a run start replaces that run. */
  method Override()
  {
    var list := OneRun(10);
    JoinFirstStep();
    ApplyInsert(list, 5, 7, 20, map[0 := 10, 5 := 20, 8 := 10], map[0 := 0, 5 := 50, 8 := 110]);
    OverrideStep();
    ApplyInsert(list, 4, 7, 30, map[0 := 10, 4 := 30, 8 := 10], map[0 := 0, 4 := 40, 8 := 160]);
  }

  /** A run of the first run's size over all later runs leaves one run. */
  method JoinOverride()
  {
    var list := OneRun(5);
    JoinOverrideFirstStep();
    ApplyInsert(list, 4, 5, 10, map[0 := 5, 4 := 10, 6 := 5], map[0 := 0, 4 := 20, 6 := 40]);
    JoinOverrideSecondStep();
    ApplyInsert(list, 6, 7, 20, map[0 := 5, 4 := 10, 6 := 20, 8 := 5], map[0 := 0, 4 := 20, 6 := 40, 8 := 80]);
    JoinOverrideThirdStep();
    ApplyInsert(list, 3, 8, 5, map[0 := 5], map[0 := 0]);
  }

  /** `insert_spots([0, 10, 20], 5)`: each spot starts a run of size 5 followed by a placeholder. */
  lemma SpotsSizes()
    ensures SpotSizes([0, 10, 20], 5) == map[0 := 5, 1 := 0, 10 := 5, 11 := 0, 20 := 5, 21 := 0]
  {
    assert [0, 10, 20][..2] == [0, 10];
    assert [0, 10][..1] == [0];
    assert [0][..0] == [];
  }

  /** One run further: the summed size grows by the run's length times its size. */
  lemma SpanNext(m: Tree, lo: nat, x: nat, y: nat, w: nat, before: nat)
    requires lo <= x <= y && x in m && m[x] == w
    requires forall k :: x < k < y ==> k !in m
    requires Span(m, lo, x) == before
    ensures Span(m, lo, y) == before + (y - x) * w
  {
    SpanRun(m, lo, x, y);
    TimesIsProduct(y - x, w);
  }

  /** The summed sizes of the spot layout from item 0 up to each of its keys. */
  lemma SpotsSpans(m: Tree)
    requires m == map[0 := 5, 1 := 0, 10 := 5, 11 := 0, 20 := 5, 21 := 0]
    ensures Span(m, 0, 0) == 0 && Span(m, 0, 1) == 5 && Span(m, 0, 10) == 5
    ensures Span(m, 0, 11) == 10 && Span(m, 0, 20) == 10 && Span(m, 0, 21) == 15
  {
    assert Span(m, 0, 0) == 0;
    SpanNext(m, 0, 0, 1, 5, 0);
    SpanNext(m, 0, 1, 10, 0, 5);
    SpanNext(m, 0, 10, 11, 5, 5);
    SpanNext(m, 0, 11, 20, 0, 10);
    SpanNext(m, 0, 20, 21, 5, 10);
  }

  /** The offsets that `insert_spots` propagates from item 0. */
  lemma SpotsOffsets(m: Tree)
    requires m == map[0 := 5, 1 := 0, 10 := 5, 11 := 0, 20 := 5, 21 := 0]
    ensures HasFloor(m, 0)
    ensures PropagatedOffsets(m, map[], 0) == map[0 := 0, 1 := 5, 10 := 5, 11 := 10, 20 := 10, 21 := 15]
  {
    assert 0 in m;
    assert Anchor(m, 0) == 0 by { LteIsGreatest(m, 0); }
    assert KeysFrom(m, 0) == {0, 1, 10, 11, 20, 21};
    SpotsSpans(m);
    var r := PropagatedOffsets(m, map[], 0);
    assert r.Keys == {0, 1, 10, 11, 20, 21};
    assert r[0] == 0 && r[1] == 5 && r[10] == 5 && r[11] == 10 && r[20] == 10 && r[21] == 15;
  }

  /** Spots of size 5 at 0, 10 and 20 lay out three runs, each followed by a placeholder. */
  method SpotsList() returns (list: OffsetList)
    ensures fresh(list)
    ensures list.sizeTree == map[0 := 5, 1 := 0, 10 := 5, 11 := 0, 20 := 5, 21 := 0]
    ensures list.offsetTree == map[0 := 0, 1 := 5, 10 := 5, 11 := 10, 20 := 10, 21 := 15]
  {
    list := new OffsetList();
    list.InsertSpots([0, 10, 20], 5);
    SpotsSizes();
    SpotsOffsets(map[0 := 5, 1 := 0, 10 := 5, 11 := 0, 20 := 5, 21 := 0]);
  }

  /** Filling the placeholders of the spot layout with size 10. */
  lemma SpotsFilled(m: Tree)
    requires FillsPlaceholders(map[0 := 5, 1 := 0, 10 := 5, 11 := 0, 20 := 5, 21 := 0], m, 10)
    ensures m == map[0 := 5, 1 := 10, 10 := 5, 11 := 10, 20 := 5, 21 := 10]
  {
    assert m.Keys == {0, 1, 10, 11, 20, 21};
  }

  /** The summed sizes of the filled layout from item 0 up to each of its keys. */
  lemma FilledSpans(m: Tree)
    requires m == map[0 := 5, 1 := 10, 10 := 5, 11 := 10, 20 := 5, 21 := 10]
    ensures Span(m, 0, 0) == 0 && Span(m, 0, 1) == 5 && Span(m, 0, 10) == 95
    ensures Span(m, 0, 11) == 100 && Span(m, 0, 20) == 190 && Span(m, 0, 21) == 195
  {
    assert Span(m, 0, 0) == 0;
    SpanNext(m, 0, 0, 1, 5, 0);
    SpanNext(m, 0, 1, 10, 10, 5);
    SpanNext(m, 0, 10, 11, 5, 95);
    SpanNext(m, 0, 11, 20, 10, 100);
    SpanNext(m, 0, 20, 21, 5, 190);
  }

  /** Propagating from item 1 starts from the run of item 0 and visits every key. */
  lemma FilledAnchor(m: Tree)
    requires m == map[0 := 5, 1 := 10, 10 := 5, 11 := 10, 20 := 5, 21 := 10]
    ensures HasFloor(m, Prev(1)) && Anchor(m, 1) == 0
    ensures KeysFrom(m, 0) == {0, 1, 10, 11, 20, 21}
  {
    assert 0 in m;
    LteIsGreatest(m, 0);
  }

  /** Propagating from item 1 after the fill recomputes every run. */
  lemma FilledFromStart(m: Tree)
    requires m == map[0 := 5, 1 := 10, 10 := 5, 11 := 10, 20 := 5, 21 := 10]
    ensures HasFloor(m, Prev(1))
    ensures PropagatedOffsets(m, map[0 := 0, 1 := 5, 10 := 5, 11 := 10, 20 := 10, 21 := 15], 1) == map[0 := 0, 1 := 5, 10 := 95, 11 := 100, 20 := 190, 21 := 195]
  {
    FilledSpans(m);
    FilledAnchor(m);
    var o := map[0 := 0, 1 := 5, 10 := 5, 11 := 10, 20 := 10, 21 := 15];
    var r := PropagatedOffsets(m, o, 1);
    assert r.Keys == {0, 1, 10, 11, 20, 21};
    assert r[0] == 0 && r[1] == 5 && r[10] == 95;
    assert r[11] == 100 && r[20] == 190 && r[21] == 195;
  }

  /**
   A size for the first placeholder, other than the size of the run before it,
   fills every placeholder with that size and keeps the keys.
   */
  method InsertSizeAfterSpot()
  {
    var list := SpotsList();
    ghost var sizes, offsets := list.sizeTree, list.offsetTree;
    assert 1 in sizes && sizes[1] == 0 && sizes[0] == 5;
    list.Insert(1, 5, 10);
    assert FillsPlaceholders(sizes, list.sizeTree, 10) && list.offsetTree == PropagatedOffsets(list.sizeTree, offsets, 1);
    SpotsFilled(list.sizeTree);
    FilledFromStart(list.sizeTree);
    assert list.sizeTree == map[0 := 5, 1 := 10, 10 := 5, 11 := 10, 20 := 5, 21 := 10];
    assert list.offsetTree == map[0 := 0, 1 := 5, 10 := 95, 11 := 100, 20 := 190, 21 := 195];
  }

  /** The summed sizes of the filled layout from item 10 up to each later key. */
  lemma FilledSpansFromTen(m: Tree)
    requires m == map[0 := 5, 1 := 10, 10 := 5, 11 := 10, 20 := 5, 21 := 10]
    ensures Span(m, 10, 10) == 0 && Span(m, 10, 11) == 5 && Span(m, 10, 20) == 95 && Span(m, 10, 21) == 100
  {
    assert Span(m, 10, 10) == 0;
    SpanNext(m, 10, 10, 11, 5, 0);
    SpanNext(m, 10, 11, 20, 10, 5);
    SpanNext(m, 10, 20, 21, 5, 95);
  }

  /** Propagating from item 11 after the fill starts from the offset of item 10 before the fill. */
  lemma FilledFromLater(m: Tree)
    requires m == map[0 := 5, 1 := 10, 10 := 5, 11 := 10, 20 := 5, 21 := 10]
    ensures HasFloor(m, Prev(11))
    ensures PropagatedOffsets(m, map[0 := 0, 1 := 5, 10 := 5, 11 := 10, 20 := 10, 21 := 15], 11) == map[0 := 0, 1 := 5, 10 := 5, 11 := 10, 20 := 100, 21 := 105]
  {
    assert 0 in m;
    assert Anchor(m, 11) == 10 by { LteIsGreatest(m, 10); }
    assert KeysFrom(m, 10) == {10, 11, 20, 21};
    FilledSpansFromTen(m);
    var r := PropagatedOffsets(m, map[0 := 0, 1 := 5, 10 := 5, 11 := 10, 20 := 10, 21 := 15], 11);
    assert r.Keys == {0, 1, 10, 11, 20, 21};
    assert r[0] == 0 && r[1] == 5 && r[10] == 5 && r[11] == 10 && r[20] == 100 && r[21] == 105;
  }

  /** After the fill from item 11, item 10 is a run start whose offset 5 falls short of the 95 before it. */
  lemma StaleFacts(m: Tree, o: Tree)
    requires m == map[0 := 5, 1 := 10, 10 := 5, 11 := 10, 20 := 5, 21 := 10]
    requires o == map[0 := 0, 1 := 5, 10 := 5, 11 := 10, 20 := 100, 21 := 105]
    ensures HasFloor(m, 10) && Lte(m, 10).0 == 10 && o[10] == 5
    ensures Span(m, 0, 10) == 95
    ensures !Synced(m, o)
  {
    assert 10 in m;
    LteIsGreatest(m, 10);
    FilledSpans(m);
  }

  /** The spot layout and its propagated offsets are in sync. */
  lemma SpotsSynced(m: Tree, o: Tree)
    requires m == map[0 := 5, 1 := 0, 10 := 5, 11 := 0, 20 := 5, 21 := 0]
    requires o == map[0 := 0, 1 := 5, 10 := 5, 11 := 10, 20 := 10, 21 := 15]
    ensures Synced(m, o)
  {
    SpotsSpans(m);
    assert o.Keys == m.Keys;
    forall k | k in m
      ensures o[k] == Span(m, 0, k)
    {
      assert k == 0 || k == 1 || k == 10 || k == 11 || k == 20 || k == 21;
    }
  }

  /**
   The placeholder path as written: a synced spot layout whose placeholders are
   filled with size 10 from item 11 on is left out of sync by the propagation
   from item 11.
   */
  lemma StaleAfterFill(before: Tree, offsets: Tree, after: Tree)
    requires before == map[0 := 5, 1 := 0, 10 := 5, 11 := 0, 20 := 5, 21 := 0]
    requires offsets == map[0 := 0, 1 := 5, 10 := 5, 11 := 10, 20 := 10, 21 := 15]
    requires FillsPlaceholders(before, after, 10)
    ensures Synced(before, offsets)
    ensures HasFloor(after, Prev(11)) && !Synced(after, PropagatedOffsets(after, offsets, 11))
  {
    SpotsSynced(before, offsets);
    SpotsFilled(after);
    FilledFromLater(after);
    StaleFacts(after, PropagatedOffsets(after, offsets, 11));
  }

  /**
   Filling the placeholders from a later one, at item 11, leaves the offset of
   item 10 at its value from before the fill: 5, where the items before it now
   add up to 95; `offset_of(10)` answers 5.
   */
  method StaleOffsetsAfterFill()
  {
    var list := SpotsList();
    ghost var sizes, offsets := list.sizeTree, list.offsetTree;
    assert 11 in sizes && sizes[11] == 0 && sizes[10] == 5;
    assert 11 in list.sizeTree && list.sizeTree[11] == 0 && 10 in list.sizeTree;
    list.Insert(11, 11, 10);
    assert FillsPlaceholders(sizes, list.sizeTree, 10) && list.offsetTree == PropagatedOffsets(list.sizeTree, offsets, 11);
    SpotsFilled(list.sizeTree);
    FilledFromLater(list.sizeTree);
    assert list.sizeTree == map[0 := 5, 1 := 10, 10 := 5, 11 := 10, 20 := 5, 21 := 10];
    assert list.offsetTree == map[0 := 0, 1 := 5, 10 := 5, 11 := 10, 20 := 100, 21 := 105];
    StaleFacts(list.sizeTree, list.offsetTree);
    assert list.RangeSizeAndOffset(10) == (5, 5, 10);
    assert list.OffsetOf(10) == 5;
    assert Span(list.sizeTree, 0, 10) == 95;
    assert !Synced(list.sizeTree, list.offsetTree);
  }

  lemma QueryStep()
    ensures InsertGives(map[0 := 1], map[0 := 0], 2, 4, 2,
                        map[0 := 1, 2 := 2, 5 := 1], map[0 := 0, 2 := 2, 5 := 8])
  {
    QuerySizes();
    QueryOffsets(map[0 := 1, 2 := 2, 5 := 1]);
  }

  lemma QuerySizes()
    ensures HasFloor(map[0 := 1], Prev(2))
    ensures Removed(map[0 := 1], 2, 4, 2) == {}
    ensures InsertedSizes(map[0 := 1], 2, 4, 2) == map[0 := 1, 2 := 2, 5 := 1]
  {
    assert 0 in map[0 := 1] && 0 <= Prev(2);
  }

  lemma QueryOffsets(m: Tree)
    requires m == map[0 := 1, 2 := 2, 5 := 1]
    ensures HasFloor(m, Prev(2))
    ensures PropagatedOffsets(m, map[0 := 0] - {}, 2) == map[0 := 0, 2 := 2, 5 := 8]
  {
    assert 0 in m;
    assert Anchor(m, 2) == 0 by { LteIsGreatest(m, 1); }
    assert KeysFrom(m, 1) == {2, 5};
    SpanNext(m, 0, 0, 2, 1, 0);
    SpanNext(m, 0, 2, 5, 2, 2);
    var r := PropagatedOffsets(m, map[0 := 0] - {}, 2);
    assert r.Keys == {0, 2, 5};
    assert r[0] == 0 && r[2] == 2 && r[5] == 8;
  }

  /** The runs of size 1, 2 and 1 from items 0, 2 and 5 with their offsets are in sync; the sums up to items 7, 8 and 10. */
  lemma QueryFacts(m: Tree, o: Tree)
    requires m == map[0 := 1, 2 := 2, 5 := 1] && o == map[0 := 0, 2 := 2, 5 := 8]
    ensures Synced(m, o)
    ensures HasFloor(m, 7) && Lte(m, 7).0 == 5 && HasFloor(m, 10) && Lte(m, 10).0 == 5
    ensures Span(m, 0, 7) == 10 && Span(m, 0, 8) == 11 && Span(m, 0, 10) == 13
    ensures ItemSize(m, 7) == 1 && ItemSize(m, 10) == 1
  {
    assert 5 in m;
    LteIsGreatest(m, 7);
    LteIsGreatest(m, 10);
    assert Span(m, 0, 0) == 0;
    SpanNext(m, 0, 0, 2, 1, 0);
    SpanNext(m, 0, 2, 5, 2, 2);
    SpanNext(m, 0, 5, 7, 1, 8);
    SpanNext(m, 0, 5, 8, 1, 8);
    SpanNext(m, 0, 5, 10, 1, 8);
    SameRun(m, 5, 7);
    SameRun(m, 5, 10);
  }

  /** Runs of size 1 from item 0 and of size 2 at items 2 to 4 leave runs of size 1, 2 and 1 from items 0, 2 and 5. */
  method QueryList() returns (list: OffsetList)
    ensures fresh(list)
    ensures list.sizeTree == map[0 := 1, 2 := 2, 5 := 1] && list.offsetTree == map[0 := 0, 2 := 2, 5 := 8]
  {
    list := OneRun(1);
    QueryStep();
    list.Insert(2, 4, 2);
  }

  /** In the same runs, index 3 lies in the run from 2 and index 6 in the run from 5. */
  lemma IndexFacts(m: Tree)
    requires m == map[0 := 1, 2 := 2, 5 := 1]
    ensures HasFloor(m, 3) && Lte(m, 3).0 == 2
    ensures ItemSize(m, 3) == 2 && ItemSize(m, 6) == 1
  {
    assert 2 in m;
    LteIsGreatest(m, 3);
    SameRun(m, 2, 3);
    SameRun(m, 5, 6);
  }

  /** With runs of size 1, 2 and 1 from items 0, 2 and 5, the point queries at items 7 and 10. */
  method PointQueries()
  {
    var list := QueryList();
    QueryFacts(list.sizeTree, list.offsetTree);
    assert list.OffsetOf(7) == 10;
    assert list.Total(7) == 11;
    assert list.ItemAt(10) == Item(1, 13, 10);
  }

  /** The same list, items 3 to 6 by index: four items, the first of size 2, the last of size 1. */
  method IndexRangeScenario()
  {
    var list := QueryList();
    IndexFacts(list.sizeTree);
    var items := list.IndexRange(3, 6);
    assert |items| == 4;
    assert items[0] == Item(ItemSize(list.sizeTree, 3), 0, 3);
    assert items[0].index == 3 && items[0].size == 2;
    assert items[3] == Item(ItemSize(list.sizeTree, 6), 0, 6);
    assert items[3].index == 6 && items[3].size == 1;
  }

  lemma RangeInsertStep()
    ensures InsertGives(map[0 := 10], map[0 := 0], 2, 4, 20,
                        map[0 := 10, 2 := 20, 5 := 10], map[0 := 0, 2 := 20, 5 := 80])
  {
    RangeInsertSizes();
    RangeInsertOffsets(map[0 := 10, 2 := 20, 5 := 10]);
  }

  lemma RangeInsertSizes()
    ensures HasFloor(map[0 := 10], Prev(2))
    ensures Removed(map[0 := 10], 2, 4, 20) == {}
    ensures InsertedSizes(map[0 := 10], 2, 4, 20) == map[0 := 10, 2 := 20, 5 := 10]
  {
    assert 0 in map[0 := 10] && 0 <= Prev(2);
  }

  lemma RangeInsertOffsets(m: Tree)
    requires m == map[0 := 10, 2 := 20, 5 := 10]
    ensures HasFloor(m, Prev(2))
    ensures PropagatedOffsets(m, map[0 := 0] - {}, 2) == map[0 := 0, 2 := 20, 5 := 80]
  {
    assert 0 in m;
    assert Anchor(m, 2) == 0 by { LteIsGreatest(m, 1); }
    assert KeysFrom(m, 1) == {2, 5};
    SpanNext(m, 0, 0, 2, 10, 0);
    SpanNext(m, 0, 2, 5, 20, 20);
    var r := PropagatedOffsets(m, map[0 := 0] - {}, 2);
    assert r.Keys == {0, 2, 5};
    assert r[0] == 0 && r[2] == 20 && r[5] == 80;
  }

  /** The pixel index after the first insert of the `range` scenario. */
  lemma RangeFirstPixels()
    ensures HasFloor(map[0 := 10], Prev(0))
    ensures PropagatedPixels(map[0 := 10], map[], map[], 0) == map[0 := 0]
  {
    assert 0 in map[0 := 10];
    FirstInsertOffsets(10, 0);
    assert KeysFrom(map[0 := 10], 0) == {0};
    assert Min({0}) == 0;
    assert Updated(map[0 := 10], 0) == [0];
  }

  /** The pixel index after the second insert: the offsets 20 and 80 of the new runs map back to them. */
  lemma RangeSecondPixels(m: Tree)
    requires m == map[0 := 10, 2 := 20, 5 := 10]
    requires HasFloor(m, Prev(2))
    requires PropagatedOffsets(m, map[0 := 0], 2) == map[0 := 0, 2 := 20, 5 := 80]
    ensures PropagatedPixels(m, map[0 := 0] - {}, map[0 := 0] - OffsetsOf(map[0 := 0], {}), 2) == map[0 := 0, 20 := 2, 80 := 5]
  {
    assert map[0 := 0] - {} == map[0 := 0];
    assert OffsetsOf(map[0 := 0], {}) == {};
    assert KeysFrom(m, 1) == {2, 5};
    assert Min({2, 5}) == 2;
    assert {2, 5} - {2} == {5};
    assert Min({5}) == 5;
    assert Ascending({2, 5}) == [2, 5];
    assert Updated(m, 2) == [2, 5];
    var o := PropagatedOffsets(m, map[0 := 0], 2);
    assert o[2] == 20 && o[5] == 80;
    assert WritePixels(map[0 := 0], [2, 5], o) == WritePixels(map[0 := 0, 20 := 2], [5], o);
    assert WritePixels(map[0 := 0, 20 := 2], [5], o) == WritePixels(map[0 := 0, 20 := 2, 80 := 5], [], o);
  }

  /** The pixel window from 13 to 79 starts at item 0's pixel entry and ends at item 5's. */
  lemma RangeWindow(m: Tree, o: Tree, p: Tree)
    requires m == map[0 := 10, 2 := 20, 5 := 10] && o == map[0 := 0, 2 := 20, 5 := 80] && p == map[0 := 0, 20 := 2, 80 := 5]
    ensures PixelWindowDefined(m, o, p, 13, 79)
  {
    assert 0 in p && 80 in KeysFrom(p, 79);
    LteIsGreatest(p, 13);
    assert Lte(p, 13).0 == 0;
    assert Ceiling(p, 79).0 == 80;
    assert 0 in o;
    LteIsGreatest(o, 0);
    assert KeysBetween(o, 0, 5) == {0, 2, 5};
  }

  /** The runs of the offset index that the window selects. */
  lemma RangeRuns(o: Tree, p: Tree, ranges: seq<Range>)
    requires o == map[0 := 0, 2 := 20, 5 := 80] && p == map[0 := 0, 20 := 2, 80 := 5]
    requires PixelRuns(o, p, 13, 79, ranges)
    ensures ranges == [Range(0, 1, 0), Range(2, 4, 20), Range(5, LAST_RANGE_END, 80)]
  {
    LteIsGreatest(p, 13);
    assert Lte(p, 13).1 == 0;
    assert Ceiling(p, 79).0 == 80;
    assert 0 in o;
    assert Lte(o, 0).0 == 0;
    assert KeysBetween(o, 0, 5) == {0, 2, 5};
    assert |ranges| == 3;
    assert ranges[1].start in Starts(ranges) && ranges[2].start in Starts(ranges);
    assert ranges[1].start == 2 && ranges[2].start == 5;
  }

  /** Where the walk enters each of the three runs, for the window from offset 13. */
  lemma RangeSkips()
    ensures Skip(Range(0, 1, 0), 10, 13, 0) == (1, 10)
    ensures Skip(Range(2, 4, 20), 20, 13, 0) == (2, 20)
    ensures Skip(Range(5, LAST_RANGE_END, 80), 10, 13, 0) == (5, 80)
  {
  }

  /** The items each of the three runs gives up to offset 79. */
  lemma RangeRunItems()
    ensures RunItems(10, 10, 1, 1, 79) == [Item(10, 10, 1)]
    ensures RunItems(20, 20, 2, 4, 79) == [Item(20, 20, 2), Item(20, 40, 3), Item(20, 60, 4)]
    ensures RunItems(10, 80, 5, LAST_RANGE_END, 79) == []
  {
  }

  /** Walking those runs from offset 13 to 79: one item of the first run, three of the second, none of the third. */
  lemma RangeWalk(m: Tree, o: Tree, p: Tree, ranges: seq<Range>)
    requires m == map[0 := 10, 2 := 20, 5 := 10] && o == map[0 := 0, 2 := 20, 5 := 80] && p == map[0 := 0, 20 := 2, 80 := 5]
    requires PixelWindowDefined(m, o, p, 13, 79)
    requires PixelRuns(o, p, 13, 79, ranges)
    ensures RangeItems(m, o, p, 13, 79, 0, LAST_RANGE_END, ranges)
            == [Item(10, 10, 1), Item(20, 20, 2), Item(20, 40, 3), Item(20, 60, 4)]
  {
    RangeRuns(o, p, ranges);
    RangeReachesAll(m, o, p, 13, 79, ranges);
    RangeSkips();
    RangeRunItems();
    WalkFromStep(m, ranges, 13, 79, 0, LAST_RANGE_END, 0);
    WalkFromStep(m, ranges, 13, 79, 0, LAST_RANGE_END, 1);
    WalkFromStep(m, ranges, 13, 79, 0, LAST_RANGE_END, 2);
  }

  /** The first insert of the `range` scenario: one run of size 10 from item 0. */
  method RangeFirst() returns (list: OffsetList)
    ensures fresh(list)
    ensures list.sizeTree == map[0 := 10] && list.offsetTree == map[0 := 0] && list.pixelTree == map[0 := 0]
  {
    list := new OffsetList();
    list.Insert(0, 0, 10);
    FirstInsertOffsets(10, 0);
    RangeFirstPixels();
  }

  /** Inserting runs of size 10 from item 0 and of size 20 at items 2 to 4 leaves runs of size 10, 20 and 10 from items 0, 2 and 5. */
  method RangeList() returns (list: OffsetList)
    ensures fresh(list)
    ensures list.sizeTree == map[0 := 10, 2 := 20, 5 := 10]
    ensures list.offsetTree == map[0 := 0, 2 := 20, 5 := 80]
    ensures list.pixelTree == map[0 := 0, 20 := 2, 80 := 5]
  {
    list := RangeFirst();
    RangeInsertStep();
    ghost var sizes, offsets, pixels := list.sizeTree, list.offsetTree, list.pixelTree;
    assert !(2 in sizes);
    list.Insert(2, 4, 20);
    ghost var removed := Removed(sizes, 2, 4, 20);
    assert list.pixelTree == PropagatedPixels(list.sizeTree, offsets - removed, pixels - OffsetsOf(offsets, removed), 2);
    assert removed == {};
    assert list.sizeTree == map[0 := 10, 2 := 20, 5 := 10] && list.offsetTree == map[0 := 0, 2 := 20, 5 := 80];
    RangeInsertOffsets(list.sizeTree);
    assert map[0 := 0] - {} == map[0 := 0];
    RangeSecondPixels(list.sizeTree);
    assert list.pixelTree == map[0 := 0, 20 := 2, 80 := 5];
  }

  /** The pixel window from 13 to 79 over those runs shows items 1 to 4. */
  method RangeScenario()
  {
    var list := RangeList();
    RangeWindow(list.sizeTree, list.offsetTree, list.pixelTree);
    var items := list.Range(13, 79, 0, LAST_RANGE_END);
    ghost var ranges :| PixelRuns(list.offsetTree, list.pixelTree, 13, 79, ranges)
                  && items == RangeItems(list.sizeTree, list.offsetTree, list.pixelTree, 13, 79, 0, LAST_RANGE_END, ranges);
    RangeWalk(list.sizeTree, list.offsetTree, list.pixelTree, ranges);
    assert items == [Item(10, 10, 1), Item(20, 20, 2), Item(20, 40, 3), Item(20, 60, 4)];
    RangeListSound(list.sizeTree, list.offsetTree, list.pixelTree);
  }

  /**
   The list of the `range` scenario is synced and its pixel index has no
   stale entry, so `Range` promises true sizes and offsets on it.
   */
  lemma RangeListSound(m: Tree, o: Tree, p: Tree)
    requires m == map[0 := 10, 2 := 20, 5 := 10] && o == map[0 := 0, 2 := 20, 5 := 80] && p == map[0 := 0, 20 := 2, 80 := 5]
    ensures Synced(m, o) && PixelSound(o, p)
  {
    assert Span(m, 0, 0) == 0;
    SpanNext(m, 0, 0, 2, 10, 0);
    SpanNext(m, 0, 2, 5, 20, 20);
  }

  // ----- Stale pixel entries: `range` after a run moves to a lower offset -----

  lemma StaleSplitStep()
    ensures InsertGives(map[0 := 10], map[0 := 0], 5, 5, 20,
                        map[0 := 10, 5 := 20, 6 := 10], map[0 := 0, 5 := 50, 6 := 70])
  {
    StaleSplitSizes();
    StaleSplitOffsets(map[0 := 10, 5 := 20, 6 := 10]);
  }

  lemma StaleSplitSizes()
    ensures HasFloor(map[0 := 10], Prev(5))
    ensures Removed(map[0 := 10], 5, 5, 20) == {}
    ensures InsertedSizes(map[0 := 10], 5, 5, 20) == map[0 := 10, 5 := 20, 6 := 10]
  {
    assert 0 in map[0 := 10] && 0 <= Prev(5);
  }

  lemma StaleSplitOffsets(m: Tree)
    requires m == map[0 := 10, 5 := 20, 6 := 10]
    ensures HasFloor(m, Prev(5))
    ensures PropagatedOffsets(m, map[0 := 0] - {}, 5) == map[0 := 0, 5 := 50, 6 := 70]
  {
    assert 0 in m;
    assert Anchor(m, 5) == 0 by { LteIsGreatest(m, 4); }
    assert KeysFrom(m, 4) == {5, 6};
    SpanNext(m, 0, 0, 5, 10, 0);
    SpanNext(m, 0, 5, 6, 20, 50);
    var r := PropagatedOffsets(m, map[0 := 0] - {}, 5);
    assert r.Keys == {0, 5, 6};
    assert r[0] == 0 && r[5] == 50 && r[6] == 70;
  }

  /** The split writes pixels 50 and 70 for runs 5 and 6. */
  lemma StaleSplitPixels(m: Tree)
    requires m == map[0 := 10, 5 := 20, 6 := 10]
    requires HasFloor(m, Prev(5))
    requires PropagatedOffsets(m, map[0 := 0], 5) == map[0 := 0, 5 := 50, 6 := 70]
    ensures PropagatedPixels(m, map[0 := 0] - {}, map[0 := 0] - OffsetsOf(map[0 := 0], {}), 5) == map[0 := 0, 50 := 5, 70 := 6]
  {
    assert map[0 := 0] - {} == map[0 := 0];
    assert OffsetsOf(map[0 := 0], {}) == {};
    assert KeysFrom(m, 4) == {5, 6};
    assert Min({5, 6}) == 5;
    assert {5, 6} - {5} == {6};
    assert Min({6}) == 6;
    assert Ascending({5, 6}) == [5, 6];
    assert Updated(m, 5) == [5, 6];
    var o := PropagatedOffsets(m, map[0 := 0], 5);
    assert o[5] == 50 && o[6] == 70;
    assert WritePixels(map[0 := 0], [5, 6], o) == WritePixels(map[0 := 0, 50 := 5], [6], o);
    assert WritePixels(map[0 := 0, 50 := 5], [6], o) == WritePixels(map[0 := 0, 50 := 5, 70 := 6], [], o);
  }

  lemma StaleShrinkStep()
    ensures InsertGives(map[0 := 10, 5 := 20, 6 := 10], map[0 := 0, 5 := 50, 6 := 70], 0, 4, 1,
                        map[0 := 1, 5 := 20, 6 := 10], map[0 := 0, 5 := 5, 6 := 25])
    ensures var removed := Removed(map[0 := 10, 5 := 20, 6 := 10], 0, 4, 1);
            PropagatedPixels(map[0 := 1, 5 := 20, 6 := 10], map[0 := 0, 5 := 50, 6 := 70] - removed,
                             map[0 := 0, 50 := 5, 70 := 6] - OffsetsOf(map[0 := 0, 5 := 50, 6 := 70], removed), 0)
            == map[0 := 0, 5 := 5, 25 := 6, 50 := 5, 70 := 6]
  {
    var m2, o := map[0 := 1, 5 := 20, 6 := 10], map[0 := 0, 5 := 50, 6 := 70];
    StaleShrinkSizes(map[0 := 10, 5 := 20, 6 := 10]);
    StaleShrinkOffsets(m2, o);
    assert o - {} == o;
    StaleShrinkPixels(m2, o, map[0 := 0, 50 := 5, 70 := 6]);
  }

  lemma StaleShrinkSizes(m: Tree)
    requires m == map[0 := 10, 5 := 20, 6 := 10]
    ensures HasFloor(m, Prev(0))
    ensures Removed(m, 0, 4, 1) == {}
    ensures InsertedSizes(m, 0, 4, 1) == map[0 := 1, 5 := 20, 6 := 10]
  {
    assert 0 in m && 0 <= Prev(0);
    assert Anchor(m, 0) == 0;
    assert TailRun(m, 0, 4) == (5, 20) by { LteIsGreatest(m, 5); }
  }

  lemma StaleShrinkOffsets(m: Tree, o: Tree)
    requires m == map[0 := 1, 5 := 20, 6 := 10] && o == map[0 := 0, 5 := 50, 6 := 70]
    ensures HasFloor(m, Prev(0))
    ensures PropagatedOffsets(m, o - {}, 0) == map[0 := 0, 5 := 5, 6 := 25]
  {
    assert 0 in m;
    assert Anchor(m, 0) == 0;
    assert KeysFrom(m, 0) == {0, 5, 6};
    assert Span(m, 0, 0) == 0;
    SpanNext(m, 0, 0, 5, 1, 0);
    SpanNext(m, 0, 5, 6, 20, 5);
    var r := PropagatedOffsets(m, o - {}, 0);
    assert r.Keys == {0, 5, 6};
    assert r[0] == 0 && r[5] == 5 && r[6] == 25;
  }

  /** The shrink rewrites pixels 0, 5 and 25 and leaves the entries at 50 and 70 in place. */
  lemma StaleShrinkPixels(m: Tree, o: Tree, p: Tree)
    requires m == map[0 := 1, 5 := 20, 6 := 10] && o == map[0 := 0, 5 := 50, 6 := 70] && p == map[0 := 0, 50 := 5, 70 := 6]
    requires HasFloor(m, Prev(0))
    requires PropagatedOffsets(m, o, 0) == map[0 := 0, 5 := 5, 6 := 25]
    ensures PropagatedPixels(m, o - {}, p - OffsetsOf(o, {}), 0) == map[0 := 0, 5 := 5, 25 := 6, 50 := 5, 70 := 6]
  {
    assert o - {} == o;
    assert OffsetsOf(o, {}) == {};
    assert p - {} == p;
    StaleShrinkOrder(m);
    StaleShrinkWrites(p, PropagatedOffsets(m, o, 0));
  }

  /** The shrink recomputes runs 0, 5 and 6, in that order. */
  lemma StaleShrinkOrder(m: Tree)
    requires m == map[0 := 1, 5 := 20, 6 := 10]
    ensures Updated(m, 0) == [0, 5, 6]
  {
    assert KeysFrom(m, 0) == {0, 5, 6};
    assert Min({0, 5, 6}) == 0;
    assert {0, 5, 6} - {0} == {5, 6};
    assert Min({5, 6}) == 5;
    assert {5, 6} - {5} == {6};
    assert Min({6}) == 6;
    assert Ascending({0, 5, 6}) == [0, 5, 6];
  }

  lemma StaleShrinkWrites(p: Tree, o: Tree)
    requires p == map[0 := 0, 50 := 5, 70 := 6] && o == map[0 := 0, 5 := 5, 6 := 25]
    ensures WritePixels(p, [0, 5, 6], o) == map[0 := 0, 5 := 5, 25 := 6, 50 := 5, 70 := 6]
  {
    assert p[0 := 0] == p;
    assert WritePixels(p, [0, 5, 6], o) == WritePixels(p, [5, 6], o);
    assert WritePixels(p, [5, 6], o) == WritePixels(p[5 := 5], [6], o);
    assert WritePixels(p[5 := 5], [6], o) == WritePixels(p[5 := 5][25 := 6], [], o);
  }

  /** The pixel entries around the window from 0 to 45: item 0's at 0 and the stale one at 50. */
  lemma StalePixelEnds(p: Tree)
    requires p == map[0 := 0, 5 := 5, 25 := 6, 50 := 5, 70 := 6]
    ensures HasFloor(p, 0) && Lte(p, 0) == (0, 0)
    ensures KeysFrom(p, 45) != {} && Ceiling(p, 45) == (50, 5)
  {
    assert 0 in p;
    assert KeysFrom(p, 45) == {50, 70};
    assert IsLeast({50, 70}, 50);
  }

  /** The window from 0 to 45 starts at item 0's pixel entry and ends at the stale entry 50, which names item 5. */
  lemma StaleWindow(m: Tree, o: Tree, p: Tree)
    requires m == map[0 := 1, 5 := 20, 6 := 10] && o == map[0 := 0, 5 := 5, 6 := 25]
    requires p == map[0 := 0, 5 := 5, 25 := 6, 50 := 5, 70 := 6]
    ensures PixelWindowDefined(m, o, p, 0, 45)
  {
    StalePixelEnds(p);
    assert 0 in o;
    assert Lte(o, 0).0 == 0;
    assert KeysBetween(o, 0, 5) == {0, 5};
  }

  /** The runs of the offset index that the window selects: the last one, run 5, is open-ended. */
  lemma StaleRuns(o: Tree, p: Tree, ranges: seq<Range>)
    requires o == map[0 := 0, 5 := 5, 6 := 25] && p == map[0 := 0, 5 := 5, 25 := 6, 50 := 5, 70 := 6]
    requires PixelRuns(o, p, 0, 45, ranges)
    ensures ranges == [Range(0, 4, 0), Range(5, LAST_RANGE_END, 5)]
  {
    StalePixelEnds(p);
    assert 0 in o;
    assert Lte(o, 0).0 == 0;
    assert KeysBetween(o, 0, 5) == {0, 5};
    assert |ranges| == 2;
    assert ranges[1].start in Starts(ranges);
    assert ranges[1].start == 5;
  }

  /** The items each of the two runs gives up to offset 45: run 5 runs on past item 6, where the next run starts. */
  lemma StaleRunItems()
    ensures Skip(Range(0, 4, 0), 1, 0, 0) == (0, 0)
    ensures Skip(Range(5, LAST_RANGE_END, 5), 20, 0, 0) == (5, 5)
    ensures RunItems(1, 0, 0, 4, 45) == [Item(1, 0, 0), Item(1, 1, 1), Item(1, 2, 2), Item(1, 3, 3), Item(1, 4, 4)]
    ensures RunItems(20, 5, 5, 100, 45) == [Item(20, 5, 5), Item(20, 25, 6), Item(20, 45, 7)]
  {
  }

  /**
   As written, `range(0, 45, 0, 100)` on a synced list whose pixel index
   keeps the stale entries 50 and 70 reports items 6 and 7 with size 20,
   and item 7 at offset 45, though both have size 10 and item 7 starts at 35.
   */
  lemma StalePixelRange(m: Tree, o: Tree, p: Tree, ranges: seq<Range>)
    requires m == map[0 := 1, 5 := 20, 6 := 10] && o == map[0 := 0, 5 := 5, 6 := 25]
    requires p == map[0 := 0, 5 := 5, 25 := 6, 50 := 5, 70 := 6]
    requires PixelWindowDefined(m, o, p, 0, 45)
    requires PixelRuns(o, p, 0, 45, ranges)
    ensures Synced(m, o) && !PixelSound(o, p)
    ensures var items := RangeItems(m, o, p, 0, 45, 0, 100, ranges);
            && items == [Item(1, 0, 0), Item(1, 1, 1), Item(1, 2, 2), Item(1, 3, 3), Item(1, 4, 4),
                         Item(20, 5, 5), Item(20, 25, 6), Item(20, 45, 7)]
            && items[6].size != ItemSize(m, 6) && items[7].size != ItemSize(m, 7)
            && items[7].offset != Span(m, 0, 7)
  {
    StaleListFacts(m, o, p);
    StaleWalk(m, o, p, ranges);
  }

  /** The stale list is synced, items 6 and 7 have size 10, and item 7 starts at 35; the entry at 50 is stale. */
  lemma StaleListFacts(m: Tree, o: Tree, p: Tree)
    requires m == map[0 := 1, 5 := 20, 6 := 10] && o == map[0 := 0, 5 := 5, 6 := 25]
    requires p == map[0 := 0, 5 := 5, 25 := 6, 50 := 5, 70 := 6]
    ensures Synced(m, o) && !PixelSound(o, p)
    ensures ItemSize(m, 6) == 10 && ItemSize(m, 7) == 10 && Span(m, 0, 7) == 35
  {
    assert Span(m, 0, 0) == 0;
    SpanNext(m, 0, 0, 5, 1, 0);
    SpanNext(m, 0, 5, 6, 20, 5);
    SpanNext(m, 0, 6, 7, 10, 25);
    assert ItemSize(m, 7) == 10;
    assert p[50] == 5 && o[5] != 50;
  }

  /** Walking the two runs from offset 0 to 45: five items of run 0, then three of run 5. */
  lemma StaleWalk(m: Tree, o: Tree, p: Tree, ranges: seq<Range>)
    requires m == map[0 := 1, 5 := 20, 6 := 10] && o == map[0 := 0, 5 := 5, 6 := 25]
    requires p == map[0 := 0, 5 := 5, 25 := 6, 50 := 5, 70 := 6]
    requires PixelWindowDefined(m, o, p, 0, 45)
    requires PixelRuns(o, p, 0, 45, ranges)
    ensures RangeItems(m, o, p, 0, 45, 0, 100, ranges)
            == [Item(1, 0, 0), Item(1, 1, 1), Item(1, 2, 2), Item(1, 3, 3), Item(1, 4, 4),
                Item(20, 5, 5), Item(20, 25, 6), Item(20, 45, 7)]
  {
    StaleRuns(o, p, ranges);
    RangeReachesAll(m, o, p, 0, 45, ranges);
    StaleRunItems();
    WalkFromStep(m, ranges, 0, 45, 0, 100, 0);
    WalkFromStep(m, ranges, 0, 45, 0, 100, 1);
  }

  /** Runs of size 10 from item 0 and of size 20 at item 5. */
  method StaleSplitList() returns (list: OffsetList)
    ensures fresh(list)
    ensures list.sizeTree == map[0 := 10, 5 := 20, 6 := 10]
    ensures list.offsetTree == map[0 := 0, 5 := 50, 6 := 70]
    ensures list.pixelTree == map[0 := 0, 50 := 5, 70 := 6]
  {
    list := RangeFirst();
    StaleSplitStep();
    ghost var sizes, offsets, pixels := list.sizeTree, list.offsetTree, list.pixelTree;
    assert !(5 in sizes);
    list.Insert(5, 5, 20);
    ghost var removed := Removed(sizes, 5, 5, 20);
    assert list.pixelTree == PropagatedPixels(list.sizeTree, offsets - removed, pixels - OffsetsOf(offsets, removed), 5);
    assert removed == {};
    assert list.sizeTree == map[0 := 10, 5 := 20, 6 := 10] && list.offsetTree == map[0 := 0, 5 := 50, 6 := 70];
    StaleSplitOffsets(list.sizeTree);
    assert map[0 := 0] - {} == map[0 := 0];
    StaleSplitPixels(list.sizeTree);
  }

  /** The same runs after items 0 to 4 shrink to size 1: run 5 moves to offset 5, its old pixel entry stays. */
  method StaleList() returns (list: OffsetList)
    ensures fresh(list)
    ensures list.sizeTree == map[0 := 1, 5 := 20, 6 := 10]
    ensures list.offsetTree == map[0 := 0, 5 := 5, 6 := 25]
    ensures list.pixelTree == map[0 := 0, 5 := 5, 25 := 6, 50 := 5, 70 := 6]
  {
    list := StaleSplitList();
    StaleShrinkStep();
    ApplyInsertPixels(list, 0, 4, 1, map[0 := 1, 5 := 20, 6 := 10], map[0 := 0, 5 := 5, 6 := 25],
                      map[0 := 0, 5 := 5, 25 := 6, 50 := 5, 70 := 6]);
  }

  /** `range(0, 45, 0, 100)` on that list, through the operation itself. */
  method StalePixelScenario()
  {
    var list := StaleList();
    StaleWindow(list.sizeTree, list.offsetTree, list.pixelTree);
    var items := list.Range(0, 45, 0, 100);
    ghost var ranges :| PixelRuns(list.offsetTree, list.pixelTree, 0, 45, ranges)
                  && items == RangeItems(list.sizeTree, list.offsetTree, list.pixelTree, 0, 45, 0, 100, ranges);
    StalePixelRange(list.sizeTree, list.offsetTree, list.pixelTree, ranges);
    assert items[6] == Item(20, 25, 6) && items[7] == Item(20, 45, 7);
  }
}

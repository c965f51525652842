/** Where the collector does less than one may expect */
module GCLimits {
  // Concrete states that show why the theorems are stated as they are

  import opened Basics
  import opened GCHeap
  import opened GCInvariant
  import opened GCAtomic

  // ---- userdata that wait for their finalizers -----------------------------------------------------------------

  const Empty: Obj := Tab(None, [], [], false, false, None)

  // luaC_fullgc has begun a cycle before the finalizer of userdata 3 was called, which is still black.
  const Stale: Snap :=
    Snap(map[0 := Thread(Ref(1), [], []), 1 := Empty, 2 := Empty, 3 := Udata(None, 4), 4 := Empty],
         map[0 := Mark(Gray, false, false, false), 1 := Mark(White(false), false, false, false),
             2 := Mark(Gray, false, false, false), 3 := Mark(Black, true, false, false),
             4 := Mark(White(false), false, false, false)],
         false, GCSpropagate, [2, 0], [], [], [4, 2, 1, 0], [], 0, [[]], 0, [3], 0, 2, 0, map[], [],
         {0, 1, 2, 3, 4})

  /** A black userdata refers to a white object, in a state that satisfies the invariant. */
  lemma BlackToWhite()
    ensures Valid(Stale) && Stale.m[3].color.Black? && Refers(Stale.h, Stale.h[3], 4) && Stale.m[4].color.White?
  {
    hide Upvalues, Placed, Live, Closed, Covers, RootsLive, Colors, Traces;
    StaleGraph();
    StalePlaces();
    StaleTraces();
  }

  lemma StaleRefers(x: Id, r: Id)
    requires x in Stale.h && Refers(Stale.h, Stale.h[x], r)
    ensures (x == 0 && r == 1) || (x == 3 && r == 4)
  {
  }

  lemma StaleGraph()
    ensures Stale.m.Keys == Stale.h.Keys && Live(Stale.h, Stale.m, Stale.cw) && RootsLive(Stale)
    ensures Colors(Stale.h, Stale.m)
    ensures Covers(Stale.h, Stale.m, Stale.k, Roots(Stale))
  {
    hide Refers;
    forall x, r | x in Stale.h && Refers(Stale.h, Stale.h[x], r)
      ensures r == 1 || r == 4
    {
      StaleRefers(x, r);
    }
    assert Listed([3]) == {3};
    assert Roots(Stale) == {0, 2, 3};
  }

  lemma StalePlaces()
    ensures Upvalues(Stale.h, Stale.uv) && Placed(Stale.h, Stale.m, RootList(Stale), Stale.tmu, Stale.strt)
  {
    hide Strings, UvList, OpenLists, UpvalHomes;
    assert RootList(Stale) == [4, 2, 1, 0];
    StaleUpvalues();
    assert Strings(Stale.h, Stale.strt) by { StaleStrings(); }
  }

  lemma StaleUpvalues()
    ensures UpvalHomes(Stale.h) && OpenLists(Stale.h) && UvList(Stale.h, Stale.uv)
  {
    assert OpenList(Stale.h, 0, []);
  }

  lemma StaleStrings()
    ensures Strings(Stale.h, Stale.strt)
  {
  }

  lemma StaleTraces()
    ensures Traces(Stale, Postponed(Stale), true)
  {
    hide Lists, Tri;
    StaleLists();
    StaleTri();
  }

  lemma StaleLists()
    ensures Lists(Stale.h, Stale.m, Stale.gray, Stale.again, Stale.weak)
  {
    assert Stale.gray[0] == 2 && Stale.gray[1] == 0;
  }

  lemma StaleTri()
    ensures Tri(Stale.h, Stale.m, Postponed(Stale) + Listed(Stale.gray), true)
  {
    hide Traced;
    assert Stale.gray[0] == 2 && Stale.gray[1] == 0 && Stale.tmu[0] == 3;
    assert {0, 2, 3} <= Postponed(Stale) + Listed(Stale.gray);
  }

  // ---- weak keys -----------------------------------------------------------------------------------------------

  /** A table with weak keys holds its values strongly, but an entry whose value is a userdata that has been finalized
      goes although its key, its value and the table are in use. */
  lemma FinalizedValueGoes()
    ensures var h := map[1 := Tab(None, [], [Node(KeyOf(Ref(2)), Ref(3))], false, false, None), 2 := Empty,
                         3 := Udata(None, 2)];
            var m := map[1 := Mark(Gray, false, true, false), 2 := Mark(Black, false, false, false),
                         3 := Mark(Black, true, false, false)];
            && KeysWeak(m[1]) && !ValuesWeak(m[1]) && Holds(h, h[1], true, false, 3)
            && Nonwhite(m, 1) && Nonwhite(m, 2) && Nonwhite(m, 3)
            && ClearedTable(h, m, h[1], false).nodes == [Node(DeadKey, Nil)]
  {
    var h := map[1 := Tab(None, [], [Node(KeyOf(Ref(2)), Ref(3))], false, false, None), 2 := Empty,
                 3 := Udata(None, 2)];
    var m := map[1 := Mark(Gray, false, true, false), 2 := Mark(Black, false, false, false),
                 3 := Mark(Black, true, false, false)];
    assert NodeHolds(h[1].nodes[0], true, false, 3);
    assert EntryCleared(h, m, h[1].nodes[0]);
  }
}

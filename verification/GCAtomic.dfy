/** The end of the mark phase: weak tables lose their dead entries, and the colours are exchanged. */
module GCAtomic {
  import opened Basics
  import opened GCHeap
  import opened GCInvariant
  import opened GCSweep

  // iscleared: strings are values and never weak; userdata to be finalized stay as keys, but not as values.
  predicate IsCleared(h: Heap, m: Marking, v: Value, iskey: bool) {
    && v.Ref? && v.id in h && v.id in m && !h[v.id].Str?
    && (m[v.id].color.White? || (h[v.id].Udata? && !iskey && m[v.id].finalized))
  }

  predicate EntryCleared(h: Heap, m: Marking, n: Node) {
    n.val != Nil && ((n.key.KeyOf? && IsCleared(h, m, n.key.v, true)) || IsCleared(h, m, n.val, false))
  }

  // removeentry
  function RemoveEntry(n: Node): Node {
    Node(if n.key.KeyOf? && n.key.v.Ref? then DeadKey else n.key, Nil)
  }

  function ClearedValue(h: Heap, m: Marking, v: Value): Value {
    if IsCleared(h, m, v, false) then Nil else v
  }

  function ClearedNode(h: Heap, m: Marking, n: Node): Node {
    if EntryCleared(h, m, n) then RemoveEntry(n) else n
  }

  // What cleartable leaves of a table
  function ClearedTable(h: Heap, m: Marking, t: Obj, wv: bool): Obj {
    if t.Tab? then
      t.(arr := if wv then seq(|t.arr|, i requires 0 <= i < |t.arr| => ClearedValue(h, m, t.arr[i])) else t.arr,
         nodes := seq(|t.nodes|, i requires 0 <= i < |t.nodes| => ClearedNode(h, m, t.nodes[i])))
    else t
  }

  // Entries of t' are entries of t or empty.
  ghost predicate Shrunk(t: Obj, t': Obj) {
    && t.Tab? && t'.Tab? && t' == t.(arr := t'.arr, nodes := t'.nodes)
    && |t'.arr| == |t.arr| && (forall i :: 0 <= i < |t.arr| ==> t'.arr[i] == t.arr[i] || t'.arr[i] == Nil)
    && |t'.nodes| == |t.nodes| && (forall i :: 0 <= i < |t.nodes| ==> t'.nodes[i] == t.nodes[i] || Emptied(t'.nodes[i]))
  }

  predicate Emptied(n: Node) {
    n.val == Nil && !(n.key.KeyOf? && n.key.v.Ref?)
  }

  lemma ClearedShrinks(h: Heap, m: Marking, t: Obj, wv: bool)
    requires t.Tab?
    ensures Shrunk(t, ClearedTable(h, m, t, wv))
  {
  }

  lemma ShrunkHolds(h: Heap, h': Heap, t: Obj, t': Obj, wk: bool, wv: bool, r: Id)
    requires Shrunk(t, t')
    ensures Refers(h', t', r) ==> Refers(h, t, r)
    ensures Holds(h', t', wk, wv, r) ==> Holds(h, t, wk, wv, r)
  {
    if HasRef(t'.arr, r) {
      var i :| 0 <= i < |t'.arr| && t'.arr[i] == Ref(r);
      assert t.arr[i] == Ref(r);
    }
    if NodesRefer(t'.nodes, r) {
      var i :| 0 <= i < |t'.nodes| && NodeRefers(t'.nodes[i], r);
      assert NodeRefers(t.nodes[i], r);
    }
    if NodesHold(t'.nodes, wk, wv, r) {
      var i :| 0 <= i < |t'.nodes| && NodeHolds(t'.nodes[i], wk, wv, r);
      assert NodeHolds(t.nodes[i], wk, wv, r);
    }
  }

  // The strings among the weak values and keys that cleartable looked at are marked.
  ghost predicate StringsMarked(h: Heap, m: Marking, k: set<Id>, m': Marking) {
    && Grows(m, m') && forall x :: x in m && m'[x] != m[x] ==> x in h && h[x].Str? && x in k && m'[x].color.Gray?
  }

  // A value that iscleared has let through
  ghost predicate Passed(h: Heap, m: Marking, v: Value) {
    v.Ref? ==> Nonwhite(m, v.id)
  }

  ghost predicate NodePassed(h: Heap, m: Marking, n: Node) {
    n.val != Nil ==> Passed(h, m, n.val) && (n.key.KeyOf? ==> Passed(h, m, n.key.v))
  }

  lemma TablePassed(h: Heap, m: Marking, h': Heap, m': Marking, o: Id, wv: bool)
    requires o in h && h[o].Tab? && h' == h[o := ClearedTable(h, m, h[o], wv)] && Grows(m, m')
    requires h[o].mt.Some? ==> Nonwhite(m, h[o].mt.value)
    requires forall i :: 0 <= i < |h'[o].arr| ==> Passed(h, m', h'[o].arr[i])
    requires forall i :: 0 <= i < |h'[o].nodes| ==> NodePassed(h, m', h'[o].nodes[i])
    ensures forall r :: Refers(h', h'[o], r) ==> Nonwhite(m', r)
  {
    forall r | Refers(h', h'[o], r)
      ensures Nonwhite(m', r)
    {
      if HasRef(h'[o].arr, r) {
        var i :| 0 <= i < |h'[o].arr| && h'[o].arr[i] == Ref(r);
        assert Passed(h, m', h'[o].arr[i]);
      }
      if NodesRefer(h'[o].nodes, r) {
        var i :| 0 <= i < |h'[o].nodes| && NodeRefers(h'[o].nodes[i], r);
        assert NodePassed(h, m', h'[o].nodes[i]);
      }
    }
  }

  // ---- one table -----------------------------------------------------------------------------------------

  // stringmark
  function StringMark(h: Heap, m: Marking, v: Value): Marking {
    if v.Ref? && v.id in h && v.id in m && h[v.id].Str? && m[v.id].color.White?
    then m[v.id := m[v.id].(color := Gray)]
    else m
  }

  lemma StringMarkKeeps(h: Heap, m: Marking, v: Value, k: set<Id>)
    requires v.Ref? ==> v.id in k
    ensures StringsMarked(h, m, k, StringMark(h, m, v)) && Grows(m, StringMark(h, m, v))
    ensures v.Ref? && v.id in h && v.id in m && h[v.id].Str? ==> Nonwhite(StringMark(h, m, v), v.id)
  {
  }

  lemma StringsMarkedTrans(h: Heap, m: Marking, k: set<Id>, m1: Marking, m2: Marking)
    requires StringsMarked(h, m, k, m1) && StringsMarked(h, m1, k, m2)
    ensures StringsMarked(h, m, k, m2) && Grows(m, m1) && Grows(m1, m2) && m2.Keys == m.Keys
  {
  }

  lemma StringsMarkedRefl(h: Heap, m: Marking, k: set<Id>)
    ensures StringsMarked(h, m, k, m)
  {
  }

  // Marking strings does not change what is cleared.
  lemma ClearedSame(h: Heap, m: Marking, k: set<Id>, m': Marking)
    requires StringsMarked(h, m, k, m')
    ensures m'.Keys == m.Keys && forall v, iskey :: IsCleared(h, m', v, iskey) <==> IsCleared(h, m, v, iskey)
  {
  }

  lemma NilPasses(h: Heap, m: Marking)
    ensures Passed(h, m, Nil)
  {
  }

  lemma PassedGrows(h: Heap, m: Marking, m': Marking, v: Value)
    requires Passed(h, m, v) && Grows(m, m')
    ensures Passed(h, m', v)
  {
  }

  lemma NodePassedGrows(h: Heap, m: Marking, m': Marking, n: Node)
    requires NodePassed(h, m, n) && Grows(m, m')
    ensures NodePassed(h, m', n)
  {
  }

  predicate ValuesIn(vs: seq<Value>, s: set<Id>) {
    forall i :: 0 <= i < |vs| ==> ValueIn(vs[i], s)
  }

  predicate NodesIn(ns: seq<Node>, s: set<Id>) {
    forall i :: 0 <= i < |ns| && ns[i].val != Nil ==>
        ValueIn(ns[i].val, s) && (ns[i].key.KeyOf? ==> ValueIn(ns[i].key.v, s))
  }

  lemma TableIn(h: Heap, o: Id, k: set<Id>)
    requires Complete(h) && Closed(h, k) && o in h && o in k && h[o].Tab?
    ensures ValuesIn(h[o].arr, h.Keys * k) && NodesIn(h[o].nodes, h.Keys * k)
  {
    TableInHeap(h, o, k);
    forall i | 0 <= i < |h[o].nodes| && h[o].nodes[i].val != Nil
      ensures ValueIn(h[o].nodes[i].val, h.Keys * k)
        && (h[o].nodes[i].key.KeyOf? ==> ValueIn(h[o].nodes[i].key.v, h.Keys * k))
    {
      var n := h[o].nodes[i];
      NodeInHeap(h, o, i, k);
      if n.val.Ref? { assert NodeRefers(n, n.val.id); }
      if n.key.KeyOf? && n.key.v.Ref? { assert NodeRefers(n, n.key.v.id); }
    }
  }

  // ---- the heap without cleared entries ------------------------------------------------------------------

  lemma ShrunkRefers(h: Heap, o: Id, t: Obj, x: Id, r: Id)
    requires o in h && Shrunk(h[o], t) && x in h
    ensures Refers(h[o := t], h[o := t][x], r) ==> Refers(h, h[x], r)
  {
    if x == o { ShrunkHolds(h, h[o := t], h[o], t, false, false, r); } else { RefersOther(h, o, t, h[x], r); }
  }

  lemma ShrunkTraced(h: Heap, o: Id, t: Obj, m: Marking, m': Marking, x: Id)
    requires o in h && Shrunk(h[o], t) && Traced(h, m, x) && Grows(m, m') && Nonwhite(m, x)
    ensures Traced(h[o := t], m', x)
  {
    var h' := h[o := t];
    forall r | Holds(h', h'[x], KeysWeak(m'[x]), ValuesWeak(m'[x]), r)
      ensures Nonwhite(m', r)
    {
      if x == o { ShrunkHolds(h, h', h[o], t, KeysWeak(m[x]), ValuesWeak(m[x]), r); }
        else { RefersOther(h, o, t, h[x], r); }
      assert Holds(h, h[x], KeysWeak(m[x]), ValuesWeak(m[x]), r);
    }
  }

  lemma ShrunkTri(h: Heap, o: Id, t: Obj, m: Marking, k: set<Id>, m': Marking, todo: set<Id>)
    requires o in h && Shrunk(h[o], t) && StringsMarked(h, m, k, m') && Tri(h, m, todo, false)
    ensures Tri(h[o := t], m', todo, false)
  {
    var h' := h[o := t];
    forall x | x in h' && Nonwhite(m', x) && x !in todo
      ensures Traced(h', m', x)
    {
      if m'[x] == m[x] { ShrunkTraced(h, o, t, m, m', x); }
    }
  }

  lemma ShrunkGraph(h: Heap, o: Id, t: Obj, k: set<Id>)
    requires o in h && Shrunk(h[o], t) && Complete(h) && Closed(h, k)
    ensures Complete(h[o := t]) && Closed(h[o := t], k)
  {
    var h' := h[o := t];
    forall x, r | x in h' && Refers(h', h'[x], r)
      ensures r in h' && (x in k ==> r in k)
    {
      ShrunkRefers(h, o, t, x, r);
    }
  }

  lemma TableUpvalues(h: Heap, o: Id, t: Obj, uv: seq<Id>)
    requires o in h && h[o].Tab? && t.Tab? && Upvalues(h, uv)
    ensures Upvalues(h[o := t], uv)
  {
    var h' := h[o := t];
    forall th | th in h' && h'[th].Thread?
      ensures OpenList(h', th, h'[th].open)
    {
      assert OpenList(h, th, h[th].open);
    }
  }

  lemma TablePlaced(h: Heap, o: Id, t: Obj, m: Marking, m': Marking, root: seq<Id>, tmu: seq<Id>, strt: seq<seq<Id>>)
    requires o in h && h[o].Tab? && t.Tab? && Placed(h, m, root, tmu, strt) && Grows(m, m')
    ensures Placed(h[o := t], m', root, tmu, strt)
  {
    hide Strings;
    var h' := h[o := t];
    PlacedGrows(h, m, m', root, tmu, strt);
    assert h'.Keys == h.Keys;
    CleanedPlaced(h, o, h', m', root, tmu, strt);
  }

  lemma StringsMarkedBasics(h: Heap, m: Marking, k: set<Id>, m': Marking, cw: bool)
    requires StringsMarked(h, m, k, m') && m.Keys == h.Keys
    ensures NoDead(h, m, cw) ==> NoDead(h, m', cw)
    ensures NonwhiteIn(h, m, k) ==> NonwhiteIn(h, m', k)
    ensures Colors(h, m) ==> Colors(h, m')
    ensures forall x :: Nonwhite(m, x) ==> Nonwhite(m', x)
    ensures m'.Keys == m.Keys && Grows(m, m') && forall x :: x in m ==> m'[x].finalized == m[x].finalized
  {
    if NonwhiteIn(h, m, k) {
      forall x | x in h && Nonwhite(m', x)
        ensures x in k
      {
        if m'[x] == m[x] { assert Nonwhite(m, x); }
      }
    }
  }

  lemma StringsMarkedLists(h: Heap, o: Id, t: Obj, m: Marking, k: set<Id>, m': Marking, gray: seq<Id>, again: seq<Id>,
    weak: seq<Id>)
    requires o in h && h[o].Tab? && t.Tab? && StringsMarked(h, m, k, m') && Lists(h, m, gray, again, weak)
    ensures Lists(h[o := t], m', gray, again, weak)
  {
    var h' := h[o := t];
    assert forall x :: x in h && h[x].Tab? && x in m ==> m'[x] == m[x];
    assert forall x :: x in h ==> h'[x] == h[x] || (h[x].Tab? && h'[x].Tab?);
    assert forall x :: x in gray || x in again || x in weak ==> m'[x] == m[x];
  }

  // cleartable has treated the table o.
  ghost predicate ClearedStep(g: Snap, o: Id, wv: bool, g': Snap) {
    && o in g.h && g.h[o].Tab? && g' == g.(h := g.h[o := ClearedTable(g.h, g.m, g.h[o], wv)], m := g'.m)
    && StringsMarked(g.h, g.m, g.k, g'.m)
  }

  lemma ClearedStepTraces(g: Snap, o: Id, wv: bool, g': Snap)
    requires Traces(g, {}, false) && ClearedStep(g, o, wv, g') && g.m.Keys == g.h.Keys
    ensures Traces(g', {}, false)
  {
    hide NoDead, NonwhiteIn, Lists, Tri, StringsMarked, ClearedTable, Grows;
    var t := ClearedTable(g.h, g.m, g.h[o], wv);
    ClearedShrinks(g.h, g.m, g.h[o], wv);
    StringsMarkedBasics(g.h, g.m, g.k, g'.m, g.cw);
    ShrunkTri(g.h, o, t, g.m, g.k, g'.m, {} + Listed(g.gray));
    StringsMarkedLists(g.h, o, t, g.m, g.k, g'.m, g.gray, g.again, g.weak);
    SameKeys(g.h, o, t, g'.m, g.k, g.cw);
  }

  lemma SameKeys(h: Heap, o: Id, t: Obj, m: Marking, k: set<Id>, cw: bool)
    requires o in h
    ensures h[o := t].Keys == h.Keys
    ensures NoDead(h, m, cw) ==> NoDead(h[o := t], m, cw)
    ensures NonwhiteIn(h, m, k) ==> NonwhiteIn(h[o := t], m, k)
    ensures h[o].Tab? && t.Tab? && Colors(h, m) ==> Colors(h[o := t], m)
  {
  }

  lemma ClearedStepCommon(g: Snap, o: Id, wv: bool, g': Snap)
    requires Common(g) && NoDead(g.h, g.m, g.cw) && ClearedStep(g, o, wv, g')
    ensures Common(g')
  {
    hide NoDead, StringsMarked, ClearedTable, Upvalues, Colors, Placed, Live, Complete, Closed, RootsLive,
      Covers, Grows;
    var t := ClearedTable(g.h, g.m, g.h[o], wv);
    ClearedShrinks(g.h, g.m, g.h[o], wv);
    StringsMarkedBasics(g.h, g.m, g.k, g'.m, g.cw);
    SameKeys(g.h, o, t, g'.m, g.k, g.cw);
    LiveComplete(g.h, g.m, g.cw);
    CoversClosed(g.h, g.m, g.k, Roots(g));
    ShrunkGraph(g.h, o, t, g.k);
    LiveComplete(g'.h, g'.m, g'.cw);
    TableUpvalues(g.h, o, t, g.uv);
    TablePlaced(g.h, o, t, g.m, g'.m, RootList(g), g.tmu, g.strt);
    FinalizedCovers(g.h, g'.h, g.m, g'.m, g.k, Roots(g));
    ClearedRoots(g, o, t, g');
  }

  lemma ClearedRoots(g: Snap, o: Id, t: Obj, g': Snap)
    requires RootsLive(g) && o in g.h && g.h[o].Tab? && t.Tab? && g' == g.(h := g.h[o := t], m := g'.m)
      && NoDead(g'.h, g'.m, g'.cw)
    requires forall x :: x in g.udata ==> x in g.h && g.h[x].Udata?
    ensures RootsLive(g') && Roots(g') == Roots(g) && forall x :: x in g'.udata ==> x in g'.h && g'.h[x].Udata?
  {
  }

  // ---- all weak tables -----------------------------------------------------------------------------------

  // Everything that x refers to is marked.
  ghost predicate Whole(h: Heap, m: Marking, x: Id) {
    x in h && forall r :: Refers(h, h[x], r) ==> Nonwhite(m, r)
  }

  lemma WholeStays(g: Snap, o: Id, wv: bool, g': Snap, x: Id)
    requires Whole(g.h, g.m, x) && ClearedStep(g, o, wv, g')
    ensures Whole(g'.h, g'.m, x)
  {
    var t := ClearedTable(g.h, g.m, g.h[o], wv);
    ClearedShrinks(g.h, g.m, g.h[o], wv);
    forall r | Refers(g'.h, g'.h[x], r)
      ensures Nonwhite(g'.m, r)
    {
      ShrunkRefers(g.h, o, t, x, r);
    }
  }

  // When all weak tables have been cleared, everything that a marked object refers to is marked.
  lemma AllWhole(g: Snap)
    requires Common(g) && Traces(g, {}, false) && g.gray == []
    requires (forall x :: x in g.weak ==> Whole(g.h, g.m, x))
      && (forall x :: x in g.again ==> x in g.h && g.h[x].Thread?)
    ensures forall x :: x in g.h && Nonwhite(g.m, x) ==> Whole(g.h, g.m, x)
  {
    hide Upvalues, Placed, Live, Covers, RootsLive, Colors;
    forall x | x in g.h && Nonwhite(g.m, x)
      ensures Whole(g.h, g.m, x)
    {
      assert Traced(g.h, g.m, x);
      if g.h[x].Tab? && g.m[x].color.Gray? {
        assert x in g.weak;
      } else {
        forall r | Refers(g.h, g.h[x], r)
          ensures Nonwhite(g.m, r)
        {
          RefersHolds(g.h, g.h[x], r);
        }
      }
    }
  }

  lemma RefersHolds(h: Heap, o: Obj, r: Id)
    requires Refers(h, o, r)
    ensures Holds(h, o, false, false, r)
    ensures !o.Tab? ==> forall wk, wv :: Holds(h, o, wk, wv, r)
  {
    if o.Tab? && NodesRefer(o.nodes, r) {
      var i :| 0 <= i < |o.nodes| && NodeRefers(o.nodes[i], r);
      assert NodeHolds(o.nodes[i], false, false, r);
    }
  }

  // What cleartable finds at a table of the list
  lemma WeakReady(g: Snap, o: Id)
    requires Common(g) && Traces(g, {}, false) && g.gray == [] && o in g.weak
    ensures o in g.h && g.h[o].Tab? && o in g.k && o in g.m && g.m.Keys == g.h.Keys && Complete(g.h) && Closed(g.h, g.k)
    ensures (g.h[o].mt.Some? ==> Nonwhite(g.m, g.h[o].mt.value))
    ensures !g.m[o].vweak ==> forall i :: 0 <= i < |g.h[o].arr| ==> Passed(g.h, g.m, g.h[o].arr[i])
    ensures NoDead(g.h, g.m, g.cw)
  {
    hide Upvalues, Placed, RootsLive, Colors;
    MarkReady(g, {}, false);
    assert Traced(g.h, g.m, o);
    var t := g.h[o];
    if t.mt.Some? { assert Holds(g.h, t, KeysWeak(g.m[o]), ValuesWeak(g.m[o]), t.mt.value); }
    if !g.m[o].vweak {
      forall i | 0 <= i < |t.arr|
        ensures Passed(g.h, g.m, t.arr[i])
      {
        if t.arr[i].Ref? {
          assert HasRef(t.arr, t.arr[i].id);
          assert Holds(g.h, t, KeysWeak(g.m[o]), ValuesWeak(g.m[o]), t.arr[i].id);
        }
      }
    }
  }

  lemma IsClearedTable(h: Heap, m: Marking, k: set<Id>, m1: Marking, t: Obj, wv: bool, arr: seq<Value>,
    nodes: seq<Node>)
    requires t.Tab? && StringsMarked(h, m, k, m1) && |arr| == |t.arr| && |nodes| == |t.nodes|
    requires forall i :: 0 <= i < |arr| ==> arr[i] == if wv then ClearedValue(h, m, t.arr[i]) else t.arr[i]
    requires forall i :: 0 <= i < |nodes| ==> nodes[i] == ClearedNode(h, m1, t.nodes[i])
    ensures t.(arr := arr, nodes := nodes) == ClearedTable(h, m, t, wv)
  {
    ClearedSame(h, m, k, m1);
    hide IsCleared;
    var c := ClearedTable(h, m, t, wv);
    assert arr == c.arr;
    assert nodes == c.nodes;
  }

  lemma MtStays(t: Obj, m: Marking, m': Marking)
    requires t.Tab? && Grows(m, m') && (t.mt.Some? ==> Nonwhite(m, t.mt.value))
    ensures t.mt.Some? ==> Nonwhite(m', t.mt.value)
  {
  }

  lemma WholeIs(h: Heap, m: Marking, o: Id)
    requires o in h && forall r :: Refers(h, h[o], r) ==> Nonwhite(m, r)
    ensures Whole(h, m, o)
  {
  }

  lemma ClearedStepMarks(g: Snap, o: Id, wv: bool, g': Snap)
    requires ClearedStep(g, o, wv, g') && g.m.Keys == g.h.Keys && Common(g)
    ensures Marks(g, g')
  {
    hide Common, ClearedTable, Modes, StringsMarked;
    ClearedShrinks(g.h, g.m, g.h[o], wv);
    StringsMarkedBasics(g.h, g.m, g.k, g'.m, g.cw);
    if Modes(g.h, g.m, g.weak) { ClearedModes(g, o, wv, g'); }
  }

  lemma ClearedModes(g: Snap, o: Id, wv: bool, g': Snap)
    requires ClearedStep(g, o, wv, g') && Modes(g.h, g.m, g.weak)
    ensures Modes(g'.h, g'.m, g'.weak)
  {
    hide Modes;
    assert SameTables(g.h, g'.h);
    ModesKept(g.h, g.m, g.weak, g'.h, g'.m);
  }

  // ---- what is left of the tables ------------------------------------------------------------------------

  // cleartable has been through the first n tables of the list.
  ghost predicate ClearedTo(h: Heap, m: Marking, weak: seq<Id>, n: nat, h': Heap) {
    && n <= |weak| && SameTables(h, h') && (forall x :: x in h && x !in weak[..n] ==> h'[x] == h[x])
    && (forall x :: x in weak[..n] && x in h && x in m ==> h'[x] == ClearedTable(h, m, h[x], m[x].vweak))
  }

  lemma ClearedNone(h: Heap, m: Marking, weak: seq<Id>)
    ensures ClearedTo(h, m, weak, 0, h)
  {
  }

  // Neither clearing tables nor marking strings changes what is cleared.
  lemma ClearedAlike(h: Heap, m: Marking, k: set<Id>, h': Heap, m': Marking, t: Obj, wv: bool)
    requires SameTables(h, h') && StringsMarked(h, m, k, m')
    ensures ClearedTable(h', m', t, wv) == ClearedTable(h, m, t, wv)
  {
    ClearedSame(h, m, k, m');
    forall v: Value, iskey: bool
      ensures IsCleared(h', m', v, iskey) == IsCleared(h, m, v, iskey)
    {
      assert IsCleared(h, m', v, iskey) <==> IsCleared(h, m, v, iskey);
      if v.Ref? && v.id in h { assert SameTable(h[v.id], h'[v.id]); }
    }
    if t.Tab? { ClearedEqual(h, m, h', m', t, wv); }
  }

  lemma ClearedEqual(h: Heap, m: Marking, h': Heap, m': Marking, t: Obj, wv: bool)
    requires t.Tab? && forall v, iskey :: IsCleared(h', m', v, iskey) == IsCleared(h, m, v, iskey)
    ensures ClearedTable(h', m', t, wv) == ClearedTable(h, m, t, wv)
  {
    hide IsCleared;
    var a, b := ClearedTable(h', m', t, wv), ClearedTable(h, m, t, wv);
    assert a.arr == b.arr;
    assert a.nodes == b.nodes;
  }

  lemma StringsMarkedAfter(h: Heap, m: Marking, k: set<Id>, m1: Marking, h1: Heap, m2: Marking)
    requires StringsMarked(h, m, k, m1) && SameTables(h, h1) && StringsMarked(h1, m1, k, m2)
    ensures StringsMarked(h, m, k, m2)
  {
    assert StringsMarked(h, m1, k, m2) by {
      forall x | x in m1 && m2[x] != m1[x]
        ensures x in h && h[x].Str?
      {
        assert x in h1 && h1[x].Str? && SameTable(h[x], h1[x]);
      }
    }
    StringsMarkedTrans(h, m, k, m1, m2);
  }

  lemma ClearedStepTables(g: Snap, o: Id, wv: bool, g': Snap)
    requires ClearedStep(g, o, wv, g')
    ensures SameTables(g.h, g'.h) && g'.h == g.h[o := ClearedTable(g.h, g.m, g.h[o], wv)]
      && StringsMarked(g.h, g.m, g.k, g'.m) && g'.weak == g.weak && g'.k == g.k
  {
  }

  lemma ClearedNext(h: Heap, g: Snap, m: Marking, i: nat, g': Snap)
    requires ClearedTo(h, m, g.weak, i, g.h) && StringsMarked(h, m, g.k, g.m) && i < |g.weak| && NoDup(g.weak)
    requires var o := g.weak[i];
             o in g.m && o in m && g.m[o] == m[o] && ClearedStep(g, o, m[o].vweak, g')
    ensures ClearedTo(h, m, g.weak, i + 1, g'.h) && StringsMarked(h, m, g.k, g'.m)
  {
    hide StringsMarked, ClearedTable, ClearedStep, Grows;
    var o := g.weak[i];
    ClearedStepTables(g, o, m[o].vweak, g');
    ClearedAlike(h, m, g.k, g.h, g.m, g.h[o], m[o].vweak);
    StringsMarkedAfter(h, m, g.k, g.m, g.h, g'.m);
    SameTablesTrans(h, g.h, g'.h);
    assert g.weak[..i + 1] == g.weak[..i] + [o];
  }

  /** What the mark phase leaves of an object: entries without a value have lost their keys, and a table of the list
      of weak tables has lost all entries with a part that is cleared, and no other. */
  ghost predicate Collected(h: Heap, g': Snap) {
    && SameTables(h, g'.h) && Modes(g'.h, g'.m, g'.weak)
    && forall x :: x in h ==> ObjCollected(g', x, h[x], g'.h[x])
  }

  ghost predicate ObjCollected(g': Snap, x: Id, t: Obj, t': Obj) {
    if x in g'.weak && x in g'.m then exists c :: Cleans(t, c) && t' == ClearedTable(g'.h, g'.m, c, g'.m[x].vweak)
    else Cleans(t, t')
  }

  lemma CollectedIs(h: Heap, g: Snap, g': Snap)
    requires CleanedHeap(h, g.h) && ClearedTo(g.h, g.m, g.weak, |g.weak|, g'.h) && StringsMarked(g.h, g.m, g.k, g'.m)
    requires g'.weak == g.weak && Modes(g'.h, g'.m, g'.weak) && g.m.Keys == g.h.Keys
    ensures Collected(h, g')
  {
    hide StringsMarked, ClearedTable, Cleans, Modes, Grows;
    CleanedSameTables(h, g.h);
    SameTablesTrans(h, g.h, g'.h);
    StringsMarkedTrans(g.h, g.m, g.k, g'.m, g'.m) by { StringsMarkedRefl(g.h, g'.m, g.k); }
    forall x | x in h
      ensures ObjCollected(g', x, h[x], g'.h[x])
    {
      assert g.weak[..|g.weak|] == g.weak && Cleans(h[x], g.h[x]);
      if x in g.weak {
        WeakBits(g, g', x);
        ClearedAlike(g.h, g.m, g.k, g'.h, g'.m, g.h[x], g.m[x].vweak);
      }
    }
  }

  lemma WeakBits(g: Snap, g': Snap, x: Id)
    requires StringsMarked(g.h, g.m, g.k, g'.m) && x in g.m
    ensures x in g'.m && g'.m[x].vweak == g.m[x].vweak && g'.m[x].kweak == g.m[x].kweak
  {
  }

  // cleartable marks strings only.
  lemma StringsSpared(g: Snap, g': Snap, b: set<Id>)
    requires Within(g.h, g.m, b) && StringsMarked(g.h, g.m, g.k, g'.m) && Marks(g, g')
    ensures Spared(g'.h, g'.m, b)
  {
    hide MarkClosed, Modes;
    forall x | x in g'.h && Nonwhite(g'.m, x)
      ensures x in b || g'.h[x].Str?
    {
      assert SameTable(g.h[x], g'.h[x]);
      if g'.m[x] == g.m[x] { assert Nonwhite(g.m, x); }
    }
  }

  // The exchange of the whites: all that is not marked is dead now.
  function Flipped(g: Snap): Snap {
    g.(cw := !g.cw, sweepstr := 0, sweepgc := 0, phase := GCSsweepstring)
  }

  lemma FlipLive(h: Heap, m: Marking, cw: bool)
    requires m.Keys == h.Keys && NoDead(h, m, cw) && forall x :: x in h && Nonwhite(m, x) ==> Whole(h, m, x)
    ensures Live(h, m, !cw) && (forall x :: x in h ==> (Dead(m, !cw, x) <==> !Nonwhite(m, x)))
  {
    forall x, r | x in h && !Dead(m, !cw, x) && Refers(h, h[x], r)
      ensures r in h && !Dead(m, !cw, r)
    {
      assert Nonwhite(m, x) && Whole(h, m, x);
      assert Nonwhite(m, r);
    }
  }

  lemma FlipValid(g: Snap)
    requires Common(g) && Traces(g, {}, false) && g.gray == [] && RootsMarked(g) && g.phase == GCSpropagate
    requires (forall x :: x in g.weak ==> Whole(g.h, g.m, x))
      && (forall x :: x in g.again ==> x in g.h && g.h[x].Thread?)
    requires forall u :: u in g.tmu ==> Nonwhite(g.m, u)
    ensures Valid(Flipped(g))
    ensures forall x :: x in g.h ==> (Dead(Flipped(g).m, Flipped(g).cw, x) <==> !Nonwhite(g.m, x))
  {
    hide Upvalues, Placed, Colors, Live, Whole, Lists, Tri, Covers;
    AllWhole(g);
    FlipLive(g.h, g.m, g.cw);
  }

  lemma FlippedIs(g: Snap, h: Heap, s: Snap)
    requires Collected(h, g) && Onward(s, g)
    ensures Collected(h, Flipped(g)) && Onward(s, Flipped(g))
  {
    hide Modes;
    forall x | x in h
      ensures ObjCollected(Flipped(g), x, h[x], Flipped(g).h[x])
    {
      assert ObjCollected(g, x, h[x], g.h[x]);
    }
  }

  lemma CleanedAfter(g: Snap, s: Snap, h: Heap)
    requires Traverses(g, s) && CleanedHeap(s.h, h)
    ensures CleanedHeap(g.h, h)
  {
    hide CleanedHeap;
    CleanedHeapTrans(g.h, s.h, h);
  }

  lemma MarkKeys(g: Snap)
    requires Common(g)
    ensures g.m.Keys == g.h.Keys
  {
  }

  // ---- the stages of the atomic step ---------------------------------------------------------------------

  // What is still to be traversed may be more.
  lemma MoreTodo(g: Snap, todo: set<Id>, todo': set<Id>)
    requires Traces(g, todo, false) && todo <= todo'
    ensures Traces(g, todo', false)
  {
    hide NoDead, Lists, Tri;
    TriMore(g.h, g.m, todo + Listed(g.gray), todo' + Listed(g.gray), false, false);
  }

  lemma TodoGrows(g: Snap, g': Snap, tmu: set<Id>)
    requires Marks(g, g')
    ensures Listed(g.again) <= Listed(g'.again) && Listed(g.weak) <= Listed(g'.weak)
  {
  }

  // Until userdata are separated nothing changes but marks, and the keys of entries without a value.
  ghost predicate Traverses(g: Snap, g': Snap) {
    && CleanedHeap(g.h, g'.h) && SameStart(g, g') && g'.tmu == g.tmu && g'.m.Keys == g.m.Keys
    && (forall x :: x in g.m ==> g'.m[x].finalized == g.m[x].finalized && (Nonwhite(g.m, x) ==> Nonwhite(g'.m, x)))
  }

  lemma TraversesTrans(g: Snap, g1: Snap, g2: Snap)
    requires Traverses(g, g1) && Traverses(g1, g2)
    ensures Traverses(g, g2)
  {
    hide CleanedHeap;
    CleanedHeapTrans(g.h, g1.h, g2.h);
  }

  lemma MarksTraverse(g: Snap, g': Snap)
    requires Marks(g, g') && CleanedHeap(g.h, g'.h)
    ensures Traverses(g, g')
  {
    hide CleanedHeap, Modes, SameTables;
  }

  // Afterwards only objects that were not marked are flagged as finalized, and wait for their finalizers.
  ghost predicate Onward(g: Snap, g': Snap) {
    && SameStart(g, g') && g'.m.Keys == g.m.Keys
    && (forall x :: Nonwhite(g.m, x) ==> Nonwhite(g'.m, x) && g'.m[x].finalized == g.m[x].finalized)
    && (forall x :: x in g.m && g.m[x].finalized ==> g'.m[x].finalized)
    && (forall u :: u in g'.tmu ==> u in g.tmu || !Nonwhite(g.m, u)) && (forall u :: u in g.tmu ==> u in g'.tmu)
  }

  lemma OnwardTrans(g: Snap, g1: Snap, g2: Snap)
    requires Onward(g, g1) && Onward(g1, g2)
    ensures Onward(g, g2)
  {
  }

  lemma MarksOnward(g: Snap, g': Snap)
    requires Marks(g, g')
    ensures Onward(g, g')
  {
    hide Modes, SameTables;
  }

  lemma {:induction false} DyingAreWhite(h: Heap, m: Marking, us: seq<Id>)
    ensures forall u :: u in Dying(h, m, us) ==> u in us && Dies(h, m, u)
  {
    if us != [] {
      SplitFirst(h, m, us);
      DyingAreWhite(h, m, us[1..]);
    }
  }

  lemma SeparatedOnward(g: Snap, g': Snap)
    requires Flagged(g.m, g.udata, g'.m) && g'.tmu == g.tmu + Dying(g.h, g.m, g.udata) && SameStart(g, g')
    ensures Onward(g, g')
  {
    hide Dying;
    DyingAreWhite(g.h, g.m, g.udata);
  }

  lemma FlaggedModes(g: Snap, g': Snap, us: seq<Id>)
    requires Flagged(g.m, us, g'.m) && Modes(g.h, g.m, g.weak) && g'.h == g.h && g'.weak == g.weak
    ensures Modes(g'.h, g'.m, g'.weak)
  {
    hide Modes;
    assert SameTables(g.h, g'.h);
    ModesKept(g.h, g.m, g.weak, g'.h, g'.m);
  }

  lemma NoModes(h: Heap, m: Marking)
    ensures Modes(h, m, [])
  {
  }

  lemma ModesStay(g: Snap, g': Snap)
    requires Marks(g, g') && Modes(g.h, g.m, g.weak)
    ensures Modes(g'.h, g'.m, g'.weak)
  {
    hide Modes, SameTables;
  }

  lemma SameTraverse(g: Snap, g': Snap)
    requires g' == g.(gray := g'.gray, again := g'.again, weak := g'.weak)
    ensures Traverses(g, g')
  {
    CleanedHeapRefl(g.h);
  }

  lemma ClearedGoesOn(g0: Snap, g: Snap, i: nat, g': Snap)
    requires Common(g) && Traces(g, {}, false) && i < |g.weak| && Marks(g0, g)
    requires ClearedTo(g0.h, g0.m, g.weak, i, g.h) && StringsMarked(g0.h, g0.m, g.k, g.m)
    requires g.weak[i] in g.m && ClearedStep(g, g.weak[i], g.m[g.weak[i]].vweak, g')
    ensures ClearedTo(g0.h, g0.m, g.weak, i + 1, g'.h) && StringsMarked(g0.h, g0.m, g.k, g'.m)
  {
    hide Common, StringsMarked, ClearedTo, ClearedStep, Tri, NoDead, NonwhiteIn, Modes, SameTables, NoDup;
    assert g.weak[i] in g.weak;
    WeakSame(g0, g, i, g');
    ClearedNext(g0.h, g, g0.m, i, g');
  }

  lemma WeakSame(g0: Snap, g: Snap, i: nat, g': Snap)
    requires StringsMarked(g0.h, g0.m, g.k, g.m) && i < |g.weak| && g.weak[i] in g.m && g.weak[i] in g.h
    requires SameTables(g0.h, g.h) && g.h[g.weak[i]].Tab?
    ensures g.weak[i] in g0.m && g0.m[g.weak[i]] == g.m[g.weak[i]]
  {
    assert g.weak[i] in g0.h && SameTable(g0.h[g.weak[i]], g.h[g.weak[i]]);
  }

  // Everything that the program can use is marked, before userdata are separated.
  ghost predicate Settled(g: Snap) {
    && Common(g) && Traces(g, Listed(g.tmu), false) && g.gray == [] && RootsMarked(g) && AgainThreads(g)
    && Modes(g.h, g.m, g.weak) && g.phase == GCSpropagate
  }

  ghost predicate AgainThreads(g: Snap) {
    forall x :: x in g.again ==> x in g.h && g.h[x].Thread?
  }

  lemma AgainStays(g: Snap, g': Snap)
    requires AgainThreads(g) && Marks(g, g')
    ensures AgainThreads(g')
  {
  }

  lemma TmuStays(g: Snap, g': Snap)
    requires Marks(g, g')
    ensures g'.tmu == g.tmu
      && ((forall u :: u in g.tmu ==> Nonwhite(g.m, u)) ==> forall u :: u in g'.tmu ==> Nonwhite(g'.m, u))
  {
  }

  lemma FlaggedRoots(g: Snap, us: seq<Id>, g': Snap)
    requires RootsMarked(g) && Flagged(g.m, us, g'.m) && g'.mt == g.mt && g'.run == g.run
    ensures RootsMarked(g')
  {
  }

  lemma PropagateEnds(g: Snap)
    requires Valid(g) && g.phase == GCSpropagate
    ensures Common(g) && Traces(g, Postponed(g), true)
  {
  }

  lemma AllRootsMarked(g: Snap)
    requires Nonwhite(g.m, g.run) && forall i :: i in g.mt ==> Nonwhite(g.m, g.mt[i])
    ensures RootsMarked(g)
  {
  }

  lemma MovedRootsMarked(g: Snap, g': Snap)
    requires RootsMarked(g) && g' == g.(gray := g.again, again := [])
    ensures RootsMarked(g') && AgainThreads(g')
  {
  }

  lemma AgainSame(g: Snap, g': Snap)
    requires AgainThreads(g) && g'.again == g.again && g'.h == g.h
    ensures AgainThreads(g')
  {
  }

  lemma AgainIs(g: Snap)
    requires AgainThreads(g)
    ensures forall x :: x in g.again ==> x in g.h && g.h[x].Thread?
  {
  }
}

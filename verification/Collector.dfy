/** The incremental tri-colour collector of Lua 5.1 (lgc.c) with its write barriers (lgc.h).

    The object graph is a map from identities to objects, changed in place together with the mark bits and
    the lists of the collector.  Every method of the collector and of the program that uses it keeps the
    invariant Valid(), so any interleaving of them does. */
module Collector {
  import opened Basics
  import opened GCHeap
  import opened GCInvariant
  import opened GCAtomic
  import opened GCSweep
  import opened GCUpvals
  import opened GCRoots
  import opened GCMutator
  import opened GCAlloc
  import opened GCThreads
  import opened GCStrong
  import opened GCWeak
  import opened GCStrings

  // How many objects one step of the sweep looks at
  const GCSWEEPMAX: nat := 40

  // The bits of a table with this mode; they are left alone if it is not weak.
  function ModeBits(b: Mark, wk: bool, wv: bool): (r: Mark)
    ensures r.color == b.color && r.finalized == b.finalized
  {
    if wk || wv then b.(kweak := wk, vweak := wv) else b
  }

  class GlobalState {
    var heap: Heap
    var mark: Marking
    var currentwhite: bool
    var gcstate: Phase
    var gray: seq<Id>
    var grayagain: seq<Id>
    var weak: seq<Id>
    var rootgc: seq<Id>
    var udata: seq<Id>         // the userdata, which the root list has behind the main thread
    var sweepgc: nat           // where in the root list the sweep goes on
    var strt: seq<seq<Id>>     // the string table
    var sweepstrgc: nat
    var contents: map<Id, string>
    const hash: Hash
    var tmudata: seq<Id>       // userdata that wait for their finalizer
    const mainthread: Id
    const registry: Id
    var running: Id
    var mt: map<nat, Id>       // metatables of the basic types
    var uvhead: seq<Id>        // all open upvalues
    ghost var K: set<Id>       // what the current cycle may mark

    /** lua_newstate and f_luaopen: the main thread with its global table, the registry, and an empty string table */
    constructor (main: Id, globals: Id, reg: Id, f: Hash)
      requires main != globals && main != reg && globals != reg
      ensures State() == FirstState(main, globals, reg) && Valid(State()) && Unique(strt, contents, hash)
    {
      hash, contents := f, map[];
      heap := map[main := Thread(Ref(globals), [Nil], []), globals := NewTable, reg := NewTable];
      mark := map[main := NewMark, globals := NewMark, reg := NewMark];
      currentwhite, gcstate, gray, grayagain, weak := false, GCSpause, [], [], [];
      rootgc, udata, sweepgc := [reg, globals, main], [], 0;
      strt, sweepstrgc, tmudata := seq(MINSTRTABSIZE, _ => []), 0, [];
      mainthread, registry, running, mt, uvhead := main, reg, main, map[], [];
      K := {main, globals, reg};
      new;
      FirstValid(main, globals, reg);
    }

    ghost predicate Graph(k: set<Id>)
      reads this
    {
      mark.Keys == heap.Keys && Complete(heap) && MarkClosed(heap, k)
    }

    ghost function State(): Snap
      reads this
    {
      Snap(heap, mark, currentwhite, gcstate, gray, grayagain, weak, rootgc, udata, sweepgc, strt, sweepstrgc, tmudata,
           mainthread, registry, running, mt, uvhead, K)
    }

    // ---- marking -------------------------------------------------------------------------------------

    // reallymarkobject
    method ReallyMark(o: Id, ghost k: set<Id>)
      requires Graph(k) && o in heap && mark[o].color.White? && o in k
      modifies this`mark, this`gray
      ensures Marked(heap, old(mark), old(gray), mark, gray, k) && Nonwhite(mark, o)
      decreases |Whites(mark)|, 1
    {
      ghost var m, l := mark, gray;
      if heap[o].Udata? {
        MarkUdata(o, k);
      } else if heap[o].UpOpen? || heap[o].UpClosed? {
        MarkUpval(o, k);
      } else if heap[o].Str? {
        mark := mark[o := mark[o].(color := Gray)];
        MarkedRefl(heap, mark, gray, k);
        MarkFirst(heap, m, l, o, Gray, mark, gray, k);
      } else {
        mark := mark[o := mark[o].(color := Gray)];
        gray := [o] + gray;
        PushOne(heap, m, l, o, k);
      }
    }

    // Userdata are never gray.
    method MarkUdata(o: Id, ghost k: set<Id>)
      requires Graph(k) && o in heap && heap[o].Udata? && mark[o].color.White? && o in k
      modifies this`mark, this`gray
      ensures Marked(heap, old(mark), old(gray), mark, gray, k) && Nonwhite(mark, o)
      decreases |Whites(mark)|, 0
    {
      UdataInHeap(heap, o, k);
      hide Complete, MarkClosed, Refers, Traced, Marked;
      ghost var m, l := mark, gray;
      mark := mark[o := mark[o].(color := Black)];
      ghost var m1 := mark;
      FewerWhites(m, m1, o);
      MarkedRefl(heap, mark, gray, k);
      if heap[o].mt.Some? { MarkObject(heap[o].mt.value, k); }
      ghost var m2, l2 := mark, gray;
      MarkedKeys(heap, m1, l, m2, l2, k);
      WhitesGrow(m1, m2);
      MarkObject(heap[o].env, k);
      MarkedTrans(heap, m1, l, m2, l2, mark, gray, k);
      MarkedAt(heap, m1, l, mark, gray, k, o);
      UdataTraced(heap, mark, o);
      MarkFirst(heap, m, l, o, Black, mark, gray, k);
    }

    // Open upvalues are never black.
    method MarkUpval(o: Id, ghost k: set<Id>)
      requires Graph(k) && o in heap && (heap[o].UpOpen? || heap[o].UpClosed?) && mark[o].color.White? && o in k
      modifies this`mark, this`gray
      ensures Marked(heap, old(mark), old(gray), mark, gray, k) && Nonwhite(mark, o)
      decreases |Whites(mark)|, 0
    {
      hide Complete, MarkClosed, Refers;
      ghost var m, l := mark, gray;
      mark := mark[o := mark[o].(color := Gray)];
      FewerWhites(m, mark, o);
      UpvalRefers(heap, o);
      UpvalInHeap(heap, o, k);
      MarkValue(UpvalValue(heap, o), k);
      hide Traced, Marked;
      ghost var m1, l1 := mark, gray;
      MarkedAt(heap, m[o := m[o].(color := Gray)], l, m1, l1, k, o);
      if heap[o].UpClosed? {
        mark := mark[o := mark[o].(color := Black)];
        Recolor(heap, m, l, o, m1, l1, k);
      }
      UpvalTraced(heap, mark, o);
      MarkFirst(heap, m, l, o, mark[o].color, mark, gray, k);
    }

    // markobject
    method MarkObject(o: Id, ghost k: set<Id>)
      requires Graph(k) && o in heap && o in k
      modifies this`mark, this`gray
      ensures Marked(heap, old(mark), old(gray), mark, gray, k) && Nonwhite(mark, o)
      decreases |Whites(mark)|, 2
    {
      MarkedRefl(heap, mark, gray, k);
      if mark[o].color.White? { ReallyMark(o, k); }
    }

    // markvalue
    method MarkValue(v: Value, ghost k: set<Id>)
      requires Graph(k) && (v.Ref? ==> v.id in heap && v.id in k)
      modifies this`mark, this`gray
      ensures Marked(heap, old(mark), old(gray), mark, gray, k) && mark.Keys == heap.Keys
        && (v.Ref? ==> Nonwhite(mark, v.id))
      decreases |Whites(mark)|, 3
    {
      MarkedRefl(heap, mark, gray, k);
      if v.Ref? { MarkObject(v.id, k); }
    }

    // ---- traversal -----------------------------------------------------------------------------------

    method MarkValues(vs: seq<Value>, ghost k: set<Id>)
      requires Graph(k) && forall v :: v in vs && v.Ref? ==> v.id in heap && v.id in k
      modifies this`mark, this`gray
      ensures Marked(heap, old(mark), old(gray), mark, gray, k)
      ensures AllMarked(vs, mark) && mark.Keys == heap.Keys
    {
      hide Marked, Complete, MarkClosed;
      MarkedRefl(heap, mark, gray, k);
      var i := |vs|;
      while i > 0
        invariant 0 <= i <= |vs| && mark.Keys == heap.Keys
        invariant Marked(heap, old(mark), old(gray), mark, gray, k)
        invariant forall j :: i <= j < |vs| && vs[j].Ref? ==> Nonwhite(mark, vs[j].id)
      {
        i := i - 1;
        ghost var m, l := mark, gray;
        MarkValue(vs[i], k);
        MarkedTrans(heap, old(mark), old(gray), m, l, mark, gray, k);
      }
    }

    method MarkIds(xs: seq<Id>, ghost k: set<Id>)
      requires Graph(k) && forall x :: x in xs ==> x in heap && x in k
      modifies this`mark, this`gray
      ensures Marked(heap, old(mark), old(gray), mark, gray, k)
      ensures IdsMarked(xs, mark) && mark.Keys == heap.Keys
    {
      hide Marked, Complete, MarkClosed;
      MarkedRefl(heap, mark, gray, k);
      var i := 0;
      while i < |xs|
        invariant 0 <= i <= |xs| && mark.Keys == heap.Keys
        invariant Marked(heap, old(mark), old(gray), mark, gray, k)
        invariant forall j :: 0 <= j < i ==> Nonwhite(mark, xs[j])
      {
        ghost var m, l := mark, gray;
        MarkObject(xs[i], k);
        MarkedTrans(heap, old(mark), old(gray), m, l, mark, gray, k);
        i := i + 1;
      }
    }

    // The hash part of traversetable
    method MarkNode(n: Node, wk: bool, wv: bool, ghost k: set<Id>)
      requires Graph(k) && forall r :: NodeHeld(n, wk, wv, r) ==> r in heap && r in k
      modifies this`mark, this`gray
      ensures Marked(heap, old(mark), old(gray), mark, gray, k) && NodeDone(n, wk, wv, mark)
    {
      hide Marked, Complete, MarkClosed;
      MarkedRefl(heap, mark, gray, k);
      if n.val != Nil {
        if !wk && n.key.KeyOf? {
          assert n.key.v.Ref? ==> NodeHeld(n, wk, wv, n.key.v.id);
          MarkValue(n.key.v, k);
        }
        ghost var m, l := mark, gray;
        MarkedRefl(heap, mark, gray, k);
        if !wv {
          assert n.val.Ref? ==> NodeHeld(n, wk, wv, n.val.id);
          MarkValue(n.val, k);
        }
        MarkedTrans(heap, old(mark), old(gray), m, l, mark, gray, k);
      }
    }

    method MarkNodes(o: Id, wk: bool, wv: bool, ghost k: set<Id>)
      requires Graph(k) && o in heap && o in k && heap[o].Tab? && (wk, wv) == WeakMode(heap, heap[o].mt)
      modifies this`mark, this`gray
      ensures Marked(heap, old(mark), old(gray), mark, gray, k)
      ensures NodesDone(heap[o].nodes, wk, wv, mark) && mark.Keys == heap.Keys
    {
      hide Marked, NodeDone, NodeHeld, Complete, MarkClosed, WeakMode;
      MarkedRefl(heap, mark, gray, k);
      var ns := heap[o].nodes;
      var i := |ns|;
      while i > 0
        invariant 0 <= i <= |ns| && Grows(old(mark), mark)
        invariant Marked(heap, old(mark), old(gray), mark, gray, k)
        invariant forall j :: i <= j < |ns| ==> NodeDone(ns[j], wk, wv, mark)
      {
        i := i - 1;
        ghost var m, l := mark, gray;
        NodeHeldIn(heap, o, i, k);
        MarkNode(ns[i], wk, wv, k);
        MarkedTrans(heap, old(mark), old(gray), m, l, mark, gray, k);
        forall j | i < j < |ns|
          ensures NodeDone(ns[j], wk, wv, mark)
        {
          NodeDoneGrows(ns[j], wk, wv, m, mark);
        }
      }
    }

    // traversetable, the metatable: a table with a weak mode goes to the list of weak tables.
    method MarkMode(o: Id, ghost k: set<Id>) returns (wk: bool, wv: bool)
      requires Graph(k) && o in heap && heap[o].Tab? && o in k && mark[o].color.Black?
      modifies this`mark, this`gray, this`weak
      ensures wk == KeysWeakIn(heap, heap[o]) && wv == ValuesWeakIn(heap, heap[o]) && mark.Keys == heap.Keys
      ensures mark[o] == ModeBits(old(mark)[o], wk, wv) && weak == if wk || wv then [o] + old(weak) else old(weak)
      ensures Marked(heap, old(mark)[o := mark[o]], old(gray), mark, gray, k)
      ensures heap[o].mt.Some? ==> Nonwhite(mark, heap[o].mt.value)
    {
      var t := heap[o];
      ghost var m0, l0 := mark, gray;
      TableHeldIn(heap, o, k);
      hide Marked, Complete, MarkClosed, Refers;
      MarkedRefl(heap, mark, gray, k);
      wk, wv := false, false;
      if t.mt.Some? {
        MarkObject(t.mt.value, k);
        var mt := heap[t.mt.value];
        wk, wv := mt.Tab? && mt.modek, mt.Tab? && mt.modev;
      }
      MarkedAt(heap, m0, l0, mark, gray, k, o);
      Retouch(heap, m0, l0, o, ModeBits(mark[o], wk, wv), mark, gray, k);
      mark := mark[o := ModeBits(mark[o], wk, wv)];
      if wk || wv { weak := [o] + weak; }
    }

    // traversetable, the array and the hash part
    method MarkParts(o: Id, wk: bool, wv: bool, ghost k: set<Id>)
      requires Graph(k) && o in heap && heap[o].Tab? && o in k
      requires wk == KeysWeakIn(heap, heap[o]) && wv == ValuesWeakIn(heap, heap[o])
      modifies this`mark, this`gray
      ensures Marked(heap, old(mark), old(gray), mark, gray, k) && mark.Keys == heap.Keys
      ensures (!wv ==> AllMarked(heap[o].arr, mark)) && NodesDone(heap[o].nodes, wk, wv, mark)
    {
      ModeIs(heap, heap[o]);
      TableHeldIn(heap, o, k);
      hide Marked, AllMarked, NodesDone, Complete, MarkClosed, Refers, WeakMode, KeysWeakIn, ValuesWeakIn;
      ghost var m, l := mark, gray;
      MarkedRefl(heap, mark, gray, k);
      if !wv { MarkValues(heap[o].arr, k); }
      ghost var m1, l1 := mark, gray;
      MarkNodes(o, wk, wv, k);
      MarkedTrans(heap, m, l, m1, l1, mark, gray, k);
      if !wv { AllMarkedGrows(heap[o].arr, m1, mark); }
    }

    // traversetable, behind the metatable: what is weak on both sides is left alone.
    method MarkContents(o: Id, wk: bool, wv: bool, ghost k: set<Id>)
      requires Graph(k) && o in heap && heap[o].Tab? && o in k && Nonwhite(mark, o)
      requires wk == KeysWeakIn(heap, heap[o]) && wv == ValuesWeakIn(heap, heap[o])
      requires heap[o].mt.Some? ==> Nonwhite(mark, heap[o].mt.value)
      modifies this`heap, this`mark, this`gray
      ensures Cleaned(old(heap), o, heap) && mark.Keys == heap.Keys == old(heap).Keys && heap[o].Tab?
      ensures Marked(old(heap), old(mark), old(gray), mark, gray, k) && mark[o] == old(mark)[o]
      ensures forall r :: Holds(heap, heap[o], wk, wv, r) ==> Nonwhite(mark, r)
    {
      hide Marked, Refers, NodesDone, AllMarked, Holds, Cleaned, Complete, MarkClosed, Grows, KeysWeakIn, ValuesWeakIn;
      var t := heap[o];
      ghost var m, l := mark, gray;
      MarkedRefl(heap, m, l, k);
      CleanedSelf(heap, o);
      if wk && wv {
        OnlyMeta(heap, t, mark);
        return;
      }
      MarkParts(o, wk, wv, k);
      MarkedAt(heap, m, l, mark, gray, k, o);
      var h' := heap[o := t.(nodes := CleanNodes(t.nodes))];
      TableHeld(h', t, wk, wv, mark);
      heap := h';
    }

    // traversetable: true if the table is weak
    method TraverseTable(o: Id, ghost k: set<Id>) returns (isWeak: bool)
      requires Graph(k) && o in heap && heap[o].Tab? && o in k && mark[o].color.Black?
      modifies this`heap, this`mark, this`gray, this`weak
      ensures Cleaned(old(heap), o, heap) && mark.Keys == heap.Keys == old(heap).Keys && heap[o].Tab?
      ensures var (wk, wv) := (KeysWeakIn(old(heap), old(heap)[o]), ValuesWeakIn(old(heap), old(heap)[o]));
              && isWeak == (wk || wv) && mark[o] == ModeBits(old(mark)[o], wk, wv)
              && weak == (if isWeak then [o] + old(weak) else old(weak))
              && Marked(old(heap), old(mark)[o := mark[o]], old(gray), mark, gray, k)
              && (forall r :: Holds(heap, heap[o], wk, wv, r) ==> Nonwhite(mark, r))
    {
      hide Marked, Refers, Holds, Cleaned, Complete, MarkClosed, Grows, KeysWeakIn, ValuesWeakIn;
      ghost var h, m, l := heap, mark, gray;
      var wk, wv := MarkMode(o, k);
      ghost var m1, l1 := mark, gray;
      MarkContents(o, wk, wv, k);
      MarkedTrans(h, m[o := m1[o]], l, m1, l1, mark, gray, k);
      isWeak := wk || wv;
    }

    // traverseclosure
    method TraverseClosure(o: Id, ghost k: set<Id>)
      requires Graph(k) && o in heap && (heap[o].CClosure? || heap[o].LClosure?) && o in k
      modifies this`mark, this`gray
      ensures Marked(heap, old(mark), old(gray), mark, gray, k) && mark.Keys == heap.Keys
      ensures forall r :: Refers(heap, heap[o], r) ==> Nonwhite(mark, r)
    {
      PartsInHeap(heap, o, k);
      hide Marked, MarkClosed, Complete, Refers;
      ghost var m0, l0 := mark, gray;
      MarkedRefl(heap, mark, gray, k);
      MarkObject(heap[o].env, k);
      MarkedTrans(heap, m0, l0, mark, gray, mark, gray, k) by { MarkedRefl(heap, mark, gray, k); }
      ghost var m1, l1 := mark, gray;
      if heap[o].CClosure? { MarkValues(heap[o].vals, k); } else { MarkIds([heap[o].p] + heap[o].upvals, k); }
      MarkedTrans(heap, m0, l0, m1, l1, mark, gray, k);
      ClosureHeld(heap, o, mark);
    }

    // traverseproto
    method TraverseProto(o: Id, ghost k: set<Id>)
      requires Graph(k) && o in heap && heap[o].Proto? && o in k
      modifies this`mark, this`gray
      ensures Marked(heap, old(mark), old(gray), mark, gray, k) && mark.Keys == heap.Keys
      ensures forall r :: Refers(heap, heap[o], r) ==> Nonwhite(mark, r)
    {
      PartsInHeap(heap, o, k);
      hide Marked, MarkClosed, Complete, Refers, AllMarked, IdsMarked;
      ghost var m0, l0 := mark, gray;
      var src := if heap[o].source.Some? then [heap[o].source.value] else [];
      MarkIds(src, k);
      ghost var m1, l1 := mark, gray;
      MarkedKeys(heap, m0, l0, m1, l1, k);
      MarkValues(heap[o].ks, k);
      ghost var m2, l2 := mark, gray;
      MarkedTrans(heap, m0, l0, m1, l1, m2, l2, k);
      IdsMarkedGrows(src, m1, m2);
      MarkIds(heap[o].names + heap[o].ps, k);
      MarkedTrans(heap, m0, l0, m2, l2, mark, gray, k);
      IdsMarkedGrows(src, m2, mark);
      AllMarkedGrows(heap[o].ks, m2, mark);
      ProtoHeld(heap, o, mark, src);
    }

    // traversestack
    method TraverseStack(o: Id, ghost k: set<Id>)
      requires Graph(k) && o in heap && heap[o].Thread? && o in k
      modifies this`mark, this`gray
      ensures Marked(heap, old(mark), old(gray), mark, gray, k) && mark.Keys == heap.Keys
      ensures forall r :: Refers(heap, heap[o], r) ==> Nonwhite(mark, r)
    {
      PartsInHeap(heap, o, k);
      hide Marked, MarkClosed, Complete, Refers;
      ghost var m0, l0 := mark, gray;
      MarkValue(heap[o].gt, k);
      MarkedTrans(heap, m0, l0, mark, gray, mark, gray, k) by { MarkedRefl(heap, mark, gray, k); }
      ghost var m1, l1 := mark, gray;
      MarkValues(heap[o].stack, k);
      MarkedTrans(heap, m0, l0, m1, l1, mark, gray, k);
      ThreadHeld(heap, o, mark);
    }

    method PropagateTable(o: Id, ghost k: set<Id>)
      requires Graph(k) && gray != [] && Lists(heap, mark, gray, grayagain, weak) && o == gray[0] && o in k
        && heap[o].Tab?
      modifies this`heap, this`mark, this`gray, this`weak
      ensures Graph(k) && Lists(heap, mark, gray, grayagain, weak)
      ensures Propagated(old(heap), old(mark), old(gray), grayagain, old(weak), heap, mark, gray, grayagain, weak, k)
    {
      ghost var h, m, l := heap, mark, gray;
      hide Complete, MarkClosed, Refers, Marked, Cleaned, Holds, Propagated, Lists;
      GrayHead(h, m, l, grayagain, weak);
      mark := mark[o := mark[o].(color := Black)];
      gray := gray[1..];
      var isWeak := TraverseTable(o, k);
      ghost var m2 := mark;
      if isWeak { mark := mark[o := mark[o].(color := Gray)]; }
      ghost var wk, wv := WeakMode(h, h[o].mt).0, WeakMode(h, h[o].mt).1;
      assert m[o := m[o].(color := Black)][o := m2[o]] == m[o := m2[o]];
      TablePropagated(h, heap, m, m2, mark, gray, l, o, k, grayagain, old(weak), weak, wk, wv);
    }

    method PropagateOther(o: Id, ghost k: set<Id>)
      requires Graph(k) && gray != [] && Lists(heap, mark, gray, grayagain, weak) && o == gray[0] && o in k
        && !heap[o].Tab?
      modifies this`mark, this`gray, this`grayagain
      ensures Graph(k) && Lists(heap, mark, gray, grayagain, weak)
      ensures Propagated(heap, old(mark), old(gray), old(grayagain), weak, heap, mark, gray, grayagain, weak, k)
    {
      ghost var m, l := mark, gray;
      hide Complete, MarkClosed, Refers, Marked, Cleaned, Propagated, Lists;
      GrayHead(heap, m, l, grayagain, weak);
      mark := mark[o := mark[o].(color := Black)];
      gray := gray[1..];
      if heap[o].CClosure? || heap[o].LClosure? {
        TraverseClosure(o, k);
      } else if heap[o].Thread? {
        grayagain := [o] + grayagain;
        mark := mark[o := mark[o].(color := Gray)];
        assert mark == m[o := m[o].(color := Gray)];
        TraverseStack(o, k);
      } else {
        TraverseProto(o, k);
      }
      OtherPropagated(heap, m, mark, gray, l, o, k, old(grayagain), grayagain, weak);
    }

    // propagatemark: traverses the first gray object.
    method PropagateMark(ghost k: set<Id>)
      requires Graph(k) && gray != [] && Lists(heap, mark, gray, grayagain, weak) && gray[0] in k
      modifies this`heap, this`mark, this`gray, this`grayagain, this`weak
      ensures Graph(k) && Lists(heap, mark, gray, grayagain, weak)
      ensures Propagated(old(heap), old(mark), old(gray), old(grayagain), old(weak), heap, mark, gray, grayagain,
        weak, k)
    {
      var o := gray[0];
      if heap[o].Tab? { PropagateTable(o, k); } else { PropagateOther(o, k); }
    }

    // The step of a collection that traverses one gray object.
    method PropagateStep(ghost b: set<Id>)
      requires Valid(State()) && gcstate == GCSpropagate && gray != [] && Bounds(State(), b)
      modifies this`heap, this`mark, this`gray, this`grayagain, this`weak
      ensures Advances(old(State()), State(), b)
    {
      hide Valid, Complete, Closed, MarkClosed, Lists, Propagated, Bounds, Within, Advances;
      ghost var g, k := State(), K * b;
      StepReady(g, b);
      PropagateMark(k);
      ghost var g' := State();
      assert g' == g.(h := g'.h, m := g'.m, gray := g'.gray, again := g'.again, weak := g'.weak);
      StepPropagated(g, g', b);
    }

    // ---- the atomic step -----------------------------------------------------------------------------

    // One turn of the loop of propagateall
    method PropagateTurn(ghost todo: set<Id>, ghost up: bool, ghost b: set<Id>)
      requires Common(State()) && Traces(State(), todo, up) && Within(heap, mark, b) && gray != []
      modifies this`heap, this`mark, this`gray, this`grayagain, this`weak
      ensures Common(State()) && Traces(State(), todo, up) && Marks(old(State()), State()) && Within(heap, mark, b)
      ensures CleanedHeap(old(heap), heap) && Work(mark, gray) < old(Work(mark, gray))
    {
      hide Common, Traces, Complete, Closed, MarkClosed, Lists, Propagated, Marks, CleanedHeap, Within, Work;
      ghost var g := State();
      BoundReady(g, todo, up, b);
      PropagateMark(K * b);
      PropagatedBound(g, State(), b);
      PropagatedTraces(g, State(), todo, up);
      PropagatedMarks(g, State());
      PropagatedCleans(g, State());
    }

    // propagateall
    method PropagateAll(ghost todo: set<Id>, ghost up: bool, ghost b: set<Id>)
      requires Common(State()) && Traces(State(), todo, up) && Bounds(State(), b)
      modifies this`heap, this`mark, this`gray, this`grayagain, this`weak
      ensures Common(State()) && Traces(State(), todo, up) && gray == [] && Marks(old(State()), State())
      ensures CleanedHeap(old(heap), heap) && Bounds(State(), b)
    {
      hide Common, Traces, Marks, CleanedHeap, Bounds, Within, Work;
      ghost var g0 := State();
      MarksRefl(g0);
      CleanedHeapRefl(heap);
      BoundsWithin(g0, b);
      while gray != []
        invariant Common(State()) && Traces(State(), todo, up) && Marks(g0, State()) && CleanedHeap(g0.h, heap)
        invariant Within(heap, mark, b)
        decreases Work(mark, gray)
      {
        ghost var g := State();
        PropagateTurn(todo, up, b);
        MarksTrans(g0, g, State());
        CleanedHeapTrans(g0.h, g.h, heap);
      }
      MarksBounds(g0, State(), b);
    }

    // One turn of the loop of remarkupvals
    method RemarkUpval(i: nat, ghost g0: Snap, ghost todo: set<Id>, ghost b: set<Id>)
      requires Common(g0) && Traces(g0, todo, true) && Within(g0.h, g0.m, b) && State() == g0.(m := mark, gray := gray)
      requires Marked(heap, g0.m, g0.gray, mark, gray, K * b) && UpvalsDone(heap, mark, uvhead, i) && i < |uvhead|
      modifies this`mark, this`gray
      ensures Marked(heap, g0.m, g0.gray, mark, gray, K * b) && UpvalsDone(heap, mark, uvhead, i + 1)
    {
      hide Common, Traces, Complete, Closed, MarkClosed, Marked, UpvalsDone, Refers, Colors, Grows, NonwhiteIn, Within;
      ghost var m, l, k := mark, gray, K * b;
      var u := uvhead[i];
      BoundReady(g0, todo, true, b);
      UpvalsExist(g0);
      BoundDuring(g0, m, l, todo, true, b);
      MarkedRefl(heap, mark, gray, k);
      if mark[u].color.Gray? {
        GrayInK(heap, mark, u, k);
        UpvalInHeap(heap, u, k);
        MarkValue(StackValue(heap, heap[u].th, heap[u].slot), k);
      }
      MarkedTrans(heap, g0.m, g0.gray, m, l, mark, gray, k);
      BoundDuring(g0, mark, gray, todo, true, b);
      UpvalsNext(heap, m, l, mark, gray, k, uvhead, i);
    }

    // remarkupvals
    method RemarkUpvals(ghost todo: set<Id>, ghost b: set<Id>)
      requires Common(State()) && Traces(State(), todo, true) && Bounds(State(), b)
      modifies this`mark, this`gray
      ensures Common(State()) && Traces(State(), todo, false) && Marks(old(State()), State()) && Bounds(State(), b)
    {
      hide Common, Traces, Marks, Marked, UpvalsDone, Grows, Bounds, Within;
      ghost var g0 := State();
      BoundsWithin(g0, b);
      MarkKeys(g0);
      MarkedRefl(heap, mark, gray, K * b);
      UpvalsNone(heap, mark, uvhead);
      var i := 0;
      while i < |uvhead|
        invariant 0 <= i <= |uvhead|
        invariant Marked(heap, g0.m, g0.gray, mark, gray, K * b) && UpvalsDone(heap, mark, uvhead, i)
      {
        RemarkUpval(i, g0, todo, b);
        i := i + 1;
      }
      MarkedBounds(g0, State(), b);
      MarkedTraces(g0, State(), todo, true);
      MarkedMarks(g0, State());
      RemarkedTraces(State(), todo);
    }

    // markobject, within the mark phase
    method MarkRoot(o: Id, ghost todo: set<Id>, ghost up: bool, ghost b: set<Id>)
      requires Common(State()) && Traces(State(), todo, up) && o in heap && o in K && Bounds(State(), b) && o in b
      modifies this`mark, this`gray
      ensures Common(State()) && Traces(State(), todo, up) && Marks(old(State()), State()) && Nonwhite(mark, o)
      ensures Bounds(State(), b)
    {
      hide Common, Traces, Complete, Closed, MarkClosed, Marked, Marks, Lists, Bounds, Within;
      ghost var g := State();
      BoundsWithin(g, b);
      BoundReady(g, todo, up, b);
      MarkObject(o, K * b);
      MarkedBounds(g, State(), b);
      MarkedTraces(g, State(), todo, up);
      MarkedMarks(g, State());
    }

    // markmt
    method MarkMt(ghost todo: set<Id>, ghost up: bool, ghost b: set<Id>)
      requires Common(State()) && Traces(State(), todo, up) && Bounds(State(), b)
      modifies this`mark, this`gray
      ensures Common(State()) && Traces(State(), todo, up) && Marks(old(State()), State()) && Bounds(State(), b)
      ensures forall i :: i in mt ==> Nonwhite(mark, mt[i])
    {
      hide Common, Traces, Marks, Bounds, Starts, Within;
      ghost var g0 := State();
      BoundsWithin(g0, b);
      StartsIn(g0, b);
      MarksRefl(g0);
      var i := 0;
      while i < NUM_TAGS
        invariant 0 <= i <= NUM_TAGS && Common(State()) && Traces(State(), todo, up) && Marks(g0, State())
          && Bounds(State(), b)
        invariant forall j :: j in mt && j < i ==> Nonwhite(mark, mt[j])
      {
        ghost var g := State();
        if i in mt {
          MtInK(g, i);
          MarkRoot(mt[i], todo, up, b);
          MtStayMarked(g, State(), i);
        } else {
          MarksRefl(g);
        }
        MarksTrans(g0, g, State());
        i := i + 1;
      }
      MtBounded(State());
    }

    // One turn of the loop of luaC_separateudata
    method SeparateStep(i: nat, ghost m0: Marking, ghost us: seq<Id>) returns (next: nat)
      requires Common(State()) && Traces(State(), Listed(tmudata), false) && i < |udata|
      requires Flagged(m0, us, mark) && udata[i] !in us
      modifies this`mark, this`udata, this`tmudata
      ensures Common(State()) && Traces(State(), Listed(tmudata), false)
      ensures var u := old(udata)[i];
              && Flagged(m0, us + [u], mark)
              && (if Dies(heap, m0, u)
                  then next == i && udata == old(udata)[..i] + old(udata)[i + 1..] && tmudata == old(tmudata) + [u]
                  else next == i + 1 && udata == old(udata) && tmudata == old(tmudata))
    {
      hide Common, Traces, Flagged;
      ghost var g := State();
      var u := udata[i];
      SeparateReady(g, i, Listed(tmudata));
      FlaggedAt(m0, us, mark, u);
      if !mark[u].color.White? || mark[u].finalized {
        FlaggedNext(m0, us, mark, u, mark);
        return i + 1;
      }
      mark := mark[u := mark[u].(finalized := true)];
      FlaggedNext(m0, us, g.m, u, mark);
      FinalizedTraces(g, u, Listed(tmudata), false);
      FinalizedCommon(g, u);
      assert State() == Finalized(g, u);
      if !WantsGC(heap, heap[u].mt) {
        return i + 1;
      }
      udata := udata[..i] + udata[i + 1..];
      tmudata := tmudata + [u];
      MovedCommon(Finalized(g, u), i);
      MovedTraces(Finalized(g, u), i);
      assert State() == Moved(Finalized(g, u), i);
      return i;
    }

    // luaC_separateudata: userdata to be finalized go to tmudata, in their order.
    method SeparateUdata()
      requires Common(State()) && Traces(State(), Listed(tmudata), false)
      modifies this`mark, this`udata, this`tmudata
      ensures Common(State()) && Traces(State(), Listed(tmudata), false)
      ensures tmudata == old(tmudata) + Dying(heap, old(mark), old(udata))
        && udata == Staying(heap, old(mark), old(udata))
      ensures Flagged(old(mark), old(udata), mark)
    {
      hide Common, Traces, Flagged, Dies, SeparatedTo, NoDup, Staying, Dying, Listed;
      ghost var m0, us, tmu0 := mark, udata, tmudata;
      UdataList(State());
      FlaggedNone(mark);
      SeparatedStart(heap, m0, us, tmu0);
      SeparatedEnd(heap, m0, us, 0, udata, 0, tmu0, tmu0);
      ghost var n := 0;
      var i := 0;
      assert us[..0] == [];
      while i < |udata|
        invariant 0 <= n <= |us| && 0 <= i <= |udata| && Common(State()) && Traces(State(), Listed(tmudata), false)
        invariant SeparatedTo(heap, m0, us, n, udata, i, tmu0, tmudata) && Flagged(m0, us[..n], mark)
        invariant n == |us| <==> i == |udata|
        decreases |us| - n
      {
        SplitAt(us, n);
        SeparatedNext(heap, m0, us, n, udata, i, tmu0, tmudata);
        i := SeparateStep(i, m0, us[..n]);
        n := n + 1;
        SeparatedEnd(heap, m0, us, n, udata, i, tmu0, tmudata);
      }
      SeparatedEnd(heap, m0, us, n, udata, i, tmu0, tmudata);
    }

    // marktmu: userdata to be finalized are marked, with all that their finalizers may use.
    method MarkTmu(ghost b: set<Id>)
      requires Common(State()) && Traces(State(), Listed(tmudata), false) && Bounds(State(), b)
      modifies this`mark, this`gray
      ensures Common(State()) && Traces(State(), {}, false) && Marks(old(State()), State()) && Bounds(State(), b)
      ensures forall u :: u in tmudata ==> Nonwhite(mark, u)
    {
      hide Common, Traces, Marks, Marked, Complete, Closed, MarkClosed, Whitened, Bounds, Starts, Within;
      ghost var g0 := State();
      BoundsWithin(g0, b);
      StartsIn(g0, b);
      MarksRefl(g0);
      var i := 0;
      assert tmudata[i..] == tmudata;
      while i < |tmudata|
        invariant 0 <= i <= |tmudata| && Common(State()) && Traces(State(), Listed(tmudata[i..]), false)
          && Marks(g0, State()) && Bounds(State(), b)
        invariant forall j :: 0 <= j < i ==> Nonwhite(mark, tmudata[j])
      {
        ghost var g := State();
        var u := tmudata[i];
        assert u in tmudata;
        BoundsWithin(g, b);
        BoundReady(g, Listed(tmudata[i..]), false, b);
        RemarkReady(g, u, Listed(tmudata[i..]));
        mark := mark[u := mark[u].(color := White(currentwhite))];
        ReallyMark(u, K * b);
        RemarkedBounds(g, u, State(), b);
        assert Listed(tmudata[i..]) == Listed(tmudata[i + 1..]) + {u};
        RemarkTraces(g, u, State(), Listed(tmudata[i + 1..]));
        MarksTrans(g0, g, State());
        StayMarked(g, State());
        i := i + 1;
      }
      assert Listed(tmudata[i..]) == {};
    }

    // iscleared, which marks strings on the way
    method CheckCleared(v: Value, iskey: bool) returns (b: bool)
      requires mark.Keys == heap.Keys && ValueIn(v, heap.Keys * K)
      modifies this`mark
      ensures b == IsCleared(heap, old(mark), v, iskey)
      ensures StringsMarked(heap, old(mark), K, mark) && Grows(old(mark), mark) && mark.Keys == heap.Keys
      ensures !b ==> Passed(heap, mark, v)
    {
      StringMarkKeeps(heap, mark, v, K);
      StringsMarkedRefl(heap, mark, K);
      if !v.Ref? { return false; }
      if heap[v.id].Str? {
        mark := StringMark(heap, mark, v);
        return false;
      }
      return mark[v.id].color.White? || (heap[v.id].Udata? && !iskey && mark[v.id].finalized);
    }

    // The array part of cleartable
    method ClearArray(arr: seq<Value>) returns (r: seq<Value>)
      requires mark.Keys == heap.Keys && ValuesIn(arr, heap.Keys * K)
      modifies this`mark
      ensures StringsMarked(heap, old(mark), K, mark) && mark.Keys == heap.Keys && Grows(old(mark), mark)
      ensures |r| == |arr| && forall i :: 0 <= i < |arr| ==> r[i] == ClearedValue(heap, old(mark), arr[i])
      ensures forall i :: 0 <= i < |arr| ==> Passed(heap, mark, r[i])
    {
      hide StringsMarked, Passed, IsCleared, Grows;
      StringsMarkedRefl(heap, mark, K);
      StringsMarkedTrans(heap, mark, K, mark, mark);
      r := arr;
      var i := |arr|;
      while i > 0
        invariant 0 <= i <= |arr| == |r| && mark.Keys == heap.Keys && Grows(old(mark), mark)
        invariant StringsMarked(heap, old(mark), K, mark)
        invariant forall j :: 0 <= j < i ==> r[j] == arr[j]
        invariant forall j :: i <= j < |arr| ==>
            r[j] == ClearedValue(heap, old(mark), arr[j]) && Passed(heap, mark, r[j])
      {
        i := i - 1;
        ghost var m := mark;
        ClearedSame(heap, old(mark), K, m);
        var cleared := CheckCleared(r[i], false);
        if cleared { r := r[i := Nil]; }
        assert cleared ==> Passed(heap, mark, r[i]) by { NilPasses(heap, mark); }
        StringsMarkedTrans(heap, old(mark), K, m, mark);
        forall j | i < j < |arr|
          ensures Passed(heap, mark, r[j])
        {
          PassedGrows(heap, m, mark, r[j]);
        }
      }
    }

    // One entry of the hash part
    method ClearNode(n: Node) returns (r: Node)
      requires mark.Keys == heap.Keys && NodesIn([n], heap.Keys * K)
      modifies this`mark
      ensures StringsMarked(heap, old(mark), K, mark) && mark.Keys == heap.Keys && Grows(old(mark), mark)
      ensures r == ClearedNode(heap, old(mark), n) && NodePassed(heap, mark, r)
    {
      hide StringsMarked, IsCleared, Grows, Passed;
      assert [n][0] == n;
      StringsMarkedRefl(heap, mark, K);
      StringsMarkedTrans(heap, mark, K, mark, mark);
      if n.val == Nil { return n; }
      ghost var m := mark;
      var keyCleared := false;
      if n.key.KeyOf? { keyCleared := CheckCleared(n.key.v, true); }
      if keyCleared { return RemoveEntry(n); }
      ghost var m1 := mark;
      ClearedSame(heap, m, K, m1);
      var valCleared := CheckCleared(n.val, false);
      StringsMarkedTrans(heap, m, K, m1, mark);
      if valCleared { return RemoveEntry(n); }
      if n.key.KeyOf? { PassedGrows(heap, m1, mark, n.key.v); }
      return n;
    }

    // The hash part of cleartable
    method ClearNodes(ns: seq<Node>) returns (r: seq<Node>)
      requires mark.Keys == heap.Keys && NodesIn(ns, heap.Keys * K)
      modifies this`mark
      ensures StringsMarked(heap, old(mark), K, mark) && mark.Keys == heap.Keys && Grows(old(mark), mark)
      ensures |r| == |ns| && forall i :: 0 <= i < |ns| ==> r[i] == ClearedNode(heap, old(mark), ns[i])
      ensures forall i :: 0 <= i < |ns| ==> NodePassed(heap, mark, r[i])
    {
      hide StringsMarked, NodePassed, IsCleared, Grows;
      StringsMarkedRefl(heap, mark, K);
      StringsMarkedTrans(heap, mark, K, mark, mark);
      r := ns;
      var i := |ns|;
      while i > 0
        invariant 0 <= i <= |ns| == |r| && mark.Keys == heap.Keys && Grows(old(mark), mark)
        invariant StringsMarked(heap, old(mark), K, mark)
        invariant forall j :: 0 <= j < i ==> r[j] == ns[j]
        invariant forall j :: i <= j < |ns| ==>
            r[j] == ClearedNode(heap, old(mark), ns[j]) && NodePassed(heap, mark, r[j])
      {
        i := i - 1;
        ghost var m := mark;
        ClearedSame(heap, old(mark), K, m);
        assert [ns[i]][0] == ns[i];
        var n := ClearNode(ns[i]);
        r := r[i := n];
        StringsMarkedTrans(heap, old(mark), K, m, mark);
        forall j | i < j < |ns|
          ensures NodePassed(heap, mark, r[j])
        {
          NodePassedGrows(heap, m, mark, r[j]);
        }
      }
    }

    // cleartable, for one table
    method ClearOne(o: Id)
      requires Common(State()) && Traces(State(), {}, false) && gray == [] && o in weak
      modifies this`heap, this`mark
      ensures ClearedStep(old(State()), o, old(mark)[o].vweak, State()) && Whole(heap, mark, o)
    {
      hide Common, Traces, StringsMarked, Passed, NodePassed, Whole, ClearedTable, Grows, Complete, Closed,
        ValuesIn, NodesIn;
      ghost var g := State();
      WeakReady(g, o);
      TableIn(heap, o, K);
      StringsMarkedRefl(heap, mark, K);
      StringsMarkedTrans(heap, mark, K, mark, mark);
      var t := heap[o];
      var wv := mark[o].vweak;
      var arr := t.arr;
      if wv { arr := ClearArray(arr); }
      ghost var m1 := mark;
      var nodes := ClearNodes(t.nodes);
      StringsMarkedTrans(heap, g.m, K, m1, mark);
      IsClearedTable(heap, g.m, K, m1, t, wv, arr, nodes);
      forall i | 0 <= i < |arr|
        ensures Passed(heap, mark, arr[i])
      {
        PassedGrows(heap, m1, mark, arr[i]);
      }
      heap := heap[o := t.(arr := arr, nodes := nodes)];
      MtStays(t, g.m, mark);
      TablePassed(g.h, g.m, heap, mark, o, wv);
      WholeIs(heap, mark, o);
    }

    // cleartable
    method ClearTable()
      requires Common(State()) && Traces(State(), {}, false) && gray == []
      modifies this`heap, this`mark
      ensures Common(State()) && Traces(State(), {}, false) && Marks(old(State()), State())
      ensures forall x :: x in weak ==> Whole(heap, mark, x)
      ensures ClearedTo(old(heap), old(mark), weak, |weak|, heap) && StringsMarked(old(heap), old(mark), K, mark)
    {
      hide Common, Traces, Whole, ClearedStep, Marks, ClearedTo, StringsMarked, NoDup;
      ghost var g0 := State();
      MarksRefl(g0);
      ClearedNone(heap, mark, weak);
      StringsMarkedRefl(heap, mark, K);
      var i := 0;
      while i < |weak|
        invariant 0 <= i <= |weak| && Common(State()) && Traces(State(), {}, false) && Marks(g0, State())
        invariant ClearedTo(g0.h, g0.m, weak, i, heap) && StringsMarked(g0.h, g0.m, K, mark)
        invariant forall j :: 0 <= j < i ==> Whole(heap, mark, weak[j])
      {
        ghost var g := State();
        assert weak[i] in weak;
        WeakReady(g, weak[i]);
        ClearOne(weak[i]);
        ClearedStepTraces(g, weak[i], g.m[weak[i]].vweak, State());
        ClearedStepCommon(g, weak[i], g.m[weak[i]].vweak, State());
        ClearedStepMarks(g, weak[i], g.m[weak[i]].vweak, State());
        ClearedGoesOn(g0, g, i, State());
        MarksTrans(g0, g, State());
        forall j | 0 <= j < i
          ensures Whole(heap, mark, weak[j])
        {
          WholeStays(g, weak[i], g.m[weak[i]].vweak, State(), weak[j]);
        }
        i := i + 1;
      }
    }

    // atomic: remark the upvalues of dead threads, and what the barriers caught.
    method AtomicUpvals(ghost b: set<Id>)
      requires Valid(State()) && gcstate == GCSpropagate && gray == [] && Bounds(State(), b)
      modifies this`heap, this`mark, this`gray, this`grayagain, this`weak
      ensures Common(State()) && Traces(State(), Listed(grayagain) + Listed(tmudata) + Listed(weak), false)
        && gray == []
      ensures Traverses(old(State()), State()) && Bounds(State(), b)
    {
      hide Valid, Common, Traces, Marks, Listed, CleanedHeap, Traverses, Bounds;
      PropagateEnds(State());
      ghost var todo := Postponed(State());
      ghost var g0 := State();
      RemarkUpvals(todo, b);
      ghost var g1 := State();
      CleanedHeapRefl(heap);
      MarksTraverse(g0, g1);
      PropagateAll(todo, false, b);
      MarksTraverse(g1, State());
      TraversesTrans(g0, g1, State());
      TodoGrows(g1, State(), Listed(tmudata));
      MoreTodo(State(), todo, Listed(grayagain) + Listed(tmudata) + Listed(weak));
    }

    // atomic: traverse the weak tables again, and mark the roots that may have changed.
    method AtomicRoots(ghost b: set<Id>)
      requires Common(State()) && Traces(State(), Listed(grayagain) + Listed(tmudata) + Listed(weak), false)
        && gray == [] && Bounds(State(), b)
      modifies this`heap, this`mark, this`gray, this`grayagain, this`weak
      ensures Common(State()) && Traces(State(), Listed(tmudata) + Listed(grayagain), false) && gray == []
      ensures RootsMarked(State()) && Modes(heap, mark, weak) && Traverses(old(State()), State())
        && Bounds(State(), b)
    {
      hide Common, Traces, Marks, Listed, RootsMarked, Modes, CleanedHeap, Traverses, Bounds, Starts, Within;
      NoModes(heap, mark);
      CleanedHeapRefl(heap);
      ghost var g1 := State();
      MoveWeak(State(), Listed(grayagain) + Listed(tmudata), false);
      gray, weak := weak, [];
      ghost var g2, todo := State(), Listed(grayagain) + Listed(tmudata);
      SameTraverse(g1, g2);
      BoundsAlike(g1, g2, b);
      BoundsWithin(g1, b);
      StartsIn(g1, b);
      RunInK(g2);
      MarkRoot(running, todo, false, b);
      ghost var g3 := State();
      MarksTraverse(g2, g3);
      TraversesTrans(g1, g2, g3);
      ModesStay(g2, g3);
      StayMarked(g2, g3);
      MarkMt(todo, false, b);
      ghost var g4 := State();
      MarksTraverse(g3, g4);
      TraversesTrans(g1, g3, g4);
      ModesStay(g3, g4);
      StayMarked(g3, g4);
      AllRootsMarked(g4);
      PropagateAll(todo, false, b);
      ghost var g5 := State();
      MarksTraverse(g4, g5);
      TraversesTrans(g1, g4, g5);
      ModesStay(g4, g5);
      RootsStayMarked(g4, g5);
      TodoGrows(g4, g5, Listed(tmudata));
      TodoGrows(g3, g4, Listed(tmudata));
      TodoGrows(g2, g3, Listed(tmudata));
      MoreTodo(g5, todo, Listed(tmudata) + Listed(grayagain));
    }

    // atomic: traverse again what was put off until now.
    method AtomicAgain(ghost b: set<Id>)
      requires Common(State()) && Traces(State(), Listed(tmudata) + Listed(grayagain), false) && gray == []
        && RootsMarked(State()) && Modes(heap, mark, weak) && Bounds(State(), b)
      modifies this`heap, this`mark, this`gray, this`grayagain, this`weak
      ensures Common(State()) && Traces(State(), Listed(tmudata), false) && gray == [] && RootsMarked(State())
        && AgainThreads(State())
      ensures Modes(heap, mark, weak) && Traverses(old(State()), State()) && Bounds(State(), b)
    {
      hide Common, Traces, Marks, Listed, RootsMarked, AgainThreads, Modes, CleanedHeap, Traverses, Bounds;
      ghost var g5 := State();
      MoveAgain(g5, Listed(tmudata), false);
      gray, grayagain := grayagain, [];
      ghost var g6 := State();
      MovedRootsMarked(g5, g6);
      SameTraverse(g5, g6);
      BoundsAlike(g5, g6, b);
      PropagateAll(Listed(tmudata), false, b);
      MarksTraverse(g6, State());
      TraversesTrans(g5, g6, State());
      ModesStay(g6, State());
      RootsStayMarked(g6, State());
      AgainStays(g6, State());
    }

    // atomic: keep what finalizers may use.
    method AtomicFinalizers(ghost b: set<Id>)
      requires Common(State()) && Traces(State(), Listed(tmudata), false) && gray == [] && RootsMarked(State())
        && AgainThreads(State()) && Modes(heap, mark, weak) && Bounds(State(), b)
      modifies this`heap, this`mark, this`gray, this`grayagain, this`weak, this`udata, this`tmudata
      ensures Common(State()) && Traces(State(), {}, false) && gray == [] && RootsMarked(State())
        && AgainThreads(State())
      ensures (forall u :: u in tmudata ==> Nonwhite(mark, u))
      ensures CleanedHeap(old(heap), heap) && Onward(old(State()), State()) && Modes(heap, mark, weak)
      ensures Within(heap, mark, b)
    {
      hide Common, Traces, Marks, RootsMarked, AgainThreads, Listed, Flagged, Dying, Staying, Modes, CleanedHeap,
        Onward, Bounds, Starts, Within;
      ghost var g1 := State();
      SeparateUdata();
      ghost var g2 := State();
      FlaggedRoots(g1, g1.udata, g2);
      FlaggedModes(g1, g2, g1.udata);
      SeparatedOnward(g1, g2);
      MarkKeys(g1);
      SeparatedBounds(g1, g2, b);
      AgainSame(g1, g2);
      MarkTmu(b);
      ghost var g3 := State();
      RootsStayMarked(g2, g3);
      ModesStay(g2, g3);
      MarksOnward(g2, g3);
      OnwardTrans(g1, g2, g3);
      AgainStays(g2, g3);
      PropagateAll({}, false, b);
      ghost var g4 := State();
      RootsStayMarked(g3, g4);
      ModesStay(g3, g4);
      MarksOnward(g3, g4);
      OnwardTrans(g1, g3, g4);
      AgainStays(g3, g4);
      TmuStays(g3, g4);
      BoundsWithin(g4, b);
    }

    // atomic: the end of the mark phase.  `s` is the state in which all is marked that a program can use.
    method AtomicMarks(ghost b: set<Id>) returns (ghost s: Snap)
      requires Valid(State()) && gcstate == GCSpropagate && gray == [] && Bounds(State(), b)
      modifies this`heap, this`mark, this`gray, this`grayagain, this`weak, this`udata, this`tmudata
      ensures Common(State()) && Traces(State(), {}, false) && gray == [] && RootsMarked(State())
        && AgainThreads(State())
      ensures (forall u :: u in tmudata ==> Nonwhite(mark, u))
      ensures (forall x :: x in weak ==> Whole(heap, mark, x)) && gcstate == GCSpropagate
      ensures Traverses(old(State()), s) && Settled(s) && Onward(s, State()) && Collected(old(heap), State())
      ensures Spared(heap, mark, b)
    {
      hide Valid, Common, Traces, Marks, RootsMarked, AgainThreads, Listed, Whole, Traverses, Onward, Modes,
        CleanedHeap, ClearedTo, StringsMarked, Collected, Bounds, Within, Spared;
      ghost var g0 := State();
      AtomicUpvals(b);
      ghost var g1 := State();
      AtomicRoots(b);
      ghost var g2 := State();
      TraversesTrans(g0, g1, g2);
      AtomicAgain(b);
      s := State();
      TraversesTrans(g0, g2, s);
      AtomicFinalizers(b);
      ghost var g4 := State();
      ClearTable();
      RootsStayMarked(g4, State());
      AgainStays(g4, State());
      TmuStays(g4, State());
      MarksOnward(g4, State());
      OnwardTrans(s, g4, State());
      ModesStay(g4, State());
      CleanedAfter(g0, s, g4.h);
      MarkKeys(g4);
      CollectedIs(g0.h, g4, State());
      StringsSpared(g4, State(), b);
    }

    // atomic.  `s` is the state in which all is marked that a program can use.
    method Atomic(ghost b: set<Id>) returns (ghost s: Snap)
      requires Valid(State()) && gcstate == GCSpropagate && gray == [] && Bounds(State(), b)
      modifies this`heap, this`mark, this`gray, this`grayagain, this`weak, this`udata, this`tmudata,
        this`currentwhite, this`sweepgc, this`sweepstrgc, this`gcstate
      ensures Valid(State()) && gcstate == GCSsweepstring && currentwhite == !old(currentwhite)
        && Collected(old(heap), State())
      ensures forall x :: x in heap ==> (Dead(mark, currentwhite, x) <==> !Nonwhite(mark, x))
      ensures Traverses(old(State()), s) && Settled(s) && Onward(s, State()) && Preserves(old(State()), State())
      ensures Spared(heap, mark, b)
    {
      hide Valid, Common, Traces, Marks, RootsMarked, AgainThreads, Listed, Whole, Traverses, Settled, Onward,
        Collected, Preserves, Bounds, Spared;
      ghost var g := State();
      s := AtomicMarks(b);
      ghost var g5 := State();
      AgainIs(g5);
      FlipValid(g5);
      currentwhite := !currentwhite;
      sweepstrgc := 0;
      sweepgc := 0;
      gcstate := GCSsweepstring;
      assert State() == Flipped(g5);
      FlippedIs(g5, g.h, s);
      StepAtomicPreserves(g, s, State());
    }

    // ---- the start of a cycle ------------------------------------------------------------------------

    // markroot: the main thread, and its global table
    method MarkMain(ghost todo: set<Id>, ghost b: set<Id>)
      requires Common(State()) && Traces(State(), todo, true) && mainthread in heap && mainthread in K
        && Bounds(State(), b)
      modifies this`mark, this`gray
      ensures Common(State()) && Traces(State(), todo, true) && Marks(old(State()), State())
        && Nonwhite(mark, mainthread) && Bounds(State(), b)
    {
      hide Common, Traces, Marks, Bounds, Starts, Within;
      ghost var g0 := State();
      BoundsWithin(g0, b);
      StartsIn(g0, b);
      MarkRoot(mainthread, todo, true, b);
      ghost var g1 := State();
      MainValue(g1, todo);
      MainBound(g1, b);
      if heap[mainthread].gt.Ref? { MarkRoot(heap[mainthread].gt.id, todo, true, b); } else { MarksRefl(g1); }
      StayMarked(g1, State());
      MarksTrans(g0, g1, State());
    }

    // markroot: the lists of the last cycle are dropped.
    method StartMarking()
      requires Valid(State()) && (gcstate == GCSpause || gcstate == GCSfinalize)
      modifies this`gray, this`grayagain, this`weak, this`K
      ensures Common(State()) && Traces(State(), Listed(tmudata), true) && K == CycleStart(old(State()))
        && grayagain == [] && weak == []
    {
      hide Valid, Common, Traces, CycleStart, Listed;
      StartReady(State());
      StartTraces(State());
      K := CycleStart(State());
      gray, grayagain, weak := [], [], [];
    }

    // markroot: the main thread, the registry, and the metatables of the basic types
    method MarkStart(ghost b: set<Id>)
      requires Common(State()) && Traces(State(), Listed(tmudata), true) && Bounds(State(), b)
      modifies this`mark, this`gray
      ensures Common(State()) && Traces(State(), Listed(tmudata), true) && Marks(old(State()), State())
        && Bounds(State(), b)
      ensures Nonwhite(mark, mainthread) && Nonwhite(mark, registry)
    {
      hide Common, Traces, Marks, Listed, Nonwhite, Bounds, Starts, Within;
      ghost var todo := Listed(tmudata);
      ghost var g0 := State();
      BoundsWithin(g0, b);
      StartsIn(g0, b);
      RunInK(g0);
      MarkMain(todo, b);
      ghost var g2 := State();
      StayMarked(g0, g2);
      RunInK(g2);
      MarkRoot(registry, todo, true, b);
      ghost var g3 := State();
      StayMarked(g2, g3);
      MarkMt(todo, true, b);
      StayMarked(g3, State());
      MarksTrans(g0, g2, g3);
      MarksTrans(g0, g3, State());
    }

    // markroot
    method MarkRoots(ghost b: set<Id>)
      requires Valid(State()) && (gcstate == GCSpause || gcstate == GCSfinalize)
      requires MarkClosed(heap, b) && Starts(State()) <= b
      modifies this`mark, this`gray, this`grayagain, this`weak, this`gcstate, this`K
      ensures Valid(State()) && gcstate == GCSpropagate && K == CycleStart(old(State()))
      ensures Preserves(old(State()), State()) && Bounds(State(), b) && Traverses(old(State()), State())
    {
      hide Valid, Common, Traces, Marks, CycleStart, Listed, Nonwhite, Preserves, CleanedHeap, Bounds, Starts,
        MarkClosed, Traverses;
      ghost var g := State();
      StartBounds(g, b);
      StartMarking();
      ghost var g0 := State();
      StartedBounds(g, g0, b);
      MarkStart(b);
      StayMarked(g0, State());
      ghost var g4 := State();
      gcstate := GCSpropagate;
      BoundsAlike(g4, State(), b);
      BeginPropagate(g4, Listed(tmudata));
      CleanedHeapRefl(heap);
      MarksTraverse(g0, g4);
      TraversesLike(g0, g4, g, State());
      MarkPreserves(g, State());
    }

    // ---- the sweep of the string table ---------------------------------------------------------------

    // sweepwholelist for one list of the string table
    method SweepBucket(b: nat)
      requires SweepingStrings(State(), b, 0)
      modifies this`heap, this`mark, this`strt
      ensures |strt| == |old(strt)| && b < |strt| && SweepingStrings(State(), b, |strt[b]|)
        && Sweeps(old(State()), State()) && Shrinks(old(strt), strt)
    {
      hide SweepingStrings, Sweeps, Shrinks;
      BucketIn(State(), b, 0);
      ShrinksRefl(strt);
      SweepsRefl(State());
      ghost var g0 := State();
      var i := 0;
      while i < |strt[b]|
        invariant |strt| == |g0.strt| && b < |strt| && 0 <= i <= |strt[b]|
        invariant SweepingStrings(State(), b, i) && Sweeps(g0, State()) && Shrinks(g0.strt, strt)
        decreases |strt[b]| - i
      {
        ghost var g := State();
        var x := strt[b][i];
        BucketIn(g, b, i);
        if mark[x].color != White(!currentwhite) {
          StringWhitened(g, b, i);
          mark := mark[x := mark[x].(color := White(currentwhite))];
          i := i + 1;
        } else {
          StringGone(g, b, i);
          OneLess(strt, b, i);
          ShrinksTrans(g0.strt, strt, strt[b := strt[b][..i] + strt[b][i + 1..]]);
          strt := strt[b := strt[b][..i] + strt[b][i + 1..]];
          heap := heap - {x};
          mark := mark - {x};
        }
        SweepsTrans(g0, g, State());
      }
    }

    // The step of a collection that sweeps one list of the string table
    method SweepStringStep()
      requires Valid(State()) && gcstate == GCSsweepstring
      modifies this`heap, this`mark, this`strt, this`sweepstrgc, this`gcstate
      ensures Valid(State()) && Sweeps(old(State()), State()) && (gcstate == GCSsweepstring || gcstate == GCSsweep)
      ensures |strt| == |old(strt)| && sweepstrgc == old(sweepstrgc) + 1 && Preserves(old(State()), State())
        && Shrinks(old(strt), strt)
    {
      hide Valid, SweepingStrings, Sweeps, Preserves, Shrinks;
      StringsStart(State());
      StringsBounds(State());
      var b := sweepstrgc;
      SweepBucket(b);
      ghost var g := State();
      sweepstrgc := sweepstrgc + 1;
      if sweepstrgc >= |strt| { gcstate := GCSsweep; }
      StringsStep(g, b, State());
      SweepsTrans(old(State()), g, State()) by { SameHeapSweeps(g, State()); }
      StepSweepPreserves(old(State()), State());
    }

    // ---- the sweep of the root list ------------------------------------------------------------------

    // One turn of sweepwholelist for the open upvalues of a thread
    method SweepOpenAt(th: Id, i: nat) returns (next: nat)
      requires InSweep(State()) && OpenSwept(State(), th, i) && th in heap && heap[th].Thread? && i < |heap[th].open|
      modifies this`heap, this`mark, this`uvhead
      ensures InSweep(State()) && Sweeps(old(State()), State()) && SweepWork(State()) <= old(SweepWork(State()))
      ensures OpenSwept(State(), th, next) && th in heap && heap[th].Thread? && next <= |heap[th].open|
      ensures |heap[th].open| - next == |old(heap)[th].open| - i - 1
      ensures th in mark && th in old(mark) && mark[th] == old(mark)[th] && rootgc == old(rootgc) && udata == old(udata)
    {
      hide InSweep, OpenSwept, Sweeps, OpenLists, NoDup, Upvalues, Common, Unlink;
      ghost var g := State();
      var l := heap[th].open;
      var u := l[i];
      SweepHas(g);
      OpenExists(g, th, i);
      if mark[u].color != White(!currentwhite) {
        OpenWhitened(g, th, i);
        mark := mark[u := mark[u].(color := White(currentwhite))];
        next := i + 1;
      } else {
        OpenGone(g, th, i);
        UpvalFreedWork(g, th, i);
        heap := heap[th := heap[th].(open := l[..i] + l[i + 1..])] - {u};
        mark := mark - {u};
        uvhead := Unlink(uvhead, u);
        assert State() == UpvalFreed(g, th, i);
        next := i;
      }
      OpenBounds(State(), th, next);
    }

    // sweepwholelist for the open upvalues of a thread
    method SweepOpen(th: Id)
      requires InSweep(State()) && th in heap && heap[th].Thread?
      modifies this`heap, this`mark, this`uvhead
      ensures InSweep(State()) && Sweeps(old(State()), State()) && SweepWork(State()) <= old(SweepWork(State()))
      ensures th in heap && heap[th].Thread? && OpenSwept(State(), th, |heap[th].open|)
      ensures th in mark && th in old(mark) && mark[th] == old(mark)[th]
    {
      hide InSweep, OpenSwept, Sweeps, OpenLists, NoDup, Upvalues, Common;
      ghost var g0 := State();
      SweepHas(g0);
      OpenStart(g0, th);
      SweepsRefl(g0);
      var i := 0;
      while i < |heap[th].open|
        invariant th in heap && heap[th].Thread? && 0 <= i <= |heap[th].open| && th in mark && mark[th] == g0.m[th]
        invariant InSweep(State()) && OpenSwept(State(), th, i) && Sweeps(g0, State())
          && SweepWork(State()) <= SweepWork(g0)
        decreases |heap[th].open| - i
      {
        ghost var g := State();
        i := SweepOpenAt(th, i);
        SweepsTrans(g0, g, State());
      }
    }

    // luaF_close for the topmost open upvalue, whose value moves into it
    method ShutTop(th: Id)
      requires OpenLists(heap) && th in heap && heap[th].Thread? && heap[th].open != []
      modifies this`heap, this`uvhead, this`rootgc, this`sweepgc
      ensures State() == UpvalShut(old(State()), th)
    {
      var l := heap[th].open;
      var u := l[0];
      UpvalOpen(heap, th, 0);
      var v := StackValue(heap, heap[u].th, heap[u].slot);
      heap := heap[th := heap[th].(open := l[1..])];
      heap := heap[u := UpClosed(v)];
      uvhead := Unlink(uvhead, u);
      rootgc := [u] + rootgc;
      if sweepgc > 0 { sweepgc := sweepgc + 1; }
    }

    // luaE_freethread closes the upvalues that outlive the thread; n is how far they move the root list.
    method CloseAll(th: Id) returns (n: nat)
      requires InSweep(State()) && th in heap && heap[th].Thread? && OpenSwept(State(), th, |heap[th].open|)
      modifies this`heap, this`uvhead, this`rootgc, this`sweepgc
      ensures InSweep(State()) && Sweeps(old(State()), State()) && SweepWork(State()) <= old(SweepWork(State()))
      ensures th in heap && heap[th].Thread? && heap[th].open == []
      ensures |RootList(State())| == n + |old(RootList(State()))| && RootList(State())[n..] == old(RootList(State()))
      ensures sweepgc == if old(sweepgc) == 0 then 0 else old(sweepgc) + n
    {
      hide InSweep, OpenSwept, Sweeps, OpenLists, NoDup, Upvalues, Common, UpvalShut, SweepWork;
      ghost var g0 := State();
      SweepsRefl(g0);
      n := 0;
      while heap[th].open != []
        invariant th in heap && heap[th].Thread? && OpenSwept(State(), th, |heap[th].open|)
        invariant InSweep(State()) && Sweeps(g0, State()) && SweepWork(State()) <= SweepWork(g0)
        invariant |RootList(State())| == n + |RootList(g0)| && RootList(State())[n..] == RootList(g0)
        invariant sweepgc == if g0.sweepgc == 0 then 0 else g0.sweepgc + n
        decreases |heap[th].open|
      {
        ghost var g := State();
        SweepHas(g);
        OpenWhite(g, th);
        ShutInSweep(g, th);
        ShutWork(g, th);
        ShutSwept(g, th);
        ShutTop(th);
        n := n + 1;
        SweepsTrans(g0, g, State());
      }
    }

    // The object at the place of the sweep stays.
    method SweepKeep(curr: Id)
      requires InSweep(State()) && sweepgc < |RootList(State())| && curr == RootList(State())[sweepgc] && curr in mark
      requires !Dead(mark, currentwhite, curr)
      requires curr in heap && heap[curr].Thread? ==> OpenSwept(State(), curr, |heap[curr].open|)
      modifies this`mark, this`sweepgc
      ensures InSweep(State()) && Sweeps(old(State()), State()) && SweepWork(State()) < old(SweepWork(State()))
      ensures curr in mark && mark[curr].color == White(currentwhite)
    {
      hide InSweep, OpenSwept, Sweeps;
      ghost var g := State();
      KeptInSweep(g);
      mark := mark[curr := mark[curr].(color := White(currentwhite))];
      sweepgc := sweepgc + 1;
      assert State() == g.(m := MadeWhite(g.m, curr, g.cw), sweepgc := g.sweepgc + 1);
    }

    // freeobj for the n-th object of the root list
    method SweepFree(curr: Id, n: nat)
      requires InSweep(State()) && n < |RootList(State())| && sweepgc <= n && curr == RootList(State())[n]
      requires Dead(mark, currentwhite, curr) && NoUpvals(heap, curr)
      modifies this`heap, this`mark, this`rootgc, this`udata
      ensures InSweep(State()) && Sweeps(old(State()), State()) && SweepWork(State()) < old(SweepWork(State()))
      ensures curr !in heap
    {
      hide InSweep, Sweeps, NoUpvals, Dead;
      ghost var g := State();
      FreedInSweep(g, n);
      if n < |rootgc| { rootgc := rootgc[..n] + rootgc[n + 1..]; }
      else { udata := udata[..n - |rootgc|] + udata[n - |rootgc| + 1..]; }
      heap := heap - {curr};
      mark := mark - {curr};
      assert State() == RootFreed(g, n);
    }

    // freeobj for the object at the place of the sweep; a thread closes its upvalues first.
    method SweepDead(curr: Id)
      requires InSweep(State()) && sweepgc < |RootList(State())| && curr == RootList(State())[sweepgc] && curr in heap
      requires Dead(mark, currentwhite, curr) && (heap[curr].Thread? ==> OpenSwept(State(), curr, |heap[curr].open|))
      modifies this`heap, this`mark, this`uvhead, this`rootgc, this`udata, this`sweepgc
      ensures InSweep(State()) && Sweeps(old(State()), State()) && SweepWork(State()) < old(SweepWork(State()))
      ensures curr !in heap
    {
      hide InSweep, OpenSwept, Sweeps, OpenLists, NoDup, Upvalues, Common, NoUpvals, SweepWork;
      ghost var g1 := State();
      SweepHas(g1);
      SweepsRefl(g1);
      var n := sweepgc;
      if heap[curr].Thread? {
        var c := CloseAll(curr);
        n := n + c;
      }
      ghost var g2 := State();
      SweepHas(g2);
      NoUpvalsIs(heap, curr);
      SweepFree(curr, n);
      SweepsTrans(g1, g2, State());
    }

    // One turn of sweeplist on the root list
    method SweepOne()
      requires InSweep(State()) && sweepgc < |RootList(State())|
      modifies this`heap, this`mark, this`uvhead, this`rootgc, this`udata, this`sweepgc
      ensures InSweep(State()) && Sweeps(old(State()), State()) && SweepWork(State()) < old(SweepWork(State()))
      ensures var x := old(RootList(State()))[old(sweepgc)];
              if Dead(old(mark), currentwhite, x) then x !in heap
              else x in heap && x in mark && mark[x].color == White(currentwhite)
    {
      hide InSweep, OpenSwept, Sweeps, OpenLists, NoDup, Upvalues, Common, NoUpvals, SweepWork;
      ghost var g0 := State();
      SweepHas(g0);
      var curr := if sweepgc < |rootgc| then rootgc[sweepgc] else udata[sweepgc - |rootgc|];
      assert curr == RootList(g0)[sweepgc];
      SweepsRefl(g0);
      if heap[curr].Thread? { SweepOpen(curr); }
      ghost var g1 := State();
      SweepHas(g1);
      if mark[curr].color != White(!currentwhite) {
        SweepKeep(curr);
        SweepsTrans(g0, g1, State());
      } else {
        SweepDead(curr);
        SweepsTrans(g0, g1, State());
      }
    }

    // ---- the steps of a collection -------------------------------------------------------------------

    // The step that sweeps a part of the root list: 40 objects, or as many as are left
    method SweepStep() returns (count: nat)
      requires InSweep(State())
      modifies this`heap, this`mark, this`uvhead, this`rootgc, this`udata, this`sweepgc, this`gcstate
      ensures count <= 40 && (gcstate == GCSsweep ==> count == 40)
      ensures Valid(State()) && Sweeps(old(State()), State()) && Preserves(old(State()), State())
      ensures if gcstate == GCSsweep
        then SweepWork(State()) < old(SweepWork(State())) else gcstate == GCSfinalize && heap.Keys <= K
    {
      hide Valid, InSweep, Sweeps, Preserves;
      ghost var g0 := State();
      SweepsRefl(g0);
      InSweepValid(g0);
      count := 0;
      while count < GCSWEEPMAX && sweepgc < |rootgc| + |udata|
        invariant InSweep(State()) && Sweeps(g0, State()) && gcstate == GCSsweep && count <= GCSWEEPMAX
        invariant if count == 0 then State() == g0 else SweepWork(State()) < SweepWork(g0)
        decreases GCSWEEPMAX - count
      {
        ghost var g := State();
        SweepOne();
        SweepsTrans(g0, g, State());
        count := count + 1;
      }
      InSweepValid(State());
      if sweepgc >= |rootgc| + |udata| {
        ghost var g := State();
        SweepDone(g);
        gcstate := GCSfinalize;
        SweepsTrans(g0, g, State()) by { SameHeapSweeps(g, State()); }
      }
      StepSweepPreserves(g0, State());
    }

    // GCTM, up to the call of the finalizer: it is on the stack of the running thread, with its argument.
    method CallFinalizer()
      requires Valid(State()) && gcstate == GCSfinalize && tmudata != []
      modifies this`heap, this`mark, this`udata, this`tmudata
      ensures Valid(State()) && tmudata == old(tmudata)[1..] && udata == [old(tmudata)[0]] + old(udata)
      ensures var u := old(tmudata)[0];
              && u in heap && u in mark && heap[u].Udata? && mark[u].finalized && mark[u].color == White(currentwhite)
              && running in old(heap) && old(heap)[running].Thread?
      ensures heap == FinalizerHeap(old(State())) && Preserves(old(State()), State())
    {
      hide Valid, Common, Usable, Writable, Preserves;
      ghost var g := State();
      RestoredValid(g);
      var u := tmudata[0];
      tmudata := tmudata[1..];
      udata := [u] + udata;
      mark := mark[u := mark[u].(color := White(currentwhite))];
      ghost var g1 := State();
      assert g1 == Restored(g);
      RunUsable(g1);
      UsableIs(g1, u);
      if WantsGC(heap, heap[u].mt) {
        var f := Finalizer(heap, heap[u].mt);
        FinalizerUsable(g1, u);
        PushedWritable(g1, running, [f, Ref(u)]);
        StackWritten(g1, running, heap[running].(stack := heap[running].stack + [f, Ref(u)]));
        heap := heap[running := heap[running].(stack := heap[running].stack + [f, Ref(u)])];
      }
      StepFinalizePreserves(g, State());
    }

    // The step that calls a finalizer, or ends the cycle
    method FinalizeStep()
      requires Valid(State()) && gcstate == GCSfinalize
      modifies this`heap, this`mark, this`udata, this`tmudata, this`gcstate
      ensures Valid(State()) && heap == FinalizerHeap(old(State())) && heap.Keys == old(heap).Keys
      ensures if old(tmudata) == [] then gcstate == GCSpause && heap == old(heap) && tmudata == []
              else gcstate == GCSfinalize && tmudata == old(tmudata)[1..]
      ensures Preserves(old(State()), State())
    {
      hide Valid, Preserves, CleanedHeap, FinalizerHeap;
      ghost var g := State();
      FinalizerKeys(g);
      if tmudata != [] {
        CallFinalizer();
      } else {
        PauseValid(g);
        gcstate := GCSpause;
        CleanedHeapRefl(heap);
        MarkPreserves(g, State());
        NoFinalizer(g);
      }
    }

    // The step that traverses a gray object, or ends the mark phase
    method PropagatePhase(ghost b: set<Id>)
      requires Valid(State()) && gcstate == GCSpropagate && Bounds(State(), b)
      modifies this`heap, this`mark, this`gray, this`grayagain, this`weak, this`udata, this`tmudata,
        this`currentwhite, this`sweepgc, this`sweepstrgc, this`gcstate
      ensures Valid(State()) && heap.Keys == old(heap).Keys && StepKeeps(old(State()), State())
      ensures Preserves(old(State()), State())
      ensures if old(gray) != [] then gcstate == GCSpropagate && Work(mark, gray) < old(Work(mark, gray))
              else gcstate == GCSsweepstring
      ensures Sparing(State(), b)
    {
      hide Valid, Preserves, CleanedHeap, Collected, Traverses, Settled, Onward, Work, Bounds, Spared, Settles;
      ghost var g := State();
      if gray != [] {
        PropagateStep(b);
        TraversesCleans(g, State());
        CleanedKeys(g.h, heap);
      } else {
        ghost var s := Atomic(b);
        CollectedKeys(g, State());
        ValidKeys(State());
        SettlesIs(g, s, State());
        FlippedSparing(State(), b);
      }
    }

    /** One step of the collector.  It frees dead objects only, keeps what a program can use as it is, and brings the
        cycle to its end. */
    method SingleStep(ghost b: set<Id> := {})
      requires Valid(State())
      modifies this`heap, this`mark, this`gray, this`grayagain, this`weak, this`rootgc, this`udata,
        this`tmudata, this`uvhead, this`strt, this`currentwhite, this`sweepgc, this`sweepstrgc, this`gcstate,
        this`K
      ensures Valid(State()) && heap.Keys <= old(heap).Keys
      ensures forall x :: x in old(heap) && x !in heap ==> Dead(old(mark), old(currentwhite), x)
      ensures StepKeeps(old(State()), State()) && Preserves(old(State()), State())
      ensures old(gcstate) == GCSpause ==> gcstate == GCSpropagate && K == CycleStart(old(State()))
      ensures old(gcstate) != GCSpause ==> K == old(K) && Nearer(old(State()), State())
      ensures old(gcstate) == GCSsweep && gcstate != GCSsweep ==> heap.Keys <= K
      ensures old(gcstate) != GCSsweep && old(gcstate) != GCSfinalize ==> gcstate != GCSfinalize && gcstate != GCSpause
      ensures old(gcstate) == GCSsweep ==> gcstate == GCSsweep || gcstate == GCSfinalize
      ensures old(gcstate) != GCSpause && Sparing(old(State()), b) ==> Sparing(State(), b)
      ensures Unique(old(strt), contents, hash) ==> Unique(strt, contents, hash)
    {
      hide Valid, Sweeps, CycleStart, Common, WantsGC, Preserves, CleanedHeap, Collected, FinalizerHeap, Traverses,
        Settles, Settled, Onward, Work, Sparing, Bounds, MarkClosed, Starts, Shrinks, Unique;
      ghost var g := State();
      ValidKeys(g);
      match gcstate {
        case GCSpause =>
          AllReady(g);
          MarkRoots(heap.Keys);
        case GCSpropagate =>
          AllReady(g);
          PropagateIsSparing(g, b);
          PropagatePhase(if Sparing(g, b) then b else heap.Keys);
        case GCSsweepstring =>
          SweepStringStep();
          StillUnique(g.strt, strt, contents, hash);
          SweepsKeys(g, State());
          if Sparing(g, b) { SweepSparing(g, State(), b); }
        case GCSsweep =>
          InSweepIs(g);
          var _ := SweepStep();
          SweepsKeys(g, State());
          if Sparing(g, b) { SweepSparing(g, State(), b); }
        case GCSfinalize =>
          FinalizeStep();
          FinalizeSparing(g, State(), b);
      }
    }

    // luaC_fullgc: a cycle that has not come to its sweep is dropped.
    method DropCycle()
      requires Valid(State()) && (gcstate == GCSpause || gcstate == GCSpropagate)
      modifies this`gray, this`grayagain, this`weak, this`sweepgc, this`sweepstrgc, this`gcstate, this`K
      ensures Valid(State()) && gcstate == GCSsweepstring
      ensures Preserves(old(State()), State())
    {
      hide Valid, Preserves;
      DroppedPreserves(State());
      sweepstrgc, sweepgc := 0, 0;
      gray, grayagain, weak := [], [], [];
      gcstate := GCSsweepstring;
      K := heap.Keys;
    }

    // luaC_fullgc, up to the new cycle
    method FinishSweep()
      requires Valid(State())
      modifies this`heap, this`mark, this`gray, this`grayagain, this`weak, this`rootgc, this`udata,
        this`tmudata, this`uvhead, this`strt, this`currentwhite, this`sweepgc, this`sweepstrgc, this`gcstate,
        this`K
      ensures Valid(State()) && gcstate == GCSfinalize && Sweeps(old(State()), State())
      ensures Preserves(old(State()), State())
      ensures Unique(old(strt), contents, hash) ==> Unique(strt, contents, hash)
    {
      hide Valid, Sweeps, CycleStart, Nearer, Work, Left, Preserves, Unique;
      ghost var g0 := State();
      PreservesRefl(g0);
      if gcstate == GCSpause || gcstate == GCSpropagate { DropCycle(); }
      SameHeapSweeps(g0, State());
      while gcstate != GCSfinalize
        invariant Valid(State()) && Sweeps(g0, State()) && Preserves(g0, State())
          && (gcstate == GCSsweepstring || gcstate == GCSsweep || gcstate == GCSfinalize)
        invariant Unique(g0.strt, contents, hash) ==> Unique(strt, contents, hash)
        decreases Rank(gcstate), Left(State())
      {
        ghost var g := State();
        LeftBound(g);
        SingleStep();
        SweepsTrans(g0, g, State());
        StepsPreserve(g0, g, State());
        NearerIs(g, State());
      }
    }

    /** luaC_fullgc.  `start` is the state when marking began: what is left was found from there, and is needed, or a
        string.  What the program can use is kept, as it is. */
    method FullGC() returns (ghost start: Snap)
      requires Valid(State())
      modifies this`heap, this`mark, this`gray, this`grayagain, this`weak, this`rootgc, this`udata,
        this`tmudata, this`uvhead, this`strt, this`currentwhite, this`sweepgc, this`sweepstrgc, this`gcstate,
        this`K
      ensures Valid(State()) && gcstate == GCSpause
      ensures Valid(start) && Sweeps(old(State()), start) && heap.Keys <= CycleStart(start)
      ensures forall x :: x in heap ==> x in Needed(start) || heap[x].Str?
      ensures OnlyEnclosed(start, heap) && Leaves(start, heap, heap.Keys, mark)
      ensures Preserves(old(State()), State())
      ensures Unique(old(strt), contents, hash) ==> Unique(strt, contents, hash)
    {
      hide Valid, Sweeps, CycleStart, Nearer, Preserves, StepKeeps, Sparing, Bounds, MarkClosed, Starts, Needed,
        Unique, OnlyEnclosed, Leaves, Cycle, Traverses;
      ghost var g0 := State();
      FinishSweep();
      start := State();
      ghost var b := Needed(start);
      NeededReady(start);
      MarkRoots(b);
      PropagateIsSparing(State(), b);
      StepsPreserve(g0, start, State());
      CycleBegins(start, State());
      while gcstate != GCSpause
        invariant Cycle(start, State())
        invariant Valid(State()) && K == CycleStart(start) && Preserves(g0, State()) && Sparing(State(), b)
        invariant Unique(g0.strt, contents, hash) ==> Unique(strt, contents, hash)
        invariant gcstate == GCSfinalize || gcstate == GCSpause ==> heap.Keys <= K
        decreases Rank(gcstate), Left(State())
      {
        ghost var g := State();
        LeftBound(g);
        SingleStep(b);
        StepsPreserve(g0, g, State());
        NearerIs(g, State());
        CycleStep(start, g, State());
      }
      AllSpared(State(), b);
      OnlyNeededIs(start, heap);
      CycleEnds(start, State());
    }

    // ---- the program's writes ------------------------------------------------------------------------

    // luaC_barrierf
    method BarrierF(o: Id, v: Id)
      requires o in mark && mark[o].color.Black? && v in mark && mark[v].color.White?
      requires gcstate == GCSpropagate ==> Graph(K) && v in K
      modifies this`mark, this`gray
      ensures if gcstate == GCSpropagate then Marked(heap, old(mark), old(gray), mark, gray, K) && Nonwhite(mark, v)
              else mark == MadeWhite(old(mark), o, currentwhite) && gray == old(gray)
    {
      if gcstate == GCSpropagate {
        ReallyMark(v, K);
      } else {
        mark := mark[o := mark[o].(color := White(currentwhite))];
      }
    }

    /** A store into a closure, an upvalue, a userdata or a prototype, with luaC_barrier: v is what it adds. */
    method WriteObject(o: Id, t: Obj, v: Value)
      requires Valid(State()) && Writable(State(), o, t) && Forward(t) && AddsOnly(State(), o, t, v)
      modifies this`heap, this`mark, this`gray
      ensures Valid(State()) && heap == old(heap)[o := t]
    {
      hide Valid, Common, Writable, AddsOnly, Forward, Marked, Complete, Closed;
      ghost var g := State();
      ValidKeys(g);
      WritableKey(g, o, t);
      AddsUsable(g, o, t, v);
      if mark[o].color.Black? && v.Ref? && mark[v.id].color.White? {
        if gcstate == GCSpropagate { ForwardReady(g, o, t, v.id); } else { ForwardWhitened(g, o, t); }
        heap := heap[o := t];
        if gcstate == GCSpropagate { RefsClosed(heap, K); }
        BarrierF(o, v.id);
        if gcstate == GCSpropagate { ForwardMarked(g, o, t, v.id, State()); }
      } else {
        ForwardPlain(g, o, t, v);
        heap := heap[o := t];
      }
    }

    // luaC_barrierback
    method BarrierBack(o: Id)
      requires o in mark && mark[o].color.Black?
      modifies this`mark, this`grayagain
      ensures State() == Grayed(old(State()), o)
    {
      mark := mark[o := mark[o].(color := Gray)];
      grayagain := [o] + grayagain;
    }

    /** A store into a table, with luaC_barriert: v is what it adds. */
    method WriteTable(o: Id, t: Obj, v: Value)
      requires Valid(State()) && Writable(State(), o, t) && t.Tab? && AddsOnly(State(), o, t, v)
      modifies this`heap, this`mark, this`grayagain
      ensures Valid(State()) && heap == old(heap)[o := t]
    {
      hide Valid, Common, Writable, AddsOnly;
      ghost var g := State();
      ValidKeys(g);
      WritableKey(g, o, t);
      AddsUsable(g, o, t, v);
      TableWritten(g, o, t, v);
      heap := heap[o := t];
      if mark[o].color.Black? && v.Ref? && mark[v.id].color.White? { BarrierBack(o); }
    }

    /** Stores into a stack have no barrier. */
    method WriteStack(th: Id, gt: Value, stack: seq<Value>)
      requires th in heap && heap[th].Thread? && Valid(State())
        && Writable(State(), th, heap[th].(gt := gt, stack := stack))
      modifies this`heap
      ensures Valid(State()) && heap == old(heap)[th := old(heap)[th].(gt := gt, stack := stack)]
    {
      hide Valid, Writable;
      StackWritten(State(), th, heap[th].(gt := gt, stack := stack));
      heap := heap[th := heap[th].(gt := gt, stack := stack)];
    }

    /** OP_SETUPVAL: the value is stored where the upvalue has it, for an open one in the stack of its thread,
        which the program need not be able to reach otherwise. */
    method WriteUpval(u: Id, v: Value)
      requires Valid(State()) && Usable(State(), u) && (heap[u].UpOpen? || heap[u].UpClosed?)
        && (v.Ref? ==> Usable(State(), v.id))
      modifies this`heap, this`mark, this`gray
      ensures Valid(State()) && u in heap && (heap[u].UpOpen? || heap[u].UpClosed?) && UpvalValue(heap, u) == v
      ensures var h := old(heap);
              if h[u].UpOpen? then
                && h[u].th in h && h[h[u].th].Thread? && h[u].slot < |h[h[u].th].stack|
                && heap == h[h[u].th := SlotStored(h, h[u].th, h[u].slot, v)]
              else
                heap == h[u := UpClosed(v)]
    {
      hide Valid, Usable, Common;
      ghost var g := State();
      UsableIs(g, u);
      if heap[u].UpOpen? {
        UpvalWritten(g, u, v);
        var th := heap[u].th;
        heap := heap[th := heap[th].(stack := heap[th].stack[heap[u].slot := v])];
      } else {
        ClosedWritable(g, u, v);
        WriteObject(u, UpClosed(v), v);
      }
    }

    /** Roots are changed without a barrier: the running thread, and the metatables of the basic types. */
    method ChangeRoots(run: Id, metatables: map<nat, Id>)
      requires Valid(State()) && Usable(State(), run) && heap[run].Thread?
      requires forall i :: i in metatables ==>
          i < 9 && (Usable(State(), metatables[i]) || (i in mt && metatables[i] == mt[i]))
      modifies this`running, this`mt
      ensures Valid(State()) && running == run && mt == metatables
    {
      hide Valid, Usable;
      RootsChanged(State(), run, metatables);
      running, mt := run, metatables;
    }

    // ---- new objects ---------------------------------------------------------------------------------

    /** luaC_link */
    method Link(x: Id, o: Obj)
      requires Valid(State()) && CanBeNew(State(), x, o) && !o.Str? && !o.UpOpen? && !o.Udata?
        && (o.Thread? ==> o.open == [])
      modifies this`heap, this`mark, this`rootgc, this`sweepgc, this`K
      ensures Valid(State()) && Usable(State(), x) && heap == old(heap)[x := o] && rootgc == [x] + old(rootgc)
    {
      hide Valid, Usable, CanBeNew;
      LinkedValid(State(), x, o);
      heap := heap[x := o];
      mark := mark[x := Mark(White(currentwhite), false, false, false)];
      rootgc := [x] + rootgc;
      if sweepgc > 0 { sweepgc := sweepgc + 1; }
      K := K + {x};
    }

    /** luaS_newlstr: the string with these contents, which may be dead, or a new one if there is none. */
    method InternString(s: string, x: Id) returns (r: Id)
      requires Valid(State()) && Unique(strt, contents, hash) && x !in heap
      modifies this`heap, this`mark, this`strt, this`contents, this`K
      ensures Valid(State()) && Unique(strt, contents, hash) && Usable(State(), r) && heap[r].Str?
      ensures r in contents && contents[r] == s && strt != [] && r in strt[hash(s) % |strt|]
      ensures r == x || (r in old(heap) && heap == old(heap) && strt == old(strt) && contents == old(contents))
      ensures r == x ==>
          && heap == old(heap)[x := Str] && contents == old(contents)[x := s]
          && forall y :: y in old(heap) && old(heap)[y].Str? ==> y in old(contents) && old(contents)[y] != s
    {
      hide Valid, Usable, Unique;
      TableReady(State());
      UniqueHere(strt, contents, hash);
      var b := Bucket(strt, hash, s);
      for i := 0 to |strt[b]|
        invariant forall j :: 0 <= j < i ==> strt[b][j] in contents && contents[strt[b][j]] != s
      {
        var y := strt[b][i];
        assert y in strt[b];
        if contents[y] == s {
          UseString(y);
          UsableIs(State(), y);
          return y;
        }
      }
      NotThere(State(), contents, hash, s);
      AddedUnique(strt, contents, hash, s, x);
      NewString(b, x);
      contents := contents[x := s];
      return x;
    }

    /** newlstr: a string for the list b of the string table */
    method NewString(b: nat, x: Id)
      requires Valid(State()) && x !in heap && b < |strt|
      modifies this`heap, this`mark, this`strt, this`K
      ensures Valid(State()) && Usable(State(), x) && heap == old(heap)[x := Str]
        && strt == old(strt)[b := [x] + old(strt)[b]]
    {
      hide Valid, Usable;
      InternedValid(State(), b, x);
      heap := heap[x := Str];
      mark := mark[x := Mark(White(currentwhite), false, false, false)];
      strt := strt[b := [x] + strt[b]];
      K := K + {x};
    }

    /** luaS_newlstr for a string of the table: it may be dead. */
    method UseString(x: Id)
      requires Valid(State()) && x in heap && heap[x].Str?
      modifies this`mark, this`K
      ensures Valid(State()) && Usable(State(), x)
    {
      hide Valid, Usable, Refers;
      ValidKeys(State());
      StringRefs(State(), x);
      if mark[x].color == White(!currentwhite) {
        Resurrect(x);
      } else {
        FoundValid(State(), x);
        K := K + {x};
      }
    }

    // changewhite
    method Resurrect(x: Id)
      requires Valid(State()) && x in heap && Dead(mark, currentwhite, x)
        && forall r :: Refers(heap, heap[x], r) ==> Usable(State(), r)
      modifies this`mark, this`K
      ensures Valid(State()) && Usable(State(), x) && State() == Resurrected(old(State()), x)
    {
      hide Valid, Usable, Refers;
      ResurrectedValid(State(), x);
      mark := mark[x := mark[x].(color := White(currentwhite))];
      K := K + {x};
    }

    /** luaS_newudata */
    method NewUdata(x: Id, metatable: Option<Id>, env: Id)
      requires Valid(State()) && CanBeNew(State(), x, Udata(metatable, env))
      modifies this`heap, this`mark, this`udata, this`sweepgc, this`K
      ensures Valid(State()) && Usable(State(), x) && heap == old(heap)[x := Udata(metatable, env)]
        && udata == [x] + old(udata)
      ensures x in mark && !mark[x].finalized
    {
      hide Valid, Usable, CanBeNew;
      AttachedValid(State(), x, Udata(metatable, env));
      heap := heap[x := Udata(metatable, env)];
      mark := mark[x := Mark(White(currentwhite), false, false, false)];
      udata := [x] + udata;
      if sweepgc > |rootgc| { sweepgc := sweepgc + 1; }
      K := K + {x};
    }

    // ---- upvalues ------------------------------------------------------------------------------------

    // luaF_findupval, the search
    method FindOpen(th: Id, slot: nat) returns (found: bool, i: nat)
      requires Valid(State()) && th in heap && heap[th].Thread? && slot < |heap[th].stack|
      ensures found ==>
          i < |heap[th].open| && heap[th].open[i] in heap && heap[heap[th].open[i]] == UpOpen(th, slot)
          && SlotOpen(heap, th, slot)
      ensures !found ==> OpensAt(heap, th, i, slot) && i <= |heap[th].open| && !SlotOpen(heap, th, slot)
    {
      hide Valid, OpenList;
      ghost var g := State();
      ValidKeys(g);
      var l := heap[th].open;
      OpenFits(g, th);
      i := 0;
      while i < |l| && heap[l[i]].slot >= slot
        invariant 0 <= i <= |l| && forall j :: 0 <= j < i ==> heap[l[j]].slot > slot
        decreases |l| - i
      {
        assert l[i] in l;
        if heap[l[i]].slot == slot { return true, i; }
        i := i + 1;
      }
      assert forall j :: 0 <= j < |l| ==> l[j] in l;
      NotOpen(g, th, i, slot);
      found := false;
    }

    /** luaF_findupval: closures over the same stack slot share its upvalue. */
    method FindUpval(th: Id, slot: nat, x: Id) returns (u: Id)
      requires Valid(State()) && Usable(State(), th) && heap[th].Thread? && slot < |heap[th].stack| && x !in heap
      modifies this`heap, this`mark, this`uvhead, this`K
      ensures Valid(State()) && Usable(State(), u) && heap[u] == UpOpen(th, slot) && th in heap && heap[th].Thread?
        && u in heap[th].open
      ensures if SlotOpen(old(heap), th, slot) then heap == old(heap) else u == x && heap.Keys == old(heap).Keys + {x}
      ensures forall y :: y in old(heap) && y != th ==> y in heap && heap[y] == old(heap)[y]
      ensures heap[th].stack == old(heap)[th].stack && heap[th].gt == old(heap)[th].gt
    {
      hide Valid, Usable, Refers;
      ghost var g := State();
      ValidKeys(g);
      UsableIs(g, th);
      var l := heap[th].open;
      OpenFits(g, th);
      var found, i := FindOpen(th, slot);
      if found {
        u := l[i];
        OpenRefs(g, th, u);
        if mark[u].color == White(!currentwhite) {
          Resurrect(u);
        } else {
          FoundValid(g, u);
          K := K + {u};
        }
        return;
      }
      u := x;
      MakeUpval(th, slot, i, x);
    }

    // luaF_findupval: a new upvalue becomes the i-th of the thread.
    method MakeUpval(th: Id, slot: nat, i: nat, x: Id)
      requires Valid(State()) && Usable(State(), th) && OpensAt(heap, th, i, slot) && x !in heap
      requires th in heap && heap[th].Thread? && i <= |heap[th].open| && slot < |heap[th].stack|
      modifies this`heap, this`mark, this`uvhead, this`K
      ensures Valid(State()) && Usable(State(), x) && heap.Keys == old(heap).Keys + {x} && heap[x] == UpOpen(th, slot)
        && x != th
      ensures heap[th] == old(heap)[th].(open := old(heap)[th].open[..i] + [x] + old(heap)[th].open[i..])
        && x in heap[th].open
      ensures forall y :: y in old(heap) && y != th ==> y in heap && heap[y] == old(heap)[y]
    {
      hide Valid, Usable, Refers, OpensAt;
      ghost var g := State();
      ValidKeys(g);
      var l := heap[th].open;
      OpenedValid(g, th, i, slot, x);
      OpenedIs(g, th, i, slot, x);
      heap := heap[th := heap[th].(open := l[..i] + [x] + l[i..])];
      heap := heap[x := UpOpen(th, slot)];
      mark := mark[x := Mark(White(currentwhite), false, false, false)];
      uvhead := [x] + uvhead;
      K := K + {x};
      assert State() == Opened(g, th, i, slot, x);
      InsertedAt(l, i, x);
    }

    // luaF_close for one upvalue, the topmost: a dead one is freed, another is closed and linked into the root
    // list (luaC_linkupval).
    method CloseTop(th: Id)
      requires Valid(State()) && th in heap && heap[th].Thread? && heap[th].open != []
      modifies this`heap, this`mark, this`gray, this`uvhead, this`rootgc, this`sweepgc
      ensures Valid(State()) && ValuesKept(old(State()), State())
      ensures th in heap && heap[th] == old(heap)[th].(open := old(heap)[th].open[1..])
        && SameObjects(old(heap), heap, heap[th].open)
      ensures var u := old(heap)[th].open[0];
              Shut(old(State()), State(), u) && OthersStay(old(State()), State(), th, u)
    {
      hide Valid, Common, UpvalShut, UpvalFreed, ValuesKept, MadeWhite, OpenLists, Shut, OthersStay;
      ghost var g := State();
      ValidKeys(g);
      TopTop(g, th);
      TopApart(heap, th);
      var u := heap[th].open[0];
      if mark[u].color == White(!currentwhite) {
        FreeTop(th, u);
      } else {
        ShutSame(g, th);
        ShutTop(th);
        if mark[u].color.Gray? {
          GrayOpen(g, th);
          LinkGray(th, u, g);
        } else {
          WhiteShut(g, th);
        }
        ShutKept(g, th, State());
        ShutOthers(g, th, mark);
        ShutsAlike(g, UpvalShut(g, th).(m := mark), State(), th, u);
      }
    }

    // luaF_close for a dead upvalue
    method FreeTop(th: Id, u: Id)
      requires Valid(State()) && th in heap && heap[th].Thread? && heap[th].open != [] && u == heap[th].open[0]
      requires Dead(mark, currentwhite, u) && u != th && u !in heap[th].open[1..] && OpenLists(heap)
      modifies this`heap, this`mark, this`uvhead
      ensures Valid(State()) && ValuesKept(old(State()), State())
      ensures heap == old(heap)[th := old(heap)[th].(open := old(heap)[th].open[1..])] - {u}
      ensures Shut(old(State()), State(), u) && OthersStay(old(State()), State(), th, u)
    {
      hide Valid, UpvalFreed, ValuesKept, OpenLists;
      ghost var g := State();
      TopFreed(g, th);
      FreedKept(g, th);
      TopGone(g, th);
      heap := heap[th := heap[th].(open := heap[th].open[1..])] - {u};
      mark := mark - {u};
      uvhead := Unlink(uvhead, u);
      assert State() == UpvalFreed(g, th, 0);
    }

    // luaC_barrier for the value of a closed upvalue
    method BarrierClosed(u: Id)
      requires Common(State()) && TracesBut(State(), u) && u in heap && heap[u].UpClosed? && u in K && u in mark
        && mark[u].color.Black?
      modifies this`mark, this`gray
      ensures Valid(State()) && forall x :: !Dead(old(mark), currentwhite, x) ==> !Dead(mark, currentwhite, x)
    {
      hide Valid, Common, TracesBut, Marked, Complete, Closed, Dead;
      ghost var g1 := State();
      BlackReady(g1, u);
      TracesPhase(g1, u);
      var v := heap[u].v;
      MarkedRefl(heap, mark, gray, K);
      if v.Ref? && mark[v.id].color.White? { BarrierF(u, v.id); }
      BlackMarked(g1, u, State());
      StillAlive(heap, g1.m, g1.gray, mark, gray, K, currentwhite);
    }

    // luaC_linkupval for a gray upvalue
    method LinkGray(th: Id, u: Id, ghost g: Snap)
      requires Valid(g) && g.phase != GCSpause && g.phase != GCSfinalize && th in g.h && g.h[th].Thread?
        && g.h[th].open != []
      requires u == g.h[th].open[0] && u in g.m && g.m[u].color.Gray? && State() == UpvalShut(g, th)
      modifies this`mark, this`gray
      ensures Valid(State()) && forall x :: x in g.h && !Dead(g.m, g.cw, x) ==> !Dead(mark, g.cw, x)
      ensures forall x :: x in g.h && Dead(g.m, g.cw, x) ==> Dead(mark, g.cw, x)
    {
      hide Valid, Common, UpvalShut, MadeWhite, Marked, TracesBut, Complete, Closed;
      TopTop(g, th);
      ShutSame(g, th);
      if gcstate == GCSpropagate {
        NoneDead(g);
        GrayShut(g, th);
        GrayCovered(g, u);
        BlackenedMarks(State(), u);
        mark := mark[u := mark[u].(color := Black)];
        assert State() == Blackened(UpvalShut(g, th), u);
        BarrierClosed(u);
      } else {
        WhitenValid(g, u);
        ghost var w := g.(m := MadeWhite(g.m, u, g.cw));
        WhitenedIs(g, u);
        WhiteShut(w, th);
        ShutWhitened(g, th, w.m);
        mark := mark[u := mark[u].(color := White(currentwhite))];
      }
    }

    /** luaF_close: the open upvalues at `level` and above are closed, or freed if they are dead, and every closure
        reads what it read. */
    method CloseUpvals(th: Id, level: nat)
      requires Valid(State()) && th in heap && heap[th].Thread?
      modifies this`heap, this`mark, this`gray, this`uvhead, this`rootgc, this`sweepgc
      ensures Valid(State()) && ValuesKept(old(State()), State())
      ensures ClosedAbove(old(State()), State(), th, level)
    {
      hide Valid, ValuesKept, OpenList, Dead, SameObjects, AllShut, Shut, OthersStay;
      ghost var g0 := State();
      NoneShut(g0, heap[th].open);
      OpenFits(g0, th);
      KeptRefl(g0);
      AllSame(g0, th);
      ghost var l, n := heap[th].open, 0;
      while heap[th].open != [] && OpenSlot(th) >= level
        invariant th in heap && heap[th].Thread? && Valid(State()) && ValuesKept(g0, State())
        invariant 0 <= n <= |l| && heap[th] == g0.h[th].(open := l[n..])
        invariant forall j :: 0 <= j < n ==> g0.h[l[j]].slot >= level
        invariant SameObjects(g0.h, heap, l[n..]) && AllShut(g0, State(), l, n)
        decreases |l| - n
      {
        ghost var g := State();
        SameHead(g0.h, heap, l, n);
        CloseTop(th);
        KeptTrans(g0, g, State());
        TopShut(g0, g, State(), th, l, n);
        SameAgain(g0.h, g.h, heap, l, n);
        n := n + 1;
      }
      if n < |l| { SameHead(g0.h, heap, l, n); }
      ClosedAll(g0, heap, th, n, level);
      ShutAre(g0, State(), l, n);
    }

    // The stack slot of the topmost open upvalue
    function OpenSlot(th: Id): nat
      requires th in heap && heap[th].Thread? && heap[th].open != []
      reads this
    {
      var u := heap[th].open[0];
      if u in heap && heap[u].UpOpen? then heap[u].slot else 0
    }
  }
}

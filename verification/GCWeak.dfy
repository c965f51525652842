/** What a full collection leaves */
module GCWeak {
  // Which objects and which entries of weak tables go, from the fields of the objects.  The mode of a table is read off
  // its metatable here, and nothing is said in terms of the traversal: the least set of objects that is closed under
  // the references that are not weak decides what has to go and what has to stay.

  import opened Basics
  import opened GCHeap
  import opened GCInvariant
  import opened GCAtomic
  import opened GCSweep
  import opened GCThreads
  import opened GCStrong

  // ---- references that are not weak ------------------------------------------------------------------------------

  // The metatable of t has a field __mode with a k.
  predicate KeysWeakIn(h: Heap, t: Obj) {
    t.Tab? && t.mt.Some? && t.mt.value in h && h[t.mt.value].Tab? && h[t.mt.value].modek
  }

  // ... with a v
  predicate ValuesWeakIn(h: Heap, t: Obj) {
    t.Tab? && t.mt.Some? && t.mt.value in h && h[t.mt.value].Tab? && h[t.mt.value].modev
  }

  // A key counts while its entry has a value.
  predicate EntryLeads(n: Node, wk: bool, wv: bool, r: Id) {
    n.val != Nil && ((!wk && n.key == KeyOf(Ref(r))) || (!wv && n.val == Ref(r)))
  }

  /** A reference from x to r that is not weak */
  predicate Leads(h: Heap, x: Id, r: Id) {
    && x in h
    && var t := h[x];
       if t.Tab? then
         || t.mt == Some(r)
         || (!ValuesWeakIn(h, t) && Ref(r) in t.arr)
         || (exists i :: 0 <= i < |t.nodes| && EntryLeads(t.nodes[i], KeysWeakIn(h, t), ValuesWeakIn(h, t), r))
       else Refers(h, t, r)
  }

  // A userdata whose finalizer has not been called, with a value for __gc in its metatable
  predicate Awaits(g: Snap, x: Id) {
    && x in g.h && g.h[x].Udata? && x in g.m && !g.m[x].finalized
    && g.h[x].mt.Some? && g.h[x].mt.value in g.h
    && var t := g.h[g.h[x].mt.value];
       t.Tab? && t.gc.Some? && t.gc.value < |t.nodes| && t.nodes[t.gc.value].val != Nil
  }

  // A set from which references that are not weak do not lead out
  ghost predicate LeadsClosed(h: Heap, c: set<Id>) {
    forall x, r :: x in c && Leads(h, x, r) ==> r in c
  }

  // ... that holds all that a cycle starts from
  ghost predicate Encloses(g: Snap, c: set<Id>) {
    && {g.main, g.reg, g.run} + g.mt.Values <= c && (forall u :: u in g.tmu ==> u in c)
    && (forall x :: Awaits(g, x) ==> x in c) && LeadsClosed(g.h, c)
  }

  /** What is left is in every such set, or is a string. */
  ghost predicate OnlyEnclosed(start: Snap, h: Heap) {
    forall c, x :: Encloses(start, c) && x in h ==> x in c || h[x].Str?
  }

  // A set with the roots of the program; what only waits for its finalizer need not lead into it.
  ghost predicate Rooted(g: Snap, c: set<Id>) {
    && {g.main, g.reg, g.run} + g.mt.Values <= c
    && forall x, r :: x in c && x !in g.tmu && Leads(g.h, x, r) ==> r in c
  }

  /** The program can get at x without weak references. */
  ghost predicate Firm(g: Snap, x: Id) {
    forall c: set<Id> :: Rooted(g, c) ==> x in c
  }

  // ---- what is left ------------------------------------------------------------------------------------------------

  // A part of an entry for which the entry goes: it is not left, or it is a value whose finalizer has its turn.
  predicate Gone(start: Snap, live: set<Id>, m: Marking, v: Value, iskey: bool) {
    && v.Ref? && v.id in start.h && !start.h[v.id].Str?
    && (v.id !in live || (!iskey && start.h[v.id].Udata? && (v.id in m ==> m[v.id].finalized)))
  }

  predicate NodeLeft(start: Snap, live: set<Id>, m: Marking, n: Node, n': Node, weak: bool) {
    || n' == n
    || (n.val == Nil && n' == Node(DeadKey, Nil))
    || (weak && n' == Node(if n.key.KeyOf? && n.key.v.Ref? then DeadKey else n.key, Nil)
        && ((n.key.KeyOf? && Gone(start, live, m, n.key.v, true)) || Gone(start, live, m, n.val, false)))
  }

  predicate SlotLeft(start: Snap, live: set<Id>, m: Marking, v: Value, v': Value, weak: bool) {
    v' == v || (weak && v' == Nil && Gone(start, live, m, v, false))
  }

  /** A table keeps all its entries but those of a weak table that lost a part; empty entries may lose their keys. */
  predicate TableLeft(start: Snap, live: set<Id>, m: Marking, t: Obj, t': Obj)
    requires t.Tab?
  {
    && t'.Tab? && t' == t.(arr := t'.arr, nodes := t'.nodes) && |t'.arr| == |t.arr| && |t'.nodes| == |t.nodes|
    && var (wk, wv) := (KeysWeakIn(start.h, t), ValuesWeakIn(start.h, t));
       && (forall i :: 0 <= i < |t.arr| ==> SlotLeft(start, live, m, t.arr[i], t'.arr[i], wv))
       && (forall i :: 0 <= i < |t.nodes| ==> NodeLeft(start, live, m, t.nodes[i], t'.nodes[i], wk || wv))
  }

  /** Everything else that is left is what it was; a closed upvalue has its value and a stack may have grown. */
  predicate ObjLeft(start: Snap, h: Heap, live: set<Id>, m: Marking, x: Id) {
    && x in start.h && x in h
    && var (t, t') := (start.h[x], h[x]);
       if t.Tab? then TableLeft(start, live, m, t, t')
       else if t.Thread? then t'.Thread? && t'.gt == t.gt && t.stack <= t'.stack
       else if t.UpOpen? || t.UpClosed? then (t'.UpOpen? || t'.UpClosed?) && UpvalValue(h, x) == UpvalValue(start.h, x)
       else t' == t
  }

  ghost predicate Leaves(start: Snap, h: Heap, live: set<Id>, m: Marking) {
    && (forall x :: x in live ==> ObjLeft(start, h, live, m, x))
    && (forall x :: Firm(start, x) ==> x in live)
  }

  // ---- the traversal follows the references that are not weak ------------------------------------------------------

  lemma ModeIs(h: Heap, t: Obj)
    requires t.Tab?
    ensures WeakMode(h, t.mt) == (KeysWeakIn(h, t), ValuesWeakIn(h, t))
  {
  }

  lemma LeadsIs(h: Heap, x: Id, r: Id)
    requires x in h
    ensures Leads(h, x, r) <==> Held(h, x, r)
  {
    var t := h[x];
    if t.Tab? {
      ModeIs(h, t);
      hide WeakMode, KeysWeakIn, ValuesWeakIn;
      var (wk, wv) := WeakMode(h, t.mt);
      forall i | 0 <= i < |t.nodes|
        ensures EntryLeads(t.nodes[i], wk, wv, r) <==> NodeHeld(t.nodes[i], wk, wv, r)
      {
      }
      assert (exists i :: 0 <= i < |t.nodes| && EntryLeads(t.nodes[i], wk, wv, r)) <==> NodesHeld(t.nodes, wk, wv, r);
    }
  }

  lemma AwaitsIs(g: Snap, x: Id)
    ensures Awaits(g, x) <==> x in g.h && g.h[x].Udata? && x in g.m && !g.m[x].finalized && WantsGC(g.h, g.h[x].mt)
  {
  }

  // What a cycle needs is in every enclosing set.
  lemma NeededEnclosed(g: Snap, c: set<Id>)
    requires Encloses(g, c)
    ensures Needed(g) <= c
  {
    hide Leads, Held, Awaits, WantsGC;
    forall x, r | x in g.h && x in c && Held(g.h, x, r)
      ensures r in c
    {
      LeadsIs(g.h, x, r);
    }
    forall x | x in Starts(g)
      ensures x in c
    {
      AwaitsIs(g, x);
    }
    assert NeedClosed(g, c);
  }

  lemma OnlyNeededIs(start: Snap, h: Heap)
    requires forall x :: x in h ==> x in Needed(start) || h[x].Str?
    ensures OnlyEnclosed(start, h)
  {
    hide Needed, Encloses;
    forall c, x | Encloses(start, c) && x in h
      ensures x in c || h[x].Str?
    {
      NeededEnclosed(start, c);
    }
  }

  // ---- the mark phase --------------------------------------------------------------------------------------------

  lemma CleanedHeapHeld(h: Heap, h': Heap, x: Id, r: Id)
    requires CleanedHeap(h, h') && x in h && Held(h, x, r)
    ensures x in h' && Held(h', x, r)
  {
    assert Cleans(h[x], h'[x]);
    if h[x].Tab? {
      CleanedSameTables(h, h');
      SameMode(h, h', h[x].mt);
      hide WeakMode;
      var (wk, wv) := WeakMode(h, h[x].mt);
      CleanedNodesHeld(h[x].nodes, wk, wv, r);
    } else {
      CleanedHeapRefers(h, h', x, r);
    }
  }

  // What a marked object leads to is marked when the traversal is over.
  lemma HeldMarked(s: Snap, x: Id, r: Id)
    requires Settled(s) && x in s.h && x !in s.tmu && Nonwhite(s.m, x) && Held(s.h, x, r)
    ensures Nonwhite(s.m, r)
  {
    hide Settled, WeakMode, Refers;
    if s.h[x].Tab? {
      var t := s.h[x];
      var (wk, wv) := WeakMode(s.h, t.mt);
      if NodesHeld(t.nodes, wk, wv, r) {
        var i :| 0 <= i < |t.nodes| && NodeHeld(t.nodes[i], wk, wv, r);
        HeldEntry(s, x, i, r);
      } else {
        HeldRest(s, x, r);
      }
    } else {
      SettledTraced(s, x);
      HoldsPlain(s.h, s.h[x], KeysWeak(s.m[x]), ValuesWeak(s.m[x]), r);
    }
  }

  ghost function MarkedOf(s: Snap): set<Id> {
    set x | x in s.h && Nonwhite(s.m, x)
  }

  lemma RootsOf(start: Snap, s: Snap)
    requires Traverses(start, s) && Settled(s)
    ensures {start.main, start.reg, start.run} + start.mt.Values <= MarkedOf(s) && s.m.Keys == s.h.Keys
      && s.h.Keys == start.h.Keys && s.tmu == start.tmu
  {
    hide Upvalues, Placed, Colors, Live, Covers, Lists, Modes, Tri, NonwhiteIn, Cleans;
    assert {start.main, start.reg, start.run} + start.mt.Values <= Roots(s);
  }

  lemma FirmMarked(start: Snap, s: Snap, x: Id)
    requires Traverses(start, s) && Settled(s) && Firm(start, x)
    ensures x in MarkedOf(s)
  {
    hide Settled, Leads, Held, Traverses;
    var c := MarkedOf(s);
    RootsOf(start, s);
    forall y, r | y in c && y !in start.tmu && Leads(start.h, y, r)
      ensures r in c
    {
      LeadsIs(start.h, y, r);
      TraversesHeld(start, s, y, r);
      HeldMarked(s, y, r);
    }
    assert Rooted(start, c);
  }

  lemma TraversesHeld(start: Snap, s: Snap, x: Id, r: Id)
    requires Traverses(start, s) && x in start.h && Held(start.h, x, r)
    ensures x in s.h && Held(s.h, x, r)
  {
    hide Held;
    CleanedHeapHeld(start.h, s.h, x, r);
  }

  // ---- the atomic step -----------------------------------------------------------------------------------------

  lemma ClearedIsGone(start: Snap, g': Snap, v: Value, iskey: bool)
    requires Collected(start.h, g') && IsCleared(g'.h, g'.m, v, iskey)
    requires forall x :: x in g'.h ==> (Dead(g'.m, g'.cw, x) <==> !Nonwhite(g'.m, x))
    ensures Gone(start, NotDead(g'), g'.m, v, iskey)
  {
    hide Collected;
    CollectedKeys(start, g');
    CollectedKind(start, g', v.id);
  }

  lemma ModeBack(start: Snap, g': Snap, x: Id)
    requires Collected(start.h, g') && x in start.h && start.h[x].Tab? && x in g'.weak && x in g'.m
    ensures KeysWeakIn(start.h, start.h[x]) || ValuesWeakIn(start.h, start.h[x])
    ensures g'.m[x].vweak ==> ValuesWeakIn(start.h, start.h[x])
  {
    hide Collected, WeakMode, KeysWeakIn, ValuesWeakIn;
    CollectedMode(start, g', x);
    ModeIs(start.h, start.h[x]);
  }

  lemma AtomicTable(start: Snap, g': Snap, x: Id)
    requires Collected(start.h, g') && x in start.h && start.h[x].Tab? && g'.m.Keys == start.h.Keys
    requires forall x :: x in g'.h ==> (Dead(g'.m, g'.cw, x) <==> !Nonwhite(g'.m, x))
    ensures x in g'.h && TableLeft(start, NotDead(g'), g'.m, start.h[x], g'.h[x])
  {
    hide Collected, KeysWeakIn, ValuesWeakIn, Gone, IsCleared, Dead, NotDead;
    CollectedTable(start, g', x);
    var t := start.h[x];
    if x in g'.weak { ModeBack(start, g', x); }
    forall i | 0 <= i < |t.arr|
      ensures SlotLeft(start, NotDead(g'), g'.m, t.arr[i], g'.h[x].arr[i], ValuesWeakIn(start.h, t))
    {
      assert ValueCollected(g', x, t.arr[i], g'.h[x].arr[i]);
      if IsCleared(g'.h, g'.m, t.arr[i], false) { ClearedIsGone(start, g', t.arr[i], false); }
    }
    forall i | 0 <= i < |t.nodes|
      ensures NodeLeft(start, NotDead(g'), g'.m, t.nodes[i], g'.h[x].nodes[i],
        KeysWeakIn(start.h, t) || ValuesWeakIn(start.h, t))
    {
      var n := t.nodes[i];
      assert NodeCollected(g', x, n, g'.h[x].nodes[i]);
      if IsCleared(g'.h, g'.m, n.val, false) { ClearedIsGone(start, g', n.val, false); }
      if n.key.KeyOf? && IsCleared(g'.h, g'.m, n.key.v, true) { ClearedIsGone(start, g', n.key.v, true); }
    }
  }

  lemma AtomicOther(start: Snap, g': Snap, x: Id)
    requires Collected(start.h, g') && x in start.h && !start.h[x].Tab?
    ensures ObjLeft(start, g'.h, NotDead(g'), g'.m, x)
  {
    hide Collected, NotDead;
    CollectedRefers(start, g', x, x);
  }

  // What the mark phase changed before does not matter to the atomic step.
  lemma CollectedFrom(start: Snap, g: Snap, g': Snap)
    requires CleanedHeap(start.h, g.h) && Collected(g.h, g')
    ensures Collected(start.h, g')
  {
    hide Cleans, ClearedTable, Modes, SameTable;
    CleanedSameTables(start.h, g.h);
    SameTablesTrans(start.h, g.h, g'.h);
    forall x | x in start.h
      ensures ObjCollected(g', x, start.h[x], g'.h[x])
    {
      assert Cleans(start.h[x], g.h[x]) && ObjCollected(g', x, g.h[x], g'.h[x]);
      if x in g'.weak && x in g'.m {
        var c :| Cleans(g.h[x], c) && g'.h[x] == ClearedTable(g'.h, g'.m, c, g'.m[x].vweak);
        CleansTrans(start.h[x], g.h[x], c);
      } else {
        CleansTrans(start.h[x], g.h[x], g'.h[x]);
      }
    }
  }

  lemma AtomicLeft(start: Snap, g: Snap, g': Snap)
    requires Traverses(start, g) && Settles(g, g')
    ensures Leaves(start, g'.h, NotDead(g'), g'.m)
  {
    hide Traverses, Settled, Onward, Collected, Firm, ObjLeft, Nonwhite;
    var s :| Traverses(g, s) && Settled(s) && Onward(s, g');
    TraversesTrans(start, g, s);
    assert CleanedHeap(start.h, g.h) by { TraversesCleans(start, g); }
    CollectedFrom(start, g, g');
    CollectedKeys(start, g');
    forall x | x in NotDead(g')
      ensures ObjLeft(start, g'.h, NotDead(g'), g'.m, x)
    {
      AtomicObj(start, g', x);
    }
    forall x | Firm(start, x)
      ensures x in NotDead(g')
    {
      FirmMarked(start, s, x);
      StillMarked(s, g', x);
    }
  }

  lemma TraversesCleans(g: Snap, g': Snap)
    requires Traverses(g, g')
    ensures CleanedHeap(g.h, g'.h)
  {
  }

  lemma AtomicObj(start: Snap, g': Snap, x: Id)
    requires Collected(start.h, g') && x in start.h && g'.m.Keys == start.h.Keys
    requires forall x :: x in g'.h ==> (Dead(g'.m, g'.cw, x) <==> !Nonwhite(g'.m, x))
    ensures ObjLeft(start, g'.h, NotDead(g'), g'.m, x)
  {
    hide Collected, TableLeft, NotDead, Dead, Nonwhite;
    if start.h[x].Tab? { AtomicTable(start, g', x); } else { AtomicOther(start, g', x); }
  }

  lemma StillMarked(s: Snap, g': Snap, x: Id)
    requires Onward(s, g') && x in MarkedOf(s) && g'.m.Keys == g'.h.Keys
    requires forall x :: x in g'.h ==> (Dead(g'.m, g'.cw, x) <==> !Nonwhite(g'.m, x))
    ensures x in NotDead(g')
  {
  }

  // ---- sweep and finalizers ----------------------------------------------------------------------------------------

  // Less is left, and none forgets that it was finalized.
  ghost predicate Fewer(live: set<Id>, m: Marking, live': set<Id>, m': Marking) {
    live' <= live && m'.Keys <= m.Keys && forall x :: x in m' && m[x].finalized ==> m'[x].finalized
  }

  lemma TableStillLeft(start: Snap, live: set<Id>, m: Marking, live': set<Id>, m': Marking, t: Obj, t': Obj)
    requires t.Tab? && TableLeft(start, live, m, t, t') && Fewer(live, m, live', m')
    ensures TableLeft(start, live', m', t, t')
  {
    hide KeysWeakIn, ValuesWeakIn;
    var (wk, wv) := (KeysWeakIn(start.h, t), ValuesWeakIn(start.h, t));
    forall i | 0 <= i < |t.arr|
      ensures SlotLeft(start, live', m', t.arr[i], t'.arr[i], wv)
    {
      assert SlotLeft(start, live, m, t.arr[i], t'.arr[i], wv);
    }
    forall i | 0 <= i < |t.nodes|
      ensures NodeLeft(start, live', m', t.nodes[i], t'.nodes[i], wk || wv)
    {
      assert NodeLeft(start, live, m, t.nodes[i], t'.nodes[i], wk || wv);
    }
  }

  lemma SweptLeft(start: Snap, g: Snap, g': Snap)
    requires Leaves(start, g.h, NotDead(g), g.m) && Sweeps(g, g') && g.m.Keys == g.h.Keys && g'.m.Keys == g'.h.Keys
    ensures Leaves(start, g'.h, NotDead(g'), g'.m)
  {
    hide Firm, TableLeft, SameValue, SameStart;
    assert NotDead(g') == NotDead(g);
    forall x | x in NotDead(g')
      ensures ObjLeft(start, g'.h, NotDead(g'), g'.m, x)
    {
      assert ObjLeft(start, g.h, NotDead(g), g.m, x);
      assert SameValue(g.h, g'.h, x);
      SweptObj(start, g, g', x);
    }
  }

  lemma SweptObj(start: Snap, g: Snap, g': Snap, x: Id)
    requires ObjLeft(start, g.h, NotDead(g), g.m, x) && x in g'.h && SameValue(g.h, g'.h, x)
    requires Fewer(NotDead(g), g.m, NotDead(g'), g'.m)
    ensures ObjLeft(start, g'.h, NotDead(g'), g'.m, x)
  {
    hide TableLeft, NotDead, Fewer;
    if start.h[x].Tab? {
      TableKind(start, NotDead(g), g.m, start.h[x], g.h[x]);
      TableStillLeft(start, NotDead(g), g.m, NotDead(g'), g'.m, start.h[x], g'.h[x]);
    }
  }

  lemma TableKind(start: Snap, live: set<Id>, m: Marking, t: Obj, t': Obj)
    requires t.Tab? && TableLeft(start, live, m, t, t')
    ensures t'.Tab?
  {
  }

  // The call of a finalizer
  lemma GrownLeft(start: Snap, g: Snap, g': Snap)
    requires Leaves(start, g.h, NotDead(g), g.m) && StackGrows(g.h, g'.h, g.run) && UpvalHomes(g.h)
    requires Fewer(NotDead(g), g.m, NotDead(g'), g'.m) && NotDead(g') == NotDead(g)
    ensures Leaves(start, g'.h, NotDead(g'), g'.m)
  {
    hide Firm, TableLeft, NotDead, Fewer;
    forall x | x in NotDead(g')
      ensures ObjLeft(start, g'.h, NotDead(g'), g'.m, x)
    {
      assert ObjLeft(start, g.h, NotDead(g), g.m, x);
      GrownObj(start, g, g', x);
    }
  }

  lemma GrownObj(start: Snap, g: Snap, g': Snap, x: Id)
    requires ObjLeft(start, g.h, NotDead(g), g.m, x) && StackGrows(g.h, g'.h, g.run) && UpvalHomes(g.h)
    requires Fewer(NotDead(g), g.m, NotDead(g'), g'.m)
    ensures ObjLeft(start, g'.h, NotDead(g'), g'.m, x)
  {
    hide TableLeft, NotDead, Fewer;
    if start.h[x].Tab? {
      TableKind(start, NotDead(g), g.m, start.h[x], g.h[x]);
      TableStillLeft(start, NotDead(g), g.m, NotDead(g'), g'.m, start.h[x], g'.h[x]);
    }
  }

  // ---- the steps of a cycle ----------------------------------------------------------------------------------------

  /** What a cycle has done so far, from the state in which its mark phase began */
  ghost predicate Cycle(start: Snap, g: Snap) {
    if g.phase == GCSpropagate then Traverses(start, g) else Leaves(start, g.h, NotDead(g), g.m)
  }

  lemma CycleStep(start: Snap, g: Snap, g': Snap)
    requires Cycle(start, g) && Valid(g) && Valid(g') && g.phase != GCSpause && StepKeeps(g, g') && Preserves(g, g')
    ensures Cycle(start, g')
  {
    hide Valid, Traverses, Settles, Leaves, NotDead, Sweeps, Preserves, FinalizerHeap;
    ValidAlive(g);
    ValidAlive(g');
    AliveKeys(g);
    AliveKeys(g');
    match g.phase
    case GCSpropagate =>
      if g.gray != [] { TraversesTrans(start, g, g'); } else { AtomicLeft(start, g, g'); }
    case GCSsweepstring => SweptLeft(start, g, g');
    case GCSsweep => SweptLeft(start, g, g');
    case GCSfinalize => FinalizedLeft(start, g, g');
  }

  lemma FinalizedLeft(start: Snap, g: Snap, g': Snap)
    requires Leaves(start, g.h, NotDead(g), g.m) && Valid(g) && Valid(g') && g.phase == GCSfinalize
    requires g'.h == FinalizerHeap(g) && (g'.phase == GCSfinalize || g'.phase == GCSpause) && Preserves(g, g')
    ensures Leaves(start, g'.h, NotDead(g'), g'.m)
  {
    hide Valid, Leaves, Preserves, NotDead, FinalizerHeap, StackGrows;
    ValidAlive(g);
    RunIsThread(g);
    FinalizerGrows(g);
    FinalizerKeys(g);
    AllNotDead(g);
    AllNotDead(g');
    PreservesKinds(g, g');
    GrownLeft(start, g, g');
  }

  lemma AllNotDead(g: Snap)
    requires Valid(g) && (g.phase == GCSfinalize || g.phase == GCSpause)
    ensures NotDead(g) == g.h.Keys && g.m.Keys == g.h.Keys
  {
    hide Upvalues, Placed, Colors, Live, Covers, RootsLive;
  }

  lemma PreservesKinds(g: Snap, g': Snap)
    requires Preserves(g, g')
    ensures SameKinds(g, g')
  {
  }

  lemma SettlesIs(g: Snap, s: Snap, g': Snap)
    requires Traverses(g, s) && Settled(s) && Onward(s, g') && Collected(g.h, g') && g'.m.Keys == g'.h.Keys
    requires forall x :: x in g'.h ==> (Dead(g'.m, g'.cw, x) <==> !Nonwhite(g'.m, x))
    ensures Settles(g, g')
  {
    hide Traverses, Settled, Onward, Collected;
  }

  // Lists and phases do not matter.
  lemma TraversesLike(g: Snap, s: Snap, g': Snap, s': Snap)
    requires Traverses(g, s)
    requires g'.h == g.h && g'.m == g.m && SameStart(g, g') && g'.tmu == g.tmu
    requires s'.h == s.h && s'.m == s.m && SameStart(s, s') && s'.tmu == s.tmu
    ensures Traverses(g', s')
  {
  }

  lemma CycleBegins(start: Snap, g: Snap)
    requires g.phase == GCSpropagate && Traverses(start, g)
    ensures Cycle(start, g)
  {
  }

  lemma CycleEnds(start: Snap, g: Snap)
    requires Cycle(start, g) && Valid(g) && g.phase == GCSpause
    ensures Leaves(start, g.h, g.h.Keys, g.m)
  {
    hide Valid, Leaves, NotDead;
    AllNotDead(g);
  }

  // ---- finalizers --------------------------------------------------------------------------------------------------

  // The metatable of userdata u has the value f for __gc.
  predicate HasGc(h: Heap, u: Id, f: Value) {
    && u in h && h[u].Udata? && h[u].mt.Some? && h[u].mt.value in h && f != Nil
    && var t := h[h[u].mt.value];
       t.Tab? && t.gc.Some? && t.gc.value < |t.nodes| && t.nodes[t.gc.value].val == f
  }

  /** The userdata that are taken for their finalizers are the unmarked ones with a value for __gc that have not had
      their turn. */
  lemma {:induction false} DyingAre(h: Heap, m: Marking, us: seq<Id>, u: Id)
    ensures u in Dying(h, m, us) <==>
            u in us && u in m && m[u].color.White? && !m[u].finalized && exists f :: HasGc(h, u, f)
    ensures u in us ==> (u in Staying(h, m, us) || u in Dying(h, m, us))
  {
    if us != [] {
      DyingAre(h, m, us[1..], u);
      if us[0] in h && h[us[0]].Udata? && WantsGC(h, h[us[0]].mt) {
        assert HasGc(h, us[0], Finalizer(h, h[us[0]].mt));
      }
    }
  }

  /** The call of a finalizer: the value of __gc and the userdata are pushed onto the running stack. */
  lemma CallIs(g: Snap, f: Value)
    requires g.tmu != [] && g.run in g.h && g.h[g.run].Thread? && HasGc(g.h, g.tmu[0], f)
    ensures FinalizerHeap(g) == g.h[g.run := g.h[g.run].(stack := g.h[g.run].stack + [f, Ref(g.tmu[0])])]
  {
  }

  lemma NoCallIs(g: Snap)
    requires g.tmu == [] || forall f :: !HasGc(g.h, g.tmu[0], f)
    ensures FinalizerHeap(g) == g.h
  {
    if g.tmu != [] && g.tmu[0] in g.h && g.h[g.tmu[0]].Udata? && WantsGC(g.h, g.h[g.tmu[0]].mt) {
      assert HasGc(g.h, g.tmu[0], Finalizer(g.h, g.h[g.tmu[0]].mt));
    }
  }

  // ---- weak entries ------------------------------------------------------------------------------------------------

  /** After a collection no table has a value or a key left, weak or not, that only weak references led to: what a slot
      or an entry of a table refers to is a string or in every set that encloses the start. */
  lemma NothingWeakLeft(start: Snap, g: Snap, c: set<Id>, x: Id, r: Id)
    requires Valid(g) && OnlyEnclosed(start, g.h) && Encloses(start, c)
    requires g.phase == GCSpause && x in g.h && g.h[x].Tab?
    requires Ref(r) in g.h[x].arr
      || exists n :: n in g.h[x].nodes && n.val != Nil && (n.val == Ref(r) || n.key == KeyOf(Ref(r)))
    ensures r in g.h && (r in c || g.h[r].Str?)
  {
    hide Upvalues, Placed, Colors, Covers, Encloses, Complete;
    IdleComplete(g);
    assert Refers(g.h, g.h[x], r) by {
      if Ref(r) !in g.h[x].arr {
        var n :| n in g.h[x].nodes && n.val != Nil && (n.val == Ref(r) || n.key == KeyOf(Ref(r)));
        var i :| 0 <= i < |g.h[x].nodes| && g.h[x].nodes[i] == n;
        assert NodeRefers(g.h[x].nodes[i], r);
      }
    }
    CompleteAt(g.h, x, r);
  }

  lemma CompleteAt(h: Heap, x: Id, r: Id)
    requires Complete(h) && x in h && Refers(h, h[x], r)
    ensures r in h
  {
  }

  // ---- the set to keep ---------------------------------------------------------------------------------------------

  /** What an incremental cycle may keep: only what references of any kind lead to from the roots of the program, from
      userdata that wait for their finalizers, and from userdata that have not been finalized. */
  lemma CycleStartWithin(g: Snap, c: set<Id>)
    requires {g.main, g.reg, g.run} + g.mt.Values <= c && (forall u :: u in g.tmu ==> u in c)
    requires forall x :: x in g.h && g.h[x].Udata? && x in g.m && !g.m[x].finalized ==> x in c
    requires forall x, r :: x in c && x in g.h && Refers(g.h, g.h[x], r) ==> r in c
    ensures CycleStart(g) <= c
  {
    hide Refers, Reach;
    assert CycleRoots(g) <= c;
    forall x | x in CycleStart(g)
      ensures x in c
    {
      ReachInside(g.h, CycleRoots(g), c, x);
    }
  }

  // ---- closed upvalues ---------------------------------------------------------------------------------------------

  /** An upvalue that is closed takes the value of its stack slot with it. */
  lemma ClosedHolds(g: Snap, g': Snap, th: Id, level: nat, u: Id, slot: nat)
    requires Valid(g) && ValuesKept(g, g') && ClosedAbove(g, g', th, level) && !Dead(g.m, g.cw, u)
    requires u in g.h[th].open && u in g.h && g.h[u] == UpOpen(th, slot) && slot >= level
    ensures slot < |g.h[th].stack| && u in g'.h && g'.h[u] == UpClosed(g.h[th].stack[slot]) && u !in g'.h[th].open
  {
    hide PhaseOk, Placed, Live, Covers, RootsLive, Colors, OpenLists, UvList;
    assert UpvalHomes(g.h);
    assert SameValue(g.h, g'.h, u) && Shut(g, g', u);
  }
}

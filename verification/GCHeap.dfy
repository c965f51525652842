/** The object graph that the garbage collector of Lua 5.1 works on: objects, marks and lists (lobject.h, lgc.h). */
module GCHeap {
  import opened Basics

  type Id = nat

  // A value: nil, another value that is not collectable, or a reference to an object.
  datatype Value = Nil | Plain | Ref(id: Id)

  // The key of a hash node; a dead key belongs to an entry that was removed.
  datatype Key = NoKey | DeadKey | KeyOf(v: Value)

  datatype Node = Node(key: Key, val: Value)

  /** Objects. `modek` and `modev` say what the field __mode of a table is that is used as a metatable, and `gc` is the
      place of its key __gc in the hash part.  Only the part of a thread's stack below its top is kept here. */
  datatype Obj =
    | Str
    | Udata(mt: Option<Id>, env: Id)
    | UpOpen(th: Id, slot: nat)       // an upvalue whose value lives in the stack of a thread
    | UpClosed(v: Value)
    | CClosure(env: Id, vals: seq<Value>)
    | LClosure(env: Id, p: Id, upvals: seq<Id>)
    | Tab(mt: Option<Id>, arr: seq<Value>, nodes: seq<Node>, modek: bool, modev: bool, gc: Option<nat>)
    | Thread(gt: Value, stack: seq<Value>, open: seq<Id>)
    | Proto(source: Option<Id>, ks: seq<Value>, names: seq<Id>, ps: seq<Id>)

  type Heap = map<Id, Obj>

  datatype Color = White(w: bool) | Gray | Black

  datatype Mark = Mark(color: Color, finalized: bool, kweak: bool, vweak: bool)

  type Marking = map<Id, Mark>

  predicate Nonwhite(m: Marking, x: Id) {
    x in m && !m[x].color.White?
  }

  // isdead: the object has the white of the last cycle and waits to be swept.
  predicate Dead(m: Marking, cw: bool, x: Id) {
    x in m && m[x].color == White(!cw)
  }

  // ---- references ------------------------------------------------------------------------------------

  predicate HasRef(vs: seq<Value>, r: Id) {
    Ref(r) in vs
  }

  // An entry of the hash part that a program can reach r through.
  predicate NodeRefers(n: Node, r: Id) {
    n.val != Nil && (n.key == KeyOf(Ref(r)) || n.val == Ref(r))
  }

  // What the traversal of the entry has to mark; the key of an empty entry counts as well.
  predicate NodeHolds(n: Node, wk: bool, wv: bool, r: Id) {
    (!wk && n.key == KeyOf(Ref(r))) || (!wv && n.val == Ref(r))
  }

  predicate NodesRefer(ns: seq<Node>, r: Id) {
    exists i :: 0 <= i < |ns| && NodeRefers(ns[i], r)
  }

  predicate NodesHold(ns: seq<Node>, wk: bool, wv: bool, r: Id) {
    exists i :: 0 <= i < |ns| && NodeHolds(ns[i], wk, wv, r)
  }

  // The value of an open upvalue.
  function StackValue(h: Heap, th: Id, slot: nat): Value {
    if th in h && h[th].Thread? && slot < |h[th].stack| then h[th].stack[slot] else Nil
  }

  /** A program that has `o` can get at r, also through a weak reference. */
  predicate Refers(h: Heap, o: Obj, r: Id) {
    match o
    case Str => false
    case Udata(mt, env) => mt == Some(r) || env == r
    case UpOpen(th, slot) => StackValue(h, th, slot) == Ref(r)
    case UpClosed(v) => v == Ref(r)
    case CClosure(env, vals) => env == r || HasRef(vals, r)
    case LClosure(env, p, upvals) => env == r || p == r || r in upvals
    case Tab(mt, arr, nodes, _, _, _) => mt == Some(r) || HasRef(arr, r) || NodesRefer(nodes, r)
    case Thread(gt, stack, _) => gt == Ref(r) || HasRef(stack, r)
    case Proto(source, ks, names, ps) => source == Some(r) || HasRef(ks, r) || r in names || r in ps
  }

  // What the traversal of `o` has to mark, for a table with weak keys or weak values.
  predicate Holds(h: Heap, o: Obj, wk: bool, wv: bool, r: Id) {
    if o.Tab? then o.mt == Some(r) || (!wv && HasRef(o.arr, r)) || NodesHold(o.nodes, wk, wv, r) else Refers(h, o, r)
  }

  // How the metatable says that a table is weak.
  function WeakMode(h: Heap, mt: Option<Id>): (bool, bool) {
    if mt.Some? && mt.value in h && h[mt.value].Tab? then (h[mt.value].modek, h[mt.value].modev) else (false, false)
  }

  // The metamethod __gc, nil if there is none
  function Finalizer(h: Heap, mt: Option<Id>): Value {
    if mt.Some? && mt.value in h && h[mt.value].Tab? then
      var t := h[mt.value];
      if t.gc.Some? && t.gc.value < |t.nodes| then t.nodes[t.gc.value].val else Nil
    else Nil
  }

  predicate WantsGC(h: Heap, mt: Option<Id>) {
    Finalizer(h, mt) != Nil
  }

  predicate NodeHeld(n: Node, wk: bool, wv: bool, r: Id) {
    n.val != Nil && NodeHolds(n, wk, wv, r)
  }

  predicate NodesHeld(ns: seq<Node>, wk: bool, wv: bool, r: Id) {
    exists i :: 0 <= i < |ns| && NodeHeld(ns[i], wk, wv, r)
  }

  // What is marked when x is traversed: a table has the mode that its metatable says.
  predicate Held(h: Heap, x: Id, r: Id)
    requires x in h
  {
    var t := h[x];
    if t.Tab? then
      var (wk, wv) := WeakMode(h, t.mt);
      t.mt == Some(r) || (!wv && HasRef(t.arr, r)) || NodesHeld(t.nodes, wk, wv, r)
    else
      Refers(h, t, r)
  }

  // Marking does not lead out of k.
  ghost predicate MarkClosed(h: Heap, k: set<Id>) {
    forall x, r :: x in h && x in k && Held(h, x, r) ==> r in k
  }

  lemma HeldRefers(h: Heap, x: Id, r: Id)
    requires x in h && Held(h, x, r)
    ensures Refers(h, h[x], r)
  {
    var t := h[x];
    if t.Tab? {
      var (wk, wv) := WeakMode(h, t.mt);
      if NodesHeld(t.nodes, wk, wv, r) {
        var i :| 0 <= i < |t.nodes| && NodeHeld(t.nodes[i], wk, wv, r);
        assert NodeRefers(t.nodes[i], r);
      }
    }
  }

  lemma RefsClosed(h: Heap, k: set<Id>)
    requires Closed(h, k)
    ensures MarkClosed(h, k)
  {
    hide Held, Refers;
    forall x, r | x in h && x in k && Held(h, x, r)
      ensures r in k
    {
      HeldRefers(h, x, r);
    }
  }

  lemma ClosedMarks(h: Heap, k: set<Id>, b: set<Id>)
    requires Closed(h, k) && MarkClosed(h, b)
    ensures MarkClosed(h, k * b)
  {
    hide Held, Refers;
    RefsClosed(h, k);
  }

  // ---- reachability ----------------------------------------------------------------------------------

  ghost predicate Linked(h: Heap, p: seq<Id>, i: nat)
    requires i + 1 < |p|
  {
    p[i] in h && Refers(h, h[p[i]], p[i + 1])
  }

  ghost predicate Path(h: Heap, s: set<Id>, p: seq<Id>) {
    p != [] && p[0] in s && forall i: nat :: i + 1 < |p| ==> Linked(h, p, i)
  }

  ghost predicate Reach(h: Heap, s: set<Id>, x: Id) {
    exists p :: Path(h, s, p) && p[|p| - 1] == x
  }

  // Nothing outside k can be reached from inside.
  ghost predicate Closed(h: Heap, k: set<Id>) {
    forall x, r :: x in h && x in k && Refers(h, h[x], r) ==> r in k
  }

  lemma {:induction false} PathInside(h: Heap, s: set<Id>, k: set<Id>, p: seq<Id>)
    requires s <= k && Closed(h, k) && Path(h, s, p)
    ensures p[|p| - 1] in k
    decreases |p|
  {
    if |p| > 1 {
      var q := p[..|p| - 1];
      forall i: nat | i + 1 < |q|
        ensures Linked(h, q, i)
      {
        assert Linked(h, p, i);
      }
      PathInside(h, s, k, q);
      assert Linked(h, p, |p| - 2);
    }
  }

  /** A closed set that contains the starting points contains all that can be reached from them. */
  lemma ReachInside(h: Heap, s: set<Id>, k: set<Id>, x: Id)
    requires s <= k && Closed(h, k) && Reach(h, s, x)
    ensures x in k
  {
    var p :| Path(h, s, p) && p[|p| - 1] == x;
    PathInside(h, s, k, p);
  }

  // The existing objects that can be reached.
  ghost function Reachable(h: Heap, s: set<Id>): set<Id> {
    set x | x in h && Reach(h, s, x)
  }

  lemma ReachStep(h: Heap, s: set<Id>, x: Id, r: Id)
    requires x in h && Reach(h, s, x) && Refers(h, h[x], r)
    ensures Reach(h, s, r)
  {
    var p :| Path(h, s, p) && p[|p| - 1] == x;
    var q := p + [r];
    forall i: nat | i + 1 < |q|
      ensures Linked(h, q, i)
    {
      if i + 1 < |p| { assert Linked(h, p, i); }
    }
    assert Path(h, s, q) && q[|q| - 1] == r;
  }

  lemma ReachStart(h: Heap, s: set<Id>, x: Id)
    requires x in s
    ensures Reach(h, s, x)
  {
    assert Path(h, s, [x]) && [x][|[x]| - 1] == x;
  }

  // Every reference of an existing object exists.
  ghost predicate Complete(h: Heap) {
    forall x, r :: x in h && Refers(h, h[x], r) ==> r in h
  }

  lemma ReachableClosed(h: Heap, s: set<Id>)
    requires Complete(h) && forall x :: x in s ==> x in h
    ensures s <= Reachable(h, s) && Closed(h, Reachable(h, s))
  {
    var k := Reachable(h, s);
    forall x | x in s
      ensures x in k
    {
      ReachStart(h, s, x);
    }
    forall x, r | x in h && x in k && Refers(h, h[x], r)
      ensures r in k
    {
      ReachStep(h, s, x, r);
    }
  }

  // ---- marking ---------------------------------------------------------------------------------------

  function Listed(l: seq<Id>): set<Id> {
    set x | x in l
  }

  // Objects that wait in a list until they are traversed.
  predicate Queued(o: Obj) {
    o.CClosure? || o.LClosure? || o.Tab? || o.Thread? || o.Proto?
  }

  // All that the traversal of x has to mark is marked; a gray table is weak as its bits say.
  ghost predicate Traced(h: Heap, m: Marking, x: Id) {
    && x in h && x in m
    && forall r :: Holds(h, h[x], KeysWeak(m[x]), ValuesWeak(m[x]), r) ==> Nonwhite(m, r)
  }

  predicate KeysWeak(k: Mark) {
    k.color.Gray? && k.kweak
  }

  predicate ValuesWeak(k: Mark) {
    k.color.Gray? && k.vweak
  }

  /** The invariant of the mark phase: no marked object refers to a white one, except those that are still
      to be traversed (and open upvalues, if `up`). */
  ghost predicate Tri(h: Heap, m: Marking, todo: set<Id>, up: bool) {
    forall x :: x in h && Nonwhite(m, x) && x !in todo && !(up && h[x].UpOpen?) ==> Traced(h, m, x)
  }

  // White objects may have been marked.
  ghost predicate Grows(m: Marking, m': Marking) {
    && m'.Keys == m.Keys
    && forall x :: x in m ==>
        m'[x] == m[x] || (m[x].color.White? && !m'[x].color.White? && m'[x] == m[x].(color := m'[x].color))
  }

  // New objects in front of the gray list.
  ghost predicate Pushed(h: Heap, m: Marking, m': Marking, l: seq<Id>, l': seq<Id>) {
    && |l| <= |l'| && l'[|l'| - |l|..] == l && NoDup(l'[..|l'| - |l|])
    && forall x :: x in l'[..|l'| - |l|] ==>
        x in h && x in m && x in m' && m[x].color.White? && m'[x].color.Gray? && Queued(h[x])
  }

  // An object that is never queued: what it holds is marked together with it.
  ghost predicate AtOnce(h: Heap, m: Marking, x: Id) {
    Traced(h, m, x) && !Queued(h[x]) && (m[x].color.Gray? <==> h[x].Str? || h[x].UpOpen?)
  }

  /** What marking may do: objects of k are marked, and each of them is traced or put into the gray list. */
  ghost predicate Marked(h: Heap, m: Marking, l: seq<Id>, m': Marking, l': seq<Id>, k: set<Id>) {
    && Grows(m, m') && Pushed(h, m, m', l, l')
    && forall x :: x in m && m'[x] != m[x] ==> x in k && (x in l' || AtOnce(h, m', x))
  }

  lemma TracedGrows(h: Heap, m: Marking, m': Marking, x: Id)
    requires Traced(h, m, x) && Grows(m, m') && Nonwhite(m, x)
    ensures Traced(h, m', x)
  {
  }

  lemma MarkedRefl(h: Heap, m: Marking, l: seq<Id>, k: set<Id>)
    ensures Marked(h, m, l, m, l, k) && Grows(m, m)
  {
    assert Grows(m, m);
    assert |l[..|l| - |l|]| == 0;
    assert Pushed(h, m, m, l, l);
  }

  lemma PushedTrans(h: Heap, m: Marking, l: seq<Id>, m1: Marking, l1: seq<Id>, m2: Marking, l2: seq<Id>)
    requires Grows(m, m1) && Grows(m1, m2) && Pushed(h, m, m1, l, l1) && Pushed(h, m1, m2, l1, l2)
    ensures Pushed(h, m, m2, l, l2)
  {
    var a, b := l1[..|l1| - |l|], l2[..|l2| - |l1|];
    assert l1 == a + l && l2 == b + l1 == (b + a) + l;
    assert l2[..|l2| - |l|] == b + a && l2[|l2| - |l|..] == l;
    assert forall x :: x in b + a <==> x in b || x in a;
    forall i, j | 0 <= i < j < |b + a|
      ensures (b + a)[i] != (b + a)[j]
    {
      if i < |b| <= j {
        assert b[i] in b && a[j - |b|] in a;
        assert m1[b[i]].color.White? && m1[a[j - |b|]].color.Gray?;
      }
      else if j < |b| { assert b[i] != b[j]; }
      else { assert a[i - |b|] != a[j - |b|]; }
    }
  }

  lemma MarkedTrans(h: Heap, m: Marking, l: seq<Id>, m1: Marking, l1: seq<Id>, m2: Marking, l2: seq<Id>, k: set<Id>)
    requires Marked(h, m, l, m1, l1, k) && Marked(h, m1, l1, m2, l2, k)
    ensures Marked(h, m, l, m2, l2, k) && Grows(m, m1) && Grows(m1, m2)
  {
    PushedTrans(h, m, l, m1, l1, m2, l2);
    forall x | x in m && m2[x] != m[x]
      ensures x in k && (x in l2 || AtOnce(h, m2, x))
    {
      if m1[x] != m[x] {
        if x in l1 { assert l2[|l2| - |l1|..] == l1; } else { TracedGrows(h, m1, m2, x); }
      }
    }
  }

  // Marking starts with one object.
  lemma MarkFirst(h: Heap, m: Marking, l: seq<Id>, o: Id, c: Color, m': Marking, l': seq<Id>, k: set<Id>)
    requires o in h && o in m && m[o].color.White? && !c.White? && o in k
    requires Marked(h, m[o := m[o].(color := c)], l, m', l', k) && (o in l' || AtOnce(h, m', o))
    ensures Marked(h, m, l, m', l', k)
  {
    assert m'[o] == m[o].(color := c);
  }

  lemma PushOne(h: Heap, m: Marking, l: seq<Id>, o: Id, k: set<Id>)
    requires o in h && o in m && m[o].color.White? && o in k && Queued(h[o])
    ensures Marked(h, m, l, m[o := m[o].(color := Gray)], [o] + l, k)
  {
    var l' := [o] + l;
    assert l'[..|l'| - |l|] == [o] && l'[|l'| - |l|..] == l;
  }

  lemma TriMarked(h: Heap, m: Marking, l: seq<Id>, m': Marking, l': seq<Id>, k: set<Id>, todo: set<Id>, up: bool)
    requires Tri(h, m, todo, up) && Marked(h, m, l, m', l', k) && forall x :: x in l ==> Nonwhite(m, x)
    ensures Tri(h, m', todo + Listed(l'[..|l'| - |l|]), up)
  {
    var t := todo + Listed(l'[..|l'| - |l|]);
    assert l' == l'[..|l'| - |l|] + l;
    forall x | x in h && Nonwhite(m', x) && x !in t && !(up && h[x].UpOpen?)
      ensures Traced(h, m', x)
    {
      if m'[x] == m[x] {
        TracedGrows(h, m, m', x);
      }
    }
  }

  function Whites(m: Marking): set<Id> {
    set x | x in m && m[x].color.White?
  }

  lemma FewerWhites(m: Marking, m': Marking, o: Id)
    requires Grows(m, m') && o in m && m[o].color.White? && !m'[o].color.White?
    ensures |Whites(m')| < |Whites(m)|
  {
    var a, b := Whites(m'), Whites(m);
    assert a <= b && o in b && o !in a;
    SubsetCount(a, b);
  }

  lemma WhitesGrow(m: Marking, m': Marking)
    requires Grows(m, m')
    ensures |Whites(m')| <= |Whites(m)|
  {
    SubsetCount(Whites(m'), Whites(m));
  }

  // ---- objects that are traversed as soon as they are marked -----------------------------------------

  lemma UdataTraced(h: Heap, m: Marking, o: Id)
    requires o in h && o in m && h[o].Udata?
    requires (h[o].mt.Some? ==> Nonwhite(m, h[o].mt.value)) && Nonwhite(m, h[o].env) && !m[o].color.Gray?
    ensures AtOnce(h, m, o)
  {
  }

  function UpvalValue(h: Heap, o: Id): Value
    requires o in h && (h[o].UpOpen? || h[o].UpClosed?)
  {
    if h[o].UpOpen? then StackValue(h, h[o].th, h[o].slot) else h[o].v
  }

  lemma UpvalRefers(h: Heap, o: Id)
    requires o in h && (h[o].UpOpen? || h[o].UpClosed?)
    ensures var v := UpvalValue(h, o);
            v.Ref? ==> Refers(h, h[o], v.id)
  {
  }

  lemma UpvalInHeap(h: Heap, o: Id, k: set<Id>)
    requires Complete(h) && MarkClosed(h, k) && o in h && o in k && (h[o].UpOpen? || h[o].UpClosed?)
    ensures var v := UpvalValue(h, o);
            v.Ref? ==> v.id in h && v.id in k
  {
    UpvalRefers(h, o);
    HeldRefs(h, o, k);
  }

  lemma HeldRefs(h: Heap, o: Id, k: set<Id>)
    requires Complete(h) && MarkClosed(h, k) && o in h && o in k && !h[o].Tab?
    ensures forall r :: Refers(h, h[o], r) ==> r in h && r in k
  {
    hide Refers;
    forall r | Refers(h, h[o], r)
      ensures r in h && r in k
    {
      assert Held(h, o, r);
    }
  }

  lemma MarkedAt(h: Heap, m: Marking, l: seq<Id>, m': Marking, l': seq<Id>, k: set<Id>, o: Id)
    requires Marked(h, m, l, m', l', k) && Nonwhite(m, o)
    ensures Grows(m, m') && o in m' && m'[o] == m[o]
  {
  }

  lemma UpvalTraced(h: Heap, m: Marking, o: Id)
    requires o in h && o in m && (h[o].UpOpen? || h[o].UpClosed?)
    requires var v := UpvalValue(h, o); v.Ref? ==> Nonwhite(m, v.id)
    requires m[o].color.Gray? <==> h[o].UpOpen?
    ensures AtOnce(h, m, o)
  {
  }

  lemma Recolor(h: Heap, m: Marking, l: seq<Id>, o: Id, m1: Marking, l1: seq<Id>, k: set<Id>)
    requires o in h && o in m && m[o].color.White? && h[o].UpClosed?
    requires Marked(h, m[o := m[o].(color := Gray)], l, m1, l1, k)
    ensures Marked(h, m[o := m[o].(color := Black)], l, m1[o := m1[o].(color := Black)], l1, k)
  {
    var a, b := m[o := m[o].(color := Black)], m1[o := m1[o].(color := Black)];
    forall x | x in a && b[x] != a[x]
      ensures x in k && (x in l1 || AtOnce(h, b, x))
    {
      assert x != o;
      assert m1[x] != m[o := m[o].(color := Gray)][x];
      if x !in l1 {
        TracedSame(h, m1, b, x);
        assert AtOnce(h, m1, x) && b[x] == m1[x];
      }
    }
    var c := m[o := m[o].(color := Gray)];
    assert Grows(a, b) by {
      forall x | x in a
        ensures b[x] == a[x] || (a[x].color.White? && !b[x].color.White? && b[x] == a[x].(color := b[x].color))
      {
        assert m1[x] == c[x] || (c[x].color.White? && !m1[x].color.White? && m1[x] == c[x].(color := m1[x].color));
      }
    }
    assert forall x :: x in l1[..|l1| - |l|] ==> x != o && c[x] == a[x] && b[x] == m1[x];
  }

  // A marked object may change its bits without harm to what has been marked since.
  lemma Retouch(h: Heap, m: Marking, l: seq<Id>, o: Id, b: Mark, m': Marking, l': seq<Id>, k: set<Id>)
    requires o in m && Nonwhite(m, o) && !b.color.White? && Marked(h, m, l, m', l', k)
    requires o in h && !h[o].UpOpen?
    ensures Marked(h, m[o := b], l, m'[o := b], l', k)
  {
    var a, c := m[o := b], m'[o := b];
    forall x | x in a && c[x] != a[x]
      ensures x in k && (x in l' || AtOnce(h, c, x))
    {
      assert x != o && m'[x] != m[x];
    }
  }

  // ---- the traversal of a table -----------------------------------------------------------------------

  // removeentry, for an entry without a value
  function CleanNode(n: Node): Node {
    if n.val == Nil && n.key.KeyOf? && n.key.v.Ref? then n.(key := DeadKey) else n
  }

  function CleanNodes(ns: seq<Node>): (r: seq<Node>)
    ensures |r| == |ns| && forall i :: 0 <= i < |ns| ==> r[i] == CleanNode(ns[i])
  {
    seq(|ns|, i requires 0 <= i < |ns| => CleanNode(ns[i]))
  }

  // The hash part of table o lost the keys of empty entries.
  ghost predicate Cleaned(h: Heap, o: Id, h': Heap) {
    h' == h || (o in h && h[o].Tab? && h' == h[o := h[o].(nodes := CleanNodes(h[o].nodes))])
  }

  // The same for an object that may have been traversed several times
  predicate Cleans(t: Obj, t': Obj) {
    t' == t || (t.Tab? && t' == t.(nodes := CleanNodes(t.nodes)))
  }

  ghost predicate CleanedHeap(h: Heap, h': Heap) {
    h'.Keys == h.Keys && forall x :: x in h ==> Cleans(h[x], h'[x])
  }

  lemma CleanTwice(ns: seq<Node>)
    ensures CleanNodes(CleanNodes(ns)) == CleanNodes(ns)
  {
  }

  lemma CleansTrans(t: Obj, t1: Obj, t2: Obj)
    requires Cleans(t, t1) && Cleans(t1, t2)
    ensures Cleans(t, t2)
  {
    if t.Tab? { CleanTwice(t.nodes); }
  }

  lemma CleanedHeapTrans(h: Heap, h1: Heap, h2: Heap)
    requires CleanedHeap(h, h1) && CleanedHeap(h1, h2)
    ensures CleanedHeap(h, h2)
  {
    hide Cleans;
    forall x | x in h
      ensures Cleans(h[x], h2[x])
    {
      CleansTrans(h[x], h1[x], h2[x]);
    }
  }

  lemma CleanedHeapRefl(h: Heap)
    ensures CleanedHeap(h, h)
  {
  }

  lemma CleanedIsHeap(h: Heap, o: Id, h': Heap)
    requires Cleaned(h, o, h')
    ensures CleanedHeap(h, h')
  {
  }

  lemma CleanRefers(ns: seq<Node>, r: Id)
    ensures NodesRefer(CleanNodes(ns), r) <==> NodesRefer(ns, r)
    ensures NodesHold(CleanNodes(ns), false, false, r) ==> NodesRefer(ns, r)
  {
    if NodesRefer(ns, r) {
      var i :| 0 <= i < |ns| && NodeRefers(ns[i], r);
      assert NodeRefers(CleanNodes(ns)[i], r);
    }
    if NodesRefer(CleanNodes(ns), r) {
      var i :| 0 <= i < |ns| && NodeRefers(CleanNodes(ns)[i], r);
      assert NodeRefers(ns[i], r);
    }
    if NodesHold(CleanNodes(ns), false, false, r) {
      var i :| 0 <= i < |ns| && NodeHolds(CleanNodes(ns)[i], false, false, r);
      assert NodeRefers(ns[i], r);
    }
  }

  // Changing the contents of a table does not matter to what other objects refer to.
  lemma RefersOther(h: Heap, o: Id, t: Obj, x: Obj, r: Id)
    requires o in h && h[o].Tab? && t.Tab?
    ensures Refers(h[o := t], x, r) == Refers(h, x, r)
  {
  }

  lemma CleanedRefers(h: Heap, o: Id, h': Heap, x: Id, r: Id)
    requires Cleaned(h, o, h') && x in h
    ensures x in h' && Refers(h', h'[x], r) == Refers(h, h[x], r)
  {
    if h' != h {
      var t := h[o].(nodes := CleanNodes(h[o].nodes));
      RefersOther(h, o, t, h'[x], r);
      if x == o { CleanRefers(h[o].nodes, r); }
    }
  }

  lemma CleanedNodesHeld(ns: seq<Node>, wk: bool, wv: bool, r: Id)
    ensures NodesHeld(CleanNodes(ns), wk, wv, r) <==> NodesHeld(ns, wk, wv, r)
  {
    if NodesHeld(ns, wk, wv, r) {
      var i :| 0 <= i < |ns| && NodeHeld(ns[i], wk, wv, r);
      assert NodeHeld(CleanNodes(ns)[i], wk, wv, r);
    }
    if NodesHeld(CleanNodes(ns), wk, wv, r) {
      var i :| 0 <= i < |ns| && NodeHeld(CleanNodes(ns)[i], wk, wv, r);
      assert NodeHeld(ns[i], wk, wv, r);
    }
  }

  lemma CleanedHeld(h: Heap, o: Id, h': Heap, x: Id, r: Id)
    requires Cleaned(h, o, h') && x in h
    ensures x in h' && (Held(h', x, r) <==> Held(h, x, r))
  {
    CleanedRefers(h, o, h', x, r);
    CleanedIsHeap(h, o, h');
    CleanedSameTables(h, h');
    if h[x].Tab? {
      hide WeakMode;
      SameMode(h, h', h[x].mt);
      var (wk, wv) := WeakMode(h, h[x].mt);
      CleanedNodesHeld(h[x].nodes, wk, wv, r);
    }
  }

  lemma CleanedMarkClosed(h: Heap, o: Id, h': Heap, k: set<Id>)
    requires Cleaned(h, o, h') && MarkClosed(h, k)
    ensures MarkClosed(h', k)
  {
    hide Held, Cleaned;
    CleanedIsHeap(h, o, h');
    forall x, r | x in h' && x in k && Held(h', x, r)
      ensures r in k
    {
      CleanedHeld(h, o, h', x, r);
    }
  }

  lemma CleanedGraph(h: Heap, o: Id, h': Heap, k: set<Id>)
    requires Cleaned(h, o, h') && Complete(h)
    ensures h'.Keys == h.Keys && Complete(h') && (Closed(h, k) ==> Closed(h', k))
    ensures forall x :: x in h ==> (h'[x] == h[x] || (x == o && h[x].Tab? && h'[x].Tab?))
  {
    assert h'.Keys == h.Keys;
    forall x, r | x in h' && Refers(h', h'[x], r)
      ensures r in h' && (Closed(h, k) && x in k ==> r in k)
    {
      CleanedRefers(h, o, h', x, r);
      assert Refers(h, h[x], r);
    }
  }

  lemma CleanedTraced(h: Heap, m: Marking, o: Id, h': Heap, x: Id)
    requires Cleaned(h, o, h') && x != o && Traced(h, m, x)
    ensures Traced(h', m, x)
  {
    forall r | Holds(h', h'[x], KeysWeak(m[x]), ValuesWeak(m[x]), r)
      ensures Nonwhite(m, r)
    {
      assert h'[x] == h[x];
      CleanedRefers(h, o, h', x, r);
      assert Holds(h, h[x], KeysWeak(m[x]), ValuesWeak(m[x]), r);
    }
  }

  lemma CleanedMarked(h: Heap, o: Id, h': Heap, m: Marking, l: seq<Id>, m': Marking, l': seq<Id>, k: set<Id>)
    requires Cleaned(h, o, h') && Marked(h, m, l, m', l', k) && Nonwhite(m, o)
    ensures Marked(h', m, l, m', l', k)
  {
    forall x | x in m && m'[x] != m[x]
      ensures x in k && (x in l' || Traced(h', m', x))
    {
      if x !in l' { CleanedTraced(h, m', o, h', x); }
    }
  }

  // What is marked in the hash part of a table by a traversal.
  ghost predicate NodeDone(n: Node, wk: bool, wv: bool, m: Marking) {
    n.val != Nil ==>
      && (!wk && n.key.KeyOf? && n.key.v.Ref? ==> Nonwhite(m, n.key.v.id))
      && (!wv && n.val.Ref? ==> Nonwhite(m, n.val.id))
  }

  ghost predicate NodesDone(ns: seq<Node>, wk: bool, wv: bool, m: Marking) {
    forall i :: 0 <= i < |ns| ==> NodeDone(ns[i], wk, wv, m)
  }

  lemma NodeInHeap(h: Heap, o: Id, i: int, k: set<Id>)
    requires Complete(h) && Closed(h, k) && o in h && o in k && h[o].Tab? && 0 <= i < |h[o].nodes|
    ensures forall r :: NodeRefers(h[o].nodes[i], r) ==> r in h && r in k
  {
    forall r | NodeRefers(h[o].nodes[i], r)
      ensures r in h && r in k
    {
      assert NodesRefer(h[o].nodes, r);
      assert Refers(h, h[o], r);
    }
  }

  lemma NodeDoneGrows(n: Node, wk: bool, wv: bool, m: Marking, m': Marking)
    requires NodeDone(n, wk, wv, m) && Grows(m, m')
    ensures NodeDone(n, wk, wv, m')
  {
  }

  // A table that is not weak in both parts: cleaned and traversed.
  lemma TableHeld(h: Heap, t: Obj, wk: bool, wv: bool, m: Marking)
    requires t.Tab? && (t.mt.Some? ==> Nonwhite(m, t.mt.value))
    requires !wv ==> AllMarked(t.arr, m)
    requires NodesDone(t.nodes, wk, wv, m)
    ensures forall r :: Holds(h, t.(nodes := CleanNodes(t.nodes)), wk, wv, r) ==> Nonwhite(m, r)
  {
    forall r | Holds(h, t.(nodes := CleanNodes(t.nodes)), wk, wv, r)
      ensures Nonwhite(m, r)
    {
      if NodesHold(CleanNodes(t.nodes), wk, wv, r) {
        var i :| 0 <= i < |t.nodes| && NodeHolds(CleanNodes(t.nodes)[i], wk, wv, r);
        assert NodeDone(t.nodes[i], wk, wv, m);
      }
    }
  }

  lemma NodeHeldIn(h: Heap, o: Id, i: int, k: set<Id>)
    requires Complete(h) && MarkClosed(h, k) && o in h && o in k && h[o].Tab? && 0 <= i < |h[o].nodes|
    ensures var (wk, wv) := WeakMode(h, h[o].mt);
            forall r :: NodeHeld(h[o].nodes[i], wk, wv, r) ==> r in h && r in k
  {
    hide Refers, WeakMode;
    var (wk, wv) := WeakMode(h, h[o].mt);
    forall r | NodeHeld(h[o].nodes[i], wk, wv, r)
      ensures r in h && r in k
    {
      assert Held(h, o, r);
      HeldRefers(h, o, r);
    }
  }

  lemma TableHeldIn(h: Heap, o: Id, k: set<Id>)
    requires Complete(h) && MarkClosed(h, k) && o in h && o in k && h[o].Tab?
    ensures h[o].mt.Some? ==> h[o].mt.value in h && h[o].mt.value in k
    ensures !WeakMode(h, h[o].mt).1 ==> forall v :: v in h[o].arr && v.Ref? ==> v.id in h && v.id in k
  {
    hide Refers, WeakMode;
    if h[o].mt.Some? {
      assert Held(h, o, h[o].mt.value);
      HeldRefers(h, o, h[o].mt.value);
    }
    if !WeakMode(h, h[o].mt).1 {
      forall v | v in h[o].arr && v.Ref?
        ensures v.id in h && v.id in k
      {
        assert HasRef(h[o].arr, v.id) && Held(h, o, v.id);
        HeldRefers(h, o, v.id);
      }
    }
  }

  lemma RefsInHeap(h: Heap, o: Id, k: set<Id>)
    requires Complete(h) && Closed(h, k) && o in h && o in k
    ensures forall r :: Refers(h, h[o], r) ==> r in h && r in k
  {
  }

  lemma ValuesInHeap(h: Heap, o: Id, vs: seq<Value>, k: set<Id>)
    requires o in h && forall r :: Refers(h, h[o], r) ==> r in h && r in k
    requires forall r :: HasRef(vs, r) ==> Refers(h, h[o], r)
    ensures forall v :: v in vs && v.Ref? ==> v.id in h && v.id in k
  {
    forall v | v in vs && v.Ref?
      ensures v.id in h && v.id in k
    {
      assert HasRef(vs, v.id);
    }
  }

  lemma TableInHeap(h: Heap, o: Id, k: set<Id>)
    requires Complete(h) && Closed(h, k) && o in h && o in k && h[o].Tab?
    ensures h[o].mt.Some? ==> h[o].mt.value in h && h[o].mt.value in k
    ensures forall v :: v in h[o].arr && v.Ref? ==> v.id in h && v.id in k
  {
    RefsInHeap(h, o, k);
    ValuesInHeap(h, o, h[o].arr, k);
  }

  predicate ValueIn(v: Value, s: set<Id>) {
    v.Ref? ==> v.id in s
  }

  lemma PartsInHeap(h: Heap, o: Id, k: set<Id>)
    requires Complete(h) && MarkClosed(h, k) && o in h && o in k && !h[o].Tab?
    ensures var s := h.Keys * k;
            match h[o]
            case CClosure(env, vals) => env in s && forall v :: v in vals ==> ValueIn(v, s)
            case LClosure(env, p, upvals) => env in s && p in s && forall x :: x in upvals ==> x in s
            case Thread(gt, stack, _) => ValueIn(gt, s) && forall v :: v in stack ==> ValueIn(v, s)
            case Proto(source, ks, names, ps) =>
              && (source.Some? ==> source.value in s) && (forall v :: v in ks ==> ValueIn(v, s))
              && (forall x :: x in names ==> x in s) && (forall x :: x in ps ==> x in s)
            case _ => true
  {
    HeldRefs(h, o, k);
    match h[o]
    case CClosure(env, vals) => ValuesInHeap(h, o, vals, k);
    case Thread(gt, stack, _) => ValuesInHeap(h, o, stack, k);
    case Proto(source, ks, names, ps) => ValuesInHeap(h, o, ks, k);
    case _ =>
  }

  lemma OnlyMeta(h: Heap, t: Obj, m: Marking)
    requires t.Tab? && (t.mt.Some? ==> Nonwhite(m, t.mt.value))
    ensures forall r :: Holds(h, t, true, true, r) ==> Nonwhite(m, r)
  {
  }

  lemma CleanedSelf(h: Heap, o: Id)
    requires o in h && h[o].Tab?
    ensures Cleaned(h, o, h) && Cleaned(h, o, h[o := h[o].(nodes := CleanNodes(h[o].nodes))])
  {
  }

  predicate AllMarked(s: seq<Value>, m: Marking) {
    forall i :: 0 <= i < |s| && s[i].Ref? ==> Nonwhite(m, s[i].id)
  }

  predicate IdsMarked(s: seq<Id>, m: Marking) {
    forall x :: x in s ==> Nonwhite(m, x)
  }

  lemma AllMarkedGrows(s: seq<Value>, m: Marking, m': Marking)
    requires AllMarked(s, m) && Grows(m, m')
    ensures AllMarked(s, m')
  {
  }

  lemma IdsMarkedGrows(s: seq<Id>, m: Marking, m': Marking)
    requires IdsMarked(s, m) && Grows(m, m')
    ensures IdsMarked(s, m')
  {
  }

  lemma MarkedKeys(h: Heap, m: Marking, l: seq<Id>, m': Marking, l': seq<Id>, k: set<Id>)
    requires Marked(h, m, l, m', l', k)
    ensures m'.Keys == m.Keys && Grows(m, m')
  {
  }

  lemma ClosureHeld(h: Heap, o: Id, m: Marking)
    requires o in h && (h[o].CClosure? || h[o].LClosure?) && Nonwhite(m, h[o].env)
    requires if h[o].CClosure? then AllMarked(h[o].vals, m) else IdsMarked([h[o].p] + h[o].upvals, m)
    ensures forall r :: Refers(h, h[o], r) ==> Nonwhite(m, r)
  {
  }

  lemma ProtoHeld(h: Heap, o: Id, m: Marking, src: seq<Id>)
    requires o in h && h[o].Proto? && src == (if h[o].source.Some? then [h[o].source.value] else [])
    requires IdsMarked(src, m) && AllMarked(h[o].ks, m) && IdsMarked(h[o].names + h[o].ps, m)
    ensures forall r :: Refers(h, h[o], r) ==> Nonwhite(m, r)
  {
    assert forall x :: x in h[o].names || x in h[o].ps ==> x in h[o].names + h[o].ps;
    if h[o].source.Some? { assert src[0] in src; }
  }

  lemma ThreadHeld(h: Heap, o: Id, m: Marking)
    requires o in h && h[o].Thread? && (h[o].gt.Ref? ==> Nonwhite(m, h[o].gt.id)) && AllMarked(h[o].stack, m)
    ensures forall r :: Refers(h, h[o], r) ==> Nonwhite(m, r)
  {
  }

  // ---- the lists of the collector ----------------------------------------------------------------------

  ghost predicate Apart(a: seq<Id>, b: seq<Id>) {
    forall x :: x in a ==> x !in b
  }

  /** An object is in at most one of the lists that its field gclist threads, and gray as long as it is;
      every gray object is in one, except strings and open upvalues. */
  ghost predicate Lists(h: Heap, m: Marking, gray: seq<Id>, again: seq<Id>, weak: seq<Id>) {
    && NoDup(gray) && NoDup(again) && NoDup(weak) && Apart(gray, again) && Apart(gray, weak) && Apart(again, weak)
    && (forall x :: x in gray ==> x in h && x in m && m[x].color.Gray? && Queued(h[x]))
    && (forall x :: x in again ==> x in h && x in m && m[x].color.Gray? && (h[x].Tab? || h[x].Thread?))
    && (forall x :: x in weak ==> x in h && x in m && m[x].color.Gray? && h[x].Tab?)
    && (forall x :: x in h && x in m && m[x].color.Gray? ==>
        x in gray || x in again || x in weak || h[x].Str? || h[x].UpOpen?)
  }

  lemma NoDupCons(o: Id, l: seq<Id>)
    requires NoDup(l) && o !in l
    ensures NoDup([o] + l)
  {
  }

  lemma NoDupTail(l: seq<Id>)
    requires NoDup(l) && l != []
    ensures NoDup(l[1..]) && l[0] !in l[1..] && (forall x :: x in l <==> x == l[0] || x in l[1..])
  {
    assert l == [l[0]] + l[1..];
  }

  lemma PushedNoDup(h: Heap, m: Marking, m': Marking, l: seq<Id>, l': seq<Id>)
    requires Pushed(h, m, m', l, l') && NoDup(l) && forall x :: x in l ==> Nonwhite(m, x)
    ensures NoDup(l') && (forall x :: x in l' ==> x in l || (x in m && m[x].color.White?))
      && (forall x :: x in l ==> x in l')
  {
    var a := l'[..|l'| - |l|];
    assert l' == a + l;
    forall i, j | 0 <= i < j < |l'|
      ensures l'[i] != l'[j]
    {
      if j < |a| { assert a[i] != a[j]; }
      else if i >= |a| { assert l[i - |a|] != l[j - |a|]; }
      else { assert a[i] in a && l[j - |a|] in l; }
    }
  }

  // Marking keeps the lists.
  lemma ListsMarked(h: Heap, m: Marking, gray: seq<Id>, m': Marking, gray': seq<Id>, k: set<Id>, again: seq<Id>,
    weak: seq<Id>)
    requires Lists(h, m, gray, again, weak) && Marked(h, m, gray, m', gray', k)
    ensures Lists(h, m', gray', again, weak)
  {
    PushedNoDup(h, m, m', gray, gray');
    forall x | x in gray'
      ensures x in h && x in m' && m'[x].color.Gray? && Queued(h[x])
    {
      assert gray' == gray'[..|gray'| - |gray|] + gray;
    }
  }

  lemma TriPropagate(h: Heap, m: Marking, gray: seq<Id>, h': Heap, m': Marking, gray': seq<Id>, k: set<Id>,
    todo: set<Id>, up: bool)
    requires gray != [] && gray[0] in m && Nonwhite(m, gray[0]) && forall x :: x in gray ==> Nonwhite(m, x)
    requires Cleaned(h, gray[0], h') && Nonwhite(m', gray[0]) && h'.Keys == h.Keys
    requires Marked(h', m[gray[0] := m'[gray[0]]], gray[1..], m', gray', k) && Traced(h', m', gray[0])
    requires Tri(h, m, todo + Listed(gray), up)
    requires forall x :: x in h ==> h'[x].UpOpen? == h[x].UpOpen?
    ensures Tri(h', m', todo + Listed(gray'), up)
  {
    var o := gray[0];
    var m1 := m[o := m'[o]];
    assert gray == [o] + gray[1..];
    assert forall x :: x in gray[1..] ==> x in gray;
    assert Tri(h', m1, todo + Listed(gray), up) by {
      forall x | x in h' && Nonwhite(m1, x) && x !in todo + Listed(gray) && !(up && h'[x].UpOpen?)
        ensures Traced(h', m1, x)
      {
        assert x != o && Nonwhite(m, x);
        CleanedTraced(h, m, o, h', x);
        TracedSame(h', m, m1, x);
      }
    }
    TriMarked(h', m1, gray[1..], m', gray', k, todo + Listed(gray), up);
    assert gray' == gray'[..|gray'| - |gray[1..]|] + gray[1..];
    forall x | x in h' && Nonwhite(m', x) && x !in todo + Listed(gray') && !(up && h'[x].UpOpen?)
      ensures Traced(h', m', x)
    {
      if x != o { assert x !in gray; }
    }
  }

  lemma TracedSame(h: Heap, m: Marking, m': Marking, x: Id)
    requires Traced(h, m, x) && x in m' && m'[x] == m[x] && forall y :: Nonwhite(m, y) ==> Nonwhite(m', y)
    ensures Traced(h, m', x)
  {
  }

  // How much marking is left to do
  function Work(m: Marking, gray: seq<Id>): nat {
    |Whites(m)| + |gray|
  }

  lemma WorkMarked(h: Heap, m: Marking, l: seq<Id>, m': Marking, l': seq<Id>, k: set<Id>)
    requires Marked(h, m, l, m', l', k)
    ensures Work(m', l') <= Work(m, l)
  {
    var a := l'[..|l'| - |l|];
    NoDupSize(a);
    var b := Listed(a);
    assert Whites(m') !! b && Whites(m') + b <= Whites(m);
    SubsetCount(Whites(m') + b, Whites(m));
  }

  lemma {:induction false} NoDupSize(l: seq<Id>)
    requires NoDup(l)
    ensures |Listed(l)| == |l|
  {
    if l != [] {
      NoDupTail(l);
      NoDupSize(l[1..]);
      assert Listed(l) == {l[0]} + Listed(l[1..]);
    } else {
      assert Listed(l) == {};
    }
  }

  /** What propagatemark does: the first gray object is traversed; a thread goes to the list of objects that
      are traversed again, a weak table to that of weak tables. */
  ghost predicate Propagated(h: Heap, m: Marking, gray: seq<Id>, again: seq<Id>, weak: seq<Id>,
                             h': Heap, m': Marking, gray': seq<Id>, again': seq<Id>, weak': seq<Id>, k: set<Id>) {
    && gray != []
    && var o := gray[0];
       && Cleaned(h, o, h') && h'.Keys == h.Keys && o in h' && o in m && Nonwhite(m', o) && Traced(h', m', o)
       && Marked(h', m[o := m'[o]], gray[1..], m', gray', k)
       && m'[o] == m[o].(color := m'[o].color, kweak := m'[o].kweak, vweak := m'[o].vweak)
       && again' == (if h'[o].Thread? then [o] + again else again) && (h'[o].Thread? ==> m'[o].color.Gray?)
       && weak' == (if h'[o].Tab? && m'[o].color.Gray? then [o] + weak else weak)
       && (h'[o].Tab? && m'[o].color.Gray? ==> ModeRight(h', m', o))
  }

  // The bits of a weak table are those of its mode.
  predicate ModeRight(h: Heap, m: Marking, o: Id) {
    && o in h && o in m && h[o].Tab? && (m[o].kweak || m[o].vweak)
    && (m[o].kweak, m[o].vweak) == WeakMode(h, h[o].mt)
  }

  // Tables have changed in their entries only.
  predicate SameTable(t: Obj, t': Obj) {
    t' == t || (t.Tab? && t'.Tab? && t' == t.(arr := t'.arr, nodes := t'.nodes))
  }

  ghost predicate SameTables(h: Heap, h': Heap) {
    h'.Keys == h.Keys && forall x :: x in h ==> SameTable(h[x], h'[x])
  }

  lemma SameTablesTrans(h: Heap, h1: Heap, h2: Heap)
    requires SameTables(h, h1) && SameTables(h1, h2)
    ensures SameTables(h, h2)
  {
    forall x | x in h
      ensures SameTable(h[x], h2[x])
    {
      assert SameTable(h[x], h1[x]) && SameTable(h1[x], h2[x]);
    }
  }

  lemma CleanedSameTables(h: Heap, h': Heap)
    requires CleanedHeap(h, h')
    ensures SameTables(h, h')
  {
    forall x | x in h
      ensures SameTable(h[x], h'[x])
    {
      assert Cleans(h[x], h'[x]);
    }
  }

  lemma SameMode(h: Heap, h': Heap, mt: Option<Id>)
    requires SameTables(h, h')
    ensures WeakMode(h', mt) == WeakMode(h, mt)
  {
    if mt.Some? && mt.value in h { assert SameTable(h[mt.value], h'[mt.value]); }
  }

  lemma UdataInHeap(h: Heap, o: Id, k: set<Id>)
    requires Complete(h) && MarkClosed(h, k) && o in h && o in k && h[o].Udata?
    ensures (h[o].mt.Some? ==> h[o].mt.value in h && h[o].mt.value in k) && h[o].env in h && h[o].env in k
  {
    HeldRefs(h, o, k);
  }

  // A closure, prototype or thread that was taken from the gray list and traversed
  lemma OtherPropagated(h: Heap, m: Marking, m': Marking, gray': seq<Id>, gray: seq<Id>, o: Id, k: set<Id>,
                        again: seq<Id>, again': seq<Id>, weak: seq<Id>)
    requires gray != [] && o == gray[0] && Lists(h, m, gray, again, weak) && o in h && o in m && !h[o].Tab?
    requires var c := if h[o].Thread? then Gray else Black;
             Marked(h, m[o := m[o].(color := c)], gray[1..], m', gray', k)
    requires again' == (if h[o].Thread? then [o] + again else again)
    requires forall r :: Refers(h, h[o], r) ==> Nonwhite(m', r)
    ensures Propagated(h, m, gray, again, weak, h, m', gray', again', weak, k) && Lists(h, m', gray', again', weak)
  {
    var c := if h[o].Thread? then Gray else Black;
    var m1 := m[o := m[o].(color := c)];
    hide Refers, Marked, Lists;
    GrayHead(h, m, gray, again, weak);
    MarkedAt(h, m1, gray[1..], m', gray', k, o);
    OtherLists(h, m, m1, gray, o, again, again', weak);
    assert m[o := m'[o]] == m1;
    ListsMarked(h, m1, gray[1..], m', gray', k, again', weak);
  }

  lemma OtherLists(h: Heap, m: Marking, m1: Marking, gray: seq<Id>, o: Id, again: seq<Id>, again': seq<Id>,
    weak: seq<Id>)
    requires gray != [] && o == gray[0] && Lists(h, m, gray, again, weak) && o in h && !h[o].Tab? && o in m
    requires m1 == m[o := m[o].(color := if h[o].Thread? then Gray else Black)]
      && again' == (if h[o].Thread? then [o] + again else again)
    ensures Lists(h, m1, gray[1..], again', weak)
  {
    NoDupTail(gray);
    if h[o].Thread? { NoDupCons(o, again); }
  }

  // What traversetable leaves: the table has the bits of its mode, and what it holds is marked.
  ghost predicate TableDone(h: Heap, h': Heap, m: Marking, m2: Marking, gray': seq<Id>, l: seq<Id>, o: Id, k: set<Id>,
    wk: bool, wv: bool) {
    && o in h && h[o].Tab? && o in m && o in m2 && Cleaned(h, o, h') && o in h' && h'[o].Tab?
    && m2[o] == (if wk || wv then m[o].(color := Black, kweak := wk, vweak := wv) else m[o].(color := Black))
    && Marked(h, m[o := m2[o]], l, m2, gray', k)
    && (forall r :: Holds(h', h'[o], wk, wv, r) ==> Nonwhite(m2, r))
  }

  lemma TableMarked(h: Heap, h': Heap, m: Marking, m2: Marking, m': Marking, gray': seq<Id>, l: seq<Id>, o: Id,
    k: set<Id>, wk: bool, wv: bool)
    requires TableDone(h, h', m, m2, gray', l, o, k, wk, wv)
    requires m' == (if wk || wv then m2[o := m2[o].(color := Gray)] else m2)
    ensures Marked(h', m[o := m'[o]], l, m', gray', k) && Traced(h', m', o) && m'.Keys == m2.Keys == m.Keys
  {
    hide Refers, Holds, Marked, Cleaned;
    var m1 := m[o := m2[o]];
    MarkedKeys(h, m1, l, m2, gray', k);
    Retouch(h, m1, l, o, m'[o], m2, gray', k);
    assert m1[o := m'[o]] == m[o := m'[o]] && m2[o := m'[o]] == m';
    CleanedMarked(h, o, h', m[o := m'[o]], l, m', gray', k);
    TableTraced(h', m2, m', o, wk, wv);
  }

  // A table that was taken from the gray list and traversed
  lemma TablePropagated(h: Heap, h': Heap, m: Marking, m2: Marking, m': Marking, gray': seq<Id>, gray: seq<Id>, o: Id,
    k: set<Id>,
                        again: seq<Id>, weak: seq<Id>, weak': seq<Id>, wk: bool, wv: bool)
    requires gray != [] && o == gray[0] && Lists(h, m, gray, again, weak) && m.Keys == h.Keys && Complete(h)
      && MarkClosed(h, k)
    requires TableDone(h, h', m, m2, gray', gray[1..], o, k, wk, wv)
    requires weak' == (if wk || wv then [o] + weak else weak)
    requires m' == (if wk || wv then m2[o := m2[o].(color := Gray)] else m2) && (wk, wv) == WeakMode(h, h[o].mt)
    ensures m'.Keys == h'.Keys && Complete(h') && MarkClosed(h', k)
    ensures Propagated(h, m, gray, again, weak, h', m', gray', again, weak', k) && Lists(h', m', gray', again, weak')
  {
    TableMode(h, h', m, m2, m', gray', gray[1..], o, k, wk, wv);
    hide Complete, Closed, MarkClosed, Refers, Holds, Marked, Lists, Cleaned, Traced, ModeRight;
    CleanedGraph(h, o, h', k);
    CleanedMarkClosed(h, o, h', k);
    GrayHead(h, m, gray, again, weak);
    TableMarked(h, h', m, m2, m', gray', gray[1..], o, k, wk, wv);
    TableLists(h, h', m, m[o := m'[o]], gray, o, again, weak, weak');
    ListsMarked(h', m[o := m'[o]], gray[1..], m', gray', k, again, weak');
  }

  lemma TableMode(h: Heap, h': Heap, m: Marking, m2: Marking, m': Marking, gray': seq<Id>, l: seq<Id>, o: Id,
    k: set<Id>, wk: bool, wv: bool)
    requires TableDone(h, h', m, m2, gray', l, o, k, wk, wv) && (wk, wv) == WeakMode(h, h[o].mt)
    requires m' == (if wk || wv then m2[o := m2[o].(color := Gray)] else m2)
    ensures m'[o].color.Gray? ==> ModeRight(h', m', o)
  {
    hide Marked, Holds, WeakMode;
    CleanedIsHeap(h, o, h');
    CleanedSameTables(h, h');
    SameMode(h, h', h[o].mt);
  }

  lemma GrayHead(h: Heap, m: Marking, gray: seq<Id>, again: seq<Id>, weak: seq<Id>)
    requires gray != [] && Lists(h, m, gray, again, weak)
    ensures gray[0] in h && gray[0] in m && m[gray[0]].color.Gray? && Queued(h[gray[0]]) && NoDup(gray) && NoDup(weak)
      && gray[0] !in weak
  {
    assert gray[0] in gray;
  }

  lemma TableTraced(h: Heap, m2: Marking, m': Marking, o: Id, wk: bool, wv: bool)
    requires o in h && o in m' && o in m2 && h[o].Tab? && !m2[o].color.White? && !m'[o].color.White?
      && m' == m2[o := m'[o]]
    requires forall r :: Holds(h, h[o], wk, wv, r) ==> Nonwhite(m2, r)
    requires KeysWeak(m'[o]) == wk && ValuesWeak(m'[o]) == wv
    ensures Traced(h, m', o)
  {
  }

  lemma TableLists(h: Heap, h': Heap, m: Marking, m': Marking, gray: seq<Id>, o: Id, again: seq<Id>, weak: seq<Id>,
    weak': seq<Id>)
    requires gray != [] && o == gray[0] && Lists(h, m, gray, again, weak) && h[o].Tab? && Cleaned(h, o, h') && o in m
    requires o in m' && m' == m[o := m'[o]] && weak' == (if m'[o].color.Gray? then [o] + weak else weak)
    ensures Lists(h', m', gray[1..], again, weak')
  {
    NoDupTail(gray);
    if m'[o].color.Gray? { NoDupCons(o, weak); }
  }
}

/** The hash part of a Lua table (ltable.c) */
module TableNodes {
  // A chained scatter table with Brent's variation

  import opened Basics
  import opened TableSizes

  // Keys: numbers without NaN and -0, other values that are compared by themselves, and collectable objects
  datatype Key = NilKey | Num(r: real) | Atom(id: nat) | Ref(id: nat)

  datatype Value = Nil | Val(v: int)

  // The key of a node; a dead key is that of a removed entry whose key the collector has given up.
  datatype NodeKey = NoKey | DeadKey(k: Key) | KeyOf(k: Key)

  // `next` is the index of the next node of the chain, or -1.
  datatype Node = Node(key: NodeKey, val: Value, next: int)

  // mainposition: where a key belongs in a table with 2 to the power of n nodes
  type Hash = f: (Key, nat) -> nat | forall k, n :: f(k, n) < Pow2(n) witness (k: Key, n: nat) => 0

  // Where a node is: the chain that it belongs to, and its place in that
  datatype Spot = Spot(strand: nat, rank: real)

  // The chain leads from i to j.
  predicate After(c: seq<Spot>, i: nat, j: nat)
    requires i < |c| && j < |c|
  {
    c[i].strand == c[j].strand && c[i].rank <= c[j].rank
  }

  // next is the node right behind i.
  ghost predicate Successor(ns: seq<Node>, c: seq<Spot>, i: nat)
    requires i < |ns| == |c|
  {
    var n := ns[i].next;
    if n == -1 then
      forall j: nat :: j < |c| && After(c, i, j) ==> j == i
    else
      0 <= n < |ns| && n != i && After(c, i, n)
      && forall j: nat :: j < |c| && j != i && After(c, i, j) ==> After(c, n, j)
  }

  ghost predicate Chained(ns: seq<Node>, c: seq<Spot>) {
    |ns| == |c| && NoDup(c) && forall i: nat :: i < |ns| ==> Successor(ns, c, i)
  }

  lemma Comparable(c: seq<Spot>, i: nat, j: nat)
    requires i < |c| && j < |c| && c[i].strand == c[j].strand
    ensures After(c, i, j) || After(c, j, i)
  {
  }

  /** A node has at most one predecessor, and no chain comes back to a node. */
  lemma OnePredecessor(ns: seq<Node>, c: seq<Spot>, i: nat, j: nat)
    requires Chained(ns, c) && i < |ns| && j < |ns| && ns[i].next == ns[j].next != -1
    ensures 0 <= ns[i].next < |ns| && i == j && c[i].rank < c[ns[i].next].rank
  {
    assert Successor(ns, c, i) && Successor(ns, c, j);
    var n := ns[i].next;
    assert c[i] != c[n] && c[j] != c[n];
    if i != j {
      assert c[i] != c[j];
      Comparable(c, i, j);
    }
  }

  // ---- the invariant ---------------------------------------------------------------------------------------

  predicate Filled(n: Node) {
    n.val != Nil
  }

  // findindex also accepts a dead key.
  predicate Matches(n: Node, k: Key) {
    n.key == KeyOf(k) || n.key == DeadKey(k)
  }

  ghost predicate NodeOk(ns: seq<Node>, c: seq<Spot>, f: Hash, ls: nat, x: nat)
    requires x < |ns| == |c| == Pow2(ls)
  {
    match ns[x].key
    case NoKey => ns[x].val == Nil && ns[x].next == -1
      && forall j: nat :: j < |c| && j != x ==> c[j].strand != c[x].strand
    case DeadKey(k) => ns[x].val == Nil
    case KeyOf(k) => k != NilKey && ns[f(k, ls)].key != NoKey && (Filled(ns[x]) ==> After(c, f(k, ls), x))
  }

  // The main invariant of these tables: if x is not in its main position p, then p is in its own; and a key is
  // found before any other node with that key.
  ghost predicate PairOk(ns: seq<Node>, c: seq<Spot>, f: Hash, ls: nat, p: nat, x: nat)
    requires p < |ns| && x < |ns| == |c| == Pow2(ls)
  {
    && (ns[p].key.KeyOf? && ns[x].key.KeyOf? && f(ns[x].key.k, ls) == p && After(c, p, x) ==> f(ns[p].key.k, ls) == p)
    && (ns[x].key.KeyOf? && Matches(ns[p], ns[x].key.k) && After(c, f(ns[x].key.k, ls), p) ==> !After(c, p, x))
  }

  ghost predicate HashOk(ns: seq<Node>, c: seq<Spot>, f: Hash, ls: nat) {
    && |ns| == Pow2(ls) && Chained(ns, c)
    && (forall x: nat :: x < |ns| ==> NodeOk(ns, c, f, ls, x))
    && (forall p: nat, x: nat :: p < |ns| && x < |ns| && p != x ==> PairOk(ns, c, f, ls, p, x))
  }

  // The entry is in the table.
  ghost predicate Holds(ns: seq<Node>, k: Key, v: Value) {
    exists x: nat :: x < |ns| && ns[x].key == KeyOf(k) && ns[x].val == v != Nil
  }

  ghost predicate SameEntries(ns: seq<Node>, ns': seq<Node>) {
    forall k, v :: Holds(ns', k, v) <==> Holds(ns, k, v)
  }

  lemma NodeIs(ns: seq<Node>, c: seq<Spot>, f: Hash, ls: nat, x: nat)
    requires HashOk(ns, c, f, ls) && x < |ns|
    ensures |ns| == |c| == Pow2(ls) && NodeOk(ns, c, f, ls, x)
  {
  }

  lemma PairsAre(ns: seq<Node>, c: seq<Spot>, f: Hash, ls: nat, x: nat, y: nat)
    requires HashOk(ns, c, f, ls) && x < |ns| && y < |ns| && x != y
    ensures |ns| == |c| == Pow2(ls) && PairOk(ns, c, f, ls, x, y) && PairOk(ns, c, f, ls, y, x)
  {
  }

  lemma SomeOrder(c: seq<Spot>, x: nat, y: nat, m: nat)
    requires x < |c| && y < |c| && m < |c| && After(c, m, x) && After(c, m, y)
    ensures After(c, x, y) || After(c, y, x)
  {
  }

  /** A key has one value. */
  lemma OneValue(ns: seq<Node>, c: seq<Spot>, f: Hash, ls: nat, x: nat, y: nat)
    requires HashOk(ns, c, f, ls) && x < |ns| && y < |ns| && Filled(ns[x]) && Filled(ns[y]) && ns[x].key == ns[y].key
    ensures x == y
  {
    NodeIs(ns, c, f, ls, x);
    NodeIs(ns, c, f, ls, y);
    if x != y {
      PairsAre(ns, c, f, ls, x, y);
      SomeOrder(c, x, y, f(ns[x].key.k, ls));
    }
  }

  // ---- a chain is searched ---------------------------------------------------------------------------------

  ghost function Rest(c: seq<Spot>, i: nat): set<nat>
    requires i < |c|
  {
    set j: nat | j < |c| && After(c, i, j)
  }

  lemma RestShrinks(ns: seq<Node>, c: seq<Spot>, i: nat)
    requires Chained(ns, c) && i < |ns| && ns[i].next != -1
    ensures 0 <= ns[i].next < |ns| && |Rest(c, ns[i].next)| < |Rest(c, i)|
  {
    assert Successor(ns, c, i);
    var n := ns[i].next;
    assert c[i] != c[n];
    assert i in Rest(c, i) && i !in Rest(c, n);
    SubsetCount(Rest(c, n), Rest(c, i));
  }

  // Nodes from m up to i, without i, do not match.
  ghost predicate Unmatched(ns: seq<Node>, c: seq<Spot>, m: nat, i: nat, k: Key, dead: bool)
    requires m < |ns| && i < |ns| == |c|
  {
    After(c, m, i) && forall x: nat :: x < |ns| && After(c, m, x) && !After(c, i, x) ==> !IsKey(ns[x], k, dead)
  }

  predicate IsKey(n: Node, k: Key, dead: bool) {
    n.key == KeyOf(k) || (dead && n.key == DeadKey(k))
  }

  lemma SearchNext(ns: seq<Node>, c: seq<Spot>, m: nat, i: nat, k: Key, dead: bool)
    requires Chained(ns, c) && m < |ns| && i < |ns| && Unmatched(ns, c, m, i, k, dead) && !IsKey(ns[i], k, dead)
    ensures ns[i].next == -1 ==> forall x: nat :: x < |ns| && After(c, m, x) ==> !IsKey(ns[x], k, dead)
    ensures ns[i].next != -1 ==> 0 <= ns[i].next < |ns| && Unmatched(ns, c, m, ns[i].next, k, dead)
  {
    assert Successor(ns, c, i);
  }

  // ---- a new key -------------------------------------------------------------------------------------------

  // The node for a key that was set or found, before its value is stored
  ghost predicate SlotFor(ns: seq<Node>, c: seq<Spot>, f: Hash, ls: nat, i: nat, k: Key) {
    i < |ns| == |c| == Pow2(ls) && ns[i].key == KeyOf(k) && After(c, f(k, ls), i)
  }

  /** Storing a value */
  lemma StoreOk(ns: seq<Node>, c: seq<Spot>, f: Hash, ls: nat, i: nat, k: Key, v: Value)
    requires HashOk(ns, c, f, ls) && SlotFor(ns, c, f, ls, i, k)
    ensures HashOk(ns[i := ns[i].(val := v)], c, f, ls)
  {
    var ns' := ns[i := ns[i].(val := v)];
    forall x: nat | x < |ns|
      ensures NodeOk(ns', c, f, ls, x) && Successor(ns', c, x)
    {
      assert NodeOk(ns, c, f, ls, x) && Successor(ns, c, x);
    }
    forall p: nat, x: nat | p < |ns| && x < |ns| && p != x
      ensures PairOk(ns', c, f, ls, p, x)
    {
      assert PairOk(ns, c, f, ls, p, x);
    }
  }

  // No node that the key k leads to has it.
  ghost predicate Absent(ns: seq<Node>, c: seq<Spot>, f: Hash, ls: nat, k: Key)
    requires |ns| == |c| == Pow2(ls)
  {
    forall x: nat :: x < |ns| && After(c, f(k, ls), x) ==> ns[x].key != KeyOf(k)
  }

  // newkey: the main position has no value.
  function Reused(ns: seq<Node>, m: nat, k: Key): seq<Node>
    requires m < |ns|
  {
    ns[m := ns[m].(key := KeyOf(k))]
  }

  lemma ReusedOk(ns: seq<Node>, c: seq<Spot>, f: Hash, ls: nat, k: Key)
    requires HashOk(ns, c, f, ls) && k != NilKey && Absent(ns, c, f, ls, k) && !Filled(ns[f(k, ls)])
    ensures HashOk(Reused(ns, f(k, ls), k), c, f, ls) && SlotFor(Reused(ns, f(k, ls), k), c, f, ls, f(k, ls), k)
  {
    var m := f(k, ls);
    var ns' := Reused(ns, m, k);
    forall x: nat | x < |ns|
      ensures NodeOk(ns', c, f, ls, x) && Successor(ns', c, x)
    {
      assert NodeOk(ns, c, f, ls, x) && Successor(ns, c, x);
    }
    forall p: nat, x: nat | p < |ns| && x < |ns| && p != x
      ensures PairOk(ns', c, f, ls, p, x)
    {
      assert PairOk(ns, c, f, ls, p, x);
    }
  }

  // newkey: the colliding node is in its own main position; the new one, n, is put behind it.
  function Chaining(ns: seq<Node>, m: nat, n: nat, k: Key): seq<Node>
    requires m < |ns| && n < |ns|
  {
    ns[n := Node(KeyOf(k), Nil, ns[m].next)][m := ns[m].(next := n)]
  }

  function ChainingSpots(ns: seq<Node>, c: seq<Spot>, m: nat, n: nat): seq<Spot>
    requires m < |c| && n < |c| == |ns| && -1 <= ns[m].next < |c|
  {
    c[n := Spot(c[m].strand, if ns[m].next == -1 then c[m].rank + 1.0 else (c[m].rank + c[ns[m].next].rank) / 2.0)]
  }

  lemma NextInside(ns: seq<Node>, c: seq<Spot>, i: nat)
    requires Chained(ns, c) && i < |ns|
    ensures -1 <= ns[i].next < |ns| && ns[i].next != i
  {
    assert Successor(ns, c, i);
  }

  // The free node n gets a place right behind m.
  lemma ChainingBetween(ns: seq<Node>, c: seq<Spot>, m: nat, n: nat)
    requires Chained(ns, c) && m < |ns| && n < |ns| && m != n && -1 <= ns[m].next < |ns|
    requires forall j: nat :: j < |c| && j != n ==> c[j].strand != c[n].strand
    ensures var c' := ChainingSpots(ns, c, m, n);
            && |c'| == |c| && NoDup(c') && c'[n].strand == c[m].strand && c'[n].rank > c[m].rank
            && (forall i: nat, j: nat :: i < |c| && j < |c| && i != n && j != n ==>
                (After(c', i, j) <==> After(c, i, j)))
            && (forall i: nat :: i < |c| && i != n ==> (After(c', i, n) <==> After(c, i, m)))
            && (forall i: nat :: i < |c| && i != n ==> (After(c', n, i) <==> After(c, m, i) && i != m))
  {
    assert Successor(ns, c, m);
    var c', n2 := ChainingSpots(ns, c, m, n), ns[m].next;
    if n2 != -1 {
      assert c[m] != c[n2] && After(c, m, n2);
      assert c[m].rank < c'[n].rank < c[n2].rank;
    }
    forall i: nat | i < |c| && i != n
      ensures After(c', i, n) <==> After(c, i, m)
      ensures After(c', n, i) <==> After(c, m, i) && i != m
      ensures c'[i] != c'[n]
    {
      if c[i].strand == c[m].strand && c[i].rank > c[m].rank {
        assert After(c, m, i);
        assert n2 != -1 && After(c, n2, i);
      }
      if i != m { assert c[i] != c[m]; }
    }
  }

  lemma ChainingChained(ns: seq<Node>, c: seq<Spot>, m: nat, n: nat, k: Key)
    requires Chained(ns, c) && m < |ns| && n < |ns| && m != n && -1 <= ns[m].next < |ns|
    requires forall j: nat :: j < |c| && j != n ==> c[j].strand != c[n].strand
    ensures Chained(Chaining(ns, m, n, k), ChainingSpots(ns, c, m, n))
  {
    var ns', c' := Chaining(ns, m, n, k), ChainingSpots(ns, c, m, n);
    ChainingBetween(ns, c, m, n);
    assert Successor(ns, c, m);
    hide ChainingSpots, NoDup;
    forall i: nat | i < |ns|
      ensures Successor(ns', c', i)
    {
      assert Successor(ns, c, i);
      hide After;
      if i == n {
        if ns[m].next == -1 {
          forall j: nat | j < |c| && After(c', n, j)
            ensures j == n
          {
          }
        }
      } else if i != m {
        NextApart(ns, c, i, n);
        if ns[i].next != -1 && After(c', i, n) { assert After(c, i, m) && After(c, ns[i].next, m); }
      } else {
        assert After(c', m, n) by { AfterRefl(c, m); }
      }
    }
  }

  lemma AfterRefl(c: seq<Spot>, m: nat)
    requires m < |c|
    ensures After(c, m, m)
  {
  }

  // Nothing leads to a node that is alone.
  lemma NextApart(ns: seq<Node>, c: seq<Spot>, i: nat, n: nat)
    requires Chained(ns, c) && i < |ns| && n < |ns| && i != n
      && forall j: nat :: j < |c| && j != n ==> c[j].strand != c[n].strand
    ensures ns[i].next != n
  {
    assert Successor(ns, c, i);
  }

  lemma ChainingOk(ns: seq<Node>, c: seq<Spot>, f: Hash, ls: nat, n: nat, k: Key)
    requires HashOk(ns, c, f, ls) && k != NilKey && Absent(ns, c, f, ls, k) && Filled(ns[f(k, ls)])
    requires n < |ns| && ns[n].key == NoKey && ns[f(k, ls)].key.KeyOf? && f(ns[f(k, ls)].key.k, ls) == f(k, ls)
    ensures var m := f(k, ls);
            -1 <= ns[m].next < |ns| && HashOk(Chaining(ns, m, n, k), ChainingSpots(ns, c, m, n), f, ls)
            && SlotFor(Chaining(ns, m, n, k), ChainingSpots(ns, c, m, n), f, ls, n, k)
  {
    var m := f(k, ls);
    NextInside(ns, c, m);
    assert NodeOk(ns, c, f, ls, n) && NodeOk(ns, c, f, ls, m);
    var ns', c' := Chaining(ns, m, n, k), ChainingSpots(ns, c, m, n);
    ChainingBetween(ns, c, m, n);
    ChainingChained(ns, c, m, n, k);
    AfterRefl(c, m);
    hide ChainingSpots, Chained, After;
    forall x: nat | x < |ns|
      ensures NodeOk(ns', c', f, ls, x)
    {
      assert NodeOk(ns, c, f, ls, x);
    }
    forall p: nat, x: nat | p < |ns| && x < |ns| && p != x
      ensures PairOk(ns', c', f, ls, p, x)
    {
      assert PairOk(ns, c, f, ls, p, x);
      ChainingPair(ns, c, f, ls, n, k, p, x, ns', c');
    }
  }

  lemma ChainingPair(ns: seq<Node>, c: seq<Spot>, f: Hash, ls: nat, n: nat, k: Key, p: nat, x: nat, ns': seq<Node>,
    c': seq<Spot>)
    requires HashOk(ns, c, f, ls) && Absent(ns, c, f, ls, k) && n < |ns| && ns[n].key == NoKey && p < |ns| && x < |ns|
      && p != x
    requires Filled(ns[f(k, ls)]) && ns[f(k, ls)].key.KeyOf? && f(ns[f(k, ls)].key.k, ls) == f(k, ls)
      && PairOk(ns, c, f, ls, p, x)
    requires ns' == Chaining(ns, f(k, ls), n, k) && |c'| == |c|
    requires forall i: nat, j: nat :: i < |c| && j < |c| && i != n && j != n ==> (After(c', i, j) <==> After(c, i, j))
    requires forall i: nat :: i < |c| && i != n ==> (After(c', i, n) <==> After(c, i, f(k, ls)))
    requires forall i: nat :: i < |c| && i != n ==> (After(c', n, i) <==> After(c, f(k, ls), i) && i != f(k, ls))
    ensures PairOk(ns', c', f, ls, p, x)
  {
    assert NodeOk(ns, c, f, ls, n) && NodeOk(ns, c, f, ls, x) && NodeOk(ns, c, f, ls, p)
      && NodeOk(ns, c, f, ls, f(k, ls));
    if x == n && p != f(k, ls) { Antisymmetric(c, p, f(k, ls)); }
    hide Chained, After;
  }

  lemma Antisymmetric(c: seq<Spot>, i: nat, j: nat)
    requires NoDup(c) && i < |c| && j < |c| && i != j
    ensures !(After(c, i, j) && After(c, j, i))
  {
    assert c[i] != c[j];
  }

  // newkey: the colliding node is not in its main position; it moves to the free node n, and its place in the
  // chain with it.
  function Moving(ns: seq<Node>, m: nat, n: nat, prev: nat, k: Key): seq<Node>
    requires m < |ns| && n < |ns| && prev < |ns|
  {
    ns[prev := ns[prev].(next := n)][n := ns[m]][m := Node(KeyOf(k), Nil, -1)]
  }

  function MovingSpots(c: seq<Spot>, m: nat, n: nat): seq<Spot>
    requires m < |c| && n < |c|
  {
    c[n := c[m]][m := c[n]]
  }

  // Where a node has gone
  function Swap(m: nat, n: nat, i: nat): nat {
    if i == m then n else if i == n then m else i
  }

  lemma MovingAfter(c: seq<Spot>, m: nat, n: nat)
    requires m < |c| && n < |c| && m != n
    ensures var c' := MovingSpots(c, m, n);
            |c'| == |c| && (NoDup(c) ==> NoDup(c'))
            && forall i: nat, j: nat :: i < |c| && j < |c| ==>
                (After(c', i, j) <==> After(c, Swap(m, n, i), Swap(m, n, j)))
  {
    var c' := MovingSpots(c, m, n);
    if NoDup(c) {
      forall i, j | 0 <= i < j < |c|
        ensures c'[i] != c'[j]
      {
        var a, b := Swap(m, n, i), Swap(m, n, j);
        assert c'[i] == c[a] && c'[j] == c[b] && a != b;
        if a < b { assert c[a] != c[b]; } else { assert c[b] != c[a]; }
      }
    }
  }

  ghost predicate Alone(c: seq<Spot>, n: nat) {
    n < |c| && forall j: nat :: j < |c| && j != n ==> c[j].strand != c[n].strand
  }

  lemma AloneAfter(c: seq<Spot>, n: nat)
    requires Alone(c, n)
    ensures forall j: nat :: j < |c| ==> (After(c, n, j) <==> j == n) && (After(c, j, n) <==> j == n)
  {
  }

  lemma MovingChained(ns: seq<Node>, c: seq<Spot>, m: nat, n: nat, prev: nat, k: Key)
    requires Chained(ns, c) && m < |ns| && n < |ns| && m != n && prev < |ns| && ns[prev].next == m && prev != m
      && prev != n && Alone(c, n)
    ensures Chained(Moving(ns, m, n, prev, k), MovingSpots(c, m, n))
  {
    var ns', c' := Moving(ns, m, n, prev, k), MovingSpots(c, m, n);
    MovingAfter(c, m, n);
    AloneAfter(c, n);
    forall i: nat | i < |ns|
      ensures Successor(ns', c', i)
    {
      MovingSuccessor(ns, c, m, n, prev, k, i);
    }
  }

  lemma MovingSuccessor(ns: seq<Node>, c: seq<Spot>, m: nat, n: nat, prev: nat, k: Key, i: nat)
    requires Chained(ns, c) && m < |ns| && n < |ns| && m != n && prev < |ns| && ns[prev].next == m && prev != m
      && prev != n && i < |ns|
    requires forall j: nat :: j < |c| ==> (After(c, n, j) <==> j == n) && (After(c, j, n) <==> j == n)
    ensures Successor(Moving(ns, m, n, prev, k), MovingSpots(c, m, n), i)
  {
    MovingAfter(c, m, n);
    assert Successor(ns, c, i) && Successor(ns, c, m);
    var ns', c' := Moving(ns, m, n, prev, k), MovingSpots(c, m, n);
    if i != prev && i != n && i != m && ns[i].next == m { OnePredecessor(ns, c, i, prev); }
    var o := if i == n then m else i;
    if i != m { assert ns[o].next != n; }
    hide MovingSpots, NoDup, After;
    forall j: nat | j < |c| && After(c', i, j)
      ensures if ns'[i].next == -1 then j == i else j == i || After(c', ns'[i].next, j)
    {
      assert After(c, Swap(m, n, i), Swap(m, n, j));
    }
  }

  lemma MovingOk(ns: seq<Node>, c: seq<Spot>, f: Hash, ls: nat, n: nat, prev: nat, k: Key)
    requires HashOk(ns, c, f, ls) && k != NilKey && Filled(ns[f(k, ls)]) && n < |ns| && ns[n].key == NoKey
      && prev < |ns|
    requires ns[f(k, ls)].key.KeyOf? && f(ns[f(k, ls)].key.k, ls) != f(k, ls)
    requires prev != f(k, ls) && prev != n && ns[prev].next == f(k, ls)
    ensures var m := f(k, ls);
            HashOk(Moving(ns, m, n, prev, k), MovingSpots(c, m, n), f, ls)
            && SlotFor(Moving(ns, m, n, prev, k), MovingSpots(c, m, n), f, ls, m, k)
  {
    var m := f(k, ls);
    assert NodeOk(ns, c, f, ls, n);
    assert Alone(c, n);
    var ns', c' := Moving(ns, m, n, prev, k), MovingSpots(c, m, n);
    MovingAfter(c, m, n);
    AloneAfter(c, n);
    MovingChained(ns, c, m, n, prev, k);
    forall x: nat | x < |ns|
      ensures NodeOk(ns', c', f, ls, x)
    {
      MovingNode(ns, c, f, ls, n, prev, k, x, ns', c');
    }
    forall p: nat, x: nat | p < |ns| && x < |ns| && p != x
      ensures PairOk(ns', c', f, ls, p, x)
    {
      MovingPair(ns, c, f, ls, n, prev, k, p, x, ns', c');
    }
    AfterRefl(c', m);
  }

  // What the two lemmas below need to know about the move
  ghost predicate Moved(ns: seq<Node>, c: seq<Spot>, m: nat, n: nat, prev: nat, k: Key, ns': seq<Node>, c': seq<Spot>) {
    && m < |ns| == |c| && n < |ns| && prev < |ns| && m != n && prev != m && prev != n
      && ns' == Moving(ns, m, n, prev, k) && |c'| == |c|
    && c' == MovingSpots(c, m, n)
    && (forall i: nat, j: nat :: i < |c| && j < |c| ==> (After(c', i, j) <==> After(c, Swap(m, n, i), Swap(m, n, j))))
    && (forall j: nat :: j < |c| ==> (After(c, n, j) <==> j == n) && (After(c, j, n) <==> j == n))
  }

  lemma MovingNode(ns: seq<Node>, c: seq<Spot>, f: Hash, ls: nat, n: nat, prev: nat, k: Key, x: nat, ns': seq<Node>,
    c': seq<Spot>)
    requires HashOk(ns, c, f, ls) && Moved(ns, c, f(k, ls), n, prev, k, ns', c') && x < |ns| && k != NilKey
    requires Filled(ns[f(k, ls)]) && ns[n].key == NoKey && ns[f(k, ls)].key.KeyOf?
      && f(ns[f(k, ls)].key.k, ls) != f(k, ls)
    requires ns[prev].next == f(k, ls)
    ensures NodeOk(ns', c', f, ls, x)
  {
    var m := f(k, ls);
    assert NodeOk(ns, c, f, ls, n) && NodeOk(ns, c, f, ls, x) && NodeOk(ns, c, f, ls, m) && NodeOk(ns, c, f, ls, prev);
    if x != m && x != n && ns[x].key.KeyOf? {
      assert PairOk(ns, c, f, ls, m, x);
    }
  }

  lemma MovingPair(ns: seq<Node>, c: seq<Spot>, f: Hash, ls: nat, n: nat, prev: nat, k: Key, p: nat, x: nat,
    ns': seq<Node>, c': seq<Spot>)
    requires HashOk(ns, c, f, ls) && Moved(ns, c, f(k, ls), n, prev, k, ns', c') && x < |ns| && p < |ns| && p != x
    requires Filled(ns[f(k, ls)]) && ns[n].key == NoKey && ns[f(k, ls)].key.KeyOf?
      && f(ns[f(k, ls)].key.k, ls) != f(k, ls)
    ensures PairOk(ns', c', f, ls, p, x)
  {
    var m := f(k, ls);
    assert NodeOk(ns, c, f, ls, n) && NodeOk(ns, c, f, ls, x) && NodeOk(ns, c, f, ls, m);
    var p0, x0 := Swap(m, n, p), Swap(m, n, x);
    assert PairOk(ns, c, f, ls, p0, x0);
    assert PairOk(ns, c, f, ls, p, x);
    hide After, MovingSpots;
  }

  // ---- what the table contains -----------------------------------------------------------------------------

  lemma ReusedEntries(ns: seq<Node>, m: nat, k: Key)
    requires m < |ns| && !Filled(ns[m])
    ensures SameEntries(ns, Reused(ns, m, k))
  {
    SameByMap(ns, Reused(ns, m, k), m, m);
  }

  lemma ChainingEntries(ns: seq<Node>, m: nat, n: nat, k: Key)
    requires m < |ns| && n < |ns| && m != n && !Filled(ns[n])
    ensures SameEntries(ns, Chaining(ns, m, n, k))
  {
    SameByMap(ns, Chaining(ns, m, n, k), m, m);
  }

  lemma MovingEntries(ns: seq<Node>, m: nat, n: nat, prev: nat, k: Key)
    requires m < |ns| && n < |ns| && prev < |ns| && m != n && prev != m && prev != n && !Filled(ns[n])
    ensures SameEntries(ns, Moving(ns, m, n, prev, k))
  {
    SameByMap(ns, Moving(ns, m, n, prev, k), m, n);
  }

  lemma SameByMap(ns: seq<Node>, ns': seq<Node>, m: nat, n: nat)
    requires |ns'| == |ns| && m < |ns| && n < |ns|
    requires forall x: nat :: x < |ns| && (Filled(ns[x]) || Filled(ns'[Swap(m, n, x)])) ==>
               ns'[Swap(m, n, x)].key == ns[x].key && ns'[Swap(m, n, x)].val == ns[x].val
    ensures SameEntries(ns, ns')
  {
    forall k, v
      ensures Holds(ns', k, v) <==> Holds(ns, k, v)
    {
      if Holds(ns, k, v) {
        var x: nat :| x < |ns| && ns[x].key == KeyOf(k) && ns[x].val == v != Nil;
        assert ns'[Swap(m, n, x)].key == KeyOf(k);
      }
      if Holds(ns', k, v) {
        var y: nat :| y < |ns| && ns'[y].key == KeyOf(k) && ns'[y].val == v != Nil;
        var x := Swap(m, n, y);
        assert Swap(m, n, x) == y;
        assert ns[x].key == KeyOf(k);
      }
    }
  }

  /** After a value has been stored the key has it, and all other entries are as they were. */
  lemma StoreEntries(ns: seq<Node>, c: seq<Spot>, f: Hash, ls: nat, i: nat, k: Key, v: Value)
    requires HashOk(ns, c, f, ls) && SlotFor(ns, c, f, ls, i, k)
    ensures forall k', v' :: Holds(ns[i := ns[i].(val := v)], k', v') <==>
        if k' == k then v' == v != Nil else Holds(ns, k', v')
  {
    var ns' := ns[i := ns[i].(val := v)];
    forall x: nat | x < |ns| && x != i && Filled(ns[x])
      ensures ns[x].key != KeyOf(k)
    {
      assert NodeOk(ns, c, f, ls, x) && PairOk(ns, c, f, ls, x, i) && PairOk(ns, c, f, ls, i, x);
    }
    forall k', v'
      ensures Holds(ns', k', v') <==> if k' == k then v' == v != Nil else Holds(ns, k', v')
    {
      if k' == k && v' == v != Nil { assert ns'[i].key == KeyOf(k'); }
      if k' != k && Holds(ns, k', v') {
        var x: nat :| x < |ns| && ns[x].key == KeyOf(k') && ns[x].val == v' != Nil;
        assert ns'[x].key == KeyOf(k');
      }
      if Holds(ns', k', v') && k' != k {
        var x: nat :| x < |ns| && ns'[x].key == KeyOf(k') && ns'[x].val == v' != Nil;
        assert ns[x].key == KeyOf(k');
      }
    }
  }

  // A key without an entry
  lemma AbsentHolds(ns: seq<Node>, c: seq<Spot>, f: Hash, ls: nat, k: Key)
    requires HashOk(ns, c, f, ls) && Absent(ns, c, f, ls, k)
    ensures forall v :: !Holds(ns, k, v)
  {
    forall v
      ensures !Holds(ns, k, v)
    {
      if Holds(ns, k, v) {
        var x: nat :| x < |ns| && ns[x].key == KeyOf(k) && ns[x].val == v != Nil;
        NodeIs(ns, c, f, ls, x);
      }
    }
  }

  // The node of a slot says what the value of its key is.
  lemma SlotHolds(ns: seq<Node>, c: seq<Spot>, f: Hash, ls: nat, i: nat, k: Key)
    requires HashOk(ns, c, f, ls) && SlotFor(ns, c, f, ls, i, k)
    ensures forall v :: Holds(ns, k, v) <==> v == ns[i].val != Nil
  {
    StoreEntries(ns, c, f, ls, i, k, ns[i].val);
    assert ns[i := ns[i].(val := ns[i].val)] == ns;
  }

  // removeentry of the collector: the key of an entry without a value may be given up.
  lemma DeadOk(ns: seq<Node>, c: seq<Spot>, f: Hash, ls: nat, i: nat)
    requires HashOk(ns, c, f, ls) && i < |ns| && ns[i].key.KeyOf? && !Filled(ns[i])
    ensures var ns' := ns[i := ns[i].(key := DeadKey(ns[i].key.k))];
            HashOk(ns', c, f, ls) && SameEntries(ns, ns')
  {
    var ns' := ns[i := ns[i].(key := DeadKey(ns[i].key.k))];
    SameByMap(ns, ns', i, i);
    forall x: nat | x < |ns|
      ensures NodeOk(ns', c, f, ls, x) && Successor(ns', c, x)
    {
      assert NodeOk(ns, c, f, ls, x) && Successor(ns, c, x);
    }
    forall p: nat, x: nat | p < |ns| && x < |ns| && p != x
      ensures PairOk(ns', c, f, ls, p, x)
    {
      assert PairOk(ns, c, f, ls, p, x);
    }
  }

  // ---- an empty hash part ----------------------------------------------------------------------------------

  function Fresh(n: nat): seq<Node> {
    seq(n, _ => Node(NoKey, Nil, -1))
  }

  function FreshSpots(n: nat): seq<Spot> {
    seq(n, i requires i >= 0 => Spot(i, 0.0))
  }

  lemma FreshOk(f: Hash, ls: nat)
    ensures HashOk(Fresh(Pow2(ls)), FreshSpots(Pow2(ls)), f, ls) && forall k, v :: !Holds(Fresh(Pow2(ls)), k, v)
  {
    var ns, c := Fresh(Pow2(ls)), FreshSpots(Pow2(ls));
    forall x: nat | x < |ns|
      ensures NodeOk(ns, c, f, ls, x) && Successor(ns, c, x)
    {
    }
  }

  // ---- room --------------------------------------------------------------------------------------------------

  ghost predicate HasFree(ns: seq<Node>) {
    exists i: nat :: i < |ns| && ns[i].key == NoKey
  }

  // Every node that is used has a value.
  ghost predicate Full(ns: seq<Node>) {
    forall i: nat :: i < |ns| && ns[i].key != NoKey ==> Filled(ns[i])
  }

  ghost function LiveKeys(ns: seq<Node>, n: nat): set<Key>
    requires n <= |ns|
  {
    set i: nat | i < n && Filled(ns[i]) && ns[i].key.KeyOf? :: ns[i].key.k
  }

  lemma {:induction false} LiveCount(ns: seq<Node>, c: seq<Spot>, f: Hash, ls: nat, n: nat)
    requires HashOk(ns, c, f, ls) && n <= |ns| && forall i: nat :: i < n ==> Filled(ns[i])
    ensures |LiveKeys(ns, n)| == n
  {
    if n > 0 {
      LiveCount(ns, c, f, ls, n - 1);
      assert NodeOk(ns, c, f, ls, n - 1);
      var k := ns[n - 1].key.k;
      if k in LiveKeys(ns, n - 1) {
        var i: nat :| i < n - 1 && Filled(ns[i]) && ns[i].key.KeyOf? && ns[i].key.k == k;
        OneValue(ns, c, f, ls, i, n - 1);
      }
      assert LiveKeys(ns, n) == LiveKeys(ns, n - 1) + {k};
    }
  }

  /** While there are fewer entries than nodes, and no node is wasted, a node is free. */
  lemma RoomLeft(ns: seq<Node>, c: seq<Spot>, f: Hash, ls: nat, keys: set<Key>)
    requires HashOk(ns, c, f, ls) && Full(ns) && |keys| < |ns|
    requires forall k, v :: Holds(ns, k, v) ==> k in keys
    ensures HasFree(ns)
  {
    if !HasFree(ns) {
      LiveCount(ns, c, f, ls, |ns|);
      forall k | k in LiveKeys(ns, |ns|)
        ensures k in keys
      {
        var i: nat :| i < |ns| && Filled(ns[i]) && ns[i].key.KeyOf? && ns[i].key.k == k;
        assert Holds(ns, k, ns[i].val);
      }
      SubsetCount(LiveKeys(ns, |ns|), keys);
    }
  }
}

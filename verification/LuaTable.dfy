/** Lua tables in place (ltable.c). */
module LuaTables {
  import opened Basics
  import opened TableSizes
  import opened TableNodes
  import opened TableContents

  // Where luaH_set says that a value is to be stored
  datatype Slot = NoSlot | ArraySlot(i: nat) | NodeSlot(i: nat)

  // Every node but i that is used has a value.
  ghost predicate FullBut(ns: seq<Node>, i: int) {
    forall j: nat :: j < |ns| && j != i && ns[j].key != NoKey ==> Filled(ns[j])
  }

  // All free nodes are below.
  ghost predicate FreeBelow(ns: seq<Node>, lastfree: int) {
    lastfree <= |ns| && forall i: nat :: lastfree <= i < |ns| ==> ns[i].key != NoKey
  }

  // The number of nodes for `size` entries
  function Capacity(size: nat): nat {
    if size == 0 then 0 else Pow2(CeilLog2(size))
  }

  ghost predicate Found(ns: seq<Node>, c: seq<Spot>, m: nat, k: Key, dead: bool, i: int)
    requires m < |ns| == |c|
  {
    if i == -1 then forall x: nat :: x < |ns| && After(c, m, x) ==> !IsKey(ns[x], k, dead)
    else 0 <= i < |ns| && Unmatched(ns, c, m, i, k, dead) && IsKey(ns[i], k, dead)
  }

  class Table {
    const hash: Hash
    var arr: array<Value>
    var sizearray: nat
    var node: array<Node>
    var lsizenode: nat
    var lastfree: int
    var dummy: bool                    // node is dummynode
    ghost var spots: seq<Spot>
    ghost var Contents: map<Key, Value>

    ghost predicate Hashed()
      reads this, node
    {
      HashOk(node[..], spots, hash, lsizenode)
    }

    ghost predicate FreeOk()
      reads this, node
    {
      if dummy then
        lsizenode == 0 && node.Length == 1 && node[0] == Node(NoKey, Nil, -1) && lastfree <= 0
      else
        FreeBelow(node[..], lastfree)
    }

    ghost predicate Valid()
      reads this, arr, node
    {
      sizearray <= arr.Length && Hashed() && FreeOk() && Refines(arr[..sizearray], node[..], Contents)
    }

    // A node is free.
    ghost predicate Room()
      reads this, node
    {
      !dummy && HasFree(node[..])
    }

    // There is a place for the key without a rehash.
    ghost predicate Fits(k: Key)
      reads this, node
    {
      InArray(k, sizearray) || Room()
    }

    ghost predicate SlotOk(s: Slot, k: Key)
      reads this, node
    {
      match s
      case NoSlot => false
      case ArraySlot(i) => i < sizearray && k == IntKey(i + 1)
      case NodeSlot(i) =>
        !InArray(k, sizearray) && !dummy && k != NilKey
        && SlotFor(node[..], spots, hash, lsizenode, i, k)
    }

    ghost predicate SameSizes(size: nat, lsize: nat, c: seq<Spot>)
      reads this
    {
      sizearray == size && lsizenode == lsize && spots == c
    }

    // ---- access --------------------------------------------------------------------------------------

    // The search of luaH_getnum, luaH_getstr, luaH_get and findindex: the chain of the main position
    method FindNode(k: Key, dead: bool) returns (i: int)
      requires Hashed()
      ensures hash(k, lsizenode) < node.Length == |spots| && Found(node[..], spots, hash(k, lsizenode), k, dead, i)
    {
      hide NodeOk, PairOk;
      ghost var m := hash(k, lsizenode);
      ghost var ns := node[..];
      i := hash(k, lsizenode);
      AfterRefl(spots, m);
      while !(node[i].key == KeyOf(k) || (dead && node[i].key == DeadKey(k)))
        invariant 0 <= i < node.Length && Unmatched(ns, spots, m, i, k, dead)
        decreases |Rest(spots, i)|
      {
        SearchNext(ns, spots, m, i, k, dead);
        if node[i].next == -1 { return -1; }
        RestShrinks(ns, spots, i);
        i := node[i].next;
      }
    }

    // luaH_get, as the place of the value
    method GetSlot(k: Key) returns (s: Slot)
      requires Valid()
      ensures s != NoSlot ==> SlotOk(s, k)
      ensures s == NoSlot ==> !InArray(k, sizearray) && k !in Contents && |spots| == node.Length == Pow2(lsizenode)
                              && (k == NilKey || Absent(node[..], spots, hash, lsizenode, k))
    {
      if k == NilKey { return NoSlot; }
      var n := ArrayIndex(k);
      if 1 <= n <= sizearray {
        KeyOfIndex(k);
        return ArraySlot(n - 1);
      }
      var i := FindNode(k, false);
      if i == -1 {
        Missing(arr[..sizearray], node[..], spots, hash, lsizenode, k, Contents);
        return NoSlot;
      }
      return NodeSlot(i);
    }

    /** luaH_get: the value that the map has for the key */
    method Get(k: Key) returns (v: Value)
      requires Valid()
      ensures v == ValueAt(Contents, k)
    {
      var s := GetSlot(k);
      match s {
        case NoSlot => v := Nil;
        case ArraySlot(i) =>
          v := arr[i];
          assert SlotAgrees(arr[..sizearray][i], IntKey(i + 1), Contents);
        case NodeSlot(i) =>
          v := node[i].val;
          SlotHolds(node[..], spots, hash, lsizenode, i, k);
          assert k in Contents ==> Holds(node[..], k, Contents[k]);
          assert v != Nil ==> Holds(node[..], k, v);
      }
    }

    // The value is stored at the place that luaH_set has returned.
    method Store(s: Slot, ghost k: Key, v: Value)
      requires Valid() && SlotOk(s, k)
      modifies this`Contents, arr, node
      ensures Valid() && Contents == Stored(old(Contents), k, v)
      ensures forall i :: sizearray <= i < arr.Length ==> arr[i] == old(arr[i])
      ensures Deadened(old(node[..]), node[..])
      ensures s.NodeSlot? && v != Nil && FullBut(old(node[..]), s.i) ==> Full(node[..])
      ensures s.ArraySlot? ==> node[..] == old(node[..])
    {
      hide HashOk, Refines;
      ghost var a, ns := arr[..sizearray], node[..];
      match s {
        case ArraySlot(i) =>
          arr[i] := v;
          assert arr[..sizearray] == a[i := v];
          ArrayStored(a, ns, Contents, i, v);
        case NodeSlot(i) =>
          StoreOk(ns, spots, hash, lsizenode, i, k, v);
          StoreEntries(ns, spots, hash, lsizenode, i, k, v);
          RefinesSize(a, ns, Contents);
          NodeStored(a, ns, Contents, ns[i := ns[i].(val := v)], k, v);
          node[i] := node[i].(val := v);
          assert node[..] == ns[i := ns[i].(val := v)];
      }
      Contents := Stored(Contents, k, v);
    }

    lemma RefinesSize(a: seq<Value>, ns: seq<Node>, m: map<Key, Value>)
      requires Refines(a, ns, m)
      ensures |a| <= MAXASIZE
    {
    }

    // ---- new keys ------------------------------------------------------------------------------------

    // getfreepos
    method GetFreePos() returns (n: int)
      requires FreeOk()
      modifies this`lastfree
      ensures -1 <= n < node.Length && (n == -1 ==> !Room())
        && (n >= 0 ==> !dummy && node[n].key == NoKey && lastfree == n)
      ensures n >= 0 ==> forall i :: n < i < node.Length ==> node[i].key != NoKey
      ensures n == -1 ==> FreeOk()
    {
      while true
        invariant dummy ==> lastfree <= 0
        invariant !dummy ==> FreeBelow(node[..], lastfree)
        decreases lastfree
      {
        var more := lastfree > 0;
        lastfree := lastfree - 1;
        if !more { return -1; }
        if node[lastfree].key == NoKey { return lastfree; }
      }
    }

    // The place of the previous node in the chain of mp
    method FindPrevious(othern: nat, mp: nat) returns (prev: nat)
      requires Hashed() && othern < node.Length && mp < node.Length && othern != mp && |spots| == node.Length
        && After(spots, othern, mp)
      ensures prev < node.Length && node[prev].next == mp && prev != mp
    {
      hide NodeOk, PairOk;
      prev := othern;
      while node[prev].next != mp
        invariant prev < node.Length && prev != mp && After(spots, prev, mp)
        decreases |Rest(spots, prev)|
      {
        assert Successor(node[..], spots, prev);
        RestShrinks(node[..], spots, prev);
        prev := node[prev].next;
      }
    }

    // newkey when its main position is taken and n is free
    method Collide(k: Key, n: nat) returns (i: nat)
      requires Hashed() && k != NilKey && n < node.Length == Pow2(lsizenode) == |spots|
        && Absent(node[..], spots, hash, lsizenode, k)
      requires Filled(node[hash(k, lsizenode)]) && node[n].key == NoKey
      modifies node, this`spots
      ensures Hashed() && SlotFor(node[..], spots, hash, lsizenode, i, k) && SameEntries(old(node[..]), node[..])
      ensures forall j :: 0 <= j < node.Length && j != n ==> old(node[j].key) != NoKey ==> node[j].key != NoKey
      ensures node[n].key != NoKey && (Full(old(node[..])) ==> FullBut(node[..], i))
    {
      hide HashOk, Chained, Successor, NodeOk, PairOk;
      ghost var ns, c := node[..], spots;
      var mp := hash(k, lsizenode);
      CollideReady(ns, c, hash, lsizenode, n, mp);
      var othern := hash(node[mp].key.k, lsizenode);
      if othern != mp {
        var prev := FindPrevious(othern, mp);
        PrevApart(ns, c, hash, lsizenode, prev, n);
        MovingOk(ns, c, hash, lsizenode, n, prev, k);
        MovingEntries(ns, mp, n, prev, k);
        node[prev] := node[prev].(next := n);
        node[n] := node[mp];
        node[mp] := Node(KeyOf(k), Nil, -1);
        assert node[..] == Moving(ns, mp, n, prev, k);
        spots := MovingSpots(c, mp, n);
        i := mp;
      } else {
        ChainingOk(ns, c, hash, lsizenode, n, k);
        ChainingEntries(ns, mp, n, k);
        node[n] := Node(KeyOf(k), Nil, node[mp].next);
        node[mp] := node[mp].(next := n);
        assert node[..] == Chaining(ns, mp, n, k);
        spots := ChainingSpots(ns, c, mp, n);
        i := n;
      }
    }

    lemma CollideReady(ns: seq<Node>, c: seq<Spot>, f: Hash, ls: nat, n: nat, mp: nat)
      requires HashOk(ns, c, f, ls) && n < |ns| && mp < |ns| && Filled(ns[mp]) && ns[n].key == NoKey
      ensures n != mp && ns[mp].key.KeyOf? && !Filled(ns[n]) && |ns| == |c| == Pow2(ls)
        && After(c, f(ns[mp].key.k, ls), mp)
    {
      assert NodeOk(ns, c, f, ls, n) && NodeOk(ns, c, f, ls, mp);
    }

    lemma PrevApart(ns: seq<Node>, c: seq<Spot>, f: Hash, ls: nat, prev: nat, n: nat)
      requires HashOk(ns, c, f, ls) && prev < |ns| && n < |ns| && ns[n].key == NoKey && ns[prev].next != -1
      ensures prev != n
    {
      assert NodeOk(ns, c, f, ls, n);
    }

    // newkey; it needs a rehash only if nothing fits.
    method NewKey(k: Key) returns (s: Slot)
      requires Valid() && k != NilKey && !InArray(k, sizearray) && |spots| == node.Length == Pow2(lsizenode)
      requires Fits(k) || arr.Length == sizearray
      requires Absent(node[..], spots, hash, lsizenode, k)
      modifies this, arr, node
      ensures Valid() && Contents == old(Contents) && SlotOk(s, k)
        && (old(arr.Length == sizearray) ==> arr.Length == sizearray)
      ensures (arr == old(arr) || fresh(arr)) && (node == old(node) || fresh(node))
      ensures old(Fits(k)) ==>
          arr == old(arr) && node == old(node) && sizearray == old(sizearray) && lsizenode == old(lsizenode)
      ensures old(Fits(k)) ==>
          dummy == old(dummy) && arr[..] == old(arr[..]) && s.NodeSlot?
          && (Full(old(node[..])) ==> FullBut(node[..], s.i))
      decreases if Fits(k) then 0 else 1, 4
    {
      hide HashOk, Refines, Found, Absent, SameEntries, HasFree;
      ghost var ns := node[..];
      var mp := hash(k, lsizenode);
      if node[mp].val != Nil || dummy {
        var n := GetFreePos();
        if n == -1 {
          Missing(arr[..sizearray], ns, spots, hash, lsizenode, k, Contents);
          Rehash(k);
          s := SetSlot(k);
        } else {
          Missing(arr[..sizearray], ns, spots, hash, lsizenode, k, Contents);
          var i := Collide(k, n);
          SameRefines(arr[..sizearray], ns, Contents, node[..]);
          s := NodeSlot(i);
        }
      } else {
        ReusedOk(ns, spots, hash, lsizenode, k);
        ReusedEntries(ns, mp, k);
        SameRefines(arr[..sizearray], ns, Contents, Reused(ns, mp, k));
        node[mp] := node[mp].(key := KeyOf(k));
        assert node[..] == Reused(ns, mp, k);
        s := NodeSlot(mp);
      }
    }

    lemma Missing(a: seq<Value>, ns: seq<Node>, c: seq<Spot>, f: Hash, ls: nat, k: Key, m: map<Key, Value>)
      requires Refines(a, ns, m) && HashOk(ns, c, f, ls) && Absent(ns, c, f, ls, k) && !InArray(k, |a|)
      ensures k !in m
    {
      AbsentHolds(ns, c, f, ls, k);
      assert !Holds(ns, k, ValueAt(m, k));
    }

    // luaH_set; the key is not nil.
    method SetSlot(k: Key) returns (s: Slot)
      requires Valid() && k != NilKey && (Fits(k) || arr.Length == sizearray)
      modifies this, arr, node
      ensures k in old(Contents) ==>
          arr == old(arr) && node == old(node) && node[..] == old(node[..])
          && SameSizes(old(sizearray), old(lsizenode), old(spots))
      ensures Valid() && Contents == old(Contents) && SlotOk(s, k)
        && (old(arr.Length == sizearray) ==> arr.Length == sizearray)
      ensures (arr == old(arr) || fresh(arr)) && (node == old(node) || fresh(node))
      ensures old(Fits(k)) ==>
          arr == old(arr) && node == old(node) && sizearray == old(sizearray) && lsizenode == old(lsizenode)
      ensures old(Fits(k)) ==> dummy == old(dummy) && arr[..] == old(arr[..])
                               && (Full(old(node[..])) ==> FullBut(node[..], if s.NodeSlot? then s.i else -1))
      decreases if Fits(k) then 0 else 1, 5
    {
      hide HashOk, Refines, Absent;
      s := GetSlot(k);
      if s == NoSlot { s := NewKey(k); }
    }

    // setobjt2t(L, luaH_set(L, t, key), v), while the table is resized
    method Put(k: Key, v: Value)
      requires Valid() && k != NilKey && v != Nil && Fits(k) && Full(node[..])
      modifies this, arr, node
      ensures Valid() && Contents == old(Contents)[k := v] && Full(node[..])
      ensures arr == old(arr) && node == old(node) && sizearray == old(sizearray) && lsizenode == old(lsizenode)
        && dummy == old(dummy)
      ensures forall i :: sizearray <= i < arr.Length ==> arr[i] == old(arr[i])
      decreases 0, 6
    {
      hide HashOk, Refines, SlotOk;
      var s := SetSlot(k);
      SlotNot(s, k);
      Store(s, k, v);
    }

    lemma SlotNot(s: Slot, k: Key)
      requires SlotOk(s, k)
      ensures s != NoSlot
    {
    }

    // ---- rehash --------------------------------------------------------------------------------------

    // setarrayvector
    method SetArrayVector(size: nat)
      requires size >= sizearray == arr.Length
      modifies this`arr, this`sizearray
      ensures fresh(arr) && arr.Length == sizearray == size
        && arr[..] == old(arr[..]) + seq(size - old(sizearray), _ => Nil)
    {
      var a, src, n := new Value[size], arr, sizearray;
      var i := 0;
      while i < n
        invariant 0 <= i <= n && a[..i] == src[..i]
      {
        a[i] := src[i];
        i := i + 1;
      }
      while i < size
        invariant n <= i <= size && a[..i] == src[..] + seq(i - n, _ => Nil)
      {
        a[i] := Nil;
        i := i + 1;
      }
      assert a[..] == a[..size];
      arr, sizearray := a, size;
    }

    // setnodevector
    method SetNodeVector(size: nat)
      modifies this`node, this`lsizenode, this`lastfree, this`dummy, this`spots
      ensures fresh(node) && Hashed() && FreeOk() && dummy == (size == 0)
        && (Capacity(size) == 0 || (!dummy && node.Length == Capacity(size)))
      ensures lsizenode == if size == 0 then 0 else CeilLog2(size)
      ensures node[..] == Fresh(node.Length) && (forall k, v :: !Holds(node[..], k, v))
    {
      var ls := if size == 0 then 0 else CeilLog2(size);
      var n := if size == 0 then 1 else Pow2(ls);
      FreshOk(hash, ls);
      var ns := new Node[n];
      var i := 0;
      while i < n
        invariant 0 <= i <= n && ns[..i] == Fresh(i)
      {
        ns[i] := Node(NoKey, Nil, -1);
        i := i + 1;
      }
      assert ns[..] == ns[..n];
      node, lsizenode := ns, ls;
      lastfree := if size == 0 then 0 else n;
      dummy := size == 0;
      spots := FreshSpots(n);
    }

    // luaM_reallocvector, when the array part gets smaller
    method ShrinkArray()
      requires Valid()
      modifies this`arr
      ensures Valid() && fresh(arr) && arr.Length == sizearray && arr[..sizearray] == old(arr[..sizearray])
    {
      hide HashOk, Refines;
      var a, src := new Value[sizearray], arr;
      var i := 0;
      while i < a.Length
        invariant 0 <= i <= a.Length <= src.Length && a[..i] == src[..i]
      {
        a[i] := src[i];
        i := i + 1;
      }
      assert a[..sizearray] == src[..sizearray];
      arr := a;
    }

    // The new hash part takes a further key that belongs there.
    lemma FitsAlso(k: Key, m: map<Key, Value>, n: nat)
      requires Valid() && Full(node[..]) && k !in Contents && Contents.Keys + {k} <= m.Keys
      requires |Outside(m.Keys, sizearray)| <= n && (n == 0 || (!dummy && n == node.Length))
      ensures Fits(k)
    {
      if !InArray(k, sizearray) {
        assert k in Outside(m.Keys, sizearray);
        assert |Outside(m.Keys, sizearray)| > 0 by { SubsetCount({k}, Outside(m.Keys, sizearray)); }
        var keys := Outside(Contents.Keys, sizearray);
        SubsetCount(keys + {k}, Outside(m.Keys, sizearray));
        RoomLeft(node[..], spots, hash, lsizenode, keys);
      }
    }

    // resize, the elements of the slice of the array that vanishes
    method MoveSlice(oldasize: nat, ghost m: map<Key, Value>, ghost n: nat)
      requires Valid() && Full(node[..]) && sizearray <= oldasize == arr.Length <= MAXASIZE
        && |Outside(m.Keys, sizearray)| <= n
      requires n == 0 || (!dummy && n == node.Length)
      requires Contents == (map k | k in m && InArray(k, sizearray) :: m[k])
      requires forall i: nat :: i < oldasize ==> SlotAgrees(arr[i], IntKey(i + 1), m)
      requires forall k :: k in m ==> k != NilKey && m[k] != Nil
      modifies this, arr, node
      ensures Valid() && Full(node[..]) && Contents == (map k | k in m && InArray(k, oldasize) :: m[k])
      ensures arr == old(arr) && node == old(node) && sizearray == old(sizearray) && dummy == old(dummy)
      decreases 1, 1
    {
      hide HashOk, Refines, Full, Outside, Valid;
      MaxSize();
      var i := sizearray;
      while i < oldasize
        invariant sizearray == old(sizearray) <= i <= oldasize == arr.Length && arr == old(arr) && node == old(node)
          && dummy == old(dummy)
        invariant Valid() && Full(node[..]) && (forall j :: i <= j < oldasize ==> arr[j] == old(arr[j]))
        invariant Contents == (map k | k in m && InArray(k, i) :: m[k])
      {
        var k := IntKey(i + 1);
        IndexOf(i + 1);
        assert SlotAgrees(old(arr[i]), IntKey(i + 1), m);
        SliceNext(m, i);
        if arr[i] != Nil {
          FitsAlso(k, m, n);
          Put(k, arr[i]);
        }
        i := i + 1;
      }
    }

    // One more element of the array part
    lemma SliceNext(m: map<Key, Value>, i: nat)
      requires i + 1 < 0x8000_0000
      ensures var a, b := (map k | k in m && InArray(k, i) :: m[k]), (map k | k in m && InArray(k, i + 1) :: m[k]);
              IntKey(i + 1) !in a && b == if IntKey(i + 1) in m then a[IntKey(i + 1) := m[IntKey(i + 1)]] else a
    {
      IndexOf(i + 1);
      forall k | k in m && InArray(k, i + 1)
        ensures InArray(k, i) || k == IntKey(i + 1)
      {
        KeyOfIndex(k);
      }
    }

    // The entries of the nodes from i on, and of the array part
    ghost function Entered(m: map<Key, Value>, asize: nat, ns: seq<Node>, i: nat): map<Key, Value>
      requires i <= |ns|
    {
      map k | k in m && (InArray(k,
        asize) || exists j: nat :: i <= j < |ns| && Filled(ns[j]) && ns[j].key == KeyOf(k)) :: m[k]
    }

    // resize, the elements of the old hash part
    method MoveNodes(nold: array<Node>, asize: nat, ghost m: map<Key, Value>, ghost n: nat, ghost c: seq<Spot>,
      ghost ls: nat)
      requires Valid() && Full(node[..]) && nold != node && |Outside(m.Keys, sizearray)| <= n
        && (n == 0 || (!dummy && n == node.Length))
      requires HashOk(nold[..], c, hash, ls) && (forall k :: k in m ==> k != NilKey && m[k] != Nil)
      requires forall k, v :: Holds(nold[..], k, v) <==> !InArray(k, asize) && k in m && m[k] == v
      requires Contents == (map k | k in m && InArray(k, asize) :: m[k])
      modifies this, arr, node
      ensures Valid() && Full(node[..]) && Contents == m
      ensures arr == old(arr) && node == old(node) && sizearray == old(sizearray) && dummy == old(dummy)
      decreases 1, 1
    {
      hide HashOk, Refines, Full, Outside, Valid;
      ghost var ns := nold[..];
      var i := nold.Length;
      EnteredAll(m, asize, ns);
      while i > 0
        invariant 0 <= i <= nold.Length && nold[..] == ns && arr == old(arr) && node == old(node)
          && sizearray == old(sizearray) && dummy == old(dummy)
        invariant Valid() && Full(node[..]) && Contents == Entered(m, asize, ns, i)
      {
        i := i - 1;
        EnteredNext(m, asize, ns, c, hash, ls, i);
        if nold[i].val != Nil {
          var k := nold[i].key.k;
          EnteredIn(m, asize, ns, i);
          FitsAlso(k, m, n);
          Put(k, nold[i].val);
        }
      }
    }

    lemma EnteredAll(m: map<Key, Value>, asize: nat, ns: seq<Node>)
      requires forall k, v :: Holds(ns, k, v) <==> !InArray(k, asize) && k in m && m[k] == v
      requires forall k :: k in m ==> m[k] != Nil
      ensures Entered(m, asize, ns, |ns|) == (map k | k in m && InArray(k, asize) :: m[k])
        && Entered(m, asize, ns, 0) == m
    {
      forall k | k in m && !InArray(k, asize)
        ensures exists j: nat :: 0 <= j < |ns| && Filled(ns[j]) && ns[j].key == KeyOf(k)
      {
        assert Holds(ns, k, m[k]);
        var j: nat :| j < |ns| && ns[j].key == KeyOf(k) && ns[j].val == m[k] != Nil;
      }
    }

    lemma EnteredIn(m: map<Key, Value>, asize: nat, ns: seq<Node>, i: nat)
      requires i < |ns| && Filled(ns[i]) && ns[i].key.KeyOf? && ns[i].key.k in m
      ensures Entered(m, asize, ns, i + 1).Keys + {ns[i].key.k} <= m.Keys
    {
    }

    lemma EnteredNext(m: map<Key, Value>, asize: nat, ns: seq<Node>, c: seq<Spot>, f: Hash, ls: nat, i: nat)
      requires HashOk(ns, c, f, ls) && i < |ns|
      requires forall k, v :: Holds(ns, k, v) <==> !InArray(k, asize) && k in m && m[k] == v
      ensures if Filled(ns[i])
              then ns[i].key.KeyOf? && ns[i].key.k in m && ns[i].key.k !in Entered(m, asize, ns, i + 1)
                   && Entered(m, asize, ns, i) == Entered(m, asize, ns, i + 1)[ns[i].key.k := ns[i].val]
              else Entered(m, asize, ns, i) == Entered(m, asize, ns, i + 1)
    {
      var a, b := Entered(m, asize, ns, i), Entered(m, asize, ns, i + 1);
      if Filled(ns[i]) {
        assert NodeOk(ns, c, f, ls, i);
        var k := ns[i].key.k;
        assert Holds(ns, k, ns[i].val);
        if k in b {
          var j: nat :| i + 1 <= j < |ns| && Filled(ns[j]) && ns[j].key == KeyOf(k);
          OneValue(ns, c, f, ls, i, j);
        }
        assert k in a;
      }
      assert forall k :: k in b ==> k in a;
    }

    lemma OldParts(a: seq<Value>, ns: seq<Node>, m: map<Key, Value>)
      requires Refines(a, ns, m)
      ensures |a| <= MAXASIZE && (forall k :: k in m ==> k != NilKey && m[k] != Nil)
      ensures forall i: nat :: i < |a| ==> SlotAgrees(a[i], IntKey(i + 1), m)
      ensures forall k, v :: Holds(ns, k, v) <==> !InArray(k, |a|) && k in m && m[k] == v
    {
    }

    // The parts of the table when the elements are about to be entered again
    lemma StartedWith(a: seq<Value>, b: seq<Value>, ns: seq<Node>, m: map<Key, Value>)
      requires |a| <= MAXASIZE && |b| <= MAXASIZE && (forall k :: k in m ==> k != NilKey && m[k] != Nil)
      requires forall i: nat :: i < |a| ==> SlotAgrees(a[i], IntKey(i + 1), m)
      requires forall i: nat :: i < |b| ==> b[i] == if i < |a| then a[i] else Nil
      requires ns == Fresh(|ns|)
      ensures Full(ns)
      ensures Refines(b, ns, map k | k in m && InArray(k, if |b| < |a| then |b| else |a|) :: m[k])
    {
      MaxSize();
      var m' := map k | k in m && InArray(k, if |b| < |a| then |b| else |a|) :: m[k];
      forall i: nat | i < |b|
        ensures SlotAgrees(b[i], IntKey(i + 1), m')
      {
        IndexOf(i + 1);
        assert i < |a| ==> SlotAgrees(a[i], IntKey(i + 1), m);
      }
    }

    lemma OutsideHolds(m: map<Key, Value>, ns: seq<Node>)
      requires Valid() && m == Contents && ns == node[..]
      ensures forall k, v :: Holds(ns, k, v) ==> k in Outside(m.Keys, sizearray)
    {
    }

    // resize, up to where elements are entered again; of a larger array part the rest still is in the vector.
    method StartResize(nasize: nat, nhsize: nat)
      requires Valid() && arr.Length == sizearray && nasize <= MAXASIZE
      modifies this
      ensures Valid() && Full(node[..]) && sizearray == nasize && fresh(node) && (arr == old(arr) || fresh(arr))
      ensures arr.Length == if nasize < old(sizearray) then old(sizearray) else nasize
      ensures nasize < old(sizearray) ==> arr == old(arr)
      ensures Contents == map k | k in old(Contents) && InArray(k,
        if nasize < old(sizearray) then nasize else old(sizearray)) :: old(Contents)[k]
      ensures Capacity(nhsize) == 0 || (!dummy && node.Length == Capacity(nhsize))
    {
      hide HashOk, Refines, Full, Holds, Capacity, SlotAgrees;
      ghost var m, a, oldasize := Contents, arr[..], sizearray;
      assert a == arr[..sizearray];
      OldParts(a, node[..], m);
      if nasize > sizearray { SetArrayVector(nasize); }
      SetNodeVector(nhsize);
      sizearray := nasize;
      Contents := map k | k in m && InArray(k, if nasize < oldasize then nasize else oldasize) :: m[k];
      StartedWith(a, arr[..sizearray], node[..], m);
    }

    // resize
    method Resize(nasize: nat, nhsize: nat)
      requires Valid() && arr.Length == sizearray && nasize <= MAXASIZE
        && |Outside(Contents.Keys, nasize)| <= Capacity(nhsize)
      modifies this, arr, node
      ensures Valid() && arr.Length == sizearray == nasize && Contents == old(Contents)
      ensures (arr == old(arr) || fresh(arr)) && (node == old(node) || fresh(node))
      ensures |Outside(Contents.Keys, nasize)| < Capacity(nhsize) ==> Room()
      decreases 1, 2
    {
      hide HashOk, Refines, Full, Holds, Outside, Capacity, SlotAgrees, Valid;
      ghost var m, c, ls := Contents, spots, lsizenode;
      var oldasize := sizearray;
      var nold := node;
      OldValid();
      StartResize(nasize, nhsize);
      if nasize < oldasize {
        MoveSlice(oldasize, m, Capacity(nhsize));
        ShrinkArray();
      }
      MoveNodes(nold, oldasize, m, Capacity(nhsize), c, ls);
      RoomAfter(Capacity(nhsize));
    }

    lemma OldValid()
      requires Valid() && arr.Length == sizearray
      ensures HashOk(node[..], spots, hash, lsizenode) && sizearray <= MAXASIZE
        && (forall k :: k in Contents ==> k != NilKey && Contents[k] != Nil)
      ensures forall i: nat :: i < sizearray ==> SlotAgrees(arr[i], IntKey(i + 1), Contents)
      ensures forall k, v :: Holds(node[..], k, v) <==> !InArray(k, sizearray) && k in Contents && Contents[k] == v
    {
      assert arr[..] == arr[..sizearray];
      OldParts(arr[..], node[..], Contents);
    }

    lemma RoomAfter(n: nat)
      requires Valid() && Full(node[..]) && (n == 0 || (!dummy && node.Length == n))
      ensures |Outside(Contents.Keys, sizearray)| < n ==> Room()
    {
      if |Outside(Contents.Keys, sizearray)| < n {
        OutsideHolds(Contents, node[..]);
        RoomLeft(node[..], spots, hash, lsizenode, Outside(Contents.Keys, sizearray));
      }
    }

    // countint
    method CountInt(k: Key, nums: array<nat>, ghost keys: set<Key>) returns (one: nat)
      requires Counts(nums[..], Ints(keys)) && k !in keys
      modifies nums
      ensures Counts(nums[..], Ints(keys + {k})) && |Ints(keys + {k})| == |Ints(keys)| + one
    {
      hide Counts, Ints;
      IntsAdd(keys, k);
      var n := ArrayIndex(k);
      if 0 < n && n <= MAXASIZE {
        CountOne(nums[..], Ints(keys), n);
        CountsSize(nums[..], Ints(keys));
        var lg := CeilLog2(n);
        ghost var old_ := nums[..];
        nums[lg] := nums[lg] + 1;
        assert nums[..] == old_[lg := old_[lg] + 1];
        one := 1;
      } else {
        one := 0;
      }
    }

    lemma CountsSize(nums: seq<nat>, s: set<nat>)
      requires Counts(nums, s)
      ensures |nums| == MAXBITS + 1
    {
    }

    // The state of numusearray in front of slice lg, which starts at i
    ghost predicate SlicesCounted(nums: seq<nat>, s: set<nat>, lg: nat, i: nat, size: nat) {
      && |nums| == MAXBITS + 1 && lg <= MAXBITS + 1 && 1 <= i
      && i == (if lg == 0 then 1 else if Pow2(lg - 1) <= size then Pow2(lg - 1) + 1 else size + 1)
      && forall l: nat :: l <= MAXBITS ==> nums[l] == if l < lg then |Slice(s, l)| else 0
    }

    // numusearray
    method NumUseArray(nums: array<nat>) returns (ause: nat)
      requires sizearray == arr.Length <= MAXASIZE && nums.Length == MAXBITS + 1
        && forall l :: 0 <= l <= MAXBITS ==> nums[l] == 0
      modifies nums
      ensures Counts(nums[..], ArrayInts(arr[..])) && ause == |ArrayInts(arr[..])|
    {
      hide Slice, UpTo, ArrayInts, CeilLog2, Pow2;
      ghost var s := ArrayInts(arr[..]);
      var lg, ttlg, i: nat := 0, 1, 1;
      ause := 0;
      SlicesStart(s, sizearray);
      assert nums[..] == seq(MAXBITS + 1, _ => 0);
      while lg <= MAXBITS
        invariant lg <= MAXBITS + 1 && ttlg == Pow2(lg) && SlicesCounted(nums[..], s, lg, i, sizearray)
          && i <= sizearray + 1
        invariant ause == |UpTo(s, i - 1)|
      {
        var lc: nat := 0;
        var lim := ttlg;
        if lim > sizearray {
          lim := sizearray;
          if i > lim { break; }
        }
        SliceStart(nums[..], s, lg, i, sizearray);
        ghost var i0, ns := i, nums[..];
        while i <= lim
          invariant i0 <= i <= lim + 1 && nums[..] == ns && lc + |UpTo(s, i0 - 1)| == |UpTo(s, i - 1)|
        {
          CountSlot(arr[..], i);
          if arr[i - 1] != Nil { lc := lc + 1; }
          i := i + 1;
        }
        SliceCounted(ns, s, arr[..], lg, i0, sizearray);
        nums[lg] := nums[lg] + lc;
        assert nums[..] == ns[lg := ns[lg] + lc];
        ause := ause + lc;
        lg, ttlg := lg + 1, ttlg * 2;
        Pow2Next(lg - 1);
      }
      SlicesDone(nums[..], arr[..], lg, i);
    }

    lemma Pow2Next(n: nat)
      ensures Pow2(n + 1) == 2 * Pow2(n)
    {
    }

    lemma SliceStart(nums: seq<nat>, s: set<nat>, lg: nat, i: nat, size: nat)
      requires SlicesCounted(nums, s, lg, i, size)
      ensures i <= Pow2(lg)
    {
    }

    lemma SlicesStart(s: set<nat>, size: nat)
      ensures Pow2(0) == 1 && |UpTo(s, 0)| == 0 && SlicesCounted(seq(MAXBITS + 1, _ => 0), s, 0, 1, size)
    {
      assert UpTo(s, 0) == {};
    }

    lemma CountSlot(a: seq<Value>, i: nat)
      requires 1 <= i <= |a|
      ensures |UpTo(ArrayInts(a), i)| == |UpTo(ArrayInts(a), i - 1)| + if a[i - 1] != Nil then 1 else 0
    {
      var s := ArrayInts(a);
      assert Present(a, i) <==> a[i - 1] != Nil;
      if a[i - 1] != Nil {
        assert UpTo(s, i) == UpTo(s, i - 1) + {i};
      } else {
        assert UpTo(s, i) == UpTo(s, i - 1);
      }
    }

    // What the slice lg adds
    lemma SliceCounted(nums: seq<nat>, s: set<nat>, a: seq<Value>, lg: nat, i0: nat, size: nat)
      requires s == ArrayInts(a) && |a| == size && SlicesCounted(nums, s, lg, i0, size) && lg <= MAXBITS
      requires i0 <= if Pow2(lg) <= size then Pow2(lg) else size
      ensures var lim := if Pow2(lg) <= size then Pow2(lg) else size;
              var lc := |UpTo(s, lim)| - |UpTo(s, i0 - 1)|;
              lc >= 0 && SlicesCounted(nums[lg := nums[lg] + lc], s, lg + 1, lim + 1, size)
    {
      hide Slice, UpTo, ArrayInts, CeilLog2, Pow2;
      SliceAdds(s, a, lg, i0, size);
      var lim := if Pow2(lg) <= size then Pow2(lg) else size;
      var nums' := nums[lg := nums[lg] + (|UpTo(s, lim)| - |UpTo(s, i0 - 1)|)];
      forall l: nat | l <= MAXBITS
        ensures nums'[l] == if l < lg + 1 then |Slice(s, l)| else 0
      {
      }
    }

    lemma SliceAdds(s: set<nat>, a: seq<Value>, lg: nat, i0: nat, size: nat)
      requires s == ArrayInts(a) && |a| == size && i0 >= 1
      requires i0 - 1 == if lg == 0 then 0 else if Pow2(lg - 1) <= size then Pow2(lg - 1) else size
      ensures |UpTo(s, if Pow2(lg) <= size then Pow2(lg) else size)| - |UpTo(s, i0 - 1)| == |Slice(s, lg)|
    {
      SliceStep(s, lg);
      hide Slice, CeilLog2;
      assert UpTo(s, if Pow2(lg) <= size then Pow2(lg) else size) == UpTo(s, Pow2(lg));
      if lg == 0 { assert UpTo(s, 0) == {}; } else { assert UpTo(s, i0 - 1) == UpTo(s, Pow2(lg - 1)); }
    }

    lemma SlicesDone(nums: seq<nat>, a: seq<Value>, lg: nat, i: nat)
      requires SlicesCounted(nums, ArrayInts(a), lg, i, |a|) && |a| <= MAXASIZE
        && (lg == MAXBITS + 1 || (i > |a| && Pow2(lg) > |a|))
      ensures Counts(nums, ArrayInts(a)) && UpTo(ArrayInts(a), i - 1) == ArrayInts(a)
    {
      var s := ArrayInts(a);
      assert i - 1 >= |a|;
      forall l: nat | lg <= l <= MAXBITS
        ensures |Slice(s, l)| == 0
      {
        forall k | k in s
          ensures CeilLog2(k) != l
        {
          if lg > 0 { SliceBelow(k, lg, l); }
        }
        assert Slice(s, l) == {};
      }
    }

    lemma SliceBelow(k: nat, lg: nat, l: nat)
      requires 0 < k && lg <= l && lg > 0 && k <= Pow2(lg - 1)
      ensures CeilLog2(k) != l
    {
      LogBelow(k, lg - 1);
    }

    // numusehash
    method NumUseHash(nums: array<nat>, ghost keys: set<Key>) returns (totaluse: nat, ause: nat, ghost all: set<Key>)
      requires Hashed() && Counts(nums[..], Ints(keys)) && forall k, v :: Holds(node[..], k, v) ==> k !in keys
      modifies nums
      ensures Counts(nums[..], Ints(all)) && |all| == |keys| + totaluse && |Ints(all)| == |Ints(keys)| + ause
      ensures forall k :: k in all <==> k in keys || exists v :: Holds(node[..], k, v)
    {
      hide Counts, Ints, HashOk, Holds;
      ghost var ns := node[..];
      totaluse, ause, all := 0, 0, keys;
      var i := node.Length;
      while i > 0
        invariant 0 <= i <= node.Length && node[..] == ns && Counts(nums[..], Ints(all)) && |all| == |keys| + totaluse
          && |Ints(all)| == |Ints(keys)| + ause
        invariant forall k :: k in all <==>
            k in keys || exists j: nat :: i <= j < |ns| && Filled(ns[j]) && ns[j].key == KeyOf(k)
      {
        i := i - 1;
        if node[i].val != Nil {
          LiveKey(ns, spots, hash, lsizenode, i);
          var k := node[i].key.k;
          LiveHolds(ns, i);
          assert k !in all;
          var one := CountInt(k, nums, all);
          ause := ause + one;
          totaluse := totaluse + 1;
          all := all + {k};
        }
      }
      KeysCounted(ns, keys, all);
    }

    lemma KeysCounted(ns: seq<Node>, keys: set<Key>, all: set<Key>)
      requires forall k :: k in all <==>
          k in keys || exists j: nat :: 0 <= j < |ns| && Filled(ns[j]) && ns[j].key == KeyOf(k)
      ensures forall k :: k in all <==> k in keys || exists v :: Holds(ns, k, v)
    {
      forall k
        ensures (exists v :: Holds(ns, k, v)) <==>
            exists j: nat :: 0 <= j < |ns| && Filled(ns[j]) && ns[j].key == KeyOf(k)
      {
        if v :| Holds(ns, k, v) {
          var j: nat :| j < |ns| && ns[j].key == KeyOf(k) && ns[j].val == v != Nil;
          assert Filled(ns[j]);
        }
        if j: nat :| 0 <= j < |ns| && Filled(ns[j]) && ns[j].key == KeyOf(k) {
          assert Holds(ns, k, ns[j].val);
        }
      }
    }

    lemma LiveHolds(ns: seq<Node>, i: nat)
      requires i < |ns| && Filled(ns[i]) && ns[i].key.KeyOf?
      ensures Holds(ns, ns[i].key.k, ns[i].val)
    {
    }

    // A node with a value has a key that no other one has.
    lemma LiveKey(ns: seq<Node>, c: seq<Spot>, f: Hash, ls: nat, i: nat)
      requires HashOk(ns, c, f, ls) && i < |ns| && Filled(ns[i])
      ensures ns[i].key.KeyOf? && forall j: nat :: j < |ns| && Filled(ns[j]) && ns[j].key == ns[i].key ==> j == i
    {
      assert NodeOk(ns, c, f, ls, i);
      forall j: nat | j < |ns| && Filled(ns[j]) && ns[j].key == ns[i].key
        ensures j == i
      {
        OneValue(ns, c, f, ls, i, j);
      }
    }

    // rehash, the counting: the keys of the table and the new one
    method CountKeys(ek: Key) returns (nums: array<nat>, nasize: nat, totaluse: nat)
      requires Valid() && arr.Length == sizearray && ek !in Contents
      ensures fresh(nums) && Counts(nums[..], Ints(Contents.Keys + {ek}))
      ensures nasize == |Ints(Contents.Keys + {ek})| && totaluse == |Contents.Keys + {ek}|
    {
      hide HashOk, Refines, Counts, Ints, Holds, ArrayInts, ArrayKeys;
      nums := new nat[MAXBITS + 1];
      var i := 0;
      while i <= MAXBITS
        invariant 0 <= i <= MAXBITS + 1 && forall l :: 0 <= l < i ==> nums[l] == 0
      {
        nums[i] := 0;
        i := i + 1;
      }
      assert arr[..] == arr[..sizearray];
      RefinesSize(arr[..], node[..], Contents);
      AllKeys(arr[..], node[..], Contents);
      ArrayCount(arr[..]);
      nasize := NumUseArray(nums);
      totaluse := nasize;
      var total, ause, all := NumUseHash(nums, ArrayKeys(arr[..]));
      SameKeys(all, ArrayKeys(arr[..]), node[..], Contents);
      totaluse := totaluse + total;
      var one := CountInt(ek, nums, all);
      nasize := nasize + ause + one;
      totaluse := totaluse + 1;
    }

    /** rehash: the table contains what it did, its array part has the optimal size for the keys with the new one,
        and there is a place for that. */
    method Rehash(ek: Key)
      requires Valid() && arr.Length == sizearray && ek != NilKey && ek !in Contents
      modifies this, arr, node
      ensures Valid() && arr.Length == sizearray && Contents == old(Contents) && Fits(ek)
      ensures Optimal(Ints(Contents.Keys + {ek}), sizearray)
      ensures (arr == old(arr) || fresh(arr)) && (node == old(node) || fresh(node))
      decreases 1, 3
    {
      hide HashOk, Refines, Counts, Ints, Outside, UpTo, Holds, Optimal, Capacity, InArray;
      var nums, nasize, totaluse := CountKeys(ek);
      ghost var keys := Contents.Keys + {ek};
      IntsInside(keys);
      var n, na := ComputeSizes(nums, nasize, Ints(keys));
      OptimalSize(Ints(keys), n);
      OutsideCount(keys, n);
      OutsideMore(Contents.Keys, ek, n);
      LogCapacity(totaluse - na);
      Resize(n, totaluse - na);
    }

    lemma SameKeys(all: set<Key>, keys: set<Key>, ns: seq<Node>, m: map<Key, Value>)
      requires forall k :: k in all <==> k in keys || exists v :: Holds(ns, k, v)
      requires forall k :: k in m <==> k in keys || exists v :: Holds(ns, k, v)
      ensures all == m.Keys
    {
      hide Holds;
    }

    lemma IntsInside(keys: set<Key>)
      ensures forall k :: k in Ints(keys) ==> 0 < k <= MAXASIZE
    {
    }

    lemma OptimalSize(s: set<nat>, n: nat)
      requires Optimal(s, n)
      ensures n <= MAXASIZE
    {
      if j: nat :| j <= MAXBITS && n == Pow2(j) {
        if j < MAXBITS { Pow2Grows(j, MAXBITS); }
      }
    }

    lemma OutsideMore(keys: set<Key>, k: Key, n: nat)
      requires k !in keys && n <= MAXASIZE
      ensures |Outside(keys + {k}, n)| == |Outside(keys, n)| + if InArray(k, n) then 0 else 1
    {
      OutsideAdd(keys, k, n);
    }

    lemma LogCapacity(size: nat)
      ensures Capacity(size) >= size
    {
    }

    // ---- the interface -------------------------------------------------------------------------------

    /** luaH_new */
    constructor (f: Hash, narray: nat, nhash: nat)
      requires narray <= MAXASIZE
      ensures Valid() && arr.Length == sizearray == narray && Contents == map[] && hash == f && fresh(arr)
        && fresh(node)
      ensures if nhash == 0 then dummy && lsizenode == 0
              else !dummy && nhash <= node.Length == Pow2(lsizenode) && (lsizenode > 0 ==> Pow2(lsizenode - 1) < nhash)
    {
      hash := f;
      arr, node := new Value[0], new Node[0];
      sizearray, lsizenode, lastfree, dummy, spots, Contents := 0, 0, 0, true, [], map[];
      new;
      SetArrayVector(narray);
      SetNodeVector(nhash);
      assert arr[..sizearray] == arr[..];
    }

    /** luaH_set, and the store of the value: the table refines the map with the new entry.  False if the key is
        nil, which is an error. */
    method Set(k: Key, v: Value) returns (ok: bool)
      requires Valid() && arr.Length == sizearray
      modifies this, arr, node
      ensures Valid() && arr.Length == sizearray && ok == (k != NilKey)
      ensures Contents == if ok then Stored(old(Contents), k, v) else old(Contents)
      ensures k in old(Contents) ==> arr == old(arr) && node == old(node) && Deadened(old(node[..]), node[..])
                                     && SameSizes(old(sizearray), old(lsizenode), old(spots))
    {
      hide HashOk, Refines;
      if k == NilKey { return false; }
      var s := SetSlot(k);
      Store(s, k, v);
      ok := true;
    }

    // The hash part has no more entries than nodes.
    lemma EntriesFit()
      requires Valid()
      ensures |Outside(Contents.Keys, sizearray)| <= if dummy then 0 else node.Length
    {
      var ns := node[..];
      LiveCountAtMost(ns, |ns|);
      forall k | k in Outside(Contents.Keys, sizearray)
        ensures k in LiveKeys(ns, |ns|) && !dummy
      {
        assert Holds(ns, k, Contents[k]);
        var x: nat :| x < |ns| && ns[x].key == KeyOf(k) && ns[x].val == Contents[k] != Nil;
      }
      SubsetCount(Outside(Contents.Keys, sizearray), LiveKeys(ns, |ns|));
      if dummy { assert Outside(Contents.Keys, sizearray) == {}; }
    }

    lemma OneMore(keys: set<Key>, k: Key)
      ensures |keys + {k}| <= |keys| + 1
    {
    }

    lemma {:induction false} LiveCountAtMost(ns: seq<Node>, n: nat)
      requires n <= |ns|
      ensures |LiveKeys(ns, n)| <= n
    {
      if n > 0 {
        LiveCountAtMost(ns, n - 1);
        if Filled(ns[n - 1]) && ns[n - 1].key.KeyOf? {
          assert LiveKeys(ns, n) == LiveKeys(ns, n - 1) + {ns[n - 1].key.k};
          OneMore(LiveKeys(ns, n - 1), ns[n - 1].key.k);
        } else {
          assert LiveKeys(ns, n) == LiveKeys(ns, n - 1);
        }
      }
    }

    /** luaH_resizearray: the array part grows. */
    method ResizeArray(nasize: nat)
      requires Valid() && arr.Length == sizearray <= nasize <= MAXASIZE
      modifies this, arr, node
      ensures Valid() && arr.Length == sizearray == nasize && Contents == old(Contents)
    {
      hide HashOk, Refines, Outside;
      EntriesFit();
      OutsideLess(Contents.Keys, sizearray, nasize);
      NodeCount();
      Resize(nasize, if dummy then 0 else Pow2(lsizenode));
    }

    lemma OutsideLess(keys: set<Key>, a: nat, b: nat)
      requires a <= b
      ensures |Outside(keys, b)| <= |Outside(keys, a)|
    {
      SubsetCount(Outside(keys, b), Outside(keys, a));
    }

    lemma NodeCount()
      requires Valid()
      ensures node.Length == Pow2(lsizenode) == Capacity(Pow2(lsizenode))
    {
      LogBelow(Pow2(lsizenode), lsizenode);
      if CeilLog2(Pow2(lsizenode)) < lsizenode { Pow2Grows(CeilLog2(Pow2(lsizenode)), lsizenode); }
    }

    // removeentry of the collector
    method RemoveEntry(i: nat)
      requires Valid() && i < node.Length && node[i].val == Nil && node[i].key.KeyOf?
      modifies node
      ensures Valid() && Contents == old(Contents) && Deadened(old(node[..]), node[..])
    {
      hide HashOk, Refines;
      ghost var ns := node[..];
      DeadOk(ns, spots, hash, lsizenode, i);
      SameRefines(arr[..sizearray], ns, Contents, ns[i := ns[i].(key := DeadKey(ns[i].key.k))]);
      node[i] := node[i].(key := DeadKey(node[i].key.k));
      assert node[..] == ns[i := ns[i].(key := DeadKey(ns[i].key.k))];
    }

    // ---- traversal -----------------------------------------------------------------------------------

    // findindex; false if the key is not one that a traversal can be at
    method FindIndex(k: Key) returns (ok: bool, i: int)
      requires Valid()
      ensures ok ==> IsIndex(arr[..sizearray], node[..], spots, hash, lsizenode, k, i)
      ensures !ok ==> forall j :: !IsIndex(arr[..sizearray], node[..], spots, hash, lsizenode, k, j)
    {
      hide HashOk, Refines;
      if k == NilKey { return true, -1; }
      var n := ArrayIndex(k);
      if 0 < n <= sizearray { return true, n - 1; }
      var x := FindNode(k, true);
      ok, i := x != -1, x + sizearray;
      HashSize();
    }

    lemma HashSize()
      requires Valid()
      ensures node.Length == |spots| == Pow2(lsizenode)
    {
    }

    /** luaH_next: the first entry behind that of the key */
    method Next(k: Key) returns (r: NextResult)
      requires Valid()
      ensures r != Invalid <==> exists i :: IsIndex(arr[..sizearray], node[..], spots, hash, lsizenode, k, i)
      ensures forall i :: IsIndex(arr[..sizearray], node[..], spots, hash, lsizenode, k, i) ==>
                r == FirstOf(Entries(arr[..sizearray], node[..], i + 1))
    {
      hide HashOk, Refines, IsIndex, Entries;
      ghost var a, ns := arr[..sizearray], node[..];
      var ok, i := FindIndex(k);
      if !ok { return Invalid; }
      IndexBound(a, ns, spots, hash, lsizenode, k, i);
      OneIndex(a, ns, spots, hash, lsizenode, k);
      ghost var start := i + 1;
      i := i + 1;
      while i < sizearray
        invariant start <= i && (i <= sizearray || i == start) && Entries(a, ns, start) == Entries(a, ns, i)
      {
        EntriesStep(a, ns, i);
        if arr[i] != Nil { return Entry(IntKey(i + 1), arr[i]); }
        i := i + 1;
      }
      i := i - sizearray;
      while i < node.Length
        invariant 0 <= i <= node.Length && Entries(a, ns, start) == Entries(a, ns, i + |a|)
      {
        EntriesStep(a, ns, i + |a|);
        if node[i].val != Nil {
          LiveKey(ns, spots, hash, lsizenode, i);
          return Entry(node[i].key.k, node[i].val);
        }
        i := i + 1;
      }
      EntriesEnd(a, ns, i + |a|);
      assert IsIndex(arr[..sizearray], node[..], spots, hash, lsizenode, k, start - 1);
      return End;
    }

    /** A traversal that makes stores at every entry, to this key or to others, also of nil, but adds no key, and
        between two entries the collector may remove the keys of entries without value (dead): it comes to its end, it
        visits no key twice and each while it is in the table, and none is left that it has not visited. */
    method Traverse(f: (Key, Value) -> seq<(Key, Value)>, dead: Key -> seq<nat>) returns (visited: seq<Key>)
      requires Valid() && arr.Length == sizearray
      modifies this, arr, node
      ensures Valid() && arr.Length == sizearray && NoDup(visited) && Contents == Traversed(old(Contents), f, visited)
      ensures forall n :: 0 <= n < |visited| ==> visited[n] in Traversed(old(Contents), f, visited[..n])
      ensures forall k :: k in Contents ==> k in visited
    {
      hide HashOk, Refines, IsIndex, Entries, Deadened, Upto, Traversed, StoredAll, FreeOk;
      ghost var m := Contents;
      var k := NilKey;
      ghost var i := -1;
      visited := [];
      UptoStart(arr[..sizearray], node[..], spots, hash, lsizenode, m);
      TraversedStart(m, f);
      while true
        invariant Valid() && arr.Length == sizearray && Contents == Traversed(m, f, visited) && NoDup(visited)
        invariant IsIndex(arr[..sizearray], node[..], spots, hash, lsizenode, k, i)
        invariant Upto(arr[..sizearray], node[..], spots, hash, lsizenode, Contents, visited, i)
        invariant arr == old(arr) && node == old(node) && -1 <= i < sizearray + node.Length
          && sizearray == old(sizearray)
        invariant forall n :: 0 <= n < |visited| ==> visited[n] in Traversed(m, f, visited[..n])
        decreases sizearray + node.Length - i
      {
        ghost var a, ns, c, ls := arr[..sizearray], node[..], spots, lsizenode;
        var r := Next(k);
        if r == End {
          AllVisited(a, ns, c, hash, ls, Contents, visited, i);
          break;
        }
        ghost var j := NextPlace(a, ns, c, hash, ls, Contents, visited, i, r);
        Visited(a, ns, c, hash, ls, Contents, visited, r.k, i, j);
        TraversedStep(m, f, visited, r.k);
        k, i, visited := r.k, j, visited + [r.k];
        StoreAll(f(k, r.v), k, i, visited);
        RemoveDead(dead(k), k, i, visited);
      }
    }

    // A collection between two entries of a traversal
    method RemoveDead(s: seq<nat>, ghost k: Key, ghost i: int, ghost visited: seq<Key>)
      requires Valid() && IsIndex(arr[..sizearray], node[..], spots, hash, lsizenode, k, i)
      requires Upto(arr[..sizearray], node[..], spots, hash, lsizenode, Contents, visited, i)
      modifies node
      ensures Valid() && Contents == old(Contents)
      ensures IsIndex(arr[..sizearray], node[..], spots, hash, lsizenode, k, i)
      ensures Upto(arr[..sizearray], node[..], spots, hash, lsizenode, Contents, visited, i)
    {
      hide HashOk, Refines, IsIndex, Deadened, Upto, FreeOk;
      for n := 0 to |s|
        invariant Valid() && Contents == old(Contents)
        invariant IsIndex(arr[..sizearray], node[..], spots, hash, lsizenode, k, i)
        invariant Upto(arr[..sizearray], node[..], spots, hash, lsizenode, Contents, visited, i)
      {
        if s[n] < node.Length && node[s[n]].val == Nil && node[s[n]].key.KeyOf? {
          ghost var a, ns := arr[..sizearray], node[..];
          RemoveEntry(s[n]);
          StillUpto(a, ns, spots, hash, lsizenode, a, node[..], Contents, Contents, visited, k, i);
        }
      }
    }

    // The stores of a traversal at k
    method StoreAll(s: seq<(Key, Value)>, ghost k: Key, ghost i: int, ghost visited: seq<Key>)
      requires Valid() && arr.Length == sizearray
      requires IsIndex(arr[..sizearray], node[..], spots, hash, lsizenode, k, i)
      requires Upto(arr[..sizearray], node[..], spots, hash, lsizenode, Contents, visited, i)
      modifies this, arr, node
      ensures Valid() && arr.Length == sizearray && Contents == StoredAll(old(Contents), s)
      ensures arr == old(arr) && node == old(node) && SameSizes(old(sizearray), old(lsizenode), old(spots))
      ensures IsIndex(arr[..sizearray], node[..], spots, hash, lsizenode, k, i)
      ensures Upto(arr[..sizearray], node[..], spots, hash, lsizenode, Contents, visited, i)
    {
      hide HashOk, Refines, IsIndex, Deadened, Upto, FreeOk;
      ghost var m := Contents;
      for n := 0 to |s|
        invariant Valid() && arr.Length == sizearray && StoredAll(Contents, s[n..]) == StoredAll(m, s)
        invariant arr == old(arr) && node == old(node) && SameSizes(old(sizearray), old(lsizenode), old(spots))
        invariant IsIndex(arr[..sizearray], node[..], spots, hash, lsizenode, k, i)
        invariant Upto(arr[..sizearray], node[..], spots, hash, lsizenode, Contents, visited, i)
      {
        NoNilKey(arr[..sizearray], node[..], Contents);
        var v := Get(s[n].0);
        assert s[n..][1..] == s[n + 1..];
        if v != Nil {
          ghost var a, ns, c := arr[..sizearray], node[..], Contents;
          var ok := Set(s[n].0, s[n].1);
          StillUpto(a, ns, spots, hash, lsizenode, arr[..sizearray], node[..], c, Contents, visited, k, i);
        }
      }
    }

    // ---- the length ----------------------------------------------------------------------------------

    // A border of the table: t[j] is not nil and t[j + 1] is
    ghost predicate Border(j: nat)
      reads this
    {
      (j == 0 || IntKey(j) in Contents) && IntKey(j + 1) !in Contents
    }

    // unbound_search
    method UnboundSearch(j0: nat) returns (r: nat)
      requires Valid() && (j0 == 0 || IntKey(j0) in Contents)
      ensures Border(r)
    {
      hide HashOk, Refines, Valid;
      var i: nat, j: nat := j0, j0 + 1;
      while true
        invariant i < j <= 0x7fff_ffff + 1 + j0 && (i == 0 || IntKey(i) in Contents)
        decreases 0x8000_0001 + j0 - j
      {
        var v := Get(IntKey(j));
        GotIs(j, v);
        if v == Nil { break; }
        i := j;
        j := j * 2;
        if j > 0x7fff_ffff {
          r := LinearSearch();
          return;
        }
      }
      while j - i > 1
        invariant i < j && (i == 0 || IntKey(i) in Contents) && IntKey(j) !in Contents
      {
        var m := (i + j) / 2;
        var v := Get(IntKey(m));
        GotIs(m, v);
        if v == Nil { j := m; } else { i := m; }
      }
      r := i;
    }

    lemma GotIs(j: nat, v: Value)
      requires Valid() && v == ValueAt(Contents, IntKey(j))
      ensures v == Nil <==> IntKey(j) !in Contents
    {
    }

    // The keys 1, 2, ... up to n
    function FirstKeys(n: nat): set<Key> {
      set i: nat | i in FirstInts(n) :: IntKey(i)
    }

    function FirstInts(n: nat): (s: set<nat>)
      ensures forall i: nat :: i in s <==> 1 <= i <= n
    {
      if n == 0 then {} else FirstInts(n - 1) + {n}
    }

    lemma {:induction false} FirstCount(n: nat)
      ensures |FirstKeys(n)| == n
    {
      if n > 0 {
        FirstCount(n - 1);
        assert FirstKeys(n) == FirstKeys(n - 1) + {IntKey(n)};
        assert IntKey(n) !in FirstKeys(n - 1);
      }
    }

    // unbound_search, in a table that was built with bad purposes
    method LinearSearch() returns (r: nat)
      requires Valid()
      ensures Border(r)
    {
      hide HashOk, Refines, Valid;
      var i := 1;
      FirstCount(0);
      while true
        invariant i >= 1 && forall n: nat :: 1 <= n < i ==> IntKey(n) in Contents
        decreases |Contents| - i
      {
        var v := Get(IntKey(i));
        GotIs(i, v);
        if v == Nil { break; }
        FirstCount(i);
        assert FirstKeys(i) <= Contents.Keys;
        SubsetCount(FirstKeys(i), Contents.Keys);
        i := i + 1;
      }
      r := i - 1;
    }

    /** luaH_getn: a border */
    method GetN() returns (r: nat)
      requires Valid()
      ensures Border(r)
    {
      hide HashOk, Refines, Valid;
      SizeFits();
      var j := sizearray;
      ArraySays();
      if j > 0 && arr[j - 1] == Nil {
        var i := 0;
        while j - i > 1
          invariant 0 <= i < j <= sizearray && (i == 0 || arr[i - 1] != Nil) && arr[j - 1] == Nil
        {
          var m := (i + j) / 2;
          if arr[m - 1] == Nil { j := m; } else { i := m; }
        }
        return i;
      } else if dummy {
        NoNodes(j + 1);
        return j;
      } else {
        r := UnboundSearch(j);
      }
    }

    lemma SizeFits()
      requires Valid()
      ensures sizearray <= arr.Length
    {
    }

    lemma ArraySays()
      requires Valid()
      ensures forall i :: 0 < i <= sizearray ==> (arr[i - 1] == Nil <==> IntKey(i) !in Contents)
    {
      forall i | 0 < i <= sizearray
        ensures arr[i - 1] == Nil <==> IntKey(i) !in Contents
      {
        assert SlotAgrees(arr[..sizearray][i - 1], IntKey(i - 1 + 1), Contents);
      }
    }

    lemma NoNodes(j: nat)
      requires Valid() && dummy && j == sizearray + 1
      ensures IntKey(j) !in Contents
    {
      MaxSize();
      IndexOf(j);
      assert !Holds(node[..], IntKey(j), ValueAt(Contents, IntKey(j)));
    }
  }

  // ---- traversals --------------------------------------------------------------------------------------------

  datatype NextResult = Invalid | End | Entry(k: Key, v: Value)

  // The traversal is at this key: its place is i.
  ghost predicate IsIndex(a: seq<Value>, ns: seq<Node>, c: seq<Spot>, f: Hash, ls: nat, k: Key, i: int) {
    if k == NilKey then i == -1
    else if InArray(k, |a|) then i == ArrayIndex(k) - 1
    else |ns| == |c| == Pow2(ls) && |a| <= i < |a| + |ns| && Found(ns, c, f(k, ls), k, true, i - |a|)
  }

  lemma IndexBound(a: seq<Value>, ns: seq<Node>, c: seq<Spot>, f: Hash, ls: nat, k: Key, i: int)
    requires IsIndex(a, ns, c, f, ls, k, i)
    ensures -1 <= i < |a| + |ns|
  {
  }

  /** A key has one place. */
  lemma OneIndex(a: seq<Value>, ns: seq<Node>, c: seq<Spot>, f: Hash, ls: nat, k: Key)
    requires HashOk(ns, c, f, ls)
    ensures forall i, j :: IsIndex(a, ns, c, f, ls, k, i) && IsIndex(a, ns, c, f, ls, k, j) ==> i == j
  {
    hide NodeOk, PairOk, Successor;
    forall i, j | IsIndex(a, ns, c, f, ls, k, i) && IsIndex(a, ns, c, f, ls, k, j)
      ensures i == j
    {
      if k != NilKey && !InArray(k, |a|) {
        if i != j { Antisymmetric(c, i - |a|, j - |a|); }
      }
    }
  }

  predicate LiveAt(a: seq<Value>, ns: seq<Node>, i: int) {
    if 0 <= i < |a| then a[i] != Nil else |a| <= i < |a| + |ns| && Filled(ns[i - |a|])
  }

  function EntryAt(a: seq<Value>, ns: seq<Node>, i: int): (Key, Value)
    requires 0 <= i < |a| + |ns|
  {
    if i < |a| then (IntKey(i + 1), a[i])
    else (if ns[i - |a|].key.KeyOf? then ns[i - |a|].key.k else NilKey, ns[i - |a|].val)
  }

  // The entries from place i on
  function Entries(a: seq<Value>, ns: seq<Node>, i: int): seq<(Key, Value)>
    decreases |a| + |ns| - i
  {
    if i < 0 || i >= |a| + |ns| then []
    else (if LiveAt(a, ns, i) then [EntryAt(a, ns, i)] else []) + Entries(a, ns, i + 1)
  }

  function FirstOf(s: seq<(Key, Value)>): NextResult {
    if s == [] then End else Entry(s[0].0, s[0].1)
  }

  lemma EntriesStep(a: seq<Value>, ns: seq<Node>, i: int)
    requires 0 <= i < |a| + |ns|
    ensures if LiveAt(a, ns, i)
      then Entries(a, ns, i) == [EntryAt(a, ns, i)] + Entries(a, ns, i + 1)
      else Entries(a, ns, i) == Entries(a, ns, i + 1)
  {
  }

  lemma EntriesEnd(a: seq<Value>, ns: seq<Node>, i: int)
    requires i >= |a| + |ns|
    ensures Entries(a, ns, i) == []
  {
  }

  /** From the key of an entry a traversal goes on behind that entry. */
  lemma OwnIndex(a: seq<Value>, ns: seq<Node>, c: seq<Spot>, f: Hash, ls: nat, m: map<Key, Value>, i: int)
    requires Refines(a, ns, m) && HashOk(ns, c, f, ls) && LiveAt(a, ns, i)
    ensures IsIndex(a, ns, c, f, ls, EntryAt(a, ns, i).0, i)
  {
    MaxSize();
    if i < |a| {
      IndexOf(i + 1);
    } else {
      var x: nat := i - |a|;
      assert NodeOk(ns, c, f, ls, x);
      var k := ns[x].key.k;
      assert Holds(ns, k, ns[x].val);
      assert k != NilKey && !InArray(k, |a|);
      forall y: nat | y < |ns| && After(c, f(k, ls), y) && !After(c, x, y)
        ensures !IsKey(ns[y], k, true)
      {
        assert PairOk(ns, c, f, ls, y, x);
      }
    }
  }

  // Values have been changed, or keys without a value have died, but no key is new.
  ghost predicate Deadened(ns: seq<Node>, ns': seq<Node>) {
    |ns'| == |ns| && forall x :: 0 <= x < |ns| ==> ns'[x].next == ns[x].next && SameOrDead(ns[x].key, ns'[x].key)
  }

  predicate SameOrDead(a: NodeKey, b: NodeKey) {
    b == a || (a.KeyOf? && b == DeadKey(a.k))
  }

  /** A traversal may assign to the entries that it visits, also nil, and it is still at the same place after a
      collection. */
  lemma IndexKept(a: seq<Value>, ns: seq<Node>, c: seq<Spot>, f: Hash, ls: nat, a': seq<Value>, ns': seq<Node>,
    k: Key, i: int)
    requires IsIndex(a, ns, c, f, ls, k, i) && |a'| == |a| && Deadened(ns, ns')
    ensures IsIndex(a', ns', c, f, ls, k, i)
  {
  }

  lemma {:induction false} EntriesHas(a: seq<Value>, ns: seq<Node>, i: nat, e: (Key, Value))
    requires i <= |a| + |ns|
    ensures e in Entries(a, ns, i) <==> exists j :: i <= j < |a| + |ns| && LiveAt(a, ns, j) && EntryAt(a, ns, j) == e
    decreases |a| + |ns| - i
  {
    if i < |a| + |ns| {
      EntriesHas(a, ns, i + 1, e);
      EntriesStep(a, ns, i);
    }
  }

  /** A traversal visits every entry of the map, and nothing else. */
  lemma VisitsAll(a: seq<Value>, ns: seq<Node>, c: seq<Spot>, f: Hash, ls: nat, m: map<Key, Value>, k: Key, v: Value)
    requires Refines(a, ns, m) && HashOk(ns, c, f, ls)
    ensures (k, v) in Entries(a, ns, 0) <==> k in m && m[k] == v
  {
    hide PairOk, Successor;
    EntriesHas(a, ns, 0, (k, v));
    if (k, v) in Entries(a, ns, 0) {
      var j :| 0 <= j < |a| + |ns| && LiveAt(a, ns, j) && EntryAt(a, ns, j) == (k, v);
      if j < |a| {
        assert SlotAgrees(a[j], IntKey(j + 1), m);
      } else {
        assert NodeOk(ns, c, f, ls, j - |a|);
        assert Holds(ns, k, v);
      }
    }
    if k in m && m[k] == v {
      if InArray(k, |a|) {
        KeyOfIndex(k);
        var j := ArrayIndex(k) - 1;
        assert SlotAgrees(a[j], IntKey(j + 1), m);
        assert LiveAt(a, ns, j) && EntryAt(a, ns, j) == (k, v);
      } else {
        assert Holds(ns, k, v);
        var x: nat :| x < |ns| && ns[x].key == KeyOf(k) && ns[x].val == v != Nil;
        assert LiveAt(a, ns, |a| + x) && EntryAt(a, ns, |a| + x) == (k, v);
      }
    }
  }

  /** It visits no key twice. */
  lemma {:induction false} VisitsOnce(a: seq<Value>, ns: seq<Node>, c: seq<Spot>, f: Hash, ls: nat,
    m: map<Key, Value>, i: nat)
    requires Refines(a, ns, m) && HashOk(ns, c, f, ls) && i <= |a| + |ns|
    ensures var s := Entries(a, ns, i);
            forall x, y :: 0 <= x < y < |s| ==> s[x].0 != s[y].0
    decreases |a| + |ns| - i
  {
    hide HashOk, Refines, Entries, IsIndex;
    if i < |a| + |ns| {
      VisitsOnce(a, ns, c, f, ls, m, i + 1);
      EntriesStep(a, ns, i);
      var s := Entries(a, ns, i + 1);
      if LiveAt(a, ns, i) {
        OwnIndex(a, ns, c, f, ls, m, i);
        OneIndex(a, ns, c, f, ls, EntryAt(a, ns, i).0);
        forall y | 0 <= y < |s|
          ensures s[y].0 != EntryAt(a, ns, i).0
        {
          EntriesHas(a, ns, i + 1, s[y]);
          assert s[y] in s;
          var j :| i + 1 <= j < |a| + |ns| && LiveAt(a, ns, j) && EntryAt(a, ns, j) == s[y];
          OwnIndex(a, ns, c, f, ls, m, j);
        }
      }
    } else {
      EntriesEnd(a, ns, i);
    }
  }

  // ---- a traversal with stores -------------------------------------------------------------------------------

  // The table m after stores into entries that it has
  function StoredAll(m: map<Key, Value>, s: seq<(Key, Value)>): map<Key, Value> {
    if s == [] then m
    else StoredAll(if s[0].0 in m then Stored(m, s[0].0, s[0].1) else m, s[1..])
  }

  // The table m after a traversal that has visited these keys
  function Traversed(m: map<Key, Value>, f: (Key, Value) -> seq<(Key, Value)>, visited: seq<Key>): map<Key, Value> {
    if visited == [] then m
    else
      var k := visited[|visited| - 1];
      var m1 := Traversed(m, f, visited[..|visited| - 1]);
      StoredAll(m1, f(k, ValueAt(m1, k)))
  }

  lemma TraversedStart(m: map<Key, Value>, f: (Key, Value) -> seq<(Key, Value)>)
    ensures Traversed(m, f, []) == m
  {
  }

  lemma TraversedStep(m: map<Key, Value>, f: (Key, Value) -> seq<(Key, Value)>, visited: seq<Key>, k: Key)
    ensures var m1 := Traversed(m, f, visited);
            Traversed(m, f, visited + [k]) == StoredAll(m1, f(k, ValueAt(m1, k)))
    ensures forall n :: 0 <= n <= |visited| ==> (visited + [k])[..n] == visited[..n]
  {
    assert (visited + [k])[..|visited|] == visited;
  }

  lemma {:induction false} StoredAllKeys(m: map<Key, Value>, s: seq<(Key, Value)>)
    ensures StoredAll(m, s).Keys <= m.Keys
  {
    if s != [] { StoredAllKeys(if s[0].0 in m then Stored(m, s[0].0, s[0].1) else m, s[1..]); }
  }

  /** A key that is in the table after a traversal was in it all the time: so a traversal has visited every key that
      was there throughout. */
  lemma {:induction false} LiveThroughout(m: map<Key, Value>, f: (Key, Value) -> seq<(Key, Value)>, visited: seq<Key>,
    n: nat)
    requires n <= |visited|
    ensures Traversed(m, f, visited).Keys <= Traversed(m, f, visited[..n]).Keys <= m.Keys
    decreases |visited|
  {
    if visited != [] {
      var k, before := visited[|visited| - 1], visited[..|visited| - 1];
      var m1 := Traversed(m, f, before);
      StoredAllKeys(m1, f(k, ValueAt(m1, k)));
      if n < |visited| {
        LiveThroughout(m, f, before, n);
        assert before[..n] == visited[..n];
      } else {
        LiveThroughout(m, f, before, n - 1);
        assert visited[..n] == visited;
      }
    }
  }

  // Every key has its place; up to i are exactly those that have been visited.
  ghost predicate Upto(a: seq<Value>, ns: seq<Node>, c: seq<Spot>, h: Hash, ls: nat, m: map<Key, Value>,
    visited: seq<Key>, i: int) {
    forall k :: k in m || k in visited ==> HasPlace(a, ns, c, h, ls, k, k in visited, i)
  }

  ghost predicate HasPlace(a: seq<Value>, ns: seq<Node>, c: seq<Spot>, h: Hash, ls: nat, k: Key, before: bool, i: int) {
    exists j :: IsIndex(a, ns, c, h, ls, k, j) && (before <==> j <= i)
  }

  // The place of an entry
  lemma PlaceOf(a: seq<Value>, ns: seq<Node>, c: seq<Spot>, h: Hash, ls: nat, m: map<Key, Value>, k: Key)
    returns (j: int)
    requires Refines(a, ns, m) && HashOk(ns, c, h, ls) && k in m
    ensures 0 <= j < |a| + |ns| && LiveAt(a, ns, j) && EntryAt(a, ns, j) == (k, m[k]) && IsIndex(a, ns, c, h, ls, k, j)
  {
    VisitsAll(a, ns, c, h, ls, m, k, m[k]);
    EntriesHas(a, ns, 0, (k, m[k]));
    j :| 0 <= j < |a| + |ns| && LiveAt(a, ns, j) && EntryAt(a, ns, j) == (k, m[k]);
    OwnIndex(a, ns, c, h, ls, m, j);
  }

  lemma UptoStart(a: seq<Value>, ns: seq<Node>, c: seq<Spot>, h: Hash, ls: nat, m: map<Key, Value>)
    requires Refines(a, ns, m) && HashOk(ns, c, h, ls)
    ensures Upto(a, ns, c, h, ls, m, [], -1) && IsIndex(a, ns, c, h, ls, NilKey, -1)
  {
    hide HashOk, Refines;
    forall k | k in m
      ensures HasPlace(a, ns, c, h, ls, k, false, -1)
    {
      var j := PlaceOf(a, ns, c, h, ls, m, k);
    }
  }

  // At the end no key is left.
  lemma AllVisited(a: seq<Value>, ns: seq<Node>, c: seq<Spot>, h: Hash, ls: nat, m: map<Key, Value>,
    visited: seq<Key>, i: int)
    requires Refines(a, ns, m) && HashOk(ns, c, h, ls) && Upto(a, ns, c, h, ls, m, visited, i)
      && -1 <= i < |a| + |ns|
    requires Entries(a, ns, i + 1) == []
    ensures forall k :: k in m ==> k in visited
  {
    hide HashOk, Refines, IsIndex, Entries;
    forall k | k in m
      ensures k in visited
    {
      if k !in visited {
        var p := PlaceOf(a, ns, c, h, ls, m, k);
        assert HasPlace(a, ns, c, h, ls, k, k in visited, i);
        var j :| IsIndex(a, ns, c, h, ls, k, j) && (k in visited <==> j <= i);
        OneIndex(a, ns, c, h, ls, k);
        EntriesHas(a, ns, i + 1, EntryAt(a, ns, p));
      }
    }
  }

  // The first entry from place i on
  lemma {:induction false} FirstLive(a: seq<Value>, ns: seq<Node>, i: nat) returns (j: nat)
    requires Entries(a, ns, i) != []
    ensures i <= j < |a| + |ns| && LiveAt(a, ns, j) && Entries(a, ns, i)[0] == EntryAt(a, ns, j)
      && forall p :: i <= p < j ==> !LiveAt(a, ns, p)
    decreases |a| + |ns| - i
  {
    EntriesStep(a, ns, i);
    if LiveAt(a, ns, i) { j := i; } else { j := FirstLive(a, ns, i + 1); }
  }

  // What luaH_next finds has not been visited.
  lemma NextPlace(a: seq<Value>, ns: seq<Node>, c: seq<Spot>, h: Hash, ls: nat, m: map<Key, Value>,
    visited: seq<Key>, i: int, r: NextResult) returns (j: nat)
    requires Refines(a, ns, m) && HashOk(ns, c, h, ls) && Upto(a, ns, c, h, ls, m, visited, i)
      && -1 <= i < |a| + |ns|
    requires r == FirstOf(Entries(a, ns, i + 1)) && r != End
    ensures i < j < |a| + |ns| && IsIndex(a, ns, c, h, ls, r.k, j) && (forall p :: i < p < j ==> !LiveAt(a, ns, p))
    ensures r.k in m && r.k !in visited && r.v == m[r.k] && r.k != NilKey
  {
    hide HashOk, Refines, IsIndex, Entries;
    j := FirstLive(a, ns, i + 1);
    OwnIndex(a, ns, c, h, ls, m, j);
    EntriesHas(a, ns, 0, EntryAt(a, ns, j));
    VisitsAll(a, ns, c, h, ls, m, r.k, r.v);
    assert HasPlace(a, ns, c, h, ls, r.k, r.k in visited, i);
    OneIndex(a, ns, c, h, ls, r.k);
    NoNilKey(a, ns, m);
  }

  lemma NoNilKey(a: seq<Value>, ns: seq<Node>, m: map<Key, Value>)
    requires Refines(a, ns, m)
    ensures NilKey !in m && forall k :: k in m ==> m[k] != Nil
  {
  }

  lemma SamePlace(a: seq<Value>, ns: seq<Node>, c: seq<Spot>, h: Hash, ls: nat, k: Key, k': Key, j: nat)
    requires IsIndex(a, ns, c, h, ls, k, j) && IsIndex(a, ns, c, h, ls, k', j)
    ensures k == k'
  {
    if j < |a| {
      KeyOfIndex(k);
      KeyOfIndex(k');
    }
  }

  // The traversal comes to the entry k at place j.
  lemma Visited(a: seq<Value>, ns: seq<Node>, c: seq<Spot>, h: Hash, ls: nat, m: map<Key, Value>, visited: seq<Key>,
    k: Key, i: int, j: nat)
    requires Refines(a, ns, m) && HashOk(ns, c, h, ls) && Upto(a, ns, c, h, ls, m, visited, i)
    requires i < j < |a| + |ns| && IsIndex(a, ns, c, h, ls, k, j) && (forall p :: i < p < j ==> !LiveAt(a, ns, p))
    requires k in m && k !in visited && NoDup(visited)
    ensures Upto(a, ns, c, h, ls, m, visited + [k], j) && NoDup(visited + [k])
  {
    hide HashOk, Refines, IsIndex, LiveAt;
    forall x | x in m || x in visited
      ensures HasPlace(a, ns, c, h, ls, x, x in visited + [k], j)
    {
      assert HasPlace(a, ns, c, h, ls, x, x in visited, i);
      var p :| IsIndex(a, ns, c, h, ls, x, p) && (x in visited <==> p <= i);
      OneIndex(a, ns, c, h, ls, x);
      if x !in visited && x != k {
        var q := PlaceOf(a, ns, c, h, ls, m, x);
        if p == j { SamePlace(a, ns, c, h, ls, x, k, j); }
      }
    }
  }

  // A store into an entry moves nothing.
  lemma StillUpto(a: seq<Value>, ns: seq<Node>, c: seq<Spot>, h: Hash, ls: nat, a': seq<Value>, ns': seq<Node>,
    m: map<Key, Value>, m': map<Key, Value>, visited: seq<Key>, k: Key, i: int)
    requires IsIndex(a, ns, c, h, ls, k, i) && Upto(a, ns, c, h, ls, m, visited, i)
    requires |a'| == |a| && Deadened(ns, ns') && m'.Keys <= m.Keys
    ensures IsIndex(a', ns', c, h, ls, k, i) && Upto(a', ns', c, h, ls, m', visited, i)
  {
    hide HashOk, IsIndex, Deadened;
    IndexKept(a, ns, c, h, ls, a', ns', k, i);
    forall x | x in m' || x in visited
      ensures HasPlace(a', ns', c, h, ls, x, x in visited, i)
    {
      assert HasPlace(a, ns, c, h, ls, x, x in visited, i);
      var p :| IsIndex(a, ns, c, h, ls, x, p) && (x in visited <==> p <= i);
      IndexKept(a, ns, c, h, ls, a', ns', x, p);
    }
  }
}

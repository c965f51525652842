/** What a Lua table contains, in its two parts together (ltable.c). */
module TableContents {
  import opened TableSizes
  import opened TableNodes

  function IntKey(i: int): Key {
    Num(i as real)
  }

  // arrayindex: the number as an int, or -1
  function ArrayIndex(k: Key): int {
    if k.Num? && k.r == k.r.Floor as real && -0x8000_0000 <= k.r.Floor < 0x8000_0000 then k.r.Floor else -1
  }

  // The key belongs into an array part of this size.
  predicate InArray(k: Key, n: nat) {
    1 <= ArrayIndex(k) <= n
  }

  lemma IndexOf(i: nat)
    requires i < 0x8000_0000
    ensures ArrayIndex(IntKey(i)) == i
  {
  }

  lemma KeyOfIndex(k: Key)
    requires ArrayIndex(k) >= 1
    ensures k == IntKey(ArrayIndex(k))
  {
  }

  /** The table refines a finite map from keys to values that are not nil. */
  ghost predicate Refines(arr: seq<Value>, ns: seq<Node>, m: map<Key, Value>) {
    && |arr| <= MAXASIZE && (forall k :: k in m ==> k != NilKey && m[k] != Nil)
    && (forall i: nat :: i < |arr| ==> SlotAgrees(arr[i], IntKey(i + 1), m))
    && (forall k, v :: Holds(ns, k, v) <==> !InArray(k, |arr|) && k in m && m[k] == v)
  }

  predicate SlotAgrees(v: Value, k: Key, m: map<Key, Value>) {
    if k in m then v == m[k] else v == Nil
  }

  function ValueAt(m: map<Key, Value>, k: Key): Value {
    if k in m then m[k] else Nil
  }

  function Stored(m: map<Key, Value>, k: Key, v: Value): map<Key, Value> {
    if v == Nil then m - {k} else m[k := v]
  }

  lemma MaxSize()
    ensures MAXASIZE == 0x400_0000
  {
    assert Pow2(13) == 0x2000;
    Pow2Sum(13, 13);
  }

  lemma {:induction false} Pow2Sum(a: nat, b: nat)
    ensures Pow2(a + b) == Pow2(a) * Pow2(b)
  {
    if b > 0 {
      Pow2Sum(a, b - 1);
      assert Pow2(a + b) == 2 * Pow2(a + (b - 1));
    }
  }

  // A value is stored into the array part.
  lemma ArrayStored(arr: seq<Value>, ns: seq<Node>, m: map<Key, Value>, i: nat, v: Value)
    requires Refines(arr, ns, m) && i < |arr|
    ensures Refines(arr[i := v], ns, Stored(m, IntKey(i + 1), v))
  {
    MaxSize();
    var arr', m' := arr[i := v], Stored(m, IntKey(i + 1), v);
    forall j: nat | j < |arr|
      ensures SlotAgrees(arr'[j], IntKey(j + 1), m')
    {
      assert SlotAgrees(arr[j], IntKey(j + 1), m);
      IndexOf(j + 1);
      IndexOf(i + 1);
    }
    IndexOf(i + 1);
  }

  // A value is stored into a node.
  lemma NodeStored(arr: seq<Value>, ns: seq<Node>, m: map<Key, Value>, ns': seq<Node>, k: Key, v: Value)
    requires Refines(arr, ns, m) && !InArray(k, |arr|) && k != NilKey
    requires forall k', v' :: Holds(ns', k', v') <==> if k' == k then v' == v != Nil else Holds(ns, k', v')
    ensures Refines(arr, ns', Stored(m, k, v))
  {
    MaxSize();
    forall j: nat | j < |arr|
      ensures SlotAgrees(arr[j], IntKey(j + 1), Stored(m, k, v))
    {
      assert SlotAgrees(arr[j], IntKey(j + 1), m);
      IndexOf(j + 1);
    }
  }

  lemma SameRefines(arr: seq<Value>, ns: seq<Node>, m: map<Key, Value>, ns': seq<Node>)
    requires Refines(arr, ns, m) && SameEntries(ns, ns')
    ensures Refines(arr, ns', m)
  {
  }

  // ---- counting --------------------------------------------------------------------------------------------

  // The keys that could be in an array part
  function Ints(keys: set<Key>): set<nat> {
    set k | k in keys && 1 <= ArrayIndex(k) <= MAXASIZE :: ArrayIndex(k)
  }

  function Outside(keys: set<Key>, n: nat): set<Key> {
    set k | k in keys && !InArray(k, n)
  }

  lemma IntsAdd(keys: set<Key>, k: Key)
    requires k !in keys
    ensures Ints(keys + {k}) == if InArray(k, MAXASIZE) then Ints(keys) + {ArrayIndex(k) as nat} else Ints(keys)
    ensures InArray(k, MAXASIZE) ==> ArrayIndex(k) !in Ints(keys)
  {
    if InArray(k, MAXASIZE) {
      KeyOfIndex(k);
      if ArrayIndex(k) in Ints(keys) {
        var k' :| k' in keys && 1 <= ArrayIndex(k') <= MAXASIZE && ArrayIndex(k') == ArrayIndex(k);
        KeyOfIndex(k');
      }
    }
  }

  /** The keys that do not go into an array part of size n */
  lemma {:induction false} OutsideCount(keys: set<Key>, n: nat)
    requires n <= MAXASIZE
    ensures |Outside(keys, n)| + |UpTo(Ints(keys), n)| == |keys|
    decreases |keys|
  {
    if keys == {} {
      assert Ints(keys) == {} && UpTo(Ints(keys), n) == {} && Outside(keys, n) == {};
    } else {
      var k :| k in keys;
      var rest := keys - {k};
      assert keys == rest + {k};
      OutsideCount(rest, n);
      OutsideAdd(rest, k, n);
    }
  }

  lemma OutsideAdd(keys: set<Key>, k: Key, n: nat)
    requires k !in keys && n <= MAXASIZE
    ensures |Outside(keys + {k}, n)| == |Outside(keys, n)| + if InArray(k, n) then 0 else 1
    ensures |UpTo(Ints(keys + {k}), n)| == |UpTo(Ints(keys), n)| + if InArray(k, n) then 1 else 0
  {
    if InArray(k, n) {
      assert Outside(keys + {k}, n) == Outside(keys, n);
    } else {
      assert Outside(keys + {k}, n) == Outside(keys, n) + {k};
    }
    InsideAdd(keys, k, n);
  }

  lemma InsideAdd(keys: set<Key>, k: Key, n: nat)
    requires k !in keys && n <= MAXASIZE
    ensures |UpTo(Ints(keys + {k}), n)| == |UpTo(Ints(keys), n)| + if InArray(k, n) then 1 else 0
  {
    hide Ints, MAXASIZE;
    IntsAdd(keys, k);
    if InArray(k, n) {
      assert UpTo(Ints(keys + {k}), n) == UpTo(Ints(keys), n) + {ArrayIndex(k) as nat};
      assert ArrayIndex(k) as nat !in UpTo(Ints(keys), n);
    } else {
      assert UpTo(Ints(keys + {k}), n) == UpTo(Ints(keys), n);
    }
  }

  // The array part as a set of keys
  predicate Present(arr: seq<Value>, i: nat) {
    0 < i <= |arr| && arr[i - 1] != Nil
  }

  function ArrayInts(arr: seq<Value>): set<nat> {
    set i: nat | i <= |arr| && Present(arr, i)
  }

  function ArrayKeys(arr: seq<Value>): set<Key> {
    set i: nat | i in ArrayInts(arr) :: IntKey(i)
  }

  lemma ArrayCount(arr: seq<Value>)
    requires |arr| <= MAXASIZE
    ensures Ints(ArrayKeys(arr)) == ArrayInts(arr) && |ArrayKeys(arr)| == |ArrayInts(arr)|
  {
    MaxSize();
    var s := ArrayInts(arr);
    forall i | i in s
      ensures ArrayIndex(IntKey(i)) == i && IntKey(i) in ArrayKeys(arr)
    {
      IndexOf(i);
    }
    assert Ints(ArrayKeys(arr)) == s;
    assert Outside(ArrayKeys(arr), MAXASIZE) == {};
    OutsideCount(ArrayKeys(arr), MAXASIZE);
    assert UpTo(Ints(ArrayKeys(arr)), MAXASIZE) == s;
  }

  // The keys of a table are those of its array part and those of its nodes.
  lemma AllKeys(arr: seq<Value>, ns: seq<Node>, m: map<Key, Value>)
    requires Refines(arr, ns, m)
    ensures ArrayKeys(arr) <= m.Keys && forall k :: k in m <==> k in ArrayKeys(arr) || (exists v :: Holds(ns, k, v))
    ensures forall k, v :: Holds(ns, k, v) ==> k !in ArrayKeys(arr)
  {
    MaxSize();
    forall k | k in ArrayKeys(arr)
      ensures k in m && InArray(k, |arr|)
    {
      var i: nat :| i in ArrayInts(arr) && k == IntKey(i);
      assert SlotAgrees(arr[i - 1], IntKey(i - 1 + 1), m);
      IndexOf(i);
    }
    forall k | k in m
      ensures k in ArrayKeys(arr) || exists v :: Holds(ns, k, v)
    {
      if InArray(k, |arr|) {
        KeyOfIndex(k);
        var i := ArrayIndex(k);
        assert SlotAgrees(arr[i - 1], IntKey(i - 1 + 1), m);
        assert i in ArrayInts(arr);
      } else {
        assert Holds(ns, k, m[k]);
      }
    }
  }

  /** The optimal size in terms of the keys: more than half of the slots 1..n are used, and of no larger power of two up
      to 2 to the power of 26. */
  lemma OptimalMeans(keys: set<Key>, n: nat)
    requires Optimal(Ints(keys), n)
    ensures n == 0 || exists j :: 0 <= j <= 26 && n == Pow2(j)
    ensures n > 0 ==> 2 * |set i: nat | 1 <= i <= n && IntKey(i) in keys| > n
    ensures forall j: nat :: j <= 26 ==>
              2 * |set i: nat | 1 <= i <= Pow2(j) && IntKey(i) in keys| > Pow2(j) ==> Pow2(j) <= n
  {
    if n > 0 {
      var j :| 0 <= j <= MAXBITS && n == Pow2(j);
      SlotsUsed(keys, j);
    }
    forall j: nat | j <= 26 && 2 * |set i: nat | 1 <= i <= Pow2(j) && IntKey(i) in keys| > Pow2(j)
      ensures Pow2(j) <= n
    {
      SlotsUsed(keys, j);
      assert Dense(Ints(keys), Pow2(j));
    }
  }

  lemma SlotsUsed(keys: set<Key>, j: nat)
    requires j <= MAXBITS
    ensures UpTo(Ints(keys), Pow2(j)) == set i: nat | 1 <= i <= Pow2(j) && IntKey(i) in keys
    ensures |UpTo(Ints(keys), Pow2(j))| > Pow2(j) / 2 <==> 2 * |UpTo(Ints(keys), Pow2(j))| > Pow2(j)
  {
    MaxSize();
    if j < MAXBITS { Pow2Grows(j, MAXBITS); }
    forall i: nat
      ensures i in UpTo(Ints(keys), Pow2(j)) <==> 1 <= i <= Pow2(j) && IntKey(i) in keys
    {
      if i in UpTo(Ints(keys), Pow2(j)) {
        var k :| k in keys && 1 <= ArrayIndex(k) <= MAXASIZE && ArrayIndex(k) == i;
        KeyOfIndex(k);
      }
      if 1 <= i <= Pow2(j) && IntKey(i) in keys { IndexOf(i); }
    }
  }
}

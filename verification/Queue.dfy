/** The intrusive queues of libuv (queue.h): circular lists of nodes that hold their own links. */
module Queues {
  import opened Basics

  /** What a link can point to: the head of the pool's queue, the message that ends the workers, for every
      loop the head of its queue and of the queue that uv__work_done keeps on its stack, and requests. */
  datatype Node = PoolHead | ExitMessage | LoopHead(l: nat) | LocalHead(l: nat) | Work(w: nat)

  type Links = map<Node, Node>

  // The i-th node of a circle and the one behind it are linked.
  ghost predicate Linked(next: Links, prev: Links, c: seq<Node>, i: nat)
    requires i < |c|
  {
    var j := if i + 1 < |c| then i + 1 else 0;
    c[i] in next && c[j] in prev && next[c[i]] == c[j] && prev[c[j]] == c[i]
  }

  ghost predicate Circle(next: Links, prev: Links, c: seq<Node>) {
    forall i: nat :: i < |c| ==> Linked(next, prev, c, i)
  }

  // From h the links lead through s and back to h, in both directions.
  ghost predicate Ring(next: Links, prev: Links, h: Node, s: seq<Node>) {
    NoDup([h] + s) && Circle(next, prev, [h] + s)
  }

  predicate Has(h: Node, s: seq<Node>, x: Node) {
    x == h || x in s
  }

  ghost predicate Separate(lists: map<Node, seq<Node>>) {
    forall h, k, x :: h in lists && k in lists && h != k && Has(h, lists[h], x) ==> !Has(k, lists[k], x)
  }

  // The queues are different circles.
  ghost predicate Rings(next: Links, prev: Links, lists: map<Node, seq<Node>>) {
    (forall h :: h in lists ==> Ring(next, prev, h, lists[h])) && Separate(lists)
  }

  lemma RingSame(next: Links, prev: Links, next': Links, prev': Links, h: Node, s: seq<Node>)
    requires Ring(next, prev, h, s)
    requires forall x :: Has(h, s, x) ==>
        (x in next ==> x in next' && next'[x] == next[x]) && (x in prev ==> x in prev' && prev'[x] == prev[x])
    ensures Ring(next', prev', h, s)
  {
    var c := [h] + s;
    forall i: nat | i < |c|
      ensures Linked(next', prev', c, i)
    {
      assert Linked(next, prev, c, i);
      assert Has(h, s, c[i]) && Has(h, s, c[if i + 1 < |c| then i + 1 else 0]);
    }
  }

  // Where the links of the nodes of a circle lead
  lemma RingLinks(next: Links, prev: Links, h: Node, s: seq<Node>)
    requires Ring(next, prev, h, s)
    ensures h in next && h in prev && (next[h] == h <==> s == [])
      && (s != [] ==> next[h] == s[0] && s[0] in prev && prev[s[0]] == h)
    ensures prev[h] == (if s == [] then h else s[|s| - 1])
    ensures forall x :: x in s ==> x in next && x in prev && next[x] != x
  {
    var c := [h] + s;
    assert Linked(next, prev, c, 0) && Linked(next, prev, c, |c| - 1);
    forall x | x in s
      ensures x in next && x in prev && next[x] != x
    {
      var i :| 0 <= i < |s| && s[i] == x;
      assert Linked(next, prev, c, i + 1) && Linked(next, prev, c, i);
    }
  }

  lemma InsertRing(next: Links, prev: Links, h: Node, s: seq<Node>, q: Node)
    requires Ring(next, prev, h, s) && !Has(h, s, q)
    ensures h in prev
    ensures var last := prev[h];
            Has(h, s, last) && Ring(next[q := h][last := q], prev[q := last][h := q], h, s + [q])
  {
    RingLinks(next, prev, h, s);
    var last := prev[h];
    var next', prev', c, c' := next[q := h][last := q], prev[q := last][h := q], [h] + s, [h] + (s + [q]);
    assert c' == c + [q] && c[|c| - 1] == last;
    assert forall i :: 0 <= i < |c| ==> Has(h, s, c[i]) && c[i] != q;
    forall i: nat | i < |c'|
      ensures Linked(next', prev', c', i)
    {
      if i < |c| - 1 { assert Linked(next, prev, c, i); }
    }
  }

  lemma RemoveRing(next: Links, prev: Links, h: Node, s: seq<Node>, k: nat)
    requires Ring(next, prev, h, s) && k < |s|
    ensures s[k] in next && s[k] in prev
    ensures var a, b := prev[s[k]], next[s[k]];
            Has(h, s, a) && Has(h, s, b) && Ring(next[a := b], prev[b := a], h, s[..k] + s[k + 1..])
    ensures !Has(h, s[..k] + s[k + 1..], s[k])
      && forall x :: x != s[k] ==> (Has(h, s[..k] + s[k + 1..], x) <==> Has(h, s, x))
  {
    var c := [h] + s;
    var r := s[..k] + s[k + 1..];
    var c' := [h] + r;
    assert Linked(next, prev, c, k) && Linked(next, prev, c, k + 1);
    var a, b := prev[s[k]], next[s[k]];
    var n := |c|;
    assert a == c[k] && b == c[if k + 2 < n then k + 2 else 0];
    assert forall i :: 0 <= i < |c'| ==> c'[i] == c[if i <= k then i else i + 1];
    RemovedLinks(next, prev, c, k, c', a, b);
    DistinctTail(h, s);
    RemovedFrom(s, k);
  }

  lemma RemovedLinks(next: Links, prev: Links, c: seq<Node>, k: nat, c': seq<Node>, a: Node, b: Node)
    requires NoDup(c) && k + 1 < |c| && |c'| == |c| - 1
      && (forall i :: 0 <= i < |c'| ==> c'[i] == c[if i <= k then i else i + 1])
    requires Circle(next, prev, c)
    requires a == c[k] && b == c[if k + 2 < |c| then k + 2 else 0]
    ensures NoDup(c') && Circle(next[a := b], prev[b := a], c')
  {
    var next', prev' := next[a := b], prev[b := a];
    forall i: nat | i < |c'|
      ensures Linked(next', prev', c', i)
    {
      if i != k { assert Linked(next, prev, c, if i < k then i else i + 1); }
    }
  }

  lemma DistinctTail(h: Node, s: seq<Node>)
    requires NoDup([h] + s)
    ensures NoDup(s) && h !in s
  {
    var c := [h] + s;
    forall i, j | 0 <= i < j < |s|
      ensures s[i] != s[j]
    {
      assert c[i + 1] != c[j + 1];
    }
    forall i | 0 <= i < |s|
      ensures s[i] != h
    {
      assert c[0] != c[i + 1];
    }
  }

  lemma RemovedFrom(s: seq<Node>, k: nat)
    requires k < |s| && NoDup(s)
    ensures var r := s[..k] + s[k + 1..];
            s[k] !in r && forall x :: x != s[k] ==> (x in r <==> x in s)
  {
    var r := s[..k] + s[k + 1..];
    forall x | x in s && x != s[k]
      ensures x in r
    {
      var i :| 0 <= i < |s| && s[i] == x;
      assert r[if i < k then i else i - 1] == x;
    }
  }

  // The circle without its head, with another head
  lemma MoveRing(next: Links, prev: Links, h: Node, s: seq<Node>, n: Node)
    requires Ring(next, prev, h, s) && s != [] && !Has(h, s, n)
    ensures h in prev && prev[h] in s && s[0] in prev && prev[s[0]] == h
    ensures Ring(next[prev[h] := n][n := s[0]][h := h], prev[n := prev[h]][h := h][s[0] := n], n, s)
    ensures Ring(next[prev[h] := n][n := s[0]][h := h], prev[n := prev[h]][h := h][s[0] := n], h, [])
  {
    hide Circle, Linked;
    RingLinks(next, prev, h, s);
    DistinctTail(h, s);
    var last := prev[h];
    MovedLinks(next, prev, h, s, n, last);
    AloneRing(next[last := n][n := s[0]][h := h], prev[n := last][h := h][s[0] := n], h);
  }

  lemma AloneRing(next: Links, prev: Links, h: Node)
    requires h in next && h in prev && next[h] == h && prev[h] == h
    ensures Ring(next, prev, h, [])
  {
    assert Linked(next, prev, [h] + [], 0);
  }

  lemma MovedLinks(next: Links, prev: Links, h: Node, s: seq<Node>, n: Node, last: Node)
    requires Circle(next, prev, [h] + s) && s != [] && NoDup(s) && h !in s && n !in s && n != h && last == s[|s| - 1]
    ensures Ring(next[last := n][n := s[0]][h := h], prev[n := last][h := h][s[0] := n], n, s)
  {
    var next', prev' := next[last := n][n := s[0]][h := h], prev[n := last][h := h][s[0] := n];
    var c, c' := [h] + s, [n] + s;
    forall i: nat | i < |c'|
      ensures Linked(next', prev', c', i)
    {
      if 0 < i < |s| {
        assert Linked(next, prev, c, i);
        assert c[i] == s[i - 1] && c[i + 1] == s[i] && c'[i] == s[i - 1] && c'[i + 1] == s[i];
        assert s[i - 1] in s && s[i] in s;
      }
    }
  }

  // ---- all queues together ---------------------------------------------------------------------------------

  // The node is in no queue.
  ghost predicate Outside(lists: map<Node, seq<Node>>, q: Node) {
    forall h :: h in lists ==> !Has(h, lists[h], q)
  }

  // The links of the other queues do not change.
  lemma OtherRings(next: Links, prev: Links, next': Links, prev': Links, lists: map<Node, seq<Node>>,
    changed: set<Node>)
    requires Rings(next, prev, lists)
    requires forall x :: x !in changed ==>
        (x in next ==> x in next' && next'[x] == next[x]) && (x in prev ==> x in prev' && prev'[x] == prev[x])
    ensures forall k :: k in lists && (forall x :: x in changed ==> !Has(k, lists[k], x)) ==>
        Ring(next', prev', k, lists[k])
  {
    hide Linked, Circle, NoDup;
    forall k | k in lists && forall x :: x in changed ==> !Has(k, lists[k], x)
      ensures Ring(next', prev', k, lists[k])
    {
      RingSame(next, prev, next', prev', k, lists[k]);
    }
  }

  lemma InitRings(next: Links, prev: Links, lists: map<Node, seq<Node>>, q: Node)
    requires Rings(next, prev, lists) && (Outside(lists, q) || (q in lists && lists[q] == []))
    ensures Rings(next[q := q], prev[q := q], lists[q := []])
  {
    AloneRing(next[q := q], prev[q := q], q);
    OtherRings(next, prev, next[q := q], prev[q := q], lists, {q});
    hide Linked, Circle, NoDup, Ring;
  }

  lemma InsertRings(next: Links, prev: Links, lists: map<Node, seq<Node>>, h: Node, q: Node)
    requires Rings(next, prev, lists) && h in lists && q != h && (Outside(lists, q) || (q in lists && lists[q] == []))
    ensures h in prev
    ensures Rings(next[q := h][prev[h] := q], prev[q := prev[h]][h := q], (lists - {q})[h := lists[h] + [q]])
  {
    hide Linked, Circle, NoDup;
    SeparateFromAll(lists, h);
    InsertRing(next, prev, h, lists[h], q);
    OtherRings(next, prev, next[q := h][prev[h] := q], prev[q := prev[h]][h := q], lists, {q, prev[h], h});
    hide Ring;
    InsertSeparate(lists, h, q);
  }

  lemma SeparateFromAll(lists: map<Node, seq<Node>>, h: Node)
    requires Separate(lists) && h in lists
    ensures forall k, x :: k in lists && k != h && Has(h, lists[h], x) ==> !Has(k, lists[k], x)
    ensures Has(h, lists[h], h)
  {
  }

  lemma InsertSeparate(lists: map<Node, seq<Node>>, h: Node, q: Node)
    requires Separate(lists) && h in lists && q != h && (Outside(lists, q) || (q in lists && lists[q] == []))
    ensures Separate((lists - {q})[h := lists[h] + [q]])
  {
    var l := (lists - {q})[h := lists[h] + [q]];
    assert forall k :: k in lists && k != q ==> !Has(k, lists[k], q) by { assert q in lists ==> Has(q, lists[q], q); }
    forall i, k, x | i in l && k in l && i != k && Has(i, l[i], x)
      ensures !Has(k, l[k], x)
    {
      assert x != q ==> Has(i, lists[i], x);
    }
  }

  lemma RemoveRings(next: Links, prev: Links, lists: map<Node, seq<Node>>, h: Node, k: nat)
    requires Rings(next, prev, lists) && h in lists && k < |lists[h]|
    ensures lists[h][k] in next && lists[h][k] in prev && next[lists[h][k]] != lists[h][k]
      && prev[lists[h][k]] != lists[h][k]
    ensures var q, s := lists[h][k], lists[h];
            var l := lists[h := s[..k] + s[k + 1..]];
            Rings(next[prev[q] := next[q]], prev[next[q] := prev[q]], l) && Outside(l, q)
  {
    hide Linked, Circle, NoDup;
    var q, s := lists[h][k], lists[h];
    SeparateFromAll(lists, h);
    RingLinks(next, prev, h, s);
    PrevOther(next, prev, h, s, q);
    RemoveRing(next, prev, h, s, k);
    assert Has(h, s, q);
    OtherRings(next, prev, next[prev[q] := next[q]], prev[next[q] := prev[q]], lists, {prev[q], next[q]});
    hide Ring;
  }

  lemma MoveRings(next: Links, prev: Links, lists: map<Node, seq<Node>>, h: Node, n: Node)
    requires Rings(next, prev, lists) && h in lists && lists[h] != [] && h != n && n in lists && lists[n] == []
    ensures var s := lists[h];
            && h in prev && prev[h] in s && s[0] in prev && prev[s[0]] == h && h in next && next[h] == s[0]
              && prev[h] != n && s[0] != n
            && Rings(next[prev[h] := n][n := s[0]][h := h], prev[n := prev[h]][h := h][s[0] := n],
              lists[h := []][n := s])
  {
    hide Linked, Circle;
    var s := lists[h];
    SeparateFromAll(lists, h);
    SeparateAt(lists, h, n);
    RingLinks(next, prev, h, s);
    DistinctTail(h, s);
    MoveRing(next, prev, h, s, n);
    OtherRings(next, prev, next[prev[h] := n][n := s[0]][h := h], prev[n := prev[h]][h := h][s[0] := n], lists,
      {prev[h], n, h, s[0]});
    hide Ring, NoDup;
    MoveSeparate(lists, h, n);
    SeparateFromAll(lists, n);
  }

  /** The links of all queues.  `lists` says what the queues contain; a node that QUEUE_INIT has been used on
      is the head of an empty queue. */
  class Memory {
    var next: Links
    var prev: Links
    ghost var lists: map<Node, seq<Node>>

    ghost predicate Valid()
      reads this
    {
      Rings(next, prev, lists)
    }

    // A node that is in no queue
    ghost predicate Unlinked(q: Node)
      reads this
    {
      Outside(lists, q)
    }

    constructor ()
      ensures Valid() && lists == map[]
    {
      next, prev, lists := map[], map[], map[];
    }

    // QUEUE_EMPTY; a node in the queue of another is not empty.
    method IsEmpty(q: Node) returns (b: bool)
      requires Valid() && (q in lists || exists h :: h in lists && q in lists[h])
      ensures q in lists ==> (b <==> lists[q] == [])
      ensures q !in lists ==> !b
    {
      if q in lists {
        RingLinks(next, prev, q, lists[q]);
      } else {
        ghost var h :| h in lists && q in lists[h];
        RingLinks(next, prev, h, lists[h]);
      }
      b := next[q] == q;
    }

    // QUEUE_HEAD
    method Head(h: Node) returns (q: Node)
      requires Valid() && h in lists && lists[h] != []
      ensures q == lists[h][0]
    {
      RingLinks(next, prev, h, lists[h]);
      q := next[h];
    }

    // QUEUE_INIT
    method Init(q: Node)
      requires Valid() && (Unlinked(q) || (q in lists && lists[q] == []))
      modifies this
      ensures Valid() && lists == old(lists)[q := []]
    {
      hide Rings;
      InitRings(next, prev, lists, q);
      next := next[q := q];
      prev := prev[q := q];
      lists := lists[q := []];
    }

    // QUEUE_INSERT_TAIL, for a node that is in no other queue
    method InsertTail(h: Node, q: Node)
      requires Valid() && h in lists && q != h && (Unlinked(q) || (q in lists && lists[q] == []))
      modifies this
      ensures Valid() && lists == (old(lists) - {q})[h := old(lists)[h] + [q]]
    {
      hide Rings;
      InsertRings(next, prev, lists, h, q);
      next := next[q := h];
      prev := prev[q := prev[h]];
      next := next[prev[q] := q];
      prev := prev[h := q];
      lists := (lists - {q})[h := lists[h] + [q]];
    }

    // QUEUE_REMOVE: the links of q itself stay as they are.
    method Remove(q: Node, ghost h: Node, ghost k: nat)
      requires Valid() && h in lists && k < |lists[h]| && lists[h][k] == q
      modifies this
      ensures Valid() && lists == old(lists)[h := old(lists)[h][..k] + old(lists)[h][k + 1..]] && Unlinked(q)
      ensures var s := old(lists)[h];
              && q in next && next[q] == (if k + 1 < |s| then s[k + 1] else h)
              && q in prev && prev[q] == (if k > 0 then s[k - 1] else h)
    {
      Neighbours(next, prev, lists, h, k);
      hide Rings, Outside;
      RemoveRings(next, prev, lists, h, k);
      next := next[prev[q] := next[q]];
      prev := prev[next[q] := prev[q]];
      lists := lists[h := lists[h][..k] + lists[h][k + 1..]];
    }

    // QUEUE_MOVE
    method Move(h: Node, n: Node)
      requires Valid() && h in lists && h != n && n in lists && lists[n] == []
      modifies this
      ensures Valid() && lists == old(lists)[h := []][n := old(lists)[h]]
    {
      HeadLink(next, prev, lists, h);
      hide Rings;
      if next[h] == h {
        Init(n);
      } else {
        ghost var s := lists[h];
        var q := next[h];
        MoveRings(next, prev, lists, h, n);
        prev := prev[n := prev[h]];
        next := next[prev[n] := n];
        next := next[n := q];
        prev := prev[h := prev[q]];
        next := next[prev[h] := h];
        prev := prev[q := n];
        lists := lists[h := []][n := s];
      }
    }
  }

  lemma Neighbours(next: Links, prev: Links, lists: map<Node, seq<Node>>, h: Node, k: nat)
    requires Rings(next, prev, lists) && h in lists && k < |lists[h]|
    ensures var s, q := lists[h], lists[h][k];
            && q in next && next[q] == (if k + 1 < |s| then s[k + 1] else h) && next[q] != q
            && q in prev && prev[q] == (if k > 0 then s[k - 1] else h) && prev[q] != q
  {
    assert Ring(next, prev, h, lists[h]);
    var c := [h] + lists[h];
    assert Linked(next, prev, c, k) && Linked(next, prev, c, k + 1);
  }

  lemma HeadLink(next: Links, prev: Links, lists: map<Node, seq<Node>>, h: Node)
    requires Rings(next, prev, lists) && h in lists
    ensures h in next && (next[h] == h <==> lists[h] == [])
  {
    RingLinks(next, prev, h, lists[h]);
  }

  lemma SeparateAt(lists: map<Node, seq<Node>>, h: Node, n: Node)
    requires Separate(lists) && h in lists && n in lists && h != n
    ensures !Has(h, lists[h], n)
  {
    assert Has(n, lists[n], n);
  }

  lemma MoveSeparate(lists: map<Node, seq<Node>>, h: Node, n: Node)
    requires Separate(lists) && h in lists && n in lists && h != n && lists[n] == [] && h !in lists[h]
    ensures Separate(lists[h := []][n := lists[h]])
  {
    var l := lists[h := []][n := lists[h]];
    forall i, k, x | i in l && k in l && i != k && Has(i, l[i], x)
      ensures !Has(k, l[k], x)
    {
      var i', k' := if i == n && x != n then h else i, if k == n && x != n then h else k;
      assert Has(i', lists[i'], x);
      if Has(k, l[k], x) { assert Has(k', lists[k'], x); }
    }
  }

  lemma PrevOther(next: Links, prev: Links, h: Node, s: seq<Node>, q: Node)
    requires Ring(next, prev, h, s) && q in s
    ensures q in prev && prev[q] != q
  {
    var c := [h] + s;
    var i :| 0 <= i < |s| && s[i] == q;
    assert Linked(next, prev, c, i);
    assert c[i] != c[i + 1];
  }
}

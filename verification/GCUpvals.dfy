/** Open upvalues: freed by the sweep of their thread, or closed when their stack slot goes (lfunc.c). */
module GCUpvals {
  import opened Basics
  import opened GCHeap
  import opened GCInvariant
  import opened GCSweep

  // unlinkupval
  function Unlink(l: seq<Id>, u: Id): seq<Id> {
    if l == [] then [] else if l[0] == u then l[1..] else [l[0]] + Unlink(l[1..], u)
  }

  lemma {:induction false} UnlinkList(l: seq<Id>, u: Id)
    requires NoDup(l)
    ensures NoDup(Unlink(l, u)) && forall x :: x in Unlink(l, u) <==> x in l && x != u
  {
    if l != [] {
      NoDupTail(l);
      if l[0] != u {
        UnlinkList(l[1..], u);
        NoDupCons(l[0], Unlink(l[1..], u));
      }
    }
  }

  function WithOpen(h: Heap, th: Id, open: seq<Id>): Heap {
    if th in h && h[th].Thread? then h[th := h[th].(open := open)] else h
  }

  // The list of open upvalues is not something a program refers to.
  lemma OpenRefers(h: Heap, th: Id, open: seq<Id>, y: Id, r: Id)
    requires y in h
    ensures y in WithOpen(h, th, open)
      && Refers(WithOpen(h, th, open), WithOpen(h, th, open)[y], r) == Refers(h, h[y], r)
  {
  }

  // ---- freeing a dead open upvalue -----------------------------------------------------------------------

  function UpvalFreed(g: Snap, th: Id, i: nat): Snap
    requires th in g.h && g.h[th].Thread? && i < |g.h[th].open|
  {
    var l := g.h[th].open;
    g.(h := WithOpen(g.h, th, l[..i] + l[i + 1..]) - {l[i]}, m := g.m - {l[i]}, uv := Unlink(g.uv, l[i]))
  }

  lemma OpenDistinct(h: Heap, th: Id, l: seq<Id>)
    requires OpenList(h, th, l)
    ensures NoDup(l)
  {
    forall i, j | 0 <= i < j < |l|
      ensures l[i] != l[j]
    {
      assert h[l[i]].slot > h[l[j]].slot;
    }
  }

  lemma UpvalOpen(h: Heap, th: Id, i: nat)
    requires OpenLists(h) && th in h && h[th].Thread? && i < |h[th].open|
    ensures var u := h[th].open[i];
            u in h && h[u].UpOpen? && h[u].th == th && u != th && NoDup(h[th].open)
  {
    assert OpenList(h, th, h[th].open) && h[th].open[i] in h[th].open;
    OpenDistinct(h, th, h[th].open);
  }

  lemma FreedHomes(h: Heap, th: Id, open: seq<Id>, u: Id)
    requires UpvalHomes(h) && th in h && h[th].Thread? && u != th
    requires forall x :: x in h[th].open && x != u ==> x in open
    ensures u in h && h[u].UpOpen? ==> UpvalHomes(WithOpen(h, th, open) - {u})
  {
  }

  lemma FreedUvList(h: Heap, uv: seq<Id>, th: Id, open: seq<Id>, u: Id)
    requires UvList(h, uv) && th in h && h[th].Thread?
    ensures UvList(WithOpen(h, th, open) - {u}, Unlink(uv, u))
  {
    UnlinkList(uv, u);
  }

  lemma RemovedOpenList(h: Heap, th: Id, l: seq<Id>, i: nat, h': Heap)
    requires OpenList(h, th, l) && i < |l|
    requires forall x :: x in h && x != l[i] && x != th ==> x in h' && h'[x] == h[x]
    requires th in h && h[th].Thread?
    ensures OpenList(h', th, l[..i] + l[i + 1..]) && forall x :: x in l[..i] + l[i + 1..] <==> x in l && x != l[i]
  {
    OpenDistinct(h, th, l);
    RemoveAt(l, i, l[i]);
    var r := l[..i] + l[i + 1..];
    forall a, b | 0 <= a < b < |r|
      ensures h'[r[a]].slot > h'[r[b]].slot
    {
      assert r[a] in r && r[b] in r;
      assert h[l[if a < i then a else a + 1]].slot > h[l[if b < i then b else b + 1]].slot;
    }
  }

  lemma OtherOpenList(h: Heap, t: Id, th: Id, u: Id, h': Heap)
    requires t in h && h[t].Thread? && OpenList(h, t, h[t].open) && t != th && u in h && h[u].UpOpen? && h[u].th == th
    requires forall x :: x in h && x != u && x != th ==> x in h' && h'[x] == h[x]
    requires th in h && h[th].Thread?
    ensures OpenList(h', t, h[t].open)
  {
  }

  lemma FreedOpenLists(h: Heap, th: Id, i: nat)
    requires OpenLists(h) && th in h && h[th].Thread? && i < |h[th].open|
    ensures var l := h[th].open;
            OpenLists(WithOpen(h, th, l[..i] + l[i + 1..]) - {l[i]})
  {
    hide OpenList, NoDup;
    var l := h[th].open;
    UpvalOpen(h, th, i);
    var h' := WithOpen(h, th, l[..i] + l[i + 1..]) - {l[i]};
    forall t | t in h' && h'[t].Thread?
      ensures OpenList(h', t, h'[t].open)
    {
      assert OpenList(h, t, h[t].open);
      if t == th { RemovedOpenList(h, th, l, i, h'); } else { OtherOpenList(h, t, th, l[i], h'); }
    }
  }

  lemma UpvalFreedUpvalues(h: Heap, uv: seq<Id>, th: Id, i: nat)
    requires Upvalues(h, uv) && th in h && h[th].Thread? && i < |h[th].open|
    ensures var u := h[th].open[i];
            u in h && h[u].UpOpen? && u != th
    ensures var l := h[th].open;
            Upvalues(WithOpen(h, th, l[..i] + l[i + 1..]) - {l[i]}, Unlink(uv, l[i]))
  {
    hide UpvalHomes, OpenLists, UvList, OpenList, NoDup, WithOpen;
    var l := h[th].open;
    UpvalOpen(h, th, i);
    RemoveAt(l, i, l[i]);
    FreedHomes(h, th, l[..i] + l[i + 1..], l[i]);
    FreedOpenLists(h, th, i);
    FreedUvList(h, uv, th, l[..i] + l[i + 1..], l[i]);
  }

  lemma UpvalFreedLive(h: Heap, m: Marking, cw: bool, th: Id, open: seq<Id>, u: Id, k: set<Id>)
    requires th in h && h[th].Thread? && u in h && h[u].UpOpen? && Dead(m, cw, u) && m.Keys == h.Keys && Live(h, m, cw)
      && Closed(h, k)
    ensures Live(WithOpen(h, th, open) - {u}, m - {u}, cw) && Closed(WithOpen(h, th, open) - {u}, k)
  {
    var h1 := WithOpen(h, th, open);
    assert h1.Keys == h.Keys;
    forall y, r | y in h1 && Refers(h1, h1[y], r)
      ensures Refers(h, h[y], r)
    {
      OpenRefers(h, th, open, y, r);
    }
    FreeLive(h1, m, cw, u, k);
  }

  lemma UpvalFreedPlaced(h: Heap, m: Marking, root: seq<Id>, tmu: seq<Id>, strt: seq<seq<Id>>, th: Id, open: seq<Id>,
    u: Id)
    requires Placed(h, m, root, tmu, strt) && th in h && h[th].Thread? && u in h && h[u].UpOpen?
    ensures Placed(WithOpen(h, th, open) - {u}, m - {u}, root, tmu, strt)
  {
    UpvalFreedStrings(h, strt, th, open, u);
    hide Strings;
  }

  lemma UpvalFreedStrings(h: Heap, strt: seq<seq<Id>>, th: Id, open: seq<Id>, u: Id)
    requires Strings(h, strt) && th in h && h[th].Thread? && u in h && h[u].UpOpen?
    ensures Strings(WithOpen(h, th, open) - {u}, strt)
  {
  }

  lemma UpvalFreedRoots(g: Snap, th: Id, u: Id, g': Snap)
    requires RootsLive(g) && u in g.h && g.h[u].UpOpen? && th in g.h && g.h[th].Thread? && Dead(g.m, g.cw, u)
    requires exists open :: g'.h == WithOpen(g.h, th, open) - {u}
    requires g' == g.(h := g'.h, m := g.m - {u}, uv := g'.uv)
    ensures RootsLive(g') && Roots(g') == Roots(g)
  {
  }

  lemma UpvalFreedCovers(h: Heap, m: Marking, k: set<Id>, roots: set<Id>, th: Id, open: seq<Id>, u: Id)
    requires Covers(h, m, k, roots) && Closed(WithOpen(h, th, open) - {u}, k)
    ensures Covers(WithOpen(h, th, open) - {u}, m - {u}, k, roots)
  {
    hide Closed;
  }

  lemma UpvalFreedColors(h: Heap, m: Marking, th: Id, open: seq<Id>, u: Id)
    requires Colors(h, m) && m.Keys == h.Keys
    ensures Colors(WithOpen(h, th, open) - {u}, m - {u}) && (m - {u}).Keys == (WithOpen(h, th, open) - {u}).Keys
  {
  }

  lemma UdataStays(g: Snap, th: Id, open: seq<Id>, u: Id)
    requires (forall x :: x in g.udata ==> x in g.h && g.h[x].Udata?) && u in g.h && g.h[u].UpOpen?
    ensures forall x :: x in g.udata ==> x in WithOpen(g.h, th, open) - {u} && (WithOpen(g.h, th, open) - {u})[x].Udata?
  {
  }

  lemma UpvalFreedCommon(g: Snap, th: Id, i: nat)
    requires Common(g) && th in g.h && g.h[th].Thread? && i < |g.h[th].open| && Dead(g.m, g.cw, g.h[th].open[i])
    ensures Common(UpvalFreed(g, th, i))
  {
    hide Upvalues, Placed, Colors, Closed, Live, Covers, RootsLive, Dead, WithOpen;
    var l := g.h[th].open;
    var r, u := l[..i] + l[i + 1..], l[i];
    UpvalFreedUpvalues(g.h, g.uv, th, i);
    CoversClosed(g.h, g.m, g.k, Roots(g));
    UpvalFreedLive(g.h, g.m, g.cw, th, r, u, g.k);
    UpvalFreedPlaced(g.h, g.m, RootList(g), g.tmu, g.strt, th, r, u);
    UpvalFreedCovers(g.h, g.m, g.k, Roots(g), th, r, u);
    UpvalFreedColors(g.h, g.m, th, r, u);
    UpvalFreedRoots(g, th, u, UpvalFreed(g, th, i));
    UdataStays(g, th, r, u);
  }

  lemma UpvalFreedSweeps(g: Snap, th: Id, i: nat)
    requires OpenLists(g.h) && th in g.h && g.h[th].Thread? && i < |g.h[th].open| && Dead(g.m, g.cw, g.h[th].open[i])
    ensures Sweeps(g, UpvalFreed(g, th, i))
  {
    var l := g.h[th].open;
    UpvalOpen(g.h, th, i);
    FreedOpenSweeps(g, th, l[..i] + l[i + 1..], l[i], UpvalFreed(g, th, i));
  }

  lemma FreedOpenSweeps(g: Snap, th: Id, open: seq<Id>, u: Id, g': Snap)
    requires th in g.h && g.h[th].Thread? && u in g.h && g.h[u].UpOpen? && Dead(g.m, g.cw, u)
    requires g'.h == WithOpen(g.h, th, open) - {u} && g'.m == g.m - {u} && g'.cw == g.cw
    requires SameStart(g, g') && g'.tmu == g.tmu
    ensures Sweeps(g, g')
  {
  }

  // ---- the sweep of a thread's open upvalues -------------------------------------------------------------

  ghost predicate InSweep(g: Snap) {
    Valid(g) && g.phase == GCSsweep
  }

  ghost predicate OpenSwept(g: Snap, th: Id, n: nat) {
    && th in g.h && g.h[th].Thread? && n <= |g.h[th].open|
    && forall j :: 0 <= j < n ==> g.h[th].open[j] in g.m && g.m[g.h[th].open[j]].color == White(g.cw)
  }

  lemma WhitenRootsSwept(h: Heap, m: Marking, cw: bool, root: seq<Id>, n: nat, x: Id)
    requires RootsSwept(h, m, cw, root, n) && x in m
    ensures RootsSwept(h, MadeWhite(m, x, cw), cw, root, n)
  {
    forall y | y in root[..n]
      ensures Swept(h, MadeWhite(m, x, cw), cw, y)
    {
      assert Swept(h, m, cw, y);
    }
  }

  lemma WhitenStringsSwept(m: Marking, cw: bool, strt: seq<seq<Id>>, n: nat, x: Id)
    requires StringsSwept(m, cw, strt, n)
    ensures StringsSwept(MadeWhite(m, x, cw), cw, strt, n)
  {
  }

  lemma WhitenInSweep(g: Snap, x: Id)
    requires InSweep(g) && x in g.h && x in g.m && !Dead(g.m, g.cw, x)
    ensures var g' := g.(m := MadeWhite(g.m, x, g.cw));
            InSweep(g') && Sweeps(g, g')
  {
    hide Common, StringsSwept, RootsSwept, Condemned, MadeWhite, Dead, Sweeps;
    WhitenCommon(g, x);
    WhitenRootsSwept(g.h, g.m, g.cw, RootList(g), g.sweepgc, x);
    WhitenStringsSwept(g.m, g.cw, g.strt, |g.strt|, x);
    WhitenCondemned(g.h, g.m, g.cw, g.k, x);
    WhitenSweeps(g, x, g.(m := MadeWhite(g.m, x, g.cw)));
  }

  lemma OpenWhitened(g: Snap, th: Id, i: nat)
    requires InSweep(g) && OpenSwept(g, th, i) && i < |g.h[th].open| && g.h[th].open[i] in g.m
      && !Dead(g.m, g.cw, g.h[th].open[i])
    ensures var g' := g.(m := MadeWhite(g.m, g.h[th].open[i], g.cw));
            InSweep(g') && OpenSwept(g', th, i + 1) && Sweeps(g, g')
  {
    hide InSweep, Sweeps;
    OpenExists(g, th, i);
    WhitenInSweep(g, g.h[th].open[i]);
  }

  lemma OpenExists(g: Snap, th: Id, i: nat)
    requires InSweep(g) && th in g.h && g.h[th].Thread? && i < |g.h[th].open|
    ensures var u := g.h[th].open[i];
            u in g.h && u in g.m && g.h[u].UpOpen? && g.h[u].th == th && u != th && NoDup(g.h[th].open)
              && OpenLists(g.h)
  {
    hide Placed, Colors, Closed, Live, Covers, RootsLive;
    UpvalOpen(g.h, th, i);
  }

  lemma FreedRootsSwept(g: Snap, th: Id, i: nat)
    requires OpenLists(g.h) && th in g.h && g.h[th].Thread? && i < |g.h[th].open|
    requires RootsSwept(g.h, g.m, g.cw, RootList(g), g.sweepgc)
      && forall x :: x in RootList(g) ==> x in g.h && !g.h[x].UpOpen?
    ensures var g' := UpvalFreed(g, th, i);
            RootsSwept(g'.h, g'.m, g'.cw, RootList(g'), g'.sweepgc)
  {
    var l, g' := g.h[th].open, UpvalFreed(g, th, i);
    var u := l[i];
    UpvalOpen(g.h, th, i);
    RemoveAt(l, i, u);
    forall x | x in RootList(g)[..g.sweepgc]
      ensures Swept(g'.h, g'.m, g'.cw, x)
    {
      assert Swept(g.h, g.m, g.cw, x) && x in RootList(g) && x != u;
      if g.h[x].Thread? && x != th { assert OpenList(g.h, x, g.h[x].open); }
    }
  }

  lemma FreedStringsSwept(m: Marking, cw: bool, strt: seq<seq<Id>>, n: nat, x: Id)
    requires StringsSwept(m, cw, strt, n) && Dead(m, cw, x)
    ensures StringsSwept(m - {x}, cw, strt, n)
  {
  }

  lemma FreedCondemned(g: Snap, th: Id, i: nat)
    requires Condemned(g.h, g.m, g.cw, g.k) && th in g.h && g.h[th].Thread? && i < |g.h[th].open|
    ensures Condemned(UpvalFreed(g, th, i).h, UpvalFreed(g, th, i).m, g.cw, g.k)
  {
  }

  lemma PlacedRoots(h: Heap, m: Marking, root: seq<Id>, tmu: seq<Id>, strt: seq<seq<Id>>)
    requires Placed(h, m, root, tmu, strt)
    ensures NoDup(root) && forall x :: x in root ==> x in h && !h[x].Str? && !h[x].UpOpen?
  {
  }

  lemma OpenGone(g: Snap, th: Id, i: nat)
    requires InSweep(g) && OpenSwept(g, th, i) && i < |g.h[th].open| && Dead(g.m, g.cw, g.h[th].open[i])
    ensures var g' := UpvalFreed(g, th, i);
            InSweep(g') && OpenSwept(g', th, i) && Sweeps(g, g') && th in g'.h && g'.h[th].Thread?
              && |g'.h[th].open| == |g.h[th].open| - 1
  {
    OpenExists(g, th, i);
    OpenGoneValid(g, th, i);
    OpenGoneSwept(g, th, i);
    hide InSweep;
    UpvalFreedSweeps(g, th, i);
  }

  lemma OpenGoneValid(g: Snap, th: Id, i: nat)
    requires InSweep(g) && th in g.h && g.h[th].Thread? && i < |g.h[th].open| && Dead(g.m, g.cw, g.h[th].open[i])
      && OpenLists(g.h)
    ensures InSweep(UpvalFreed(g, th, i))
  {
    hide Upvalues, Placed, Colors, Closed, Live, Covers, RootsLive, StringsSwept, RootsSwept, Condemned, Dead,
      UpvalFreed;
    var g' := UpvalFreed(g, th, i);
    UpvalFreedCommon(g, th, i);
    PlacedRoots(g.h, g.m, RootList(g), g.tmu, g.strt);
    FreedRootsSwept(g, th, i);
    FreedSame(g, th, i);
    FreedStringsSwept(g.m, g.cw, g.strt, |g.strt|, g.h[th].open[i]);
    FreedCondemned(g, th, i);
  }

  lemma FreedSame(g: Snap, th: Id, i: nat)
    requires th in g.h && g.h[th].Thread? && i < |g.h[th].open|
    ensures var g' := UpvalFreed(g, th, i);
            g' == g.(h := g'.h, m := g.m - {g.h[th].open[i]}, uv := g'.uv)
  {
  }

  lemma OpenGoneSwept(g: Snap, th: Id, i: nat)
    requires OpenSwept(g, th, i) && i < |g.h[th].open| && NoDup(g.h[th].open) && g.h[th].open[i] != th
    ensures var g' := UpvalFreed(g, th, i);
            OpenSwept(g', th, i) && |g'.h[th].open| == |g.h[th].open| - 1
  {
  }

  // ---- closing -------------------------------------------------------------------------------------------

  // A new object at the head of the root list
  function Inserted(g: Snap, x: Id): Snap {
    g.(rootgc := [x] + g.rootgc, sweepgc := if g.sweepgc == 0 then 0 else g.sweepgc + 1)
  }

  // luaF_close for the topmost open upvalue: its value moves from the stack into the upvalue.
  function UpvalShut(g: Snap, th: Id): Snap
    requires th in g.h && g.h[th].Thread? && g.h[th].open != []
  {
    var u := g.h[th].open[0];
    var v := if u in g.h && g.h[u].UpOpen? then StackValue(g.h, g.h[u].th, g.h[u].slot) else Nil;
    Inserted(g.(h := WithOpen(g.h, th, g.h[th].open[1..])[u := UpClosed(v)], uv := Unlink(g.uv, u)), u)
  }

  // Closing an upvalue changes nothing that a program can see.
  lemma ShutRefers(g: Snap, th: Id, y: Id, wk: bool, wv: bool, r: Id)
    requires OpenLists(g.h) && th in g.h && g.h[th].Thread? && g.h[th].open != [] && y in g.h
    ensures var h' := UpvalShut(g, th).h;
            y in h' && (Refers(h', h'[y], r) <==> Refers(g.h, g.h[y], r))
              && (Holds(h', h'[y], wk, wv, r) <==> Holds(g.h, g.h[y], wk, wv, r))
  {
    var u := g.h[th].open[0];
    UpvalOpen(g.h, th, 0);
    OpenRefers(g.h, th, g.h[th].open[1..], y, r);
    ShutOther(WithOpen(g.h, th, g.h[th].open[1..]), u, UpClosed(StackValue(g.h, th, g.h[u].slot)), y, r);
  }

  lemma ShutOther(h: Heap, u: Id, t: Obj, y: Id, r: Id)
    requires u in h && h[u].UpOpen? && !t.Thread? && y in h
    ensures Refers(h[u := t], h[y], r) == Refers(h, h[y], r)
  {
  }

  lemma ShutHomes(h: Heap, th: Id, u: Id, v: Value)
    requires UpvalHomes(h) && th in h && h[th].Thread? && h[th].open != [] && u == h[th].open[0] && u in h && u != th
      && h[u].UpOpen?
    ensures UpvalHomes(WithOpen(h, th, h[th].open[1..])[u := UpClosed(v)])
  {
    var l := h[th].open;
    assert forall x :: x in l && x != u ==> x in l[1..] by { assert l == [u] + l[1..]; }
  }

  lemma ShutOpenLists(h: Heap, th: Id, v: Value)
    requires OpenLists(h) && th in h && h[th].Thread? && h[th].open != []
    ensures OpenLists(WithOpen(h, th, h[th].open[1..])[h[th].open[0] := UpClosed(v)])
  {
    hide OpenList, NoDup;
    var l := h[th].open;
    UpvalOpen(h, th, 0);
    var h' := WithOpen(h, th, l[1..])[l[0] := UpClosed(v)];
    forall t | t in h' && h'[t].Thread?
      ensures OpenList(h', t, h'[t].open)
    {
      assert OpenList(h, t, h[t].open);
      if t == th {
        RemovedOpenList(h, th, l, 0, h');
        assert l[..0] + l[0 + 1..] == l[1..];
      } else {
        OtherOpenList(h, t, th, l[0], h');
      }
    }
  }

  lemma ShutUvList(h: Heap, uv: seq<Id>, th: Id, open: seq<Id>, u: Id, v: Value)
    requires UvList(h, uv) && th in h && h[th].Thread? && u in h
    ensures UvList(WithOpen(h, th, open)[u := UpClosed(v)], Unlink(uv, u))
  {
    UnlinkList(uv, u);
  }

  lemma ShutPlaced(h: Heap, m: Marking, root: seq<Id>, tmu: seq<Id>, strt: seq<seq<Id>>, th: Id, open: seq<Id>, u: Id,
    v: Value)
    requires Placed(h, m, root, tmu, strt) && th in h && h[th].Thread? && u in h && h[u].UpOpen?
    ensures Placed(WithOpen(h, th, open)[u := UpClosed(v)], m, [u] + root, tmu, strt)
  {
    ShutStrings(h, strt, th, open, u, v);
    hide Strings;
    NoDupCons(u, root);
  }

  lemma ShutStrings(h: Heap, strt: seq<seq<Id>>, th: Id, open: seq<Id>, u: Id, v: Value)
    requires Strings(h, strt) && th in h && h[th].Thread? && u in h && h[u].UpOpen?
    ensures Strings(WithOpen(h, th, open)[u := UpClosed(v)], strt)
  {
  }

  lemma ShutLive(g: Snap, th: Id)
    requires OpenLists(g.h) && th in g.h && g.h[th].Thread? && g.h[th].open != [] && Live(g.h, g.m, g.cw)
      && Closed(g.h, g.k) && g.m.Keys == g.h.Keys
    ensures var h' := UpvalShut(g, th).h;
            h'.Keys == g.h.Keys && Live(h', g.m, g.cw) && Closed(h', g.k)
  {
    hide UpvalShut, Refers, Holds, Live, Closed, OpenLists;
    ShutKeys(g, th);
    var h' := UpvalShut(g, th).h;
    forall y, r | y in h' && Refers(h', h'[y], r)
      ensures !Dead(g.m, g.cw, y) ==> r in h' && !Dead(g.m, g.cw, r)
      ensures y in g.k ==> r in g.k
    {
      ShutRefers(g, th, y, false, false, r);
      EdgeLive(g.h, g.m, g.cw, g.k, y, r);
    }
    LiveIs(h', g.m, g.cw, g.k);
  }

  lemma ShutKeys(g: Snap, th: Id)
    requires OpenLists(g.h) && th in g.h && g.h[th].Thread? && g.h[th].open != []
    ensures UpvalShut(g, th).h.Keys == g.h.Keys
  {
    UpvalOpen(g.h, th, 0);
  }

  lemma ShutRoots(g: Snap, th: Id)
    requires RootsLive(g) && OpenLists(g.h) && th in g.h && g.h[th].Thread? && g.h[th].open != []
    ensures var g' := UpvalShut(g, th);
            RootsLive(g') && Roots(g') == Roots(g) && RootList(g') == [g.h[th].open[0]] + RootList(g)
  {
    UpvalOpen(g.h, th, 0);
  }

  lemma ShutRest(g: Snap, th: Id)
    requires OpenLists(g.h) && th in g.h && g.h[th].Thread? && g.h[th].open != [] && g.m.Keys == g.h.Keys
    requires Colors(g.h, g.m) && (forall x :: x in g.udata ==> x in g.h && g.h[x].Udata?)
    ensures var g' := UpvalShut(g, th);
            g'.m == g.m && Colors(g'.h, g'.m) && (forall x :: x in g'.udata ==> x in g'.h && g'.h[x].Udata?)
  {
    UpvalOpen(g.h, th, 0);
    assert forall x :: x in g.h ==> ColorOk(g.h[x], g.m[x].color);
  }

  lemma ShutCovers(g: Snap, th: Id)
    requires OpenLists(g.h) && th in g.h && g.h[th].Thread? && g.h[th].open != [] && Covers(g.h, g.m, g.k, Roots(g))
    requires Closed(UpvalShut(g, th).h, g.k)
    ensures Covers(UpvalShut(g, th).h, g.m, g.k, Roots(g))
  {
    UpvalOpen(g.h, th, 0);
    hide Closed;
  }

  lemma ShutUpvalues(g: Snap, th: Id)
    requires Upvalues(g.h, g.uv) && th in g.h && g.h[th].Thread? && g.h[th].open != []
    ensures var g' := UpvalShut(g, th);
            var u := g.h[th].open[0];
            Upvalues(g'.h, g'.uv) && u in g.h && g.h[u].UpOpen? && g.h[u].th == th && u in g'.h && g'.h[u].UpClosed?
              && OpenLists(g.h)
  {
    hide OpenLists, UpvalHomes, UvList;
    UpvalOpen(g.h, th, 0);
    var u := g.h[th].open[0];
    var v := StackValue(g.h, g.h[u].th, g.h[u].slot);
    ShutHomes(g.h, th, u, v);
    ShutOpenLists(g.h, th, v);
    ShutUvList(g.h, g.uv, th, g.h[th].open[1..], u, v);
  }

  lemma ShutCommon(g: Snap, th: Id)
    requires Common(g) && th in g.h && g.h[th].Thread? && g.h[th].open != []
    ensures Common(UpvalShut(g, th))
  {
    hide Upvalues, Placed, Colors, Closed, Live, Covers, RootsLive, WithOpen;
    var u := g.h[th].open[0];
    ShutUpvalues(g, th);
    var v := StackValue(g.h, g.h[u].th, g.h[u].slot);
    ShutPlaced(g.h, g.m, RootList(g), g.tmu, g.strt, th, g.h[th].open[1..], u, v);
    CoversClosed(g.h, g.m, g.k, Roots(g));
    ShutLive(g, th);
    ShutRoots(g, th);
    ShutRest(g, th);
    ShutCovers(g, th);
  }

  // ---- closing during the sweep --------------------------------------------------------------------------

  lemma ShutSame(g: Snap, th: Id)
    requires OpenLists(g.h) && th in g.h && g.h[th].Thread? && g.h[th].open != []
    ensures var g', u := UpvalShut(g, th), g.h[th].open[0];
            && g'.h.Keys == g.h.Keys && u in g.h && g.h[u].UpOpen? && g.h[u].th == th && u != th
            && g'.h[u] == UpClosed(StackValue(g.h, th, g.h[u].slot)) && g'.h[th] == g.h[th].(open := g.h[th].open[1..])
            && (forall x :: x in g.h && x != u && x != th ==> g'.h[x] == g.h[x])
            && g' == g.(h := g'.h, uv := g'.uv, rootgc := [u] + g.rootgc, sweepgc := g'.sweepgc)
            && Postponed(g') == Postponed(g)
  {
    UpvalOpen(g.h, th, 0);
  }

  lemma ShutSweeps(g: Snap, th: Id)
    requires OpenLists(g.h) && th in g.h && g.h[th].Thread? && g.h[th].open != [] && g.m.Keys == g.h.Keys
    ensures Sweeps(g, UpvalShut(g, th))
  {
    hide UpvalShut, Postponed;
    ShutSame(g, th);
  }

  lemma ShutRootsSwept(g: Snap, th: Id)
    requires OpenLists(g.h) && th in g.h && g.h[th].Thread? && g.h[th].open != []
    requires RootsSwept(g.h, g.m, g.cw, RootList(g), g.sweepgc)
      && (forall x :: x in RootList(g) ==> x in g.h && !g.h[x].UpOpen?)
    requires g.h[th].open[0] in g.m && g.m[g.h[th].open[0]].color == White(g.cw)
    ensures var g' := UpvalShut(g, th);
            RootsSwept(g'.h, g'.m, g'.cw, RootList(g'), g'.sweepgc)
  {
    var l, g' := g.h[th].open, UpvalShut(g, th);
    var u := l[0];
    UpvalOpen(g.h, th, 0);
    assert l == [u] + l[1..];
    assert RootList(g') == [u] + RootList(g);
    assert g'.sweepgc > 0 ==> RootList(g')[..g'.sweepgc] == [u] + RootList(g)[..g.sweepgc];
    forall x | x in RootList(g')[..g'.sweepgc]
      ensures Swept(g'.h, g'.m, g'.cw, x)
    {
      if x != u {
        assert x in RootList(g)[..g.sweepgc] && x in RootList(g);
        assert Swept(g.h, g.m, g.cw, x);
      }
    }
  }

  lemma ShutInSweep(g: Snap, th: Id)
    requires InSweep(g) && th in g.h && g.h[th].Thread? && g.h[th].open != []
    requires g.h[th].open[0] in g.m && g.m[g.h[th].open[0]].color == White(g.cw)
    ensures InSweep(UpvalShut(g, th)) && Sweeps(g, UpvalShut(g, th))
  {
    hide Upvalues, Placed, Colors, Closed, Live, Covers, RootsLive, StringsSwept, RootsSwept, Condemned,
      UpvalShut, Sweeps;
    ShutCommon(g, th);
    ShutUpvalues(g, th);
    PlacedRoots(g.h, g.m, RootList(g), g.tmu, g.strt);
    ShutRootsSwept(g, th);
    ShutSweeps(g, th);
    ShutCondemned(g, th);
  }

  lemma ShutCondemned(g: Snap, th: Id)
    requires OpenLists(g.h) && th in g.h && g.h[th].Thread? && g.h[th].open != [] && Condemned(g.h, g.m, g.cw, g.k)
    ensures var g' := UpvalShut(g, th);
            Condemned(g'.h, g'.m, g'.cw, g'.k)
    ensures var g' := UpvalShut(g, th);
            g' == g.(h := g'.h, uv := g'.uv, rootgc := g'.rootgc, sweepgc := g'.sweepgc)
  {
    UpvalOpen(g.h, th, 0);
  }
}

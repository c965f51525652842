/** The sweep of the root list with its userdata, and the calls of finalizers (sweeplist and GCTM of lgc.c). */
module GCRoots {
  import opened Basics
  import opened GCHeap
  import opened GCInvariant
  import opened GCSweep
  import opened GCUpvals

  // The n-th object leaves the root list.
  function Unlisted(g: Snap, n: nat): Snap
    requires n < |RootList(g)|
  {
    if n < |g.rootgc| then g.(rootgc := g.rootgc[..n] + g.rootgc[n + 1..])
    else g.(udata := g.udata[..n - |g.rootgc|] + g.udata[n - |g.rootgc| + 1..])
  }

  lemma UnlistedList(g: Snap, n: nat)
    requires n < |RootList(g)|
    ensures RootList(Unlisted(g, n)) == RootList(g)[..n] + RootList(g)[n + 1..]
    ensures forall x :: x in Unlisted(g, n).udata ==> x in g.udata
  {
  }

  function RootFreed(g: Snap, n: nat): Snap
    requires n < |RootList(g)|
  {
    var x := RootList(g)[n];
    Unlisted(g, n).(h := g.h - {x}, m := g.m - {x})
  }

  // freeobj leaves no upvalue without its thread.
  predicate NoUpvals(h: Heap, x: Id) {
    x in h && h[x].Thread? ==> h[x].open == []
  }

  lemma FreedUpvalues(h: Heap, x: Id, uv: seq<Id>)
    requires x in h && !h[x].UpOpen? && NoUpvals(h, x) && Upvalues(h, uv)
    ensures Upvalues(h - {x}, uv)
    ensures h[x].Thread? ==> forall y :: y in h && h[y].UpOpen? ==> h[y].th != x
  {
    var h' := h - {x};
    forall th | th in h' && h'[th].Thread?
      ensures OpenList(h', th, h'[th].open)
    {
      assert OpenList(h, th, h[th].open);
    }
  }

  lemma FreedPlaced(h: Heap, m: Marking, root: seq<Id>, n: nat, tmu: seq<Id>, strt: seq<seq<Id>>)
    requires Placed(h, m, root, tmu, strt) && n < |root|
    ensures root[n] in h && !h[root[n]].UpOpen? && !h[root[n]].Str? && NoDup(root)
    ensures Placed(h - {root[n]}, m - {root[n]}, root[..n] + root[n + 1..], tmu, strt)
  {
    assert root[n] in root;
    RemoveAt(root, n, root[n]);
    FreedStrings(h, strt, root[n]);
    hide Strings;
  }

  lemma FreedStrings(h: Heap, strt: seq<seq<Id>>, x: Id)
    requires Strings(h, strt) && x in h && !h[x].Str?
    ensures Strings(h - {x}, strt)
  {
  }

  lemma FreedCommon(g: Snap, n: nat)
    requires Common(g) && n < |RootList(g)| && Dead(g.m, g.cw, RootList(g)[n]) && NoUpvals(g.h, RootList(g)[n])
    ensures Common(RootFreed(g, n)) && Sweeps(g, RootFreed(g, n))
  {
    hide Upvalues, Placed, Colors, Closed, Live, Covers, RootsLive, Dead, Sweeps, Unlisted, NoUpvals;
    var x, g' := RootList(g)[n], RootFreed(g, n);
    FreedPlaced(g.h, g.m, RootList(g), n, g.tmu, g.strt);
    UnlistedList(g, n);
    UnlistedSame(g, n);
    FreedUpvalues(g.h, x, g.uv);
    CoversClosed(g.h, g.m, g.k, Roots(g));
    FreeLive(g.h, g.m, g.cw, x, g.k);
    FreeRoots(g, x, g');
    FreeCovers(g.h, g.m, x, g.k, Roots(g));
    FreeColors(g.h, g.m, x);
    FreeSweeps(g, x, g');
    FreedUdata(g, n);
  }

  lemma UnlistedSame(g: Snap, n: nat)
    requires n < |RootList(g)|
    ensures Unlisted(g, n) == g.(rootgc := Unlisted(g, n).rootgc, udata := Unlisted(g, n).udata)
  {
  }

  lemma FreedUdata(g: Snap, n: nat)
    requires n < |RootList(g)| && (forall u :: u in g.udata ==> u in g.h && g.h[u].Udata?) && NoDup(RootList(g))
    ensures forall u :: u in Unlisted(g, n).udata ==> u in g.h - {RootList(g)[n]} && (g.h - {RootList(g)[n]})[u].Udata?
  {
    var l, x := RootList(g), RootList(g)[n];
    UnlistedList(g, n);
    RemoveAt(l, n, x);
    assert forall u :: u in Unlisted(g, n).udata ==> u in RootList(Unlisted(g, n));
  }

  lemma FreedRootsStaySwept(g: Snap, n: nat)
    requires n < |RootList(g)| && g.sweepgc <= n && NoDup(RootList(g)) && OpenLists(g.h)
      && !(RootList(g)[n] in g.h && g.h[RootList(g)[n]].UpOpen?)
    requires RootsSwept(g.h, g.m, g.cw, RootList(g), g.sweepgc)
    ensures var g' := RootFreed(g, n);
            RootsSwept(g'.h, g'.m, g'.cw, RootList(g'), g'.sweepgc)
  {
    UnlistedList(g, n);
    UnlistedSame(g, n);
    var g', l, x := RootFreed(g, n), RootList(g), RootList(g)[n];
    assert RootList(g')[..g.sweepgc] == l[..g.sweepgc];
    forall y | y in l[..g.sweepgc]
      ensures Swept(g'.h, g'.m, g'.cw, y)
    {
      var i :| 0 <= i < g.sweepgc && l[i] == y;
      assert l[i] != l[n];
      assert Swept(g.h, g.m, g.cw, y);
      if y in g.h && g.h[y].Thread? { assert OpenList(g.h, y, g.h[y].open); }
    }
  }

  lemma FreedInSweep(g: Snap, n: nat)
    requires InSweep(g) && n < |RootList(g)| && g.sweepgc <= n && Dead(g.m, g.cw, RootList(g)[n])
      && NoUpvals(g.h, RootList(g)[n])
    ensures InSweep(RootFreed(g, n)) && Sweeps(g, RootFreed(g, n))
  {
    hide Placed, Colors, Closed, Live, Covers, RootsLive, StringsSwept, RootsSwept, Condemned, Sweeps, Dead,
      NoUpvals, UpvalHomes, UvList, OpenLists;
    FreedCommon(g, n);
    PlacedRoots(g.h, g.m, RootList(g), g.tmu, g.strt);
    FreedRootsStaySwept(g, n);
    FreedStringsSwept(g.m, g.cw, g.strt, |g.strt|, RootList(g)[n]);
    FreeCondemned(g.h, g.m, g.cw, g.k, RootList(g)[n]);
    UnlistedSame(g, n);
  }

  // The object at the place of the sweep stays: it is made white, and the sweep goes on.
  lemma KeptInSweep(g: Snap)
    requires InSweep(g) && g.sweepgc < |RootList(g)| && !Dead(g.m, g.cw, RootList(g)[g.sweepgc])
    requires var x := RootList(g)[g.sweepgc];
             x in g.h && g.h[x].Thread? ==> OpenSwept(g, x, |g.h[x].open|)
    ensures var g' := g.(m := MadeWhite(g.m, RootList(g)[g.sweepgc], g.cw), sweepgc := g.sweepgc + 1);
            InSweep(g') && Sweeps(g, g')
  {
    var x := RootList(g)[g.sweepgc];
    var g1 := g.(m := MadeWhite(g.m, x, g.cw));
    RootExists(g, g.sweepgc);
    hide Common, StringsSwept, Condemned, Sweeps, Dead;
    WhitenInSweep(g, x);
    PhaseCommon(g1, g1.(sweepgc := g.sweepgc + 1));
    SameHeapSweeps(g1, g1.(sweepgc := g.sweepgc + 1));
    SweepsTrans(g, g1, g1.(sweepgc := g.sweepgc + 1));
    OneMoreSwept(g1, x);
  }

  lemma OneMoreSwept(g: Snap, x: Id)
    requires RootsSwept(g.h, g.m, g.cw, RootList(g), g.sweepgc) && g.sweepgc < |RootList(g)|
      && x == RootList(g)[g.sweepgc]
    requires Swept(g.h, g.m, g.cw, x)
    ensures RootsSwept(g.h, g.m, g.cw, RootList(g), g.sweepgc + 1)
  {
    assert RootList(g)[..g.sweepgc + 1] == RootList(g)[..g.sweepgc] + [x];
  }

  lemma RootExists(g: Snap, n: nat)
    requires Common(g) && n < |RootList(g)|
    ensures RootList(g)[n] in g.h && RootList(g)[n] in g.m && g.m.Keys == g.h.Keys
  {
    hide Upvalues, Colors, Closed, Live, Covers, RootsLive, Strings;
    assert RootList(g)[n] in RootList(g);
  }

  /** At the end of the sweep nothing is left that could not be reached since the cycle began. */
  lemma SweepDone(g: Snap)
    requires InSweep(g) && g.sweepgc >= |RootList(g)|
    ensures Valid(g.(phase := GCSfinalize)) && forall x :: x in g.h ==> x in g.k
  {
    assert g.sweepgc == |RootList(g)|;
    AllSwept(g);
    Completeness(g);
    hide Common, Idle;
    PhaseCommon(g, g.(phase := GCSfinalize));
  }

  // ---- how much is left to sweep ---------------------------------------------------------------------------

  function SweepWork(g: Snap): int {
    |RootList(g)| - g.sweepgc + |g.uv|
  }

  lemma {:induction false} UnlinkLength(l: seq<Id>, u: Id)
    ensures |Unlink(l, u)| == if u in l then |l| - 1 else |l|
  {
    if l != [] && l[0] != u { UnlinkLength(l[1..], u); }
  }

  lemma UvListHas(h: Heap, uv: seq<Id>, u: Id)
    requires UvList(h, uv) && u in h && h[u].UpOpen?
    ensures u in uv
  {
  }

  lemma UpvalFreedWork(g: Snap, th: Id, i: nat)
    requires Upvalues(g.h, g.uv) && th in g.h && g.h[th].Thread? && i < |g.h[th].open|
    ensures SweepWork(UpvalFreed(g, th, i)) == SweepWork(g) - 1
  {
    UpvalOpen(g.h, th, i);
    UvListHas(g.h, g.uv, g.h[th].open[i]);
    UnlinkLength(g.uv, g.h[th].open[i]);
  }

  lemma ShutWork(g: Snap, th: Id)
    requires Upvalues(g.h, g.uv) && th in g.h && g.h[th].Thread? && g.h[th].open != []
    ensures SweepWork(UpvalShut(g, th)) <= SweepWork(g)
  {
    UpvalOpen(g.h, th, 0);
    UvListHas(g.h, g.uv, g.h[th].open[0]);
    UnlinkLength(g.uv, g.h[th].open[0]);
  }

  // ---- what the sweep finds ------------------------------------------------------------------------------

  lemma SweepHas(g: Snap)
    requires InSweep(g)
    ensures Common(g) && g.m.Keys == g.h.Keys && Upvalues(g.h, g.uv) && OpenLists(g.h) && g.sweepgc <= |RootList(g)|
    ensures forall i :: 0 <= i < |RootList(g)| ==> RootList(g)[i] in g.h
  {
    hide Colors, Live, Covers, RootsLive, StringsSwept, Condemned, Strings;
    forall i | 0 <= i < |RootList(g)|
      ensures RootList(g)[i] in g.h
    {
      RootExists(g, i);
    }
  }

  lemma OpenStart(g: Snap, th: Id)
    requires th in g.h && g.h[th].Thread?
    ensures OpenSwept(g, th, 0)
  {
  }

  lemma OpenBounds(g: Snap, th: Id, i: nat)
    requires OpenSwept(g, th, i)
    ensures th in g.h && g.h[th].Thread? && i <= |g.h[th].open|
  {
  }

  // Closing keeps the swept upvalues of the thread swept, and moves what is behind the place of the sweep.
  lemma ShutSwept(g: Snap, th: Id)
    requires OpenLists(g.h) && th in g.h && g.h[th].Thread? && g.h[th].open != [] && OpenSwept(g, th, |g.h[th].open|)
    ensures var g' := UpvalShut(g, th);
            && th in g'.h && g'.h[th].Thread? && g'.h[th].open == g.h[th].open[1..]
              && OpenSwept(g', th, |g'.h[th].open|)
            && RootList(g') == [g.h[th].open[0]] + RootList(g) && g'.m == g.m
            && g'.sweepgc == (if g.sweepgc == 0 then 0 else g.sweepgc + 1)
  {
    UpvalOpen(g.h, th, 0);
  }

  lemma OpenWhite(g: Snap, th: Id)
    requires th in g.h && g.h[th].Thread? && OpenSwept(g, th, |g.h[th].open|)
    ensures g.h[th].open != [] ==> g.h[th].open[0] in g.m && g.m[g.h[th].open[0]].color == White(g.cw)
  {
  }

  lemma NoUpvalsIs(h: Heap, x: Id)
    ensures NoUpvals(h, x) <==> (x in h && h[x].Thread? ==> h[x].open == [])
  {
  }
}

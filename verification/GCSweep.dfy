/** The ends of a collection: where it starts, what it has to keep, and what the sweep removes (lgc.c). */
module GCSweep {
  import opened GCHeap
  import opened GCInvariant

  // ---- the start of a cycle ------------------------------------------------------------------------------

  // Where a cycle starts: the roots, and the userdata that may have to be finalized
  ghost function CycleRoots(g: Snap): set<Id> {
    Roots(g) + set x | x in g.h && g.h[x].Udata? && x in g.m && !g.m[x].finalized
  }

  ghost function CycleStart(g: Snap): set<Id> {
    Reachable(g.h, CycleRoots(g))
  }

  function Started(g: Snap, k: set<Id>): Snap {
    g.(gray := [], again := [], weak := [], k := k)
  }

  lemma StartCovers(g: Snap)
    requires Complete(g.h) && RootsLive(g)
    ensures Covers(g.h, g.m, CycleStart(g), Roots(g))
  {
    hide Reachable, Complete, Closed;
    ReachableClosed(g.h, CycleRoots(g));
  }

  lemma StartLists(g: Snap)
    requires Idle(g.h, g.m, g.cw, g.tmu) && Colors(g.h, g.m) && forall u :: u in g.tmu ==> u in g.h && g.h[u].Udata?
    ensures NoDead(g.h, g.m, g.cw) && Lists(g.h, g.m, [], [], [])
    ensures Listed(g.tmu) <= g.k ==> NonwhiteIn(g.h, g.m, g.k)
    ensures Tri(g.h, g.m, Listed(g.tmu) + Listed([]), true)
  {
    assert forall x :: x in g.h ==> ColorOk(g.h[x], g.m[x].color);
  }

  lemma StartTraces(g: Snap)
    requires Common(g) && Idle(g.h, g.m, g.cw, g.tmu) && g.phase != GCSpropagate
    ensures Common(Started(g, CycleStart(g))) && Traces(Started(g, CycleStart(g)), Listed(g.tmu), true)
  {
    hide Upvalues, Placed, Colors, Closed, Reach, Complete, Live, Covers, Idle, Tri, Lists, NoDead, NonwhiteIn,
      CycleStart;
    var g' := Started(g, CycleStart(g));
    IdleComplete(g);
    StartCovers(g);
    TmuAreUdata(g);
    StartRoots(g, CycleStart(g));
    StartLists(g');
  }

  lemma IdleComplete(g: Snap)
    requires Live(g.h, g.m, g.cw) && Idle(g.h, g.m, g.cw, g.tmu)
    ensures Complete(g.h)
  {
  }

  lemma StartRoots(g: Snap, k: set<Id>)
    requires RootsLive(g) && Covers(g.h, g.m, k, Roots(g))
    ensures RootsLive(Started(g, k)) && Roots(Started(g, k)) == Roots(g) && Listed(g.tmu) <= k
  {
    hide Closed;
  }

  lemma TmuAreUdata(g: Snap)
    requires Common(g)
    ensures forall u :: u in g.tmu ==> u in g.h && g.h[u].Udata?
  {
  }

  lemma BeginPropagate(g: Snap, todo: set<Id>)
    requires Common(g) && Traces(g, Listed(g.tmu), true) && g.again == [] && g.weak == []
    requires Nonwhite(g.m, g.main) && Nonwhite(g.m, g.reg)
    ensures Valid(g.(phase := GCSpropagate))
  {
    hide Upvalues, Placed, Colors, Live, Covers, Tri, Lists, NoDead;
    var g' := g.(phase := GCSpropagate);
    assert Postponed(g') == Listed(g.tmu);
    assert Roots(g') == Roots(g);
  }

  lemma MainBound(g: Snap, b: set<Id>)
    requires Common(g) && Bounds(g, b)
    ensures g.main in g.h && g.h[g.main].Thread? && (g.h[g.main].gt.Ref? ==> g.h[g.main].gt.id in b)
  {
    hide Upvalues, Placed, Colors, Live, Covers;
    StartsIn(g, b);
    if g.h[g.main].gt.Ref? { assert Held(g.h, g.main, g.h[g.main].gt.id); }
  }

  // Between two cycles only userdata that wait for their finalizers are not white.
  lemma StartBounds(g: Snap, b: set<Id>)
    requires Valid(g) && (g.phase == GCSpause || g.phase == GCSfinalize) && MarkClosed(g.h, b) && Starts(g) <= b
    ensures Bounds(g, b)
  {
    hide Common, MarkClosed;
    StartsIn(g, b);
  }

  lemma StartedBounds(g: Snap, g': Snap, b: set<Id>)
    requires Bounds(g, b) && g' == g.(gray := g'.gray, again := g'.again, weak := g'.weak, k := g'.k)
    ensures Bounds(g', b)
  {
    assert Starts(g') == Starts(g);
  }

  // ---- what is left at the end ---------------------------------------------------------------------------

  // All that is marked is in b, or a string, which weak references may have kept.
  ghost predicate Spared(h: Heap, m: Marking, b: set<Id>) {
    forall x :: x in h && Nonwhite(m, x) ==> x in b || h[x].Str?
  }

  ghost predicate Sparing(g: Snap, b: set<Id>) {
    if g.phase == GCSpropagate then Bounds(g, b)
    else forall x :: x in g.h && !Dead(g.m, g.cw, x) ==> x in b || g.h[x].Str?
  }

  lemma PropagateIsSparing(g: Snap, b: set<Id>)
    requires g.phase == GCSpropagate
    ensures Sparing(g, b) <==> Bounds(g, b)
  {
  }

  lemma FlippedSparing(g: Snap, b: set<Id>)
    requires Spared(g.h, g.m, b) && g.phase == GCSsweepstring
    requires forall x :: x in g.h ==> (Dead(g.m, g.cw, x) <==> !Nonwhite(g.m, x))
    ensures Sparing(g, b)
  {
  }

  // ---- removing and whitening one object -----------------------------------------------------------------

  // makewhite
  function MadeWhite(m: Marking, x: Id, cw: bool): Marking {
    if x in m then m[x := m[x].(color := White(cw))] else m
  }

  lemma WhitenMarks(h: Heap, m: Marking, x: Id, cw: bool)
    requires x in m && !Dead(m, cw, x)
    ensures var m' := MadeWhite(m, x, cw);
            && m'.Keys == m.Keys && (forall y :: Dead(m', cw, y) <==> Dead(m, cw, y))
            && (forall y :: y in m ==> m'[y].finalized == m[y].finalized)
            && (Colors(h, m) ==> Colors(h, m'))
            && (Live(h, m, cw) ==> Live(h, m', cw))
  {
  }

  lemma WhitenCommon(g: Snap, x: Id)
    requires Common(g) && x in g.h && !Dead(g.m, g.cw, x)
    ensures Common(g.(m := MadeWhite(g.m, x, g.cw)))
  {
    hide Upvalues, Placed, Colors, Closed, Live, Covers, RootsLive, MadeWhite, Dead;
    var m' := MadeWhite(g.m, x, g.cw);
    WhitenMarks(g.h, g.m, x, g.cw);
    FinalizedPlaced(g.h, g.m, m', RootList(g), g.tmu, g.strt);
    CoversClosed(g.h, g.m, g.k, Roots(g));
    FinalizedCovers(g.h, g.h, g.m, m', g.k, Roots(g));
    RootsSame(g, m');
  }

  lemma RootsSame(g: Snap, m': Marking)
    requires RootsLive(g) && forall y :: Dead(m', g.cw, y) <==> Dead(g.m, g.cw, y)
    ensures RootsLive(g.(m := m')) && Roots(g.(m := m')) == Roots(g)
  {
  }

  lemma FreeRefers(h: Heap, x: Id, y: Id, r: Id)
    requires y in h && y != x && (x in h && h[x].Thread? ==> h[y].UpOpen? ==> h[y].th != x)
    ensures Refers(h - {x}, h[y], r) ==> Refers(h, h[y], r)
  {
  }

  // A dead object goes, and with it nothing that is not dead.
  lemma FreeLive(h: Heap, m: Marking, cw: bool, x: Id, k: set<Id>)
    requires x in h && Dead(m, cw, x) && m.Keys == h.Keys && Live(h, m, cw) && Closed(h, k)
    requires h[x].Thread? ==> forall y :: y in h && h[y].UpOpen? ==> h[y].th != x
    ensures Live(h - {x}, m - {x}, cw) && Closed(h - {x}, k)
  {
    var h', m' := h - {x}, m - {x};
    forall y, r | y in h' && Refers(h', h'[y], r)
      ensures !Dead(m', cw, y) ==> r in h' && !Dead(m', cw, r)
      ensures y in k ==> r in k
    {
      FreeRefers(h, x, y, r);
      assert Refers(h, h[y], r);
    }
  }

  lemma FreeRoots(g: Snap, x: Id, g': Snap)
    requires RootsLive(g) && Dead(g.m, g.cw, x) && g'.h == g.h - {x} && g'.m == g.m - {x}
    requires g'.main == g.main && g'.reg == g.reg && g'.run == g.run && g'.mt == g.mt && g'.tmu == g.tmu
      && g'.cw == g.cw
    ensures RootsLive(g') && Roots(g') == Roots(g)
  {
  }

  lemma FreeCovers(h: Heap, m: Marking, x: Id, k: set<Id>, roots: set<Id>)
    requires Covers(h, m, k, roots) && Closed(h - {x}, k)
    ensures Covers(h - {x}, m - {x}, k, roots)
  {
    hide Closed;
  }

  // ---- strings -------------------------------------------------------------------------------------------

  lemma FreeStringUpvalues(h: Heap, x: Id, uv: seq<Id>)
    requires x in h && !h[x].UpOpen? && !h[x].Thread? && Upvalues(h, uv)
    ensures Upvalues(h - {x}, uv)
  {
    var h' := h - {x};
    forall th | th in h' && h'[th].Thread?
      ensures OpenList(h', th, h'[th].open)
    {
      assert OpenList(h, th, h[th].open);
    }
  }

  lemma FreeStringPlaced(h: Heap, m: Marking, x: Id, root: seq<Id>, tmu: seq<Id>, strt: seq<seq<Id>>, b: nat, i: nat)
    requires Placed(h, m, root, tmu, strt) && m.Keys == h.Keys && b < |strt| && i < |strt[b]| && x == strt[b][i]
    ensures h[x].Str?
    ensures Placed(h - {x}, m - {x}, root, tmu, strt[b := strt[b][..i] + strt[b][i + 1..]])
  {
    var l, r := strt[b], strt[b][..i] + strt[b][i + 1..];
    var strt' := strt[b := r];
    assert x in l;
    RemoveAt(l, i, x);
    forall y | y in h - {x} && h[y].Str?
      ensures InTable(strt', y)
    {
      assert InTable(strt, y);
      var c :| 0 <= c < |strt| && y in strt[c];
      assert y in strt'[c];
    }
    forall c, y | 0 <= c < |strt'| && y in strt'[c]
      ensures y in h - {x} && h[y].Str?
    {
      assert y in strt[c];
      if c != b { assert Apart(strt[if c < b then c else b], strt[if c < b then b else c]); }
    }
    forall c, d | 0 <= c < d < |strt'|
      ensures Apart(strt'[c], strt'[d])
    {
      assert Apart(strt[c], strt[d]);
    }
  }

  // One string of the bucket that is swept: it is freed or made white.
  lemma StringFreed(g: Snap, b: nat, i: nat)
    requires Common(g) && b < |g.strt| && i < |g.strt[b]| && Dead(g.m, g.cw, g.strt[b][i])
    ensures var x := g.strt[b][i];
            Common(g.(h := g.h - {x}, m := g.m - {x}, strt := g.strt[b := g.strt[b][..i] + g.strt[b][i + 1..]]))
  {
    hide Upvalues, Placed, Colors, Closed, Live, Covers, RootsLive, Dead;
    var x := g.strt[b][i];
    FreeStringPlaced(g.h, g.m, x, RootList(g), g.tmu, g.strt, b, i);
    var g' := g.(h := g.h - {x}, m := g.m - {x}, strt := g.strt[b := g.strt[b][..i] + g.strt[b][i + 1..]]);
    DeadExists(g, x);
    FreeStringUpvalues(g.h, x, g.uv);
    CoversClosed(g.h, g.m, g.k, Roots(g));
    FreeLive(g.h, g.m, g.cw, x, g.k);
    FreeRoots(g, x, g');
    FreeCovers(g.h, g.m, x, g.k, Roots(g));
    FreeColors(g.h, g.m, x);
    UdataStay(g, x);
  }

  lemma DeadExists(g: Snap, x: Id)
    requires g.m.Keys == g.h.Keys && Dead(g.m, g.cw, x)
    ensures x in g.h
  {
  }

  lemma FreeColors(h: Heap, m: Marking, x: Id)
    requires Colors(h, m)
    ensures Colors(h - {x}, m - {x})
  {
  }

  lemma UdataStay(g: Snap, x: Id)
    requires x in g.h && !g.h[x].Udata? && forall u :: u in g.udata ==> u in g.h && g.h[u].Udata?
    ensures forall u :: u in g.udata ==> u in g.h - {x} && (g.h - {x})[u].Udata?
  {
  }

  // ---- what a sweep may do -------------------------------------------------------------------------------

  // What a program sees of an object: an upvalue may be closed, and the list of open upvalues is not for programs.
  ghost predicate SameValue(h: Heap, h': Heap, x: Id)
    requires x in h && x in h'
  {
    if h[x].UpOpen? || h[x].UpClosed? then (h'[x].UpOpen? || h'[x].UpClosed?) && UpvalValue(h', x) == UpvalValue(h, x)
    else if h[x].Thread? then h'[x].Thread? && h'[x].gt == h[x].gt && h'[x].stack == h[x].stack
    else h'[x] == h[x]
  }

  // No object is new, strings and userdata are what they were, and none forgets that it was finalized.
  ghost predicate SameKinds(g: Snap, g': Snap) {
    && g'.h.Keys <= g.h.Keys && g'.m.Keys <= g.m.Keys
    && (forall x :: x in g'.h ==> (g'.h[x].Str? <==> g.h[x].Str?) && (g'.h[x].Udata? <==> g.h[x].Udata?))
    && (forall x :: x in g'.m ==> g.m[x].finalized ==> g'.m[x].finalized)
  }

  /** Only dead objects are freed, and a program finds everything else as it was. */
  ghost predicate Sweeps(g: Snap, g': Snap) {
    && g'.cw == g.cw && SameStart(g, g') && g'.tmu == g.tmu && SameKinds(g, g')
    && (forall x :: x in g.h && !Dead(g.m, g.cw, x) ==>
        x in g'.h && !Dead(g'.m, g.cw, x) && SameValue(g.h, g'.h, x))
    && (forall x :: x in g'.m ==> g'.m[x].finalized == g.m[x].finalized)
    && (forall x :: x in g'.h && Dead(g.m, g.cw, x) ==> Dead(g'.m, g.cw, x))
  }

  lemma SweepsRefl(g: Snap)
    ensures Sweeps(g, g)
  {
  }

  lemma SweepsTrans(g: Snap, g1: Snap, g2: Snap)
    requires Sweeps(g, g1) && Sweeps(g1, g2)
    ensures Sweeps(g, g2)
  {
    hide UpvalValue;
    forall x | x in g.h && !Dead(g.m, g.cw, x)
      ensures x in g2.h && !Dead(g2.m, g.cw, x) && SameValue(g.h, g2.h, x)
    {
      assert x in g1.h && !Dead(g1.m, g.cw, x) && SameValue(g.h, g1.h, x) && SameValue(g1.h, g2.h, x);
    }
  }

  lemma WhitenSweeps(g: Snap, x: Id, g': Snap)
    requires x in g.m && !Dead(g.m, g.cw, x) && g'.h == g.h && g'.m == MadeWhite(g.m, x, g.cw) && g'.cw == g.cw
    requires SameStart(g, g') && g'.tmu == g.tmu
    ensures Sweeps(g, g')
  {
  }

  // Freeing an object that is nobody's thread
  lemma FreeSweeps(g: Snap, x: Id, g': Snap)
    requires Dead(g.m, g.cw, x) && g'.h == g.h - {x} && g'.m == g.m - {x} && g'.cw == g.cw && x in g.h
    requires g.h[x].Thread? ==> forall y :: y in g.h && g.h[y].UpOpen? ==> g.h[y].th != x
    requires SameStart(g, g') && g'.tmu == g.tmu
    ensures Sweeps(g, g')
  {
  }

  lemma SweepSparing(g: Snap, g': Snap, b: set<Id>)
    requires Sweeps(g, g') && Sparing(g, b) && g.phase != GCSpropagate && g'.phase != GCSpropagate
    ensures Sparing(g', b)
  {
    hide SameValue;
  }

  // ---- the string table ----------------------------------------------------------------------------------

  // The sweep has reached the i-th string of bucket b.
  ghost predicate BucketSwept(m: Marking, cw: bool, l: seq<Id>, n: nat) {
    n <= |l| && forall j :: 0 <= j < n ==> l[j] in m && m[l[j]].color == White(cw)
  }

  ghost predicate SweepingStrings(g: Snap, b: nat, i: nat) {
    && Common(g) && b < |g.strt| && StringsSwept(g.m, g.cw, g.strt, b) && BucketSwept(g.m, g.cw, g.strt[b], i)
    && Condemned(g.h, g.m, g.cw, g.k)
  }

  lemma StringWhitened(g: Snap, b: nat, i: nat)
    requires SweepingStrings(g, b, i) && i < |g.strt[b]| && !Dead(g.m, g.cw, g.strt[b][i])
    ensures var g' := g.(m := MadeWhite(g.m, g.strt[b][i], g.cw));
            SweepingStrings(g', b, i + 1) && Sweeps(g, g')
  {
    hide Common, Sweeps, StringsSwept, BucketSwept, MadeWhite, Condemned, Dead;
    var x := g.strt[b][i];
    StringExists(g, b, i);
    WhitenCommon(g, x);
    WhitenSweeps(g, x, g.(m := MadeWhite(g.m, x, g.cw)));
    WhitenSwept(g.m, g.cw, g.strt, b, i, x);
    WhitenCondemned(g.h, g.m, g.cw, g.k, x);
  }

  lemma WhitenSwept(m: Marking, cw: bool, strt: seq<seq<Id>>, b: nat, i: nat, x: Id)
    requires b < |strt| && i < |strt[b]| && x == strt[b][i] && x in m && StringsSwept(m, cw, strt, b)
      && BucketSwept(m, cw, strt[b], i)
    ensures StringsSwept(MadeWhite(m, x, cw), cw, strt, b) && BucketSwept(MadeWhite(m, x, cw), cw, strt[b], i + 1)
  {
  }

  lemma WhitenCondemned(h: Heap, m: Marking, cw: bool, k: set<Id>, x: Id)
    requires Condemned(h, m, cw, k) && x in m && !Dead(m, cw, x)
    ensures Condemned(h, MadeWhite(m, x, cw), cw, k)
  {
  }

  lemma StringsIn(h: Heap, strt: seq<seq<Id>>)
    requires Strings(h, strt)
    ensures forall b, x :: 0 <= b < |strt| && x in strt[b] ==> x in h && h[x].Str?
  {
  }

  lemma StringExists(g: Snap, b: nat, i: nat)
    requires Common(g) && b < |g.strt| && i < |g.strt[b]|
    ensures var x := g.strt[b][i];
            x in g.h && x in g.m && g.h[x].Str?
  {
    hide Upvalues, Live, Covers, Colors, RootsLive, Strings;
    StringsIn(g.h, g.strt);
    assert g.strt[b][i] in g.strt[b];
  }

  lemma StringGone(g: Snap, b: nat, i: nat)
    requires SweepingStrings(g, b, i) && i < |g.strt[b]| && Dead(g.m, g.cw, g.strt[b][i])
    ensures var x := g.strt[b][i];
            var g' := g.(h := g.h - {x}, m := g.m - {x}, strt := g.strt[b := g.strt[b][..i] + g.strt[b][i + 1..]]);
            SweepingStrings(g', b, i) && Sweeps(g, g')
  {
    hide Common, Sweeps, StringsSwept, BucketSwept, Dead, Condemned;
    var x := g.strt[b][i];
    StringExists(g, b, i);
    StringFreed(g, b, i);
    FreeSweeps(g, x, g.(h := g.h - {x}, m := g.m - {x}, strt := g.strt[b := g.strt[b][..i] + g.strt[b][i + 1..]]));
    SweptRemains(g.m, g.cw, g.strt, b, i, x);
    FreeCondemned(g.h, g.m, g.cw, g.k, x);
  }

  lemma FreeCondemned(h: Heap, m: Marking, cw: bool, k: set<Id>, x: Id)
    requires Condemned(h, m, cw, k)
    ensures Condemned(h - {x}, m - {x}, cw, k)
  {
  }

  lemma SweptRemains(m: Marking, cw: bool, strt: seq<seq<Id>>, b: nat, i: nat, x: Id)
    requires b < |strt| && StringsSwept(m, cw, strt, b) && BucketSwept(m, cw, strt[b], i) && Dead(m, cw, x)
      && i < |strt[b]|
    ensures StringsSwept(m - {x}, cw, strt[b := strt[b][..i] + strt[b][i + 1..]], b)
    ensures BucketSwept(m - {x}, cw, strt[b][..i] + strt[b][i + 1..], i)
  {
  }

  lemma BucketDone(g: Snap, b: nat)
    requires b < |g.strt| && SweepingStrings(g, b, |g.strt[b]|)
    ensures StringsSwept(g.m, g.cw, g.strt, b + 1)
  {
    hide Common;
    forall c, x | 0 <= c < b + 1 && x in g.strt[c]
      ensures x in g.m && g.m[x].color == White(g.cw)
    {
      if c == b {
        var j :| 0 <= j < |g.strt[b]| && g.strt[b][j] == x;
      }
    }
  }

  lemma StringsStart(g: Snap)
    requires Valid(g) && g.phase == GCSsweepstring
    ensures SweepingStrings(g, g.sweepstr, 0)
  {
  }

  // The next bucket, or the root list
  lemma StringsStep(g: Snap, b: nat, g': Snap)
    requires b < |g.strt| && SweepingStrings(g, b, |g.strt[b]|) && g.sweepgc == 0
    requires g' == if b + 1 >= |g.strt|
      then g.(sweepstr := b + 1, phase := GCSsweep) else g.(sweepstr := b + 1, phase := GCSsweepstring)
    ensures Valid(g')
  {
    hide Common, StringsSwept, BucketSwept, Condemned;
    BucketDone(g, b);
    PhaseCommon(g, g');
    assert RootList(g')[..0] == [];
  }

  // The phase and the places of the sweep do not matter to what holds in every phase.
  lemma PhaseCommon(g: Snap, g': Snap)
    requires Common(g) && g' == g.(sweepstr := g'.sweepstr, sweepgc := g'.sweepgc, phase := g'.phase)
    ensures Common(g')
  {
    hide Upvalues, Placed, Colors, Live, Covers, Dead;
    assert Roots(g') == Roots(g) && RootList(g') == RootList(g);
  }

  lemma StringsBounds(g: Snap)
    requires Valid(g) && g.phase == GCSsweepstring
    ensures g.sweepstr < |g.strt| && g.sweepgc == 0
  {
  }

  lemma BucketIn(g: Snap, b: nat, i: nat)
    requires SweepingStrings(g, b, i)
    ensures b < |g.strt| && i <= |g.strt[b]| && g.m.Keys == g.h.Keys && (i < |g.strt[b]| ==> g.strt[b][i] in g.m)
  {
    hide Upvalues, Live, Covers, Colors, RootsLive, Placed, Condemned, StringsSwept;
    if i < |g.strt[b]| { StringExists(g, b, i); }
  }

  lemma SameHeapSweeps(g: Snap, g': Snap)
    requires g'.h == g.h && g'.m == g.m && g'.cw == g.cw && SameStart(g, g') && g'.tmu == g.tmu
    ensures Sweeps(g, g')
  {
  }

  lemma StartReady(g: Snap)
    requires Valid(g) && (g.phase == GCSpause || g.phase == GCSfinalize)
    ensures Common(g) && Idle(g.h, g.m, g.cw, g.tmu)
  {
  }

  lemma MainValue(g: Snap, todo: set<Id>)
    requires Common(g) && Traces(g, todo, true)
    ensures g.main in g.h && g.h[g.main].Thread?
    ensures g.h[g.main].gt.Ref? ==> g.h[g.main].gt.id in g.h && g.h[g.main].gt.id in g.k
  {
    hide Upvalues, Placed, Colors, Lists, Tri;
    MarkReady(g, todo, true);
    RunInK(g);
    RefsInHeap(g.h, g.main, g.k);
  }
}

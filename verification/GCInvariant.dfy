/** The invariant of the garbage collector */
module GCInvariant {
  // What the collector of Lua 5.1 and the program it serves keep true between their steps

  import opened Basics
  import opened GCHeap

  // ---- objects that are not dead -----------------------------------------------------------------------

  /** The safety of the collector: what an object that is not dead refers to exists and is not dead. */
  ghost predicate Live(h: Heap, m: Marking, cw: bool) {
    forall x, r :: x in h && !Dead(m, cw, x) && Refers(h, h[x], r) ==> r in h && !Dead(m, cw, r)
  }

  ghost predicate NoDead(h: Heap, m: Marking, cw: bool) {
    forall x :: x in h ==> !Dead(m, cw, x)
  }

  lemma LiveIs(h: Heap, m: Marking, cw: bool, k: set<Id>)
    requires forall y, r :: y in h && Refers(h, h[y], r) ==>
        (!Dead(m, cw, y) ==> r in h && !Dead(m, cw, r)) && (y in k ==> r in k)
    ensures Live(h, m, cw) && Closed(h, k)
  {
    hide Refers;
  }

  lemma EdgeLive(h: Heap, m: Marking, cw: bool, k: set<Id>, y: Id, r: Id)
    requires Live(h, m, cw) && Closed(h, k) && y in h && Refers(h, h[y], r)
    ensures !Dead(m, cw, y) ==> r in h && !Dead(m, cw, r)
    ensures y in k ==> r in k
  {
    hide Refers;
  }

  lemma LiveComplete(h: Heap, m: Marking, cw: bool)
    requires NoDead(h, m, cw)
    ensures Live(h, m, cw) <==> Complete(h)
  {
  }

  lemma NoDeadGrows(h: Heap, m: Marking, cw: bool, m': Marking)
    requires NoDead(h, m, cw) && Grows(m, m')
    ensures NoDead(h, m', cw)
  {
  }

  /** What a program can get at from places that are not dead exists and is not dead. */
  lemma ReachLive(h: Heap, m: Marking, cw: bool, roots: set<Id>, x: Id)
    requires Live(h, m, cw) && (forall r :: r in roots ==> r in h && !Dead(m, cw, r)) && Reach(h, roots, x)
    ensures x in h && !Dead(m, cw, x)
  {
    var k := set y | y in h && !Dead(m, cw, y);
    assert Closed(h, k);
    ReachInside(h, roots, k, x);
  }

  // ---- upvalues ------------------------------------------------------------------------------------------

  // The open upvalues of a thread are for different slots of its stack, the topmost first.
  ghost predicate OpenList(h: Heap, th: Id, open: seq<Id>) {
    && (forall u :: u in open ==> u in h && h[u].UpOpen? && h[u].th == th)
    && (forall i, j :: 0 <= i < j < |open| ==> h[open[i]].slot > h[open[j]].slot)
  }

  ghost predicate UpvalHomes(h: Heap) {
    forall u :: u in h && h[u].UpOpen? ==>
      h[u].th in h && h[h[u].th].Thread? && u in h[h[u].th].open && h[u].slot < |h[h[u].th].stack|
  }

  ghost predicate OpenLists(h: Heap) {
    forall th :: th in h && h[th].Thread? ==> OpenList(h, th, h[th].open)
  }

  ghost predicate UvList(h: Heap, uvhead: seq<Id>) {
    NoDup(uvhead) && forall u :: u in uvhead <==> u in h && h[u].UpOpen?
  }

  ghost predicate Upvalues(h: Heap, uvhead: seq<Id>) {
    UpvalHomes(h) && OpenLists(h) && UvList(h, uvhead)
  }

  // Open upvalues and threads are never black, userdata never gray.
  ghost predicate Colors(h: Heap, m: Marking) {
    forall u :: u in h ==> u in m && ColorOk(h[u], m[u].color)
  }

  predicate ColorOk(o: Obj, c: Color) {
    (o.UpOpen? || o.Thread? ==> !c.Black?) && (o.Udata? ==> !c.Gray?)
  }

  // ---- where objects are kept ----------------------------------------------------------------------------

  predicate InTable(strt: seq<seq<Id>>, x: Id) {
    exists b :: 0 <= b < |strt| && x in strt[b]
  }

  ghost predicate Strings(h: Heap, strt: seq<seq<Id>>) {
    && (forall b, x :: 0 <= b < |strt| && x in strt[b] ==> x in h && h[x].Str?)
    && (forall x :: x in h && h[x].Str? ==> InTable(strt, x))
    && (forall b :: 0 <= b < |strt| ==> NoDup(strt[b]))
    && (forall b, c :: 0 <= b < c < |strt| ==> Apart(strt[b], strt[c]))
  }

  /** Every object is in exactly one place: strings in the string table, open upvalues with their threads,
      userdata that wait for their finalizer in tmudata, all others in the root list. */
  ghost predicate Placed(h: Heap, m: Marking, rootgc: seq<Id>, tmudata: seq<Id>, strt: seq<seq<Id>>) {
    && NoDup(rootgc) && NoDup(tmudata) && Apart(rootgc, tmudata)
    && (forall x :: x in rootgc ==> x in h && !h[x].Str? && !h[x].UpOpen?)
    && (forall x :: x in tmudata ==> x in h && h[x].Udata? && x in m && m[x].finalized)
    && (forall x :: x in h && !h[x].Str? && !h[x].UpOpen? ==> x in rootgc || x in tmudata)
    && Strings(h, strt)
  }

  // ---- the cycle -----------------------------------------------------------------------------------------

  /** k contains what a program can get at since the cycle began, and the userdata that may need to be
      finalized. */
  ghost predicate Covers(h: Heap, m: Marking, k: set<Id>, roots: set<Id>) {
    && Closed(h, k) && roots <= k
    && (forall x :: x in h && h[x].Udata? && x in m && !m[x].finalized ==> x in k)
  }

  // Between two cycles everything is white, except userdata left to be finalized.
  ghost predicate Idle(h: Heap, m: Marking, cw: bool, tmudata: seq<Id>) {
    forall x :: x in h ==> x in m && !Dead(m, cw, x) && (x in tmudata || m[x].color == White(cw))
  }

  // The part of the string table that has been swept.
  ghost predicate StringsSwept(m: Marking, cw: bool, strt: seq<seq<Id>>, n: nat) {
    n <= |strt| && forall b, x :: 0 <= b < n && x in strt[b] ==> x in m && m[x].color == White(cw)
  }

  ghost predicate Swept(h: Heap, m: Marking, cw: bool, x: Id) {
    && x in m && m[x].color == White(cw)
    && (x in h && h[x].Thread? ==> forall u :: u in h[x].open ==> u in m && m[u].color == White(cw))
  }

  ghost predicate RootsSwept(h: Heap, m: Marking, cw: bool, rootgc: seq<Id>, n: nat) {
    n <= |rootgc| && forall x :: x in rootgc[..n] ==> Swept(h, m, cw, x)
  }

  // What is not covered is dead and will be freed.
  ghost predicate Condemned(h: Heap, m: Marking, cw: bool, k: set<Id>) {
    forall x :: x in h && x !in k ==> Dead(m, cw, x)
  }

  // ---- marking keeps it ----------------------------------------------------------------------------------

  lemma PlacedGrows(h: Heap, m: Marking, m': Marking, rootgc: seq<Id>, tmudata: seq<Id>, strt: seq<seq<Id>>)
    requires Placed(h, m, rootgc, tmudata, strt) && Grows(m, m')
    ensures Placed(h, m', rootgc, tmudata, strt)
  {
    hide Strings;
  }

  lemma CoversGrows(h: Heap, m: Marking, m': Marking, k: set<Id>, roots: set<Id>)
    requires Covers(h, m, k, roots) && Grows(m, m')
    ensures Covers(h, m', k, roots)
  {
  }

  // The heap after entries without a value have lost their keys.
  lemma CleanedKeeps(h: Heap, o: Id, h': Heap, uvhead: seq<Id>)
    requires Cleaned(h, o, h') && Upvalues(h, uvhead)
    ensures h'.Keys == h.Keys && Upvalues(h', uvhead)
    ensures forall x :: x in h ==> h'[x] == h[x] || (h[x].Tab? && h'[x].Tab?)
  {
    assert h'.Keys == h.Keys;
    forall th | th in h' && h'[th].Thread?
      ensures OpenList(h', th, h'[th].open)
    {
      assert OpenList(h, th, h[th].open);
    }
  }

  lemma CleanedPlaced(h: Heap, o: Id, h': Heap, m: Marking, rootgc: seq<Id>, tmudata: seq<Id>, strt: seq<seq<Id>>)
    requires Placed(h, m, rootgc, tmudata, strt) && h'.Keys == h.Keys
    requires forall x :: x in h ==> h'[x] == h[x] || (h[x].Tab? && h'[x].Tab?)
    ensures Placed(h', m, rootgc, tmudata, strt)
  {
  }

  // ---- one step of propagation ---------------------------------------------------------------------------

  ghost predicate NonwhiteIn(h: Heap, m: Marking, k: set<Id>) {
    forall x :: x in h && Nonwhite(m, x) ==> x in k
  }

  // What a traversal changes besides marking white objects: color and weak bits of a marked object.
  lemma TouchedKeeps(h: Heap, m: Marking, o: Id, b: Mark, m': Marking, cw: bool)
    requires o in h && o in m && m.Keys == h.Keys && Nonwhite(m, o) && !b.color.White? && b.finalized == m[o].finalized
    requires Grows(m[o := b], m')
    ensures m'.Keys == m.Keys && (NoDead(h, m, cw) ==> NoDead(h, m', cw))
    ensures forall x :: x in m ==> m'[x].finalized == m[x].finalized && (Nonwhite(m, x) ==> Nonwhite(m', x))
  {
  }

  lemma PropagatedKeeps(h: Heap, m: Marking, gray: seq<Id>, again: seq<Id>, weak: seq<Id>,
                        h': Heap, m': Marking, gray': seq<Id>, again': seq<Id>, weak': seq<Id>, k: set<Id>, cw: bool)
    requires Propagated(h, m, gray, again, weak, h', m', gray', again', weak', k)
    requires m.Keys == h.Keys && NoDead(h, m, cw) && NonwhiteIn(h, m, k) && Lists(h, m, gray, again, weak)
    ensures h'.Keys == h.Keys && m'.Keys == m.Keys && NoDead(h', m', cw) && NonwhiteIn(h', m', k)
    ensures forall x :: x in m ==> m'[x].finalized == m[x].finalized && (Nonwhite(m, x) ==> Nonwhite(m', x))
    ensures Work(m', gray') < Work(m, gray)
  {
    hide Cleaned, Traced, Pushed, Work;
    var o := gray[0];
    GrayHead(h, m, gray, again, weak);
    TouchedKeeps(h, m, o, m'[o], m', cw);
    PropagatedWork(h', m, gray, m', gray', k);
    forall x | x in h' && Nonwhite(m', x)
      ensures x in k
    {
      if m'[x] == m[x] { assert Nonwhite(m, x); } else if x != o { assert m[o := m'[o]][x] == m[x]; }
    }
  }

  lemma PropagatedWork(h': Heap, m: Marking, gray: seq<Id>, m': Marking, gray': seq<Id>, k: set<Id>)
    requires gray != [] && gray[0] in m && gray[0] in m' && Nonwhite(m, gray[0]) && Nonwhite(m', gray[0])
    requires Marked(h', m[gray[0] := m'[gray[0]]], gray[1..], m', gray', k)
    ensures Work(m', gray') < Work(m, gray)
  {
    hide Marked;
    WorkMarked(h', m[gray[0] := m'[gray[0]]], gray[1..], m', gray', k);
    assert Whites(m[gray[0] := m'[gray[0]]]) == Whites(m);
  }

  // The tri-colour invariant, with further objects still to be traversed.
  lemma PropagatedTri(h: Heap, m: Marking, gray: seq<Id>, again: seq<Id>, weak: seq<Id>,
                      h': Heap, m': Marking, gray': seq<Id>, again': seq<Id>, weak': seq<Id>, k: set<Id>,
                      todo: set<Id>, up: bool)
    requires Propagated(h, m, gray, again, weak, h', m', gray', again', weak', k) && Lists(h, m, gray, again, weak)
    requires Tri(h, m, todo + Listed(gray), up)
    ensures Tri(h', m', todo + Listed(gray'), up)
  {
    GrayHead(h, m, gray, again, weak);
    GrayMarked(h, m, gray, again, weak);
    CleanedKinds(h, gray[0], h');
    hide Cleaned, Traced, Pushed, Lists, Tri, Marked;
    TriPropagate(h, m, gray, h', m', gray', k, todo, up);
  }

  lemma GrayMarked(h: Heap, m: Marking, gray: seq<Id>, again: seq<Id>, weak: seq<Id>)
    requires Lists(h, m, gray, again, weak)
    ensures forall x :: x in gray || x in again || x in weak ==> Nonwhite(m, x)
  {
  }

  lemma CleanedKinds(h: Heap, o: Id, h': Heap)
    requires Cleaned(h, o, h') && h'.Keys == h.Keys
    ensures forall x :: x in h ==>
        h'[x].UpOpen? == h[x].UpOpen? && h'[x].Thread? == h[x].Thread? && h'[x].Udata? == h[x].Udata?
  {
  }

  lemma TriMore(h: Heap, m: Marking, todo: set<Id>, todo': set<Id>, up: bool, up': bool)
    requires Tri(h, m, todo, up) && todo <= todo' && (up ==> up')
    ensures Tri(h, m, todo', up')
  {
  }

  lemma PropagatedLists(h: Heap, m: Marking, gray: seq<Id>, again: seq<Id>, weak: seq<Id>,
                        h': Heap, m': Marking, gray': seq<Id>, again': seq<Id>, weak': seq<Id>, k: set<Id>)
    requires Propagated(h, m, gray, again, weak, h', m', gray', again', weak', k)
    ensures Listed(again) <= Listed(again') && Listed(weak) <= Listed(weak')
  {
  }

  lemma MarkedOpen(h: Heap, m: Marking, gray: seq<Id>, m': Marking, gray': seq<Id>, k: set<Id>)
    requires Colors(h, m) && Marked(h, m, gray, m', gray', k)
      && forall x :: x in gray ==> x in m && x in h && Queued(h[x]) && Nonwhite(m, x)
    ensures Colors(h, m')
  {
    assert gray' == gray'[..|gray'| - |gray|] + gray;
    forall u | u in h
      ensures u in m' && ColorOk(h[u], m'[u].color)
    {
      assert ColorOk(h[u], m[u].color);
      if m'[u] != m[u] { assert u in gray' ==> u in gray'[..|gray'| - |gray|] || u in gray; }
    }
  }

  lemma PropagatedOpen(h: Heap, m: Marking, gray: seq<Id>, again: seq<Id>, weak: seq<Id>,
                       h': Heap, m': Marking, gray': seq<Id>, again': seq<Id>, weak': seq<Id>, k: set<Id>)
    requires Propagated(h, m, gray, again, weak, h', m', gray', again', weak', k) && Lists(h, m, gray, again, weak)
    requires Colors(h, m) && m.Keys == h.Keys
    ensures Colors(h', m')
  {
    GrayHead(h, m, gray, again, weak);
    var o := gray[0];
    assert forall x :: x in gray[1..] ==> x in gray;
    CleanedKinds(h, o, h');
    assert forall x :: x in h ==> Queued(h'[x]) == Queued(h[x]);
    GrayMarked(h, m, gray, again, weak);
    MarkedOpen(h', m[o := m'[o]], gray[1..], m', gray', k);
  }

  lemma PropagatedCommon(h: Heap, m: Marking, gray: seq<Id>, again: seq<Id>, weak: seq<Id>,
                         h': Heap, m': Marking, gray': seq<Id>, again': seq<Id>, weak': seq<Id>, k: set<Id>, cw: bool,
                         uvhead: seq<Id>, rootgc: seq<Id>, tmudata: seq<Id>, strt: seq<seq<Id>>, roots: set<Id>)
    requires Propagated(h, m, gray, again, weak, h', m', gray', again', weak', k)
    requires m.Keys == h.Keys && m'.Keys == m.Keys && NoDead(h', m', cw) && Complete(h') && Closed(h', k)
    requires Upvalues(h, uvhead) && Placed(h, m, rootgc, tmudata, strt) && Covers(h, m, k, roots)
    requires forall x :: x in m ==> m'[x].finalized == m[x].finalized
    ensures Upvalues(h', uvhead) && Placed(h', m', rootgc, tmudata, strt) && Covers(h', m', k, roots)
      && Live(h', m', cw)
    ensures forall x :: x in h ==> h'[x] == h[x] || (h[x].Tab? && h'[x].Tab?)
  {
    assert Cleaned(h, gray[0], h');
    CleanedKeeps(h, gray[0], h', uvhead);
    hide Upvalues, Propagated, Complete, Closed, NoDead, Live, Strings, Cleaned;
    CleanedPlaced(h, gray[0], h', m, rootgc, tmudata, strt);
    FinalizedPlaced(h', m, m', rootgc, tmudata, strt);
    FinalizedCovers(h, h', m, m', k, roots);
    LiveComplete(h', m', cw);
  }

  lemma FinalizedPlaced(h: Heap, m: Marking, m': Marking, rootgc: seq<Id>, tmudata: seq<Id>, strt: seq<seq<Id>>)
    requires Placed(h, m, rootgc, tmudata, strt) && m'.Keys == m.Keys
      && forall x :: x in m ==> m'[x].finalized == m[x].finalized
    ensures Placed(h, m', rootgc, tmudata, strt)
  {
    hide Strings;
  }

  lemma FinalizedCovers(h: Heap, h': Heap, m: Marking, m': Marking, k: set<Id>, roots: set<Id>)
    requires Covers(h, m, k, roots) && Closed(h', k) && h'.Keys == h.Keys && m'.Keys == m.Keys
    requires forall x :: x in h ==> h'[x] == h[x] || (h[x].Tab? && h'[x].Tab?)
    requires forall x :: x in m ==> m'[x].finalized == m[x].finalized
    ensures Covers(h', m', k, roots)
  {
    hide Closed;
  }

  // ---- the whole state -----------------------------------------------------------------------------------

  datatype Phase = GCSpause | GCSpropagate | GCSsweepstring | GCSsweep | GCSfinalize

  // A snapshot of the collector and the heap; the fields are those of class GlobalState.
  datatype Snap = Snap(h: Heap, m: Marking, cw: bool, phase: Phase, gray: seq<Id>, again: seq<Id>, weak: seq<Id>,
                       rootgc: seq<Id>, udata: seq<Id>, sweepgc: nat, strt: seq<seq<Id>>, sweepstr: nat, tmu: seq<Id>,
                       main: Id, reg: Id, run: Id, mt: map<nat, Id>, uv: seq<Id>, k: set<Id>)

  // The number of basic types, which may have metatables.
  const NUM_TAGS: nat := 9

  // The root list: the main thread is the last object of its first part, the userdata are behind it.
  function RootList(g: Snap): seq<Id> {
    g.rootgc + g.udata
  }

  // Where a program can start from; the last are given to their finalizers.
  function Roots(g: Snap): set<Id> {
    {g.main, g.reg, g.run} + g.mt.Values + Listed(g.tmu)
  }

  predicate SameStart(g: Snap, g': Snap) {
    g'.main == g.main && g'.reg == g.reg && g'.run == g.run && g'.mt == g.mt
  }

  ghost predicate RootsLive(g: Snap) {
    && (forall r :: r in Roots(g) ==> r in g.h && !Dead(g.m, g.cw, r))
    && g.main in g.h && g.run in g.h && g.h[g.main].Thread? && g.h[g.run].Thread?
    && (forall i :: i in g.mt ==> i < NUM_TAGS)
  }

  // What holds in every phase.
  ghost predicate Common(g: Snap) {
    && g.m.Keys == g.h.Keys && Upvalues(g.h, g.uv) && Colors(g.h, g.m)
    && Placed(g.h, g.m, RootList(g), g.tmu, g.strt) && (forall x :: x in g.udata ==> x in g.h && g.h[x].Udata?)
    && RootsLive(g) && Live(g.h, g.m, g.cw) && Covers(g.h, g.m, g.k, Roots(g)) && g.strt != []
  }

  /** The mark phase: what is marked is covered, and the tri-colour invariant holds except for the gray list
      and `todo`. */
  ghost predicate Traces(g: Snap, todo: set<Id>, up: bool) {
    && NoDead(g.h, g.m, g.cw) && NonwhiteIn(g.h, g.m, g.k) && Lists(g.h, g.m, g.gray, g.again, g.weak)
    && Tri(g.h, g.m, todo + Listed(g.gray), up)
    && (g.phase == GCSpropagate ==> Nonwhite(g.m, g.main) && Nonwhite(g.m, g.reg))
  }

  // What only the atomic step traverses.
  function Postponed(g: Snap): set<Id> {
    Listed(g.again) + Listed(g.weak) + Listed(g.tmu)
  }

  ghost predicate PhaseOk(g: Snap) {
    match g.phase
    case GCSpause => Idle(g.h, g.m, g.cw, g.tmu)
    case GCSpropagate => Traces(g, Postponed(g), true)
    case GCSsweepstring =>
      && StringsSwept(g.m, g.cw, g.strt, g.sweepstr) && g.sweepstr < |g.strt| && g.sweepgc == 0
      && Condemned(g.h, g.m, g.cw, g.k)
    case GCSsweep =>
      && StringsSwept(g.m, g.cw, g.strt, |g.strt|) && RootsSwept(g.h, g.m, g.cw, RootList(g), g.sweepgc)
      && Condemned(g.h, g.m, g.cw, g.k)
    case GCSfinalize => Idle(g.h, g.m, g.cw, g.tmu)
  }

  /** The invariant of every interleaving of the collector with a program. */
  ghost predicate Valid(g: Snap) {
    Common(g) && PhaseOk(g)
  }

  /** Safety: whatever a program can get at has not been freed, and is not about to be. */
  lemma Safety(g: Snap, x: Id)
    requires Valid(g) && Reach(g.h, Roots(g), x)
    ensures x in g.h && !Dead(g.m, g.cw, x)
  {
    hide Upvalues, Placed, Covers, PhaseOk;
    ReachLive(g.h, g.m, g.cw, Roots(g), x);
  }

  /** During propagation no black object refers to a white one, but for userdata that wait for their finalizers. */
  lemma NoBlackToWhite(g: Snap, x: Id, r: Id)
    requires Valid(g) && g.phase == GCSpropagate && x in g.h && x in g.m && g.m[x].color.Black? && x !in g.tmu
    requires Holds(g.h, g.h[x], false, false, r)
    ensures Nonwhite(g.m, r)
  {
    hide Upvalues, Placed, Colors, Live, Covers, RootsLive, Holds;
    BlackUnlisted(g, x);
    assert Traced(g.h, g.m, x);
  }

  lemma BlackUnlisted(g: Snap, x: Id)
    requires Valid(g) && g.phase == GCSpropagate && x in g.h && x in g.m && g.m[x].color.Black? && x !in g.tmu
    ensures x !in Postponed(g) + Listed(g.gray) && !g.h[x].UpOpen?
  {
    hide Upvalues, Placed, Live, Covers, RootsLive, Tri;
    assert ColorOk(g.h[x], g.m[x].color);
  }

  /** Completeness: at the end of a cycle everything is gone that a program could not get at since the cycle
      began, unless a userdata that may need to be finalized led to it. */
  lemma Completeness(g: Snap)
    requires Valid(g) && g.phase == GCSsweep && g.sweepgc == |RootList(g)|
    ensures forall x :: x in g.h ==> x in g.k
  {
    AllSwept(g);
    hide Upvalues, Placed, Covers, Live;
    forall x | x in g.h
      ensures x in g.k
    {
      assert !Dead(g.m, g.cw, x);
    }
  }

  // When the sweep has reached the end of its lists nothing dead is left.
  lemma AllSwept(g: Snap)
    requires Valid(g) && g.phase == GCSsweep && g.sweepgc == |RootList(g)|
    ensures Idle(g.h, g.m, g.cw, g.tmu)
  {
    assert RootList(g)[..g.sweepgc] == RootList(g);
    forall x | x in g.h
      ensures x in g.m && !Dead(g.m, g.cw, x) && (x in g.tmu || g.m[x].color == White(g.cw))
    {
      if g.h[x].Str? {
        assert InTable(g.strt, x);
      } else if g.h[x].UpOpen? {
        var th := g.h[x].th;
        assert th in g.h && g.h[th].Thread? && x in g.h[th].open;
        assert th in RootList(g) && Swept(g.h, g.m, g.cw, th);
      } else if x in RootList(g) {
        assert Swept(g.h, g.m, g.cw, x);
      } else {
        assert x in Roots(g);
      }
    }
  }

  // What a step of propagation may change
  ghost predicate SameButMarks(g: Snap, g': Snap) {
    g' == g.(h := g'.h, m := g'.m, gray := g'.gray, again := g'.again, weak := g'.weak)
  }

  lemma PropagatedRoots(g: Snap, g': Snap)
    requires SameButMarks(g, g') && RootsLive(g) && NoDead(g'.h, g'.m, g'.cw) && g'.h.Keys == g.h.Keys
    requires forall x :: x in g.h ==> g'.h[x] == g.h[x] || (g.h[x].Tab? && g'.h[x].Tab?)
    ensures RootsLive(g')
  {
  }

  lemma PropagatedTraces(g: Snap, g': Snap, todo: set<Id>, up: bool)
    requires Common(g) && Traces(g, todo, up) && SameButMarks(g, g')
    requires Propagated(g.h, g.m, g.gray, g.again, g.weak, g'.h, g'.m, g'.gray, g'.again, g'.weak, g.k)
    requires g'.m.Keys == g'.h.Keys && Complete(g'.h) && Closed(g'.h, g.k)
      && Lists(g'.h, g'.m, g'.gray, g'.again, g'.weak)
    ensures Common(g') && Traces(g', todo, up) && Work(g'.m, g'.gray) < Work(g.m, g.gray) && g'.h.Keys == g.h.Keys
    ensures forall x :: x in g.m ==>
        x in g'.m && (Nonwhite(g.m, x) ==> Nonwhite(g'.m, x)) && g'.m[x].finalized == g.m[x].finalized
  {
    hide Upvalues, Placed, Live, NoDead, Tri, Lists, Propagated, Complete, Closed, NonwhiteIn, RootsLive,
      Covers, Colors;
    PropagatedKeeps(g.h, g.m, g.gray, g.again, g.weak, g'.h, g'.m, g'.gray, g'.again, g'.weak, g.k, g.cw);
    PropagatedTri(g.h, g.m, g.gray, g.again, g.weak, g'.h, g'.m, g'.gray, g'.again, g'.weak, g.k, todo, up);
    PropagatedOpen(g.h, g.m, g.gray, g.again, g.weak, g'.h, g'.m, g'.gray, g'.again, g'.weak, g.k);
    PropagatedCommon(g.h, g.m, g.gray, g.again, g.weak, g'.h, g'.m, g'.gray, g'.again, g'.weak, g.k, g.cw,
                     g.uv, RootList(g), g.tmu, g.strt, Roots(g));
    PropagatedRoots(g, g');
  }

  // In the propagate phase the traversed object may have to be traversed again.
  lemma PropagatedValid(g: Snap, g': Snap)
    requires Valid(g) && g.phase == GCSpropagate && SameButMarks(g, g')
    requires Propagated(g.h, g.m, g.gray, g.again, g.weak, g'.h, g'.m, g'.gray, g'.again, g'.weak, g.k)
    requires g'.m.Keys == g'.h.Keys && Complete(g'.h) && Closed(g'.h, g.k)
      && Lists(g'.h, g'.m, g'.gray, g'.again, g'.weak)
    ensures Valid(g') && Work(g'.m, g'.gray) < Work(g.m, g.gray) && g'.h.Keys == g.h.Keys && g'.m.Keys == g.m.Keys
    ensures forall x :: x in g.m ==> g'.m[x].finalized == g.m[x].finalized
  {
    PropagatedLists(g.h, g.m, g.gray, g.again, g.weak, g'.h, g'.m, g'.gray, g'.again, g'.weak, g.k);
    hide Common, NoDead, Tri, Lists, Propagated, Complete, Closed, NonwhiteIn;
    PropagatedTraces(g, g', Postponed(g), true);
    TriMore(g'.h, g'.m, Postponed(g) + Listed(g'.gray), Postponed(g') + Listed(g'.gray), true, true);
  }

  // Marking white objects keeps the invariant of the mark phase.
  lemma MarkedTraces(g: Snap, g': Snap, todo: set<Id>, up: bool)
    requires Common(g) && Traces(g, todo, up) && g' == g.(m := g'.m, gray := g'.gray)
    requires Marked(g.h, g.m, g.gray, g'.m, g'.gray, g.k)
    ensures Common(g') && Traces(g', todo, up)
    ensures forall x :: x in g.m ==> x in g'.m && (Nonwhite(g.m, x) ==> Nonwhite(g'.m, x))
  {
    hide Upvalues, Placed, Live, NoDead, Tri, Lists, Marked, NonwhiteIn, Covers, Colors, Strings;
    GrayMarked(g.h, g.m, g.gray, g.again, g.weak);
    MarkedKeys(g.h, g.m, g.gray, g'.m, g'.gray, g.k);
    MarkedInK(g.h, g.m, g.gray, g'.m, g'.gray, g.k);
    MarkedTri(g, g', todo, up);
    ListsMarked(g.h, g.m, g.gray, g'.m, g'.gray, g.k, g.again, g.weak);
    MarkedOpen(g.h, g.m, g.gray, g'.m, g'.gray, g.k) by { ListsQueued(g.h, g.m, g.gray, g.again, g.weak); }
    NoDeadGrows(g.h, g.m, g.cw, g'.m);
    LiveComplete(g.h, g.m, g.cw);
    LiveComplete(g.h, g'.m, g.cw);
    PlacedGrows(g.h, g.m, g'.m, RootList(g), g.tmu, g.strt);
    CoversGrows(g.h, g.m, g'.m, g.k, Roots(g));
    RootsNoDead(g, g');
  }

  lemma RootsNoDead(g: Snap, g': Snap)
    requires RootsLive(g) && g' == g.(m := g'.m, gray := g'.gray) && NoDead(g'.h, g'.m, g'.cw)
    ensures RootsLive(g')
  {
  }

  lemma ListsQueued(h: Heap, m: Marking, gray: seq<Id>, again: seq<Id>, weak: seq<Id>)
    requires Lists(h, m, gray, again, weak)
    ensures forall x :: x in gray ==> x in m && x in h && Queued(h[x]) && Nonwhite(m, x)
  {
  }

  lemma MarkedInK(h: Heap, m: Marking, gray: seq<Id>, m': Marking, gray': seq<Id>, k: set<Id>)
    requires NonwhiteIn(h, m, k) && Marked(h, m, gray, m', gray', k)
    ensures NonwhiteIn(h, m', k)
  {
    forall x | x in h && Nonwhite(m', x)
      ensures x in k
    {
      if m'[x] == m[x] { assert Nonwhite(m, x); }
    }
  }

  lemma MarkedTri(g: Snap, g': Snap, todo: set<Id>, up: bool)
    requires Tri(g.h, g.m, todo + Listed(g.gray), up) && g'.h == g.h && forall x :: x in g.gray ==> Nonwhite(g.m, x)
    requires Marked(g.h, g.m, g.gray, g'.m, g'.gray, g.k)
    ensures Tri(g'.h, g'.m, todo + Listed(g'.gray), up)
  {
    TriMarked(g.h, g.m, g.gray, g'.m, g'.gray, g.k, todo + Listed(g.gray), up);
    assert g'.gray == g'.gray[..|g'.gray| - |g.gray|] + g.gray;
    assert todo + Listed(g.gray) + Listed(g'.gray[..|g'.gray| - |g.gray|]) <= todo + Listed(g'.gray);
  }

  // ---- an upper bound of what is marked ------------------------------------------------------------------

  // Marking does not lead out of b, and has not.
  ghost predicate Within(h: Heap, m: Marking, b: set<Id>) {
    MarkClosed(h, b) && NonwhiteIn(h, m, b)
  }

  lemma MarkedMore(h: Heap, m: Marking, l: seq<Id>, m': Marking, l': seq<Id>, k: set<Id>, b: set<Id>)
    requires Marked(h, m, l, m', l', k * b)
    ensures Marked(h, m, l, m', l', k)
    ensures NonwhiteIn(h, m, b) && m.Keys == h.Keys ==> NonwhiteIn(h, m', b)
  {
    if NonwhiteIn(h, m, b) && m.Keys == h.Keys {
      forall x | x in h && Nonwhite(m', x)
        ensures x in b
      {
        if m'[x] == m[x] { assert Nonwhite(m, x); }
      }
    }
  }

  // What a cycle has to keep at least: the roots, and userdata with a finalizer that has not been called
  function Starts(g: Snap): set<Id> {
    Roots(g)
    + set x | x in g.h && g.h[x].Udata? && x in g.m && !g.m[x].finalized && WantsGC(g.h, g.h[x].mt)
  }

  ghost predicate Bounds(g: Snap, b: set<Id>) {
    Within(g.h, g.m, b) && Starts(g) <= b
  }

  lemma StartsIn(g: Snap, b: set<Id>)
    requires Starts(g) <= b
    ensures g.main in b && g.reg in b && g.run in b && (forall i :: i in g.mt ==> g.mt[i] in b)
      && (forall u :: u in g.tmu ==> u in b)
  {
    assert Roots(g) <= b;
    forall i | i in g.mt
      ensures g.mt[i] in b
    {
      assert g.mt[i] in g.mt.Values;
    }
  }

  lemma CleansFinalizer(h: Heap, h': Heap, mt: Option<Id>)
    requires CleanedHeap(h, h')
    ensures Finalizer(h', mt) == Finalizer(h, mt)
  {
    if mt.Some? && mt.value in h { assert Cleans(h[mt.value], h'[mt.value]); }
  }

  // The same for a later state of the mark phase
  lemma BoundsKept(g: Snap, g': Snap, b: set<Id>)
    requires Bounds(g, b) && Within(g'.h, g'.m, b) && CleanedHeap(g.h, g'.h) && g'.m.Keys == g.m.Keys
    requires forall x :: x in g.m ==> g'.m[x].finalized == g.m[x].finalized
    requires SameStart(g, g') && g'.tmu == g.tmu
    ensures Bounds(g', b)
  {
    hide Within, Finalizer, CleanedHeap, Cleans;
    assert Roots(g') == Roots(g);
    forall x | x in Starts(g')
      ensures x in Starts(g)
    {
      if x !in Roots(g) {
        CleanedAt(g.h, g'.h, x);
        CleansFinalizer(g.h, g'.h, g.h[x].mt);
      }
    }
  }

  lemma CleanedAt(h: Heap, h': Heap, x: Id)
    requires CleanedHeap(h, h') && x in h'
    ensures x in h && (h'[x].Udata? ==> h[x] == h'[x])
  {
    assert Cleans(h[x], h'[x]);
  }

  lemma MarksBounds(g: Snap, g': Snap, b: set<Id>)
    requires Bounds(g, b) && Within(g'.h, g'.m, b) && CleanedHeap(g.h, g'.h) && Marks(g, g')
    ensures Bounds(g', b)
  {
    hide Bounds, Within, CleanedHeap, SameTables, Modes;
    BoundsKept(g, g', b);
  }

  lemma BoundsAlike(g: Snap, g': Snap, b: set<Id>)
    requires Bounds(g, b) && g' == g.(gray := g'.gray, again := g'.again, weak := g'.weak, phase := g'.phase)
    ensures Bounds(g', b)
  {
    assert Starts(g') == Starts(g);
  }

  lemma BoundsWithin(g: Snap, b: set<Id>)
    requires Bounds(g, b)
    ensures Within(g.h, g.m, b) && Starts(g) <= b
  {
  }

  // Marking alone
  lemma MarkedBounds(g: Snap, g': Snap, b: set<Id>)
    requires Bounds(g, b) && Marked(g.h, g.m, g.gray, g'.m, g'.gray, g.k * b) && g.m.Keys == g.h.Keys
    requires g' == g.(m := g'.m, gray := g'.gray)
    ensures Bounds(g', b) && Marked(g.h, g.m, g.gray, g'.m, g'.gray, g.k)
  {
    hide Marked, MarkClosed, Starts;
    MarkedMore(g.h, g.m, g.gray, g'.m, g'.gray, g.k, b);
    MarkedFinalized(g.h, g.m, g.gray, g'.m, g'.gray, g.k);
    CleanedHeapRefl(g.h);
    BoundsKept(g, g', b);
  }

  lemma MarkedFinalized(h: Heap, m: Marking, l: seq<Id>, m': Marking, l': seq<Id>, k: set<Id>)
    requires Marked(h, m, l, m', l', k)
    ensures m'.Keys == m.Keys && forall x :: x in m ==> m'[x].finalized == m[x].finalized
  {
  }

  // What a step of marking needs
  lemma BoundReady(g: Snap, todo: set<Id>, up: bool, b: set<Id>)
    requires Common(g) && Traces(g, todo, up) && Within(g.h, g.m, b)
    ensures g.m.Keys == g.h.Keys && Complete(g.h) && Closed(g.h, g.k) && Lists(g.h, g.m, g.gray, g.again, g.weak)
    ensures MarkClosed(g.h, g.k * b) && (g.gray != [] ==> g.gray[0] in g.k * b && g.gray[0] in g.h)
  {
    hide Common, Tri, NoDead;
    MarkReady(g, todo, up);
    ClosedMarks(g.h, g.k, b);
    if g.gray != [] { GrayHead(g.h, g.m, g.gray, g.again, g.weak); }
  }

  // Propagation within k and b
  lemma PropagatedBound(g: Snap, g': Snap, b: set<Id>)
    requires Propagated(g.h, g.m, g.gray, g.again, g.weak, g'.h, g'.m, g'.gray, g'.again, g'.weak, g.k * b)
    requires g.m.Keys == g.h.Keys && Complete(g.h) && Closed(g.h, g.k) && Within(g.h, g.m, b)
      && Lists(g.h, g.m, g.gray, g.again, g.weak)
    ensures Propagated(g.h, g.m, g.gray, g.again, g.weak, g'.h, g'.m, g'.gray, g'.again, g'.weak, g.k)
    ensures Closed(g'.h, g.k) && Within(g'.h, g'.m, b)
  {
    hide Traced, ModeRight, Complete, Closed, MarkClosed, Cleaned, Lists, Marked;
    var o := g.gray[0];
    GrayHead(g.h, g.m, g.gray, g.again, g.weak);
    CleanedGraph(g.h, o, g'.h, g.k);
    CleanedMarkClosed(g.h, o, g'.h, b);
    TouchedIn(g.h, g.m, o, g'.m, g'.h, b);
    MarkedMore(g'.h, g.m[o := g'.m[o]], g.gray[1..], g'.m, g'.gray, g.k, b);
  }

  lemma TouchedIn(h: Heap, m: Marking, o: Id, m': Marking, h': Heap, b: set<Id>)
    requires NonwhiteIn(h, m, b) && o in h && Nonwhite(m, o) && o in m' && h'.Keys == h.Keys && m.Keys == h.Keys
    ensures NonwhiteIn(h', m[o := m'[o]], b) && m[o := m'[o]].Keys == h'.Keys
  {
  }

  lemma MarkReady(g: Snap, todo: set<Id>, up: bool)
    requires Common(g) && Traces(g, todo, up)
    ensures g.m.Keys == g.h.Keys && Complete(g.h) && Closed(g.h, g.k) && Lists(g.h, g.m, g.gray, g.again, g.weak)
    ensures g.gray != [] ==> g.gray[0] in g.k && g.gray[0] in g.h
  {
    hide Upvalues, Placed;
    LiveComplete(g.h, g.m, g.cw);
    if g.gray != [] { GrayHead(g.h, g.m, g.gray, g.again, g.weak); }
  }

  // ---- the atomic step -----------------------------------------------------------------------------------

  // The weak tables that the atomic step will clear are weak as their metatables say.
  ghost predicate Modes(h: Heap, m: Marking, weak: seq<Id>) {
    forall x :: x in weak ==> ModeRight(h, m, x)
  }

  lemma ModesKept(h: Heap, m: Marking, weak: seq<Id>, h': Heap, m': Marking)
    requires Modes(h, m, weak) && SameTables(h, h') && m'.Keys == m.Keys
    requires forall x :: x in weak && x in m ==> m'[x].kweak == m[x].kweak && m'[x].vweak == m[x].vweak
    ensures Modes(h', m', weak)
  {
    hide WeakMode;
    forall x | x in weak
      ensures ModeRight(h', m', x)
    {
      assert ModeRight(h, m, x) && SameTable(h[x], h'[x]);
      SameMode(h, h', h[x].mt);
    }
  }

  // What a stretch of marking may do: nothing marked becomes white, only threads are left to be traversed again.
  ghost predicate Marks(g: Snap, g': Snap) {
    && SameButMarks(g, g') && SameTables(g.h, g'.h) && g'.m.Keys == g.m.Keys
    && (forall x :: Nonwhite(g.m, x) ==> Nonwhite(g'.m, x))
    && (forall x :: x in g.m ==> g'.m[x].finalized == g.m[x].finalized)
    && (forall x :: x in g'.again ==> x in g.again || (x in g'.h && g'.h[x].Thread?))
    && (forall x :: x in g.again ==> x in g'.again) && (forall x :: x in g.weak ==> x in g'.weak)
    && (Modes(g.h, g.m, g.weak) ==> Modes(g'.h, g'.m, g'.weak))
  }

  lemma MarksRefl(g: Snap)
    ensures Marks(g, g)
  {
    hide Modes;
  }

  lemma MarksTrans(g: Snap, g1: Snap, g2: Snap)
    requires Marks(g, g1) && Marks(g1, g2)
    ensures Marks(g, g2)
  {
    hide Modes;
  }

  lemma PropagatedModes(h: Heap, m: Marking, gray: seq<Id>, again: seq<Id>, weak: seq<Id>,
                        h': Heap, m': Marking, gray': seq<Id>, again': seq<Id>, weak': seq<Id>, k: set<Id>)
    requires Propagated(h, m, gray, again, weak, h', m', gray', again', weak', k) && Lists(h, m, gray, again, weak)
    requires Modes(h, m, weak)
    ensures Modes(h', m', weak')
  {
    hide Cleaned, Traced, ModeRight, Pushed, Lists;
    var o := gray[0];
    GrayHead(h, m, gray, again, weak);
    CleanedIsHeap(h, o, h');
    CleanedSameTables(h, h');
    MarkedKeys(h', m[o := m'[o]], gray[1..], m', gray', k);
    ModesIn(h, m, weak);
    ModesKept(h, m, weak, h', m');
  }

  lemma ModesIn(h: Heap, m: Marking, weak: seq<Id>)
    requires Modes(h, m, weak)
    ensures forall x :: x in weak ==> x in m
  {
    forall x | x in weak ensures x in m { assert ModeRight(h, m, x); }
  }

  lemma PropagatedMarks(g: Snap, g': Snap)
    requires Common(g) && Common(g') && Lists(g.h, g.m, g.gray, g.again, g.weak) && SameButMarks(g, g')
    requires Propagated(g.h, g.m, g.gray, g.again, g.weak, g'.h, g'.m, g'.gray, g'.again, g'.weak, g.k)
    requires forall x :: x in g.m ==>
        x in g'.m && (Nonwhite(g.m, x) ==> Nonwhite(g'.m, x)) && g'.m[x].finalized == g.m[x].finalized
    ensures Marks(g, g')
  {
    hide Upvalues, Placed, Live, Covers, Colors, Traced, Marked, Modes, ModeRight;
    GrayHead(g.h, g.m, g.gray, g.again, g.weak);
    CleanedIsHeap(g.h, g.gray[0], g'.h);
    CleanedSameTables(g.h, g'.h);
    if Modes(g.h, g.m, g.weak) {
      PropagatedModes(g.h, g.m, g.gray, g.again, g.weak, g'.h, g'.m, g'.gray, g'.again, g'.weak, g.k);
    }
  }

  lemma PropagatedCleans(g: Snap, g': Snap)
    requires Propagated(g.h, g.m, g.gray, g.again, g.weak, g'.h, g'.m, g'.gray, g'.again, g'.weak, g.k)
    ensures CleanedHeap(g.h, g'.h)
  {
    hide Marked, Traced, ModeRight;
    CleanedIsHeap(g.h, g.gray[0], g'.h);
  }

  lemma MarkedMarks(g: Snap, g': Snap)
    requires g' == g.(m := g'.m, gray := g'.gray) && Marked(g.h, g.m, g.gray, g'.m, g'.gray, g.k)
    ensures Marks(g, g')
  {
    hide Modes;
    MarkedKeys(g.h, g.m, g.gray, g'.m, g'.gray, g.k);
    assert SameTables(g.h, g'.h);
    if Modes(g.h, g.m, g.weak) { ModesKept(g.h, g.m, g.weak, g'.h, g'.m); }
  }

  // remarkupvals has seen every gray open upvalue.
  ghost predicate UpvalsDone(h: Heap, m: Marking, uv: seq<Id>, n: nat) {
    n <= |uv| && forall i :: 0 <= i < n ==> UpvalDone(h, m, uv[i])
  }

  ghost predicate UpvalDone(h: Heap, m: Marking, u: Id) {
    u in h && h[u].UpOpen? && Nonwhite(m, u) ==> Traced(h, m, u)
  }

  lemma UpvalDoneMarked(h: Heap, m: Marking, l: seq<Id>, m': Marking, l': seq<Id>, k: set<Id>, uv: seq<Id>, n: nat)
    requires UpvalsDone(h, m, uv, n) && Marked(h, m, l, m', l', k) && forall x :: x in l ==> x in h && Queued(h[x])
    ensures UpvalsDone(h, m', uv, n)
  {
    assert l' == l'[..|l'| - |l|] + l;
    forall i | 0 <= i < n
      ensures UpvalDone(h, m', uv[i])
    {
      var u := uv[i];
      assert UpvalDone(h, m, u);
      if u in h && h[u].UpOpen? && Nonwhite(m', u) {
        if m'[u] == m[u] { TracedGrows(h, m, m', u); } else { assert u !in l'; }
      }
    }
  }

  lemma UpvalsTri(g: Snap, todo: set<Id>)
    requires Upvalues(g.h, g.uv) && UpvalsDone(g.h, g.m, g.uv, |g.uv|) && Tri(g.h, g.m, todo, true)
    ensures Tri(g.h, g.m, todo, false)
  {
    forall x | x in g.h && Nonwhite(g.m, x) && x !in todo
      ensures Traced(g.h, g.m, x)
    {
      if g.h[x].UpOpen? {
        var i :| 0 <= i < |g.uv| && g.uv[i] == x;
        assert UpvalDone(g.h, g.m, g.uv[i]);
      }
    }
  }

  // The lists of objects to be traversed again become the gray list.
  lemma MoveWeak(g: Snap, todo: set<Id>, up: bool)
    requires Common(g) && g.gray == [] && Traces(g, todo + Listed(g.weak), up)
    ensures var g' := g.(gray := g.weak, weak := []);
            Common(g') && Traces(g', todo, up)
  {
    hide Upvalues, Placed, Live, NoDead, Covers, Colors, NonwhiteIn, RootsLive, Tri;
    assert todo + Listed(g.weak) + Listed(g.gray) == todo + Listed(g.weak);
    var g' := g.(gray := g.weak, weak := []);
    assert RootsLive(g') by { SameRoots(g, g'); }
  }

  lemma SameRoots(g: Snap, g': Snap)
    requires RootsLive(g) && g' == g.(gray := g'.gray, weak := g'.weak, again := g'.again)
    ensures RootsLive(g')
  {
  }

  lemma MoveAgain(g: Snap, todo: set<Id>, up: bool)
    requires Common(g) && g.gray == [] && Traces(g, todo + Listed(g.again), up)
    ensures var g' := g.(gray := g.again, again := []);
            Common(g') && Traces(g', todo, up)
  {
    hide Upvalues, Placed, Live, NoDead, Covers, Colors, NonwhiteIn, RootsLive, Tri;
    assert todo + Listed(g.again) + Listed(g.gray) == todo + Listed(g.again);
    var g' := g.(gray := g.again, again := []);
    assert RootsLive(g') by { SameRoots(g, g'); }
  }

  lemma UpvalsExist(g: Snap)
    requires Common(g)
    ensures forall u :: u in g.uv ==> u in g.h && g.h[u].UpOpen?
  {
  }

  lemma DuringMarking(g: Snap, m: Marking, l: seq<Id>, todo: set<Id>, up: bool)
    requires Common(g) && Traces(g, todo, up) && Marked(g.h, g.m, g.gray, m, l, g.k)
    ensures Colors(g.h, m) && NonwhiteIn(g.h, m, g.k) && m.Keys == g.h.Keys
    ensures forall x :: x in l ==> x in g.h && Queued(g.h[x])
  {
    var g' := g.(m := m, gray := l);
    hide Upvalues, Placed, Live, NoDead, Covers, Colors, NonwhiteIn, RootsLive, Tri, Lists, Marked;
    MarkedTraces(g, g', todo, up);
    ListsQueued(g'.h, g'.m, g'.gray, g'.again, g'.weak);
  }

  lemma StepReady(g: Snap, b: set<Id>)
    requires Valid(g) && g.phase == GCSpropagate && Bounds(g, b)
    ensures g.m.Keys == g.h.Keys && Complete(g.h) && Closed(g.h, g.k) && Lists(g.h, g.m, g.gray, g.again, g.weak)
    ensures MarkClosed(g.h, g.k * b) && (g.gray != [] ==> g.gray[0] in g.k * b && g.gray[0] in g.h)
    ensures Within(g.h, g.m, b)
  {
    hide Common, Traces, Within;
    BoundReady(g, Postponed(g), true, b);
  }

  // While open upvalues are looked at again
  lemma BoundDuring(g: Snap, m: Marking, l: seq<Id>, todo: set<Id>, up: bool, b: set<Id>)
    requires Common(g) && Traces(g, todo, up) && Within(g.h, g.m, b) && Marked(g.h, g.m, g.gray, m, l, g.k * b)
    ensures Colors(g.h, m) && NonwhiteIn(g.h, m, g.k * b) && m.Keys == g.h.Keys
    ensures forall x :: x in l ==> x in g.h && Queued(g.h[x])
  {
    hide Common, Traces, Marked, Colors, MarkClosed;
    MarkReady(g, todo, up);
    MarkedMore(g.h, g.m, g.gray, m, l, g.k, b);
    DuringMarking(g, m, l, todo, up);
  }

  lemma GrayInK(h: Heap, m: Marking, u: Id, k: set<Id>)
    requires NonwhiteIn(h, m, k) && u in h && u in m && m[u].color.Gray?
    ensures u in k
  {
  }

  lemma UpvalsNone(h: Heap, m: Marking, uv: seq<Id>)
    ensures UpvalsDone(h, m, uv, 0)
  {
  }

  lemma UpvalsNext(h: Heap, m: Marking, l: seq<Id>, m': Marking, l': seq<Id>, k: set<Id>, uv: seq<Id>, n: nat)
    requires UpvalsDone(h, m, uv, n) && n < |uv| && Marked(h, m, l, m', l', k)
      && forall x :: x in l ==> x in h && Queued(h[x])
    requires uv[n] in h && uv[n] in m && h[uv[n]].UpOpen? && Colors(h, m) && Colors(h, m')
    requires if m[uv[n]].color.Gray? then var v := StackValue(h, h[uv[n]].th, h[uv[n]].slot); v.Ref? ==>
        Nonwhite(m', v.id) else m' == m
    ensures UpvalsDone(h, m', uv, n + 1)
  {
    UpvalDoneMarked(h, m, l, m', l', k, uv, n);
    var u := uv[n];
    if m[u].color.Gray? {
      MarkedAt(h, m, l, m', l', k, u);
      UpvalTraced(h, m', u);
    }
    assert UpvalDone(h, m', u);
  }

  lemma RemarkedTraces(g: Snap, todo: set<Id>)
    requires Common(g) && Traces(g, todo, true) && UpvalsDone(g.h, g.m, g.uv, |g.uv|)
    ensures Traces(g, todo, false)
  {
    hide Upvalues, Tri, UpvalsDone, Lists, NoDead;
    UpvalsTri(g, todo + Listed(g.gray));
  }

  // markmt
  lemma MtInK(g: Snap, i: nat)
    requires Common(g) && i in g.mt
    ensures g.mt[i] in g.h && g.mt[i] in g.k && g.mt[i] in Roots(g)
  {
    assert g.mt[i] in g.mt.Values;
  }

  lemma RunInK(g: Snap)
    requires Common(g)
    ensures g.run in g.h && g.run in g.k && g.main in g.h && g.main in g.k && g.reg in g.h && g.reg in g.k
  {
    assert {g.main, g.reg, g.run} <= Roots(g);
  }

  // The roots that may have changed during the cycle are marked in the end.
  ghost predicate RootsMarked(g: Snap) {
    Nonwhite(g.m, g.run) && forall i :: i in g.mt ==> Nonwhite(g.m, g.mt[i])
  }

  lemma RootsStayMarked(g: Snap, g': Snap)
    requires RootsMarked(g) && Marks(g, g')
    ensures RootsMarked(g')
  {
  }

  // ---- userdata to be finalized --------------------------------------------------------------------------

  // separateudata takes an unmarked userdata with a finalizer that has not been called.
  predicate Dies(h: Heap, m: Marking, u: Id) {
    u in m && u in h && m[u].color.White? && !m[u].finalized && h[u].Udata? && WantsGC(h, h[u].mt)
  }

  function Dying(h: Heap, m: Marking, us: seq<Id>): seq<Id> {
    if us == [] then [] else (if Dies(h, m, us[0]) then [us[0]] else []) + Dying(h, m, us[1..])
  }

  function Staying(h: Heap, m: Marking, us: seq<Id>): seq<Id> {
    if us == [] then [] else (if Dies(h, m, us[0]) then [] else [us[0]]) + Staying(h, m, us[1..])
  }

  // markfinalized
  function Finalized(g: Snap, u: Id): Snap {
    if u in g.m then g.(m := g.m[u := g.m[u].(finalized := true)]) else g
  }

  // The i-th userdata goes from the root list to those that wait for their finalizer.
  function Moved(g: Snap, i: nat): Snap
    requires i < |g.udata|
  {
    g.(udata := g.udata[..i] + g.udata[i + 1..], tmu := g.tmu + [g.udata[i]])
  }

  lemma FinalizedMarks(h: Heap, m: Marking, m': Marking, u: Id, cw: bool)
    requires u in m && u in h && m' == m[u := m[u].(finalized := true)]
    ensures NoDead(h, m, cw) ==> NoDead(h, m', cw)
    ensures Colors(h, m) ==> Colors(h, m')
    ensures forall x :: Nonwhite(m', x) <==> Nonwhite(m, x)
  {
  }

  lemma FinalizedTri(h: Heap, m: Marking, m': Marking, u: Id, todo: set<Id>, up: bool)
    requires u in m && m' == m[u := m[u].(finalized := true)] && m[u].color.White? && Tri(h, m, todo, up)
    ensures Tri(h, m', todo, up)
  {
    forall x | x in h && Nonwhite(m', x) && x !in todo && !(up && h[x].UpOpen?)
      ensures Traced(h, m', x)
    {
      TracedSame(h, m, m', x);
    }
  }

  lemma FinalizedTraces(g: Snap, u: Id, todo: set<Id>, up: bool)
    requires Traces(g, todo, up) && u in g.h && u in g.m && g.m[u].color.White?
    ensures Traces(Finalized(g, u), todo, up)
  {
    var g' := Finalized(g, u);
    FinalizedMarks(g.h, g.m, g'.m, u, g.cw);
    FinalizedTri(g.h, g.m, g'.m, u, todo + Listed(g.gray), up);
    hide NoDead, Tri;
  }

  lemma FinalizedPlacedAt(h: Heap, m: Marking, u: Id, rootgc: seq<Id>, tmudata: seq<Id>, strt: seq<seq<Id>>)
    requires u in m && Placed(h, m, rootgc, tmudata, strt)
    ensures Placed(h, m[u := m[u].(finalized := true)], rootgc, tmudata, strt)
  {
    hide Strings;
  }

  lemma FinalizedCommon(g: Snap, u: Id)
    requires Common(g) && NoDead(g.h, g.m, g.cw) && u in g.h && u in g.m
    ensures Common(Finalized(g, u)) && NoDead(g.h, Finalized(g, u).m, g.cw)
  {
    hide Upvalues, Placed, Colors, Closed, Live, Complete, NoDead, Covers, RootsLive;
    var g' := Finalized(g, u);
    FinalizedMarks(g.h, g.m, g'.m, u, g.cw);
    FinalizedPlacedAt(g.h, g.m, u, RootList(g), g.tmu, g.strt);
    LiveComplete(g.h, g.m, g.cw);
    LiveComplete(g'.h, g'.m, g'.cw);
    RootsKept(g, g');
    FinalizedBitCovers(g.h, g.m, u, g.k, Roots(g));
  }

  lemma RootsKept(g: Snap, g': Snap)
    requires RootsLive(g) && g' == g.(m := g'.m) && NoDead(g'.h, g'.m, g'.cw)
    ensures RootsLive(g') && Roots(g') == Roots(g)
  {
  }

  lemma FinalizedBitCovers(h: Heap, m: Marking, u: Id, k: set<Id>, roots: set<Id>)
    requires u in m && Covers(h, m, k, roots)
    ensures Covers(h, m[u := m[u].(finalized := true)], k, roots)
  {
    hide Closed;
  }

  lemma RemoveAt(l: seq<Id>, i: int, u: Id)
    requires NoDup(l) && 0 <= i < |l| && l[i] == u
    ensures var r := l[..i] + l[i + 1..];
            NoDup(r) && forall x :: x in r <==> x in l && x != u
  {
    var r := l[..i] + l[i + 1..];
    forall x
      ensures x in r <==> x in l && x != u
    {
      if x in l && x != u {
        var j :| 0 <= j < |l| && l[j] == x;
        assert r[if j < i then j else j - 1] == x;
      }
      if x in r {
        var j :| 0 <= j < |r| && r[j] == x;
        assert l[if j < i then j else j + 1] == x;
      }
    }
    forall a, b | 0 <= a < b < |r|
      ensures r[a] != r[b]
    {
      assert l[if a < i then a else a + 1] != l[if b < i then b else b + 1];
    }
  }

  lemma NoDupSnoc(l: seq<Id>, u: Id)
    requires NoDup(l) && u !in l
    ensures NoDup(l + [u]) && forall x :: x in l + [u] <==> x in l || x == u
  {
  }

  lemma MovedPlaced(h: Heap, m: Marking, root: seq<Id>, n: nat, tmu: seq<Id>, strt: seq<seq<Id>>)
    requires Placed(h, m, root, tmu, strt) && n < |root| && h[root[n]].Udata? && root[n] in m && m[root[n]].finalized
    ensures Placed(h, m, root[..n] + root[n + 1..], tmu + [root[n]], strt)
  {
    hide Strings;
    var u := root[n];
    assert u in root;
    RemoveAt(root, n, u);
    NoDupSnoc(tmu, u);
  }

  lemma MovedCommon(g: Snap, i: nat)
    requires Common(g) && NoDead(g.h, g.m, g.cw) && i < |g.udata| && g.udata[i] in g.k && g.m[g.udata[i]].finalized
    ensures Common(Moved(g, i))
  {
    hide Upvalues, Placed, Colors, Closed, Live, Complete, NoDup, NoDead, RootsLive, Covers;
    var g', u, n := Moved(g, i), g.udata[i], |g.rootgc| + i;
    assert u in g.udata;
    assert RootList(g)[n] == u;
    assert RootList(g') == RootList(g)[..n] + RootList(g)[n + 1..];
    MovedPlaced(g.h, g.m, RootList(g), n, g.tmu, g.strt);
    MovedRoots(g, i);
    CoversMore(g.h, g.m, g.k, Roots(g), Roots(g'));
  }

  lemma CoversMore(h: Heap, m: Marking, k: set<Id>, roots: set<Id>, roots': set<Id>)
    requires Covers(h, m, k, roots) && roots' <= k
    ensures Covers(h, m, k, roots')
  {
    hide Closed;
  }

  lemma MovedRoots(g: Snap, i: nat)
    requires RootsLive(g) && NoDead(g.h, g.m, g.cw) && i < |g.udata| && g.udata[i] in g.h
    ensures RootsLive(Moved(g, i)) && Roots(Moved(g, i)) == Roots(g) + {g.udata[i]}
    ensures Covers(g.h, g.m, g.k, Roots(g)) && g.udata[i] in g.k ==> Roots(Moved(g, i)) <= g.k
  {
    var u := g.udata[i];
    assert Listed(g.tmu + [u]) == Listed(g.tmu) + {u};
  }

  lemma {:induction false} DyingStarts(g: Snap, us: seq<Id>, b: set<Id>)
    requires Starts(g) <= b
    ensures forall u :: u in Dying(g.h, g.m, us) ==> u in b
  {
    hide WantsGC, Roots;
    if us != [] {
      SplitFirst(g.h, g.m, us);
      DyingStarts(g, us[1..], b);
    }
  }

  lemma SeparatedBounds(g: Snap, g': Snap, b: set<Id>)
    requires Bounds(g, b) && Flagged(g.m, g.udata, g'.m) && g'.tmu == g.tmu + Dying(g.h, g.m, g.udata)
    requires SameStart(g, g') && g'.h == g.h && g.m.Keys == g.h.Keys
    ensures Bounds(g', b)
  {
    hide WantsGC, Dying, MarkClosed;
    DyingStarts(g, g.udata, b);
    StartsIn(g, b);
  }

  // The marks of userdata that marktmu marks again
  lemma RemarkedBounds(g: Snap, u: Id, g': Snap, b: set<Id>)
    requires Bounds(g, b) && u in g.m && g.m.Keys == g.h.Keys && g' == g.(m := g'.m, gray := g'.gray)
    requires Marked(g.h, Whitened(g.m, u, g.cw), g.gray, g'.m, g'.gray, g.k * b)
    ensures Bounds(g', b) && Marked(g.h, Whitened(g.m, u, g.cw), g.gray, g'.m, g'.gray, g.k)
  {
    hide Marked, MarkClosed, Starts;
    var m1 := Whitened(g.m, u, g.cw);
    assert NonwhiteIn(g.h, m1, b) && m1.Keys == g.m.Keys;
    MarkedMore(g.h, m1, g.gray, g'.m, g'.gray, g.k, b);
    MarkedFinalized(g.h, m1, g.gray, g'.m, g'.gray, g.k);
    CleanedHeapRefl(g.h);
    BoundsKept(g, g', b);
  }

  // How separateudata leaves the marks: no unmarked userdata among `us` is left unfinalized.
  ghost predicate Flagged(m: Marking, us: seq<Id>, m': Marking) {
    && m'.Keys == m.Keys
    && forall x :: x in m ==> m'[x] == m[x].(finalized := m[x].finalized || (x in us && m[x].color.White?))
  }

  lemma SplitFirst(h: Heap, m: Marking, us: seq<Id>)
    requires us != []
    ensures Dying(h, m, us) == (if Dies(h, m, us[0]) then [us[0]] else []) + Dying(h, m, us[1..])
    ensures Staying(h, m, us) == (if Dies(h, m, us[0]) then [] else [us[0]]) + Staying(h, m, us[1..])
  {
  }

  lemma SplitNone(h: Heap, m: Marking)
    ensures Dying(h, m, []) == [] && Staying(h, m, []) == []
  {
  }

  lemma {:induction false} SeparateSnoc(h: Heap, m: Marking, us: seq<Id>, u: Id)
    ensures Dying(h, m, us + [u]) == Dying(h, m, us) + if Dies(h, m, u) then [u] else []
    ensures Staying(h, m, us + [u]) == Staying(h, m, us) + if Dies(h, m, u) then [] else [u]
  {
    hide Dies, Dying, Staying;
    SplitFirst(h, m, us + [u]);
    if us == [] {
      SplitNone(h, m);
      assert us + [u] == [u] && [u][1..] == [];
    } else {
      SplitFirst(h, m, us);
      SeparateSnoc(h, m, us[1..], u);
      assert (us + [u])[1..] == us[1..] + [u];
    }
  }

  lemma FlaggedNone(m: Marking)
    ensures Flagged(m, [], m)
  {
  }

  lemma FlaggedNext(m: Marking, us: seq<Id>, m': Marking, u: Id, m2: Marking)
    requires Flagged(m, us, m') && u in m && u !in us
    requires m2 == if m[u].color.White? && !m[u].finalized then m'[u := m'[u].(finalized := true)] else m'
    ensures Flagged(m, us + [u], m2) && m'[u] == m[u]
  {
  }

  // ---- marktmu -------------------------------------------------------------------------------------------

  function Whitened(m: Marking, u: Id, cw: bool): Marking {
    if u in m then m[u := m[u].(color := White(cw))] else m
  }

  // A userdata that is whitened and marked again is traced, and nothing else is lost.
  lemma RemarkTri(h: Heap, m: Marking, u: Id, cw: bool, l: seq<Id>, m': Marking, l': seq<Id>, k: set<Id>, todo: set<Id>)
    requires u in h && u in m && h[u].Udata? && Tri(h, m, todo + {u} + Listed(l), false)
    requires forall x :: x in l ==> Nonwhite(m, x) && x in h && Queued(h[x])
    requires Marked(h, Whitened(m, u, cw), l, m', l', k) && Nonwhite(m', u)
    ensures Tri(h, m', todo + Listed(l'), false)
  {
    var m1 := Whitened(m, u, cw);
    assert l' == l'[..|l'| - |l|] + l;
    assert forall x :: Nonwhite(m, x) ==> Nonwhite(m', x);
    forall x | x in h && Nonwhite(m', x) && x !in todo + Listed(l')
      ensures Traced(h, m', x)
    {
      if m'[x] != m1[x] {
        assert AtOnce(h, m', x);
      } else {
        assert x != u && m1[x] == m[x] && x !in l;
        TracedSame(h, m, m', x);
      }
    }
  }

  lemma WhitenedMarks(h: Heap, m: Marking, u: Id, cw: bool, l: seq<Id>, m': Marking, l': seq<Id>, k: set<Id>)
    requires u in h && u in m && h[u].Udata? && m.Keys == h.Keys
    requires Marked(h, Whitened(m, u, cw), l, m', l', k) && Nonwhite(m', u)
    ensures m'.Keys == m.Keys
      && (forall x :: x in m ==> m'[x].finalized == m[x].finalized && (Nonwhite(m, x) ==> Nonwhite(m', x)))
    ensures NoDead(h, m, cw) ==> NoDead(h, m', cw)
    ensures NonwhiteIn(h, m, k) ==> NonwhiteIn(h, m', k)
  {
    var m1 := Whitened(m, u, cw);
    assert Grows(m1, m');
    if NonwhiteIn(h, m, k) {
      forall x | x in h && Nonwhite(m', x)
        ensures x in k
      {
        if m'[x] == m1[x] { assert Nonwhite(m, x); }
      }
    }
  }

  lemma WhitenedLists(h: Heap, m: Marking, u: Id, cw: bool, gray: seq<Id>, again: seq<Id>, weak: seq<Id>)
    requires u in h && u in m && h[u].Udata? && Lists(h, m, gray, again, weak)
    ensures Lists(h, Whitened(m, u, cw), gray, again, weak) && (Colors(h, m) ==> Colors(h, Whitened(m, u, cw)))
  {
  }

  lemma FinalizedSameCommon(g: Snap, g': Snap)
    requires Common(g) && g' == g.(m := g'.m, gray := g'.gray) && g'.m.Keys == g.m.Keys
    requires NoDead(g.h, g.m, g.cw) && NoDead(g'.h, g'.m, g'.cw) && Colors(g'.h, g'.m)
    requires forall x :: x in g.m ==> g'.m[x].finalized == g.m[x].finalized
    ensures Common(g')
  {
    hide Upvalues, Placed, Colors, Closed, Live, Complete, NoDead, Covers, RootsLive;
    FinalizedPlaced(g.h, g.m, g'.m, RootList(g), g.tmu, g.strt);
    LiveComplete(g.h, g.m, g.cw);
    LiveComplete(g'.h, g'.m, g'.cw);
    RootsNoDead(g, g');
    CoversClosed(g.h, g.m, g.k, Roots(g));
    FinalizedCovers(g.h, g.h, g.m, g'.m, g.k, Roots(g));
  }

  lemma CoversClosed(h: Heap, m: Marking, k: set<Id>, roots: set<Id>)
    requires Covers(h, m, k, roots)
    ensures Closed(h, k) && roots <= k
  {
  }

  lemma RemarkTraces(g: Snap, u: Id, g': Snap, todo: set<Id>)
    requires Common(g) && Traces(g, todo + {u}, false) && u in g.tmu && g' == g.(m := g'.m, gray := g'.gray)
    requires Marked(g.h, Whitened(g.m, u, g.cw), g.gray, g'.m, g'.gray, g.k) && Nonwhite(g'.m, u)
    ensures Common(g') && Traces(g', todo, false) && Marks(g, g')
  {
    hide Common, Tri, Lists, Marked, Marks, Traces, Whitened;
    TmuIsUdata(g, u);
    RemarkLists(g, u, g', todo);
    RemarkCommon(g, u, g', todo);
  }

  lemma RemarkLists(g: Snap, u: Id, g': Snap, todo: set<Id>)
    requires Traces(g, todo + {u}, false) && g' == g.(m := g'.m, gray := g'.gray) && g.m.Keys == g.h.Keys
    requires u in g.h && u in g.m && g.h[u].Udata?
    requires Marked(g.h, Whitened(g.m, u, g.cw), g.gray, g'.m, g'.gray, g.k) && Nonwhite(g'.m, u)
    ensures Traces(g', todo, false) && Marks(g, g')
    ensures Colors(g.h, g.m) ==> Colors(g'.h, g'.m)
    ensures g'.m.Keys == g.m.Keys && forall x :: x in g.m ==> g'.m[x].finalized == g.m[x].finalized
  {
    hide Colors, NoDead, Tri, Lists, Marked, NonwhiteIn, Whitened, Grows, Modes;
    var m1 := Whitened(g.m, u, g.cw);
    GrayMarked(g.h, g.m, g.gray, g.again, g.weak);
    ListsQueued(g.h, g.m, g.gray, g.again, g.weak);
    WhitenedLists(g.h, g.m, u, g.cw, g.gray, g.again, g.weak);
    WhitenedMarks(g.h, g.m, u, g.cw, g.gray, g'.m, g'.gray, g.k);
    RemarkTri(g.h, g.m, u, g.cw, g.gray, g'.m, g'.gray, g.k, todo);
    ListsQueued(g.h, m1, g.gray, g.again, g.weak);
    ListsMarked(g.h, m1, g.gray, g'.m, g'.gray, g.k, g.again, g.weak);
    if Colors(g.h, g.m) { MarkedOpen(g.h, m1, g.gray, g'.m, g'.gray, g.k); }
    if Modes(g.h, g.m, g.weak) { WhitenedModes(g.h, g.m, u, g.cw, g.gray, g'.m, g'.gray, g.k, g.weak); }
  }

  lemma WhitenedModes(h: Heap, m: Marking, u: Id, cw: bool, l: seq<Id>, m': Marking, l': seq<Id>, k: set<Id>,
    weak: seq<Id>)
    requires u in m && Marked(h, Whitened(m, u, cw), l, m', l', k) && Modes(h, m, weak)
    ensures Modes(h, m', weak)
  {
    hide Modes;
    MarkedKeys(h, Whitened(m, u, cw), l, m', l', k);
    assert SameTables(h, h);
    ModesIn(h, m, weak);
    ModesKept(h, m, weak, h, m');
  }

  lemma RemarkCommon(g: Snap, u: Id, g': Snap, todo: set<Id>)
    requires Common(g) && Traces(g, todo + {u}, false) && Traces(g', todo, false)
      && g' == g.(m := g'.m, gray := g'.gray)
    requires Colors(g.h, g.m) ==> Colors(g'.h, g'.m)
    requires g'.m.Keys == g.m.Keys && forall x :: x in g.m ==> g'.m[x].finalized == g.m[x].finalized
    ensures Common(g')
  {
    hide Upvalues, Placed, Colors, NoDead, Tri, Lists, NonwhiteIn, Live, Covers;
    FinalizedSameCommon(g, g');
  }

  lemma TmuIsUdata(g: Snap, u: Id)
    requires Common(g) && u in g.tmu
    ensures u in g.h && u in g.m && g.h[u].Udata? && u in g.k && g.m.Keys == g.h.Keys
  {
    assert u in Roots(g);
  }

  // What marktmu needs to mark u
  lemma RemarkReady(g: Snap, u: Id, todo: set<Id>)
    requires Common(g) && Traces(g, todo, false) && u in g.tmu
    ensures Whitened(g.m, u, g.cw).Keys == g.h.Keys && Complete(g.h) && Closed(g.h, g.k)
    ensures u in g.h && u in g.m && u in g.k && Whitened(g.m, u, g.cw) == g.m[u := g.m[u].(color := White(g.cw))]
  {
    hide Upvalues, Placed, Colors, RootsLive, Lists, Tri;
    MarkReady(g, todo, false);
    TmuIsUdata(g, u);
  }

  lemma StayMarked(g: Snap, g': Snap)
    requires Marks(g, g')
    ensures forall x :: Nonwhite(g.m, x) ==> Nonwhite(g'.m, x)
    ensures g'.h.Keys == g.h.Keys && g'.m.Keys == g.m.Keys
    ensures forall x :: x in g.m ==> g'.m[x].finalized == g.m[x].finalized
  {
  }

  lemma MtStayMarked(g: Snap, g': Snap, i: nat)
    requires Marks(g, g')
    ensures forall j :: j in g.mt && j < i && Nonwhite(g.m, g.mt[j]) ==> Nonwhite(g'.m, g.mt[j])
  {
  }

  lemma MtBounded(g: Snap)
    requires Common(g)
    ensures forall i :: i in g.mt ==> i < NUM_TAGS
  {
  }

  lemma UdataList(g: Snap)
    requires Common(g)
    ensures NoDup(g.udata)
  {
    hide Upvalues, Live, Covers, RootsLive, Colors, NoDup;
    NoDupParts(g.rootgc, g.udata);
  }

  lemma NoDupParts(a: seq<Id>, b: seq<Id>)
    requires NoDup(a + b)
    ensures NoDup(a) && NoDup(b) && Apart(a, b)
  {
    var l := a + b;
    forall i, j | 0 <= i < j < |a|
      ensures a[i] != a[j]
    {
      assert l[i] != l[j];
    }
    forall i, j | 0 <= i < j < |b|
      ensures b[i] != b[j]
    {
      assert l[|a| + i] != l[|a| + j];
    }
    forall i, j | 0 <= i < |a| && 0 <= j < |b|
      ensures a[i] != b[j]
    {
      assert l[i] != l[|a| + j];
    }
  }

  // The list of userdata when the first n have been looked at
  ghost predicate SeparatedTo(h: Heap, m: Marking, us: seq<Id>, n: nat, udata: seq<Id>, i: nat, tmu0: seq<Id>,
    tmu: seq<Id>) {
    && n <= |us| && i == |Staying(h, m, us[..n])| && udata == Staying(h, m, us[..n]) + us[n..]
      && tmu == tmu0 + Dying(h, m, us[..n])
  }

  lemma SeparatedStart(h: Heap, m: Marking, us: seq<Id>, tmu: seq<Id>)
    ensures SeparatedTo(h, m, us, 0, us, 0, tmu, tmu)
  {
  }

  lemma SeparatedNext(h: Heap, m: Marking, us: seq<Id>, n: nat, udata: seq<Id>, i: nat, tmu0: seq<Id>, tmu: seq<Id>)
    requires SeparatedTo(h, m, us, n, udata, i, tmu0, tmu) && n < |us|
    ensures i < |udata| && udata[i] == us[n]
    ensures if Dies(h, m, us[n]) then SeparatedTo(h, m, us, n + 1, udata[..i] + udata[i + 1..], i, tmu0, tmu + [us[n]])
            else SeparatedTo(h, m, us, n + 1, udata, i + 1, tmu0, tmu)
  {
    hide Dies, Dying, Staying;
    var a, u := us[..n], us[n];
    assert us[..n + 1] == a + [u] && us[n..] == [u] + us[n + 1..];
    SeparateSnoc(h, m, a, u);
    var s := Staying(h, m, a);
    assert udata == s + ([u] + us[n + 1..]);
    assert udata[..i] == s && udata[i + 1..] == us[n + 1..];
    assert udata == s + [u] + us[n + 1..];
  }

  lemma SeparatedEnd(h: Heap, m: Marking, us: seq<Id>, n: nat, udata: seq<Id>, i: nat, tmu0: seq<Id>, tmu: seq<Id>)
    requires SeparatedTo(h, m, us, n, udata, i, tmu0, tmu)
    ensures n == |us| <==> i == |udata|
    ensures n == |us| ==> udata == Staying(h, m, us) && tmu == tmu0 + Dying(h, m, us) && us[..n] == us
  {
    assert n == |us| ==> us[..n] == us;
  }

  lemma SplitAt(us: seq<Id>, n: nat)
    requires n < |us| && NoDup(us)
    ensures us[..n + 1] == us[..n] + [us[n]] && us[n..] == [us[n]] + us[n + 1..] && us[n] !in us[..n]
  {
  }

  lemma SeparateReady(g: Snap, i: nat, todo: set<Id>)
    requires Common(g) && Traces(g, todo, false) && i < |g.udata|
    ensures var u := g.udata[i];
            u in g.h && u in g.m && g.h[u].Udata? && (!g.m[u].finalized ==> u in g.k) && NoDead(g.h, g.m, g.cw)
  {
    assert g.udata[i] in g.udata;
  }

  lemma FlaggedAt(m: Marking, us: seq<Id>, m': Marking, u: Id)
    requires Flagged(m, us, m') && u in m' && u !in us
    ensures u in m && m'[u] == m[u]
  {
  }

  lemma MovedTraces(g: Snap, i: nat)
    requires Traces(g, Listed(g.tmu), false) && i < |g.udata|
    ensures Traces(Moved(g, i), Listed(Moved(g, i).tmu), false)
  {
    var g' := Moved(g, i);
    assert Listed(g.tmu) <= Listed(g'.tmu);
    hide NoDead, Lists, Tri;
    TriMore(g.h, g.m, Listed(g.tmu) + Listed(g.gray), Listed(g'.tmu) + Listed(g.gray), false, false);
  }
}

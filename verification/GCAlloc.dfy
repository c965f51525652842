/** New objects: luaC_link, and the lists that strings, userdata and open upvalues go to (lgc.c, lstring.c). */
module GCAlloc {
  import opened Basics
  import opened GCHeap
  import opened GCInvariant
  import opened GCSweep
  import opened GCUpvals
  import opened GCRoots
  import opened GCMutator

  // A new object has the current white and belongs to what the cycle covers.
  function Fresh(g: Snap, x: Id, o: Obj): Snap {
    g.(h := g.h[x := o], m := g.m[x := Mark(White(g.cw), false, false, false)], k := g.k + {x})
  }

  ghost predicate CanBeNew(g: Snap, x: Id, o: Obj) {
    x !in g.h && forall r :: Refers(g.h[x := o], o, r) ==> Usable(g, r)
  }

  /** A program can make any new object out of what it can get at. */
  lemma NewAllowed(g: Snap, x: Id, o: Obj)
    requires Valid(g) && x !in g.h && forall r :: Refers(g.h[x := o], o, r) ==> Reach(g.h, Roots(g), r)
    ensures CanBeNew(g, x, o)
  {
    hide Valid, Refers, Reach, Usable;
    forall r | Refers(g.h[x := o], o, r)
      ensures Usable(g, r)
    {
      ReachUsable(g, r);
    }
  }

  lemma FreshRefers(h: Heap, x: Id, o: Obj, y: Id, wk: bool, wv: bool, r: Id)
    requires UpvalHomes(h) && x !in h && y in h
    ensures Refers(h[x := o], h[x := o][y], r) == Refers(h, h[y], r)
    ensures Holds(h[x := o], h[x := o][y], wk, wv, r) == Holds(h, h[y], wk, wv, r)
  {
  }

  lemma FreshLive(g: Snap, x: Id, o: Obj)
    requires UpvalHomes(g.h) && g.m.Keys == g.h.Keys && Live(g.h, g.m, g.cw) && Closed(g.h, g.k) && CanBeNew(g, x, o)
    ensures var g' := Fresh(g, x, o);
            Live(g'.h, g'.m, g'.cw) && Closed(g'.h, g'.k) && g'.m.Keys == g'.h.Keys
  {
    hide Refers, Holds;
    var g' := Fresh(g, x, o);
    assert g'.m.Keys == g'.h.Keys;
    forall y, r | y in g'.h && Refers(g'.h, g'.h[y], r)
      ensures !Dead(g'.m, g'.cw, y) ==> r in g'.h && !Dead(g'.m, g'.cw, r)
      ensures y in g'.k ==> r in g'.k
    {
      if y == x {
        assert Usable(g, r);
      } else {
        FreshRefers(g.h, x, o, y, false, false, r);
        assert y in g.k ==> r in g.k;
      }
    }
  }

  lemma FreshRoots(g: Snap, x: Id, o: Obj)
    requires RootsLive(g) && x !in g.h && Colors(g.h, g.m) && g.m.Keys == g.h.Keys
    requires forall u :: u in g.udata ==> u in g.h && g.h[u].Udata?
    ensures var g' := Fresh(g, x, o);
            RootsLive(g') && Colors(g'.h, g'.m) && Roots(g') == Roots(g)
              && forall u :: u in g'.udata ==> u in g'.h && g'.h[u].Udata?
  {
  }

  lemma FreshCovers(g: Snap, x: Id, o: Obj)
    requires Covers(g.h, g.m, g.k, Roots(g)) && x !in g.h && Closed(Fresh(g, x, o).h, Fresh(g, x, o).k)
    ensures Covers(Fresh(g, x, o).h, Fresh(g, x, o).m, Fresh(g, x, o).k, Roots(g))
  {
    hide Closed;
  }

  lemma FreshUpvalues(h: Heap, uv: seq<Id>, x: Id, o: Obj)
    requires Upvalues(h, uv) && x !in h && !o.UpOpen? && (o.Thread? ==> o.open == [])
    ensures Upvalues(h[x := o], uv)
  {
    var h' := h[x := o];
    forall th | th in h' && h'[th].Thread?
      ensures OpenList(h', th, h'[th].open)
    {
      if th != x { assert OpenList(h, th, h[th].open); }
    }
  }

  lemma FreshStrings(h: Heap, strt: seq<seq<Id>>, x: Id, o: Obj)
    requires Strings(h, strt) && x !in h && !o.Str?
    ensures Strings(h[x := o], strt)
  {
  }

  // ---- the phases ----------------------------------------------------------------------------------------

  lemma FreshTri(h: Heap, m: Marking, todo: set<Id>, x: Id, o: Obj, k: Mark)
    requires Tri(h, m, todo, true) && UpvalHomes(h) && x !in h && x !in m && k.color.White?
    ensures Tri(h[x := o], m[x := k], todo, true)
  {
    var h', m' := h[x := o], m[x := k];
    forall y | y in h' && Nonwhite(m', y) && y !in todo && !(true && h'[y].UpOpen?)
      ensures Traced(h', m', y)
    {
      assert y != x && Traced(h, m, y);
      forall r | Holds(h', h'[y], KeysWeak(m'[y]), ValuesWeak(m'[y]), r)
        ensures Nonwhite(m', r)
      {
        FreshRefers(h, x, o, y, KeysWeak(m[y]), ValuesWeak(m[y]), r);
        assert Nonwhite(m, r);
      }
    }
  }

  lemma FreshTraces(g: Snap, x: Id, o: Obj)
    requires Traces(g, Postponed(g), true) && UpvalHomes(g.h) && x !in g.h && g.m.Keys == g.h.Keys
    ensures Traces(Fresh(g, x, o), Postponed(g), true)
  {
    hide Tri, Holds, Lists, NoDead, NonwhiteIn;
    FreshTri(g.h, g.m, Postponed(g) + Listed(g.gray), x, o, Mark(White(g.cw), false, false, false));
    FreshMarks(g, x, o);
  }

  lemma FreshMarks(g: Snap, x: Id, o: Obj)
    requires x !in g.h && g.m.Keys == g.h.Keys && Lists(g.h, g.m, g.gray, g.again, g.weak) && NoDead(g.h, g.m, g.cw)
    requires NonwhiteIn(g.h, g.m, g.k) && (g.phase == GCSpropagate ==> Nonwhite(g.m, g.main) && Nonwhite(g.m, g.reg))
    ensures var g' := Fresh(g, x, o);
            && Lists(g'.h, g'.m, g'.gray, g'.again, g'.weak) && Postponed(g') == Postponed(g)
              && NoDead(g'.h, g'.m, g'.cw)
            && NonwhiteIn(g'.h, g'.m, g'.k)
              && (g'.phase == GCSpropagate ==> Nonwhite(g'.m, g'.main) && Nonwhite(g'.m, g'.reg))
  {
    FreshLists(g, x, o);
    hide Lists;
  }

  lemma FreshLists(g: Snap, x: Id, o: Obj)
    requires x !in g.h && g.m.Keys == g.h.Keys && Lists(g.h, g.m, g.gray, g.again, g.weak)
    ensures var g' := Fresh(g, x, o);
            Lists(g'.h, g'.m, g'.gray, g'.again, g'.weak) && Postponed(g') == Postponed(g)
  {
  }

  lemma FreshSwept(g: Snap, x: Id, o: Obj, root: seq<Id>, n: nat)
    requires RootsSwept(g.h, g.m, g.cw, root, n) && x !in g.h && x !in g.m
    ensures RootsSwept(Fresh(g, x, o).h, Fresh(g, x, o).m, g.cw, root, n)
  {
    forall y | y in root[..n]
      ensures Swept(Fresh(g, x, o).h, Fresh(g, x, o).m, g.cw, y)
    {
      assert Swept(g.h, g.m, g.cw, y);
    }
  }

  lemma FreshStringsSwept(g: Snap, x: Id, o: Obj, n: nat)
    requires StringsSwept(g.m, g.cw, g.strt, n) && x !in g.m
    ensures StringsSwept(Fresh(g, x, o).m, g.cw, g.strt, n)
  {
  }

  lemma FreshHomes(g: Snap)
    requires Common(g)
    ensures UpvalHomes(g.h)
  {
  }

  // What holds in the phases, but for the root list
  lemma FreshPhase(g: Snap, x: Id, o: Obj)
    requires Common(g) && PhaseOk(g) && x !in g.h
    ensures var g' := Fresh(g, x, o);
            PhaseOk(g')
  {
    hide Upvalues, Placed, Live, Covers, RootsLive, Colors, Traces, StringsSwept, RootsSwept;
    var g' := Fresh(g, x, o);
    assert x !in g.m;
    FreshHomes(g);
    if g.phase == GCSpropagate {
      FreshTraces(g, x, o);
      assert Postponed(g') == Postponed(g);
    } else if g.phase == GCSsweep {
      FreshSwept(g, x, o, RootList(g), g.sweepgc);
      FreshStringsSwept(g, x, o, |g.strt|);
    } else if g.phase == GCSsweepstring {
      FreshStringsSwept(g, x, o, g.sweepstr);
    }
  }

  // ---- luaC_link -----------------------------------------------------------------------------------------

  lemma InsertedList(g: Snap, x: Id)
    ensures RootList(Inserted(g, x)) == [x] + RootList(g)
  {
  }

  lemma LinkedPlaced(h: Heap, m: Marking, root: seq<Id>, tmu: seq<Id>, strt: seq<seq<Id>>, x: Id, o: Obj, k: Mark)
    requires Placed(h, m, root, tmu, strt) && x !in h && !o.Str? && !o.UpOpen?
    ensures Placed(h[x := o], m[x := k], [x] + root, tmu, strt)
  {
    FreshStrings(h, strt, x, o);
    hide Strings;
    NoDupCons(x, root);
  }

  lemma LinkedPhase(g: Snap, x: Id)
    requires PhaseOk(g) && x in g.h && Swept(g.h, g.m, g.cw, x)
    ensures PhaseOk(Inserted(g, x))
  {
    var g' := Inserted(g, x);
    InsertedList(g, x);
    if g.phase == GCSsweep {
      assert g'.sweepgc > 0 ==> RootList(g')[..g'.sweepgc] == [x] + RootList(g)[..g.sweepgc];
      forall y | y in RootList(g')[..g'.sweepgc]
        ensures Swept(g'.h, g'.m, g'.cw, y)
      {
        if y != x { assert y in RootList(g)[..g.sweepgc]; }
      }
    } else if g.phase == GCSpropagate {
      assert Postponed(g') == Postponed(g);
    }
  }

  /** luaC_link: a new object. */
  lemma LinkedValid(g: Snap, x: Id, o: Obj)
    requires Valid(g) && CanBeNew(g, x, o) && !o.Str? && !o.UpOpen? && !o.Udata? && (o.Thread? ==> o.open == [])
    ensures Valid(Inserted(Fresh(g, x, o), x))
    ensures Usable(Inserted(Fresh(g, x, o), x), x)
  {
    LinkedParts(g, x, o);
    hide Valid, Common, PhaseOk;
    NewSwept(g, x, o);
    LinkedPhase(Fresh(g, x, o), x);
    LinkedIs(Inserted(Fresh(g, x, o), x));
  }

  lemma LinkedIs(g: Snap)
    requires Common(g) && PhaseOk(g)
    ensures Valid(g)
  {
  }

  lemma NewSwept(g: Snap, x: Id, o: Obj)
    requires o.Thread? ==> o.open == []
    ensures var g' := Fresh(g, x, o);
            Swept(g'.h, g'.m, g'.cw, x) && x in g'.h && x in g'.k && !Dead(g'.m, g'.cw, x)
  {
  }

  lemma LinkedParts(g: Snap, x: Id, o: Obj)
    requires Valid(g) && CanBeNew(g, x, o) && !o.Str? && !o.UpOpen? && !o.Udata? && (o.Thread? ==> o.open == [])
    ensures Common(Inserted(Fresh(g, x, o), x)) && PhaseOk(Fresh(g, x, o))
  {
    hide Upvalues, Placed, Live, Closed, Covers, RootsLive, Colors, PhaseOk, CanBeNew;
    CanBeNewIs(g, x, o);
    FreshPhase(g, x, o);
    FreshUpvalues(g.h, g.uv, x, o);
    UpvaluesHomes(g.h, g.uv);
    CoversClosed(g.h, g.m, g.k, Roots(g));
    FreshLive(g, x, o);
    FreshRoots(g, x, o);
    FreshCovers(g, x, o);
    InsertedList(Fresh(g, x, o), x);
    LinkedPlaced(g.h, g.m, RootList(g), g.tmu, g.strt, x, o, Mark(White(g.cw), false, false, false));
    LinkedRoots(Fresh(g, x, o), x);
  }

  lemma CanBeNewIs(g: Snap, x: Id, o: Obj)
    requires CanBeNew(g, x, o)
    ensures x !in g.h
  {
  }

  lemma LinkedRoots(g: Snap, x: Id)
    requires RootsLive(g)
    ensures RootsLive(Inserted(g, x)) && Roots(Inserted(g, x)) == Roots(g)
  {
  }

  // ---- strings -------------------------------------------------------------------------------------------

  // newlstr: at the head of its list in the string table
  function Interned(g: Snap, b: nat, x: Id): Snap
    requires b < |g.strt|
  {
    Fresh(g, x, Str).(strt := g.strt[b := [x] + g.strt[b]])
  }

  lemma InternedStrings(h: Heap, strt: seq<seq<Id>>, b: nat, x: Id)
    requires Strings(h, strt) && x !in h && b < |strt|
    ensures Strings(h[x := Str], strt[b := [x] + strt[b]])
  {
    var strt' := strt[b := [x] + strt[b]];
    NoDupCons(x, strt[b]);
    forall y | y in h[x := Str] && h[x := Str][y].Str?
      ensures InTable(strt', y)
    {
      if y == x {
        assert x in strt'[b];
      } else {
        assert InTable(strt, y);
        var c :| 0 <= c < |strt| && y in strt[c];
        assert y in strt'[c];
      }
    }
    forall c, d | 0 <= c < d < |strt'|
      ensures Apart(strt'[c], strt'[d])
    {
      assert Apart(strt[c], strt[d]);
    }
  }

  lemma InternedPlaced(h: Heap, m: Marking, root: seq<Id>, tmu: seq<Id>, strt: seq<seq<Id>>, b: nat, x: Id, k: Mark)
    requires Placed(h, m, root, tmu, strt) && x !in h && b < |strt|
    ensures Placed(h[x := Str], m[x := k], root, tmu, strt[b := [x] + strt[b]])
  {
    InternedStrings(h, strt, b, x);
    hide Strings;
  }

  lemma InternedCommon(g: Snap, b: nat, x: Id)
    requires Common(g) && x !in g.h && b < |g.strt|
    ensures Common(Interned(g, b, x)) && CanBeNew(g, x, Str)
  {
    hide Upvalues, Placed, Live, Closed, Covers, RootsLive, Colors;
    FreshUpvalues(g.h, g.uv, x, Str);
    UpvaluesHomes(g.h, g.uv);
    CoversClosed(g.h, g.m, g.k, Roots(g));
    FreshLive(g, x, Str);
    FreshRoots(g, x, Str);
    FreshCovers(g, x, Str);
    InternedPlaced(g.h, g.m, RootList(g), g.tmu, g.strt, b, x, Mark(White(g.cw), false, false, false));
    InternedRoots(g, b, x);
  }

  lemma InternedRoots(g: Snap, b: nat, x: Id)
    requires b < |g.strt| && RootsLive(Fresh(g, x, Str))
    ensures RootsLive(Interned(g, b, x)) && Roots(Interned(g, b, x)) == Roots(g)
  {
  }

  lemma InternedPhase(g: Snap, b: nat, x: Id)
    requires PhaseOk(Fresh(g, x, Str)) && b < |g.strt|
    ensures PhaseOk(Interned(g, b, x))
  {
    var f, g' := Fresh(g, x, Str), Interned(g, b, x);
    if g.phase == GCSpropagate { assert Postponed(g') == Postponed(f); }
    else if g.phase == GCSsweep { assert RootList(g') == RootList(f); }
  }

  /** luaS_newlstr for a string that is not in the table */
  lemma InternedValid(g: Snap, b: nat, x: Id)
    requires Valid(g) && x !in g.h && b < |g.strt|
    ensures Valid(Interned(g, b, x)) && Usable(Interned(g, b, x), x)
  {
    hide Common, PhaseOk;
    InternedCommon(g, b, x);
    FreshPhase(g, x, Str);
    InternedPhase(g, b, x);
  }

  // changewhite for a dead object that is found again
  function Resurrected(g: Snap, x: Id): Snap {
    if x in g.m then g.(m := g.m[x := g.m[x].(color := White(g.cw))], k := g.k + {x}) else g
  }

  lemma ResurrectedLive(g: Snap, x: Id)
    requires g.m.Keys == g.h.Keys && Live(g.h, g.m, g.cw) && Closed(g.h, g.k) && x in g.h && Dead(g.m, g.cw, x)
    requires forall r :: Refers(g.h, g.h[x], r) ==> Usable(g, r)
    ensures var g' := Resurrected(g, x);
            Live(g'.h, g'.m, g'.cw) && Closed(g'.h, g'.k) && g'.m.Keys == g'.h.Keys
  {
    hide Refers;
    var g' := Resurrected(g, x);
    forall y, r | y in g'.h && Refers(g'.h, g'.h[y], r)
      ensures !Dead(g'.m, g'.cw, y) ==> r in g'.h && !Dead(g'.m, g'.cw, r)
      ensures y in g'.k ==> r in g'.k
    {
      if y == x { assert Usable(g, r); } else { assert y in g.k ==> r in g.k; }
    }
  }

  lemma ResurrectedRest(g: Snap, x: Id)
    requires g.m.Keys == g.h.Keys && x in g.h && RootsLive(g) && Colors(g.h, g.m)
    ensures var g' := Resurrected(g, x);
            RootsLive(g') && Colors(g'.h, g'.m) && Roots(g') == Roots(g)
              && forall y :: y in g.m ==> g'.m[y].finalized == g.m[y].finalized
  {
    var g' := Resurrected(g, x);
    forall u | u in g.h
      ensures ColorOk(g.h[u], g'.m[u].color)
    {
      assert ColorOk(g.h[u], g.m[u].color);
    }
  }

  lemma ResurrectedCovers(h: Heap, m: Marking, m': Marking, k: set<Id>, roots: set<Id>, x: Id)
    requires Covers(h, m, k, roots) && Closed(h, k + {x}) && m'.Keys == m.Keys
      && forall y :: y in m ==> m'[y].finalized == m[y].finalized
    ensures Covers(h, m', k + {x}, roots)
  {
    hide Closed;
  }

  lemma ResurrectedCommon(g: Snap, x: Id)
    requires Common(g) && x in g.h && Dead(g.m, g.cw, x) && forall r :: Refers(g.h, g.h[x], r) ==> Usable(g, r)
    ensures Common(Resurrected(g, x))
  {
    hide Upvalues, Placed, Live, Closed, Covers, RootsLive, Colors, Refers;
    CoversClosed(g.h, g.m, g.k, Roots(g));
    ResurrectedLive(g, x);
    ResurrectedRest(g, x);
    FinalizedPlaced(g.h, g.m, Resurrected(g, x).m, RootList(g), g.tmu, g.strt);
    ResurrectedCovers(g.h, g.m, Resurrected(g, x).m, g.k, Roots(g), x);
  }

  lemma ResurrectedPhase(g: Snap, x: Id)
    requires Common(g) && PhaseOk(g) && x in g.h && Dead(g.m, g.cw, x)
    ensures PhaseOk(Resurrected(g, x)) && (g.phase == GCSsweepstring || g.phase == GCSsweep)
  {
    hide Common;
    var g' := Resurrected(g, x);
    if g.phase == GCSsweep {
      assert RootList(g') == RootList(g);
      forall y | y in RootList(g)[..g.sweepgc]
        ensures Swept(g'.h, g'.m, g'.cw, y)
      {
        assert Swept(g.h, g.m, g.cw, y);
      }
    }
  }

  /** A string or upvalue that is found dead is made alive again; that happens during the sweep only. */
  lemma ResurrectedValid(g: Snap, x: Id)
    requires Valid(g) && x in g.h && Dead(g.m, g.cw, x) && forall r :: Refers(g.h, g.h[x], r) ==> Usable(g, r)
    ensures Valid(Resurrected(g, x)) && Usable(Resurrected(g, x), x)
      && (g.phase == GCSsweepstring || g.phase == GCSsweep)
  {
    hide Common, PhaseOk, Refers;
    ResurrectedCommon(g, x);
    ResurrectedPhase(g, x);
  }

  // ---- userdata ------------------------------------------------------------------------------------------

  // luaS_newudata: behind the main thread
  function Attached(g: Snap, x: Id): Snap {
    g.(udata := [x] + g.udata, sweepgc := if g.sweepgc <= |g.rootgc| then g.sweepgc else g.sweepgc + 1)
  }

  lemma AttachedPlaced(h: Heap, m: Marking, a: seq<Id>, b: seq<Id>, tmu: seq<Id>, strt: seq<seq<Id>>, x: Id, o: Obj,
    k: Mark)
    requires Placed(h, m, a + b, tmu, strt) && x !in h && o.Udata?
    ensures Placed(h[x := o], m[x := k], a + ([x] + b), tmu, strt)
  {
    FreshStrings(h, strt, x, o);
    hide Strings;
    MiddleNoDup(a, b, x);
  }

  lemma MiddleNoDup(a: seq<Id>, b: seq<Id>, x: Id)
    requires NoDup(a + b) && x !in a + b
    ensures NoDup(a + ([x] + b)) && forall y :: y in a + ([x] + b) <==> y in a + b || y == x
  {
    var l := a + ([x] + b);
    assert l == a + [x] + b;
    NoDupParts(a, b);
    forall i, j | 0 <= i < j < |l|
      ensures l[i] != l[j]
    {
      if j < |a| { assert a[i] != a[j]; }
      else if i > |a| { assert b[i - |a| - 1] != b[j - |a| - 1]; }
      else if i < |a| && j > |a| { assert a[i] in a && b[j - |a| - 1] in b; }
      else if i == |a| { assert b[j - |a| - 1] in a + b; }
      else { assert a[i] in a + b; }
    }
  }

  lemma AttachedPhase(g: Snap, x: Id)
    requires PhaseOk(g) && x in g.h && Swept(g.h, g.m, g.cw, x)
    ensures PhaseOk(Attached(g, x))
  {
    var g' := Attached(g, x);
    if g.phase == GCSsweep {
      var l, l' := RootList(g), RootList(g');
      assert l' == g.rootgc + [x] + g.udata;
      if g.sweepgc <= |g.rootgc| { assert l'[..g.sweepgc] == l[..g.sweepgc]; }
      else { assert l'[..g'.sweepgc] == g.rootgc + [x] + g.udata[..g.sweepgc - |g.rootgc|]
        && l[..g.sweepgc] == g.rootgc + g.udata[..g.sweepgc - |g.rootgc|]; }
      forall y | y in l'[..g'.sweepgc]
        ensures Swept(g'.h, g'.m, g'.cw, y)
      {
        if y != x { assert y in l[..g.sweepgc]; }
      }
    } else if g.phase == GCSpropagate {
      assert Postponed(g') == Postponed(g);
    }
  }

  lemma AttachedCommon(g: Snap, x: Id, o: Obj)
    requires Common(g) && CanBeNew(g, x, o) && o.Udata?
    ensures Common(Attached(Fresh(g, x, o), x))
  {
    hide Upvalues, Placed, Live, Closed, Covers, RootsLive, Colors, CanBeNew;
    CanBeNewIs(g, x, o);
    FreshUpvalues(g.h, g.uv, x, o);
    CoversClosed(g.h, g.m, g.k, Roots(g));
    UpvaluesHomes(g.h, g.uv);
    FreshLive(g, x, o);
    FreshRoots(g, x, o);
    FreshCovers(g, x, o);
    AttachedPlaced(g.h, g.m, g.rootgc, g.udata, g.tmu, g.strt, x, o, Mark(White(g.cw), false, false, false));
    AttachedRoots(Fresh(g, x, o), x);
  }

  lemma UpvaluesHomes(h: Heap, uv: seq<Id>)
    requires Upvalues(h, uv)
    ensures UpvalHomes(h)
  {
  }

  lemma AttachedRoots(g: Snap, x: Id)
    requires RootsLive(g)
    ensures RootsLive(Attached(g, x)) && Roots(Attached(g, x)) == Roots(g)
  {
  }

  lemma AttachedValid(g: Snap, x: Id, o: Obj)
    requires Valid(g) && CanBeNew(g, x, o) && o.Udata?
    ensures Valid(Attached(Fresh(g, x, o), x)) && Usable(Attached(Fresh(g, x, o), x), x)
  {
    hide Common, PhaseOk;
    AttachedCommon(g, x, o);
    FreshPhase(g, x, o);
    NewSwept(g, x, o);
    AttachedPhase(Fresh(g, x, o), x);
  }
}

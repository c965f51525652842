/** Every run of the thread pool */
module PoolSafety {
  // done is called exactly once for each submission, no request is stranded, and workers leave only when everything
  // before the exit message has been taken.

  import opened Basics
  import opened Queues
  import opened PoolModel

  // ---- runs ------------------------------------------------------------------------------------------------

  function AllHeads(loops: set<nat>): set<Node> {
    {PoolHead} + (set l | l in loops :: LoopHead(l)) + (set l | l in loops :: LocalHead(l))
  }

  // The pool after init_threads
  function Start(n: nat, loops: set<nat>): Pool {
    Pool(map h | h in AllHeads(loops) :: [],
         map[], map[], 0, seq(n, _ => Entering), map[], {}, false, loops, map[], [])
  }

  predicate Runs(g: Pool, actions: seq<Action>)
    decreases |actions|
  {
    actions == [] || (Enabled(g, actions[0]) && Runs(Apply(g, actions[0]), actions[1..]))
  }

  function After(g: Pool, actions: seq<Action>): Pool
    requires Runs(g, actions)
    decreases |actions|
  {
    if actions == [] then g else After(Apply(g, actions[0]), actions[1..])
  }

  lemma {:induction false} StartCount(n: nat, p: Pc)
    requires p != Entering
    ensures At(seq(n, _ => Entering), p) == 0
  {
    var ws := seq(n, _ => Entering);
    assert forall x :: x in ws ==> x == Entering;
    assert p in multiset(ws) ==> p in ws;
  }

  lemma StartInv(n: nat, loops: set<nat>)
    ensures Inv(Start(n, loops))
  {
    var g := Start(n, loops);
    StartCount(n, Waiting);
    StartCount(n, Woken);
    StartCount(n, Exited);
  }

  lemma {:induction false} RunInv(g: Pool, actions: seq<Action>)
    requires Inv(g) && Runs(g, actions)
    ensures Inv(After(g, actions))
    decreases |actions|
  {
    hide Inv, Enabled;
    if actions != [] {
      StepInv(g, actions[0]);
      RunInv(Apply(g, actions[0]), actions[1..]);
    }
  }

  // ---- what the log of a run says --------------------------------------------------------------------------

  lemma {:induction false} NotBrokenBefore(log: seq<Event>, w: nat, n: nat)
    requires LifeOf(log, w) != Broken && n <= |log|
    ensures LifeOf(log[..n], w) != Broken
    decreases |log|
  {
    if n == |log| {
      assert log[..n] == log;
    } else {
      var p := log[..|log| - 1];
      NotBrokenBefore(p, w, n);
      assert p[..n] == log[..n];
    }
  }

  // Event j submitted the request; what has happened since, when its life is at s
  ghost predicate Current(log: seq<Event>, w: nat, j: int, s: Life) {
    && 0 <= j < |log| && log[j] == Submitted(w)
    && (forall i :: j < i < |log| ==> log[i] != Submitted(w) && log[i] != Done(w, true) && log[i] != Done(w, false))
    && (s == WasCancelled ==> exists i :: j < i < |log| && log[i] == Cancelled(w))
    && (s == Queued || s == Started || s == WasRun ==> forall i :: j < i < |log| ==> log[i] != Cancelled(w))
    && (s == WasRun ==> exists i :: j < i < |log| && log[i] == Executed(w))
    && (s != WasRun ==> forall i :: j < i < |log| ==> log[i] != Executed(w))
    && (forall i, k :: j < i < k < |log| && log[i] == Executed(w) ==> log[k] != Executed(w))
  }

  lemma {:induction false} HasCurrent(log: seq<Event>, w: nat) returns (j: int)
    requires LifeOf(log, w) != Broken && LifeOf(log, w) != NotSubmitted
    ensures Current(log, w, j, LifeOf(log, w))
    decreases |log|
  {
    var p, e := log[..|log| - 1], log[|log| - 1];
    var s := LifeOf(p, w);
    assert log == p + [e];
    if s == NotSubmitted {
      j := |log| - 1;
    } else {
      j := HasCurrent(p, w);
      CurrentNext(p, w, j, s, e);
    }
  }

  lemma CurrentNext(p: seq<Event>, w: nat, j: int, s: Life, e: Event)
    requires Current(p, w, j, s) && s != NotSubmitted && NextLife(s, e, w) != Broken
      && NextLife(s, e, w) != NotSubmitted
    ensures Current(p + [e], w, j, NextLife(s, e, w))
  {
    var log, s' := p + [e], NextLife(s, e, w);
    assert log[|p|] == e && forall i :: 0 <= i < |p| ==> log[i] == p[i];
    assert s' == WasCancelled ==> exists i :: j < i < |log| && log[i] == Cancelled(w) by {
      if s' == WasCancelled {
        if s == WasCancelled {
          var i :| j < i < |p| && p[i] == Cancelled(w);
          assert log[i] == Cancelled(w);
        } else {
          assert log[|p|] == Cancelled(w);
        }
      }
    }
    assert s' == WasRun ==> exists i :: j < i < |log| && log[i] == Executed(w) by {
      if s' == WasRun {
        if s == WasRun {
          var i :| j < i < |p| && p[i] == Executed(w);
          assert log[i] == Executed(w);
        } else {
          assert log[|p|] == Executed(w);
        }
      }
    }
  }

  // The event k is the done callback of the submission j.
  ghost predicate DoneOnce(log: seq<Event>, w: nat, j: int, k: int, c: bool) {
    && 0 <= j < k < |log| && log[j] == Submitted(w) && log[k] == Done(w, c)
    && (forall i :: j < i < k ==> log[i] != Submitted(w) && log[i] != Done(w, true) && log[i] != Done(w, false))
    && (c <==> exists i :: j < i < k && log[i] == Cancelled(w))
    && (!c <==> exists i :: j < i < k && log[i] == Executed(w))
    && (forall i, n :: j < i < n < k && log[i] == Executed(w) ==> log[n] != Executed(w))
  }

  /** The done callback of a submission is called with UV_ECANCELED if and only if uv_cancel returned 0 for it,
      and then its work function was not called; otherwise that was called once. */
  lemma DoneMeans(log: seq<Event>, w: nat, k: int, c: bool) returns (j: int)
    requires LifeOf(log, w) != Broken && 0 <= k < |log| && log[k] == Done(w, c)
    ensures DoneOnce(log, w, j, k, c)
  {
    var p := log[..k];
    NotBrokenBefore(log, w, k);
    NotBrokenBefore(log, w, k + 1);
    assert log[..k + 1] == p + [log[k]];
    LifeSnoc(p, log[k], w);
    j := HasCurrent(p, w);
    assert forall i :: 0 <= i < k ==> p[i] == log[i];
    var s := LifeOf(p, w);
    if c {
      var i :| j < i < |p| && p[i] == Cancelled(w);
      assert log[i] == Cancelled(w);
    } else {
      var i :| j < i < |p| && p[i] == Executed(w);
      assert log[i] == Executed(w);
    }
  }

  function Count(log: seq<Event>, w: nat, submits: bool): nat {
    if log == [] then 0
    else
      var e := log[|log| - 1];
      Count(log[..|log| - 1], w, submits) + if e.w == w && (if submits then e.Submitted? else e.Done?) then 1 else 0
  }

  /** Done is called as often as the request was submitted, but for a submission that is not finished. */
  lemma {:induction false} DoneCount(log: seq<Event>, w: nat)
    requires LifeOf(log, w) != Broken
    ensures Count(log, w, true) == Count(log, w, false) + if LifeOf(log, w) == NotSubmitted then 0 else 1
  {
    if log != [] {
      DoneCount(log[..|log| - 1], w);
    }
  }

  /** In every run, whatever the workers and the loops do, no request is ever broken. */
  lemma NeverBroken(n: nat, loops: set<nat>, actions: seq<Action>, w: nat)
    requires Runs(Start(n, loops), actions)
    ensures LifeOf(After(Start(n, loops), actions).log, w) != Broken
  {
    StartInv(n, loops);
    RunInv(Start(n, loops), actions);
  }

  /** A worker calls the function of the request; uv__cancelled, which aborts, is never called. */
  lemma NoAbort(g: Pool, i: nat)
    requires Inv(g) && Enabled(g, Execute(i))
    ensures FnAt(g, g.workers[i].w) == UserFn
  {
    assert WorkerOk(g, i);
    assert RequestOk(g, g.workers[i].w);
  }

  // ---- nothing is stranded ---------------------------------------------------------------------------------

  lemma {:induction false} SomeAt(ws: seq<Pc>, p: Pc) returns (i: nat)
    requires At(ws, p) > 0
    ensures i < |ws| && ws[i] == p
  {
    assert p in multiset(ws);
    assert p in ws;
    i :| i < |ws| && ws[i] == p;
  }

  lemma NoneAt(ws: seq<Pc>, p: Pc)
    requires forall i :: 0 <= i < |ws| ==> ws[i] != p
    ensures At(ws, p) == 0
  {
    if At(ws, p) > 0 { var i := SomeAt(ws, p); }
  }

  lemma CountAt(ws: seq<Pc>, p: Pc, i: nat)
    requires i < |ws| && ws[i] == p
    ensures At(ws, p) > 0
  {
    assert p in ws;
    assert p in multiset(ws);
  }

  /** While a worker sleeps there are at least as many woken workers as entries in the queue. */
  lemma NotStranded(g: Pool)
    requires Inv(g) && Waiting in g.workers
    ensures |ListAt(g, PoolHead)| <= At(g.workers, Woken) && (ListAt(g, PoolHead) != [] ==> Woken in g.workers)
  {
    var i :| 0 <= i < |g.workers| && g.workers[i] == Waiting;
    CountAt(g.workers, Waiting, i);
    if ListAt(g, PoolHead) != [] { var k := SomeAt(g.workers, Woken); }
  }

  // All workers sleep, or have left, and the loops have nothing to do.
  ghost predicate Quiet(g: Pool) {
    && (forall i :: 0 <= i < |g.workers| ==> g.workers[i] == Waiting || g.workers[i] == Exited)
    && (forall l :: l in g.loops ==> l !in g.pending && CancelAt(g, l).NotCancelling? && ListAt(g, LocalHead(l)) == [])
  }

  /** When everything is at rest each request that was submitted is done. */
  lemma QuietDone(g: Pool, w: nat)
    requires Inv(g) && Quiet(g) && Waiting in g.workers
    ensures PhaseAt(g, w) == Free && Count(g.log, w, true) == Count(g.log, w, false) && !g.exiting
  {
    NoneAt(g.workers, Woken);
    NotStranded(g);
    assert RequestOk(g, w);
    assert LifeOf(g.log, w) == LifeAt(PhaseAt(g, w), FnAt(g, w));
    DoneCount(g.log, w);
  }

  // The step is one of those that bring a request further, not a new call of the program.
  predicate Internal(a: Action) {
    a.Enter? || a.WakeUp? || a.Execute? || a.Finish? || a.CancelMark? || a.CancelInsert? || a.Drain? || a.CallDone?
  }

  // The workers that a signal may wake: all of them
  function Sleepers(ws: seq<Pc>): set<nat> {
    set i | 0 <= i < |ws| && ws[i] == Waiting
  }

  lemma SleepersOk(ws: seq<Pc>)
    ensures WakesOk(ws, Sleepers(ws))
  {
    if At(ws, Waiting) > 0 {
      var i := SomeAt(ws, Waiting);
      assert i in Sleepers(ws);
    }
  }

  lemma WorkerMoves(g: Pool, i: nat) returns (a: Action)
    requires Inv(g) && i < |g.workers| && g.workers[i] != Waiting && g.workers[i] != Exited
    ensures Enabled(g, a) && Internal(a)
  {
    SleepersOk(g.workers);
    match g.workers[i] {
      case Entering => a := Enter(i, Sleepers(g.workers));
      case Woken =>
        CountAt(g.workers, Woken, i);
        a := WakeUp(i, Sleepers(g.workers));
      case Holding(w) => a := Execute(i);
      case Ran(w) => a := Finish(i);
    }
  }

  lemma LoopMoves(g: Pool, l: nat) returns (a: Action)
    requires Inv(g) && l in g.loops
      && (l in g.pending || !CancelAt(g, l).NotCancelling? || ListAt(g, LocalHead(l)) != [])
    ensures Enabled(g, a) && Internal(a)
  {
    match CancelAt(g, l) {
      case Removed(w) => a := CancelMark(l);
      case Marked(w) => a := CancelInsert(l);
      case NotCancelling =>
        if ListAt(g, LocalHead(l)) != [] {
          assert ListAt(g, LocalHead(l))[0] in ListAt(g, LocalHead(l));
          a := CallDone(l);
        } else {
          a := Drain(l);
        }
    }
  }

  /** No deadlock: while a request is not done and a worker has not left, some step brings a request further. */
  lemma Progress(g: Pool, w: nat) returns (a: Action)
    requires Inv(g) && PhaseAt(g, w) != Free && exists i :: 0 <= i < |g.workers| && g.workers[i] != Exited
    ensures Enabled(g, a) && Internal(a)
  {
    if i :| 0 <= i < |g.workers| && g.workers[i] != Waiting && g.workers[i] != Exited {
      a := WorkerMoves(g, i);
    } else if l :| l in g.loops && (l in g.pending || !CancelAt(g, l).NotCancelling? || ListAt(g, LocalHead(l)) != []) {
      a := LoopMoves(g, l);
    } else {
      assert Waiting in g.workers;
      QuietDone(g, w);
      assert false;
    }
  }

  // ---- internal runs end -----------------------------------------------------------------------------------

  // How many steps a request has before it
  function Distance(g: Pool, w: nat): nat {
    match PhaseAt(g, w)
    case Pooled => 6
    case Held(_) => 5
    case HasRun(_) => 4
    case Dropping(l) => if CancelAt(g, l).Removed? then 4 else 3
    case Listed(_) => 2
    case Local(_) => 1
    case Free => 0
  }

  function Working(g: Pool): set<nat> {
    set i | 0 <= i < |g.workers| && g.workers[i] != Exited
  }

  function Distances(g: Pool): set<(nat, nat)> {
    set w, n | w in g.phase.Keys && n in {0, 1, 2, 3, 4, 5} && n < Distance(g, w) :: (w, n)
  }

  // Workers that are on their way to the mutex
  function Coming(g: Pool): set<nat> {
    set i | 0 <= i < |g.workers| && (g.workers[i] == Entering || g.workers[i] == Woken)
  }

  // What an internal step makes less
  ghost predicate Less(g: Pool, g': Pool) {
    || |Working(g')| < |Working(g)|
    || (|Working(g')| == |Working(g)| && |Distances(g')| < |Distances(g)|)
    || (|Working(g')| == |Working(g)| && |Distances(g')| == |Distances(g)|
      && |Coming(g')| + |g'.pending| < |Coming(g)| + |g.pending|)
  }

  lemma Fewer<T>(a: set<T>, b: set<T>, x: T)
    requires a <= b && x in b && x !in a
    ensures |a| < |b|
  {
    SubsetCount(a, b);
  }

  // One request comes nearer to its end.
  lemma Nearer(g: Pool, g': Pool, w: nat)
    requires (forall v :: v in g'.phase ==> v in g.phase || Distance(g', v) == 0)
    requires (forall v :: v in g'.phase ==> Distance(g', v) <= Distance(g, v)) && w in g.phase
      && Distance(g', w) < Distance(g, w)
    requires Working(g') == Working(g)
    ensures Less(g, g')
  {
    hide Distance, Working;
    assert (w, Distance(g', w)) in Distances(g) by { assert Distance(g, w) <= 6 by { Distant(g, w); } }
    Fewer(Distances(g'), Distances(g), (w, Distance(g', w)));
  }

  lemma Distant(g: Pool, w: nat)
    ensures Distance(g, w) <= 6
  {
  }

  lemma SameWorking(g: Pool, g': Pool)
    requires |g'.workers| == |g.workers|
      && forall i :: 0 <= i < |g.workers| ==> (g'.workers[i] == Exited <==> g.workers[i] == Exited)
    ensures Working(g') == Working(g)
  {
  }

  lemma TakeLess(g: Pool, i: nat, wakes: set<nat>)
    requires Entries(g) && MayTake(g, i) && WakesOk(g.workers, wakes)
    ensures Less(g, TakeOne(g, i, wakes))
  {
    hide Entries, Distance, Signalled;
    var s, g' := ListAt(g, PoolHead), TakeOne(g, i, wakes);
    if s == [] {
      SameDistances(g, g');
      SameWorking(g, g');
      Fewer(Coming(g'), Coming(g), i);
    } else if s[0].Work? {
      TakeNearer(g, i, wakes);
    } else {
      SignalledAt(g.workers[i := Exited], wakes, |g.workers|);
      Fewer(Working(g'), Working(g), i);
    }
  }

  lemma SameDistances(g: Pool, g': Pool)
    requires g'.phase == g.phase && g'.cancelling == g.cancelling
    ensures Distances(g') == Distances(g)
  {
    forall w
      ensures Distance(g', w) == Distance(g, w)
    {
    }
  }

  lemma TakeNearer(g: Pool, i: nat, wakes: set<nat>)
    requires Entries(g) && MayTake(g, i) && ListAt(g, PoolHead) != [] && ListAt(g, PoolHead)[0].Work?
    ensures Less(g, TakeOne(g, i, wakes))
  {
    var w, g' := ListAt(g, PoolHead)[0].w, TakeOne(g, i, wakes);
    assert PoolEntry(g, ListAt(g, PoolHead)[0]);
    hide Entries;
    SameWorking(g, g');
    Nearer(g, g', w);
  }

  lemma MarkLess(g: Pool, l: nat)
    requires Inv(g) && Enabled(g, CancelMark(l))
    ensures Less(g, Marking(g, l))
  {
    assert CancelOk(g, l);
    OneCancel(g, l);
    hide Inv, Less, Working;
    SameWorking(g, Marking(g, l));
    Nearer(g, Marking(g, l), CancelAt(g, l).w);
  }

  lemma InsertLess(g: Pool, l: nat)
    requires Inv(g) && Enabled(g, CancelInsert(l))
    ensures Less(g, Inserting(g, l))
  {
    assert CancelOk(g, l);
    OneCancel(g, l);
    hide Inv, Less, Working;
    SameWorking(g, Inserting(g, l));
    Nearer(g, Inserting(g, l), CancelAt(g, l).w);
  }

  lemma CallLess(g: Pool, l: nat)
    requires Inv(g) && Enabled(g, CallDone(l))
    ensures Less(g, Calling(g, l))
  {
    assert ListAt(g, LocalHead(l))[0] in ListAt(g, LocalHead(l));
    assert PhaseAt(g, ListAt(g, LocalHead(l))[0].w) == Local(l);
    hide Inv, Less, Working;
    SameWorking(g, Calling(g, l));
    Nearer(g, Calling(g, l), ListAt(g, LocalHead(l))[0].w);
  }

  // A request is cancelled by one loop at a time.
  lemma OneCancel(g: Pool, l: nat)
    requires Inv(g)
    ensures forall v :: PhaseAt(g, v) == Dropping(l) ==> CancelAt(g, l) == Removed(v) || CancelAt(g, l) == Marked(v)
  {
    forall v | PhaseAt(g, v) == Dropping(l)
      ensures CancelAt(g, l) == Removed(v) || CancelAt(g, l) == Marked(v)
    {
      assert RequestOk(g, v);
    }
  }

  lemma DrainLess(g: Pool, l: nat)
    requires Inv(g) && Enabled(g, Drain(l))
    ensures Less(g, Draining(g, l))
  {
    hide Inv;
    var g' := Draining(g, l);
    DrainNearer(g, l);
    SameWorking(g, g');
    if w :| w in g.phase && g.phase[w] == Listed(l) {
      hide Draining, Less, Distance, Working;
      Nearer(g, g', w);
    } else {
      assert g'.phase == g.phase;
      SameDistances(g, g');
      Fewer(g'.pending, g.pending, l);
      assert Coming(g') == Coming(g);
    }
  }

  lemma DrainNearer(g: Pool, l: nat)
    ensures var g' := Draining(g, l);
            g'.phase.Keys == g.phase.Keys
              && forall w ::
                Distance(g', w) <= Distance(g, w) && (PhaseAt(g, w) == Listed(l) ==> Distance(g', w) < Distance(g, w))
  {
    var g' := Draining(g, l);
    DrainPhases(g, l);
    forall w
      ensures Distance(g', w) <= Distance(g, w) && (PhaseAt(g, w) == Listed(l) ==> Distance(g', w) < Distance(g, w))
    {
    }
  }

  /** Every internal step makes something less: without new calls the workers and the loops come to rest. */
  lemma InternalLess(g: Pool, a: Action)
    requires Inv(g) && Enabled(g, a) && Internal(a)
    ensures Less(g, Apply(g, a))
  {
    hide Inv, Less;
    match a {
      case Enter(i, wakes) => EnterLess(g, i, wakes);
      case WakeUp(i, wakes) => WakeLess(g, i, wakes);
      case Execute(i) => WorkerLess(g, i);
      case Finish(i) => WorkerLess(g, i);
      case CancelMark(l) => MarkLess(g, l);
      case CancelInsert(l) => InsertLess(g, l);
      case Drain(l) => DrainLess(g, l);
      case CallDone(l) => CallLess(g, l);
    }
  }

  lemma WorkerLess(g: Pool, i: nat)
    requires Inv(g) && i < |g.workers| && (g.workers[i].Holding? || g.workers[i].Ran?)
    ensures Less(g, if g.workers[i].Holding? then Executing(g, i) else Finishing(g, i))
  {
    var w, g' := g.workers[i].w, if g.workers[i].Holding? then Executing(g, i) else Finishing(g, i);
    assert WorkerOk(g, i);
    hide Inv;
    SameWorking(g, g');
    Nearer(g, g', w);
  }

  lemma EnterLess(g: Pool, i: nat, wakes: set<nat>)
    requires Inv(g) && Enabled(g, Enter(i, wakes))
    ensures Less(g, TakeOne(g, i, wakes))
  {
    hide Entries;
    TakeLess(g, i, wakes);
  }

  lemma WakeLess(g: Pool, i: nat, wakes: set<nat>)
    requires Inv(g) && Enabled(g, WakeUp(i, wakes))
    ensures Less(g, Apply(g, WakeUp(i, wakes)))
  {
    hide Entries, Heads, Requests, Threads, WakesOk, TakeOne, Awake, Lives;
    var g0 := g.(idle := g.idle - 1);
    SameHoldersRefl(g.workers);
    SameRequests(g, g0);
    TakeLess(g0, i, wakes);
    SameDistances(g, g0);
  }

  /** When no internal step is possible all is quiet. */
  lemma RestIsQuiet(g: Pool)
    requires Inv(g) && forall a :: Enabled(g, a) ==> !Internal(a)
    ensures Quiet(g)
  {
    hide Inv;
    forall i | 0 <= i < |g.workers|
      ensures g.workers[i] == Waiting || g.workers[i] == Exited
    {
      if g.workers[i] != Waiting && g.workers[i] != Exited { var a := WorkerMoves(g, i); }
    }
    forall l | l in g.loops
      ensures l !in g.pending && CancelAt(g, l).NotCancelling? && ListAt(g, LocalHead(l)) == []
    {
      if l in g.pending || !CancelAt(g, l).NotCancelling? || ListAt(g, LocalHead(l)) != [] { var a := LoopMoves(g, l); }
    }
  }

  // ---- cleanup ---------------------------------------------------------------------------------------------

  /** After the exit message has been posted some worker can go on until all of them have left. */
  lemma ExitProgress(g: Pool, i: nat) returns (a: Action)
    requires Inv(g) && g.exiting && i < |g.workers| && g.workers[i] != Exited
    ensures Enabled(g, a) && Internal(a)
  {
    if k :| 0 <= k < |g.workers| && g.workers[k] != Waiting && g.workers[k] != Exited {
      a := WorkerMoves(g, k);
    } else {
      NotStranded(g);
      assert false;
    }
  }

  // The request is in the queue in front of the exit message.
  ghost predicate Ahead(g: Pool, w: nat) {
    exists k, m ::
        0 <= k < m < |ListAt(g, PoolHead)| && ListAt(g, PoolHead)[k] == Work(w) && ListAt(g, PoolHead)[m] == ExitMessage
  }

  lemma PostedAhead(g: Pool, wakes: set<nat>, w: nat)
    requires Inv(g) && Enabled(g, PostExit(wakes)) && PhaseAt(g, w) == Pooled
    ensures Ahead(Apply(g, PostExit(wakes)), w)
  {
    assert RequestOk(g, w);
    var s := ListAt(g, PoolHead);
    var k :| 0 <= k < |s| && s[k] == Work(w);
    var s' := ListAt(Apply(g, PostExit(wakes)), PoolHead);
    assert s' == s + [ExitMessage];
    assert s'[k] == Work(w) && s'[|s|] == ExitMessage;
  }

  lemma AheadStays(g: Pool, w: nat)
    requires Inv(g) && Ahead(g, w)
    ensures Exited !in g.workers
  {
    hide Lives;
    var s := ListAt(g, PoolHead);
    var k, m :| 0 <= k < m < |s| && s[k] == Work(w) && s[m] == ExitMessage;
    assert HeadOk(g, PoolHead);
    assert s[0] != s[m];
  }

  lemma AheadWithout(s: seq<Node>, x: Node, k: int, m: int)
    requires 0 <= k < m < |s| && s[k] != x && s[m] != x
    ensures var r := Without(s, x);
            exists i, j :: 0 <= i < j < |r| && r[i] == s[k] && r[j] == s[m]
  {
    var r := Without(s, x);
    if x in s {
      var n := IndexOf(s, x);
      assert r[if k < n then k else k - 1] == s[k] && r[if m < n then m else m - 1] == s[m];
    } else {
      assert r[k] == s[k] && r[m] == s[m];
    }
  }

  // An event that takes a request out of the pool's queue
  predicate Leaves(e: Event, w: nat) {
    e == Taken(w) || e == Unqueued(w)
  }

  lemma AheadStep(g: Pool, a: Action, w: nat)
    requires Inv(g) && Enabled(g, a) && Ahead(g, w)
    ensures var g' := Apply(g, a);
            |g'.log| >= |g.log| && g'.log[..|g.log|] == g.log
            && (Ahead(g', w) || (|g'.log| == |g.log| + 1 && Leaves(g'.log[|g.log|], w)))
  {
    hide Inv, Enabled, Signalled, Without, IndexOf, PhaseAt, FnAt, LoopAt;
    StepLog(g, a);
    var s, s' := ListAt(g, PoolHead), ListAt(Apply(g, a), PoolHead);
    var k, m :| 0 <= k < m < |s| && s[k] == Work(w) && s[m] == ExitMessage;
    if a.Enter? || a.WakeUp? {
      if k > 0 && s[0].Work? { assert s'[k - 1] == Work(w) && s'[m - 1] == ExitMessage; }
      else if k > 0 { assert s' == s; }
    } else if a.Submit? || a.PostExit? {
      assert s'[k] == Work(w) && s'[m] == ExitMessage;
    } else if a.CancelTry? {
      if a.w != w && Cancellable(g, a.w) && PhaseAt(g, a.w).Pooled? {
        AheadWithout(s, Work(a.w), k, m);
      }
    } else {
      assert s' == s;
    }
  }

  /** A worker leaves only when every request that was in the queue when the exit message was posted has been
      taken by a worker or cancelled. */
  lemma {:induction false} ExitWaits(g: Pool, actions: seq<Action>, w: nat) returns (i: nat)
    requires Inv(g) && Ahead(g, w) && Runs(g, actions) && Exited in After(g, actions).workers
    ensures |g.log| <= i < |After(g, actions).log| && Leaves(After(g, actions).log[i], w)
    ensures After(g, actions).log[..|g.log|] == g.log
    decreases |actions|
  {
    hide Inv, Enabled, Ahead;
    if actions == [] {
      AheadStays(g, w);
      assert false;
    }
    var g1, rest := Apply(g, actions[0]), actions[1..];
    AheadStep(g, actions[0], w);
    StepInv(g, actions[0]);
    LogGrows(g1, rest);
    if Ahead(g1, w) {
      i := ExitWaits(g1, rest, w);
    } else {
      i := |g.log|;
      assert After(g1, rest).log[..|g1.log|][i] == g1.log[i];
    }
    assert After(g1, rest).log[..|g.log|] == After(g1, rest).log[..|g1.log|][..|g.log|];
  }

  lemma StepLog(g: Pool, a: Action)
    requires Enabled(g, a)
    ensures |Apply(g, a).log| >= |g.log| && Apply(g, a).log[..|g.log|] == g.log
  {
    hide TakeOne, Submitting, Cancelling, Calling, Posted, WakesOk, ListAt, PhaseAt, FnAt, LoopAt;
    match a {
      case Enter(i, wakes) => TakeLog(g, i, wakes);
      case WakeUp(i, wakes) => TakeLog(g.(idle := g.idle - 1), i, wakes);
      case Submit(l, w, wakes) => SubmitLog(g, l, w, wakes);
      case PostExit(wakes) => PostLog(g, ExitMessage, wakes);
      case CancelTry(l, w) => CancelLog(g, l, w);
      case CallDone(l) => CallLog(g, l);
      case _ =>
    }
  }

  lemma TakeLog(g: Pool, i: nat, wakes: set<nat>)
    requires i < |g.workers|
    ensures |TakeOne(g, i, wakes).log| >= |g.log| && TakeOne(g, i, wakes).log[..|g.log|] == g.log
  {
  }

  lemma PostLog(g: Pool, q: Node, wakes: set<nat>)
    ensures Posted(g, q, wakes).log == g.log
  {
  }

  lemma SubmitLog(g: Pool, l: nat, w: nat, wakes: set<nat>)
    ensures |Submitting(g, l, w, wakes).log| >= |g.log| && Submitting(g, l, w, wakes).log[..|g.log|] == g.log
  {
  }

  lemma CancelLog(g: Pool, l: nat, w: nat)
    ensures |Cancelling(g, l, w).log| >= |g.log| && Cancelling(g, l, w).log[..|g.log|] == g.log
  {
  }

  lemma CallLog(g: Pool, l: nat)
    requires Enabled(g, CallDone(l))
    ensures |Calling(g, l).log| >= |g.log| && Calling(g, l).log[..|g.log|] == g.log
  {
  }

  lemma {:induction false} LogGrows(g: Pool, actions: seq<Action>)
    requires Runs(g, actions)
    ensures |After(g, actions).log| >= |g.log| && After(g, actions).log[..|g.log|] == g.log
    decreases |actions|
  {
    hide Enabled;
    if actions != [] {
      var g1 := Apply(g, actions[0]);
      StepLog(g, actions[0]);
      LogGrows(g1, actions[1..]);
      assert After(g, actions).log[..|g.log|] == After(g, actions).log[..|g1.log|][..|g.log|];
    }
  }

  /** A request that is in the queue when the exit message is posted has been taken by a worker or cancelled before any
      worker leaves. */
  lemma ExitComesLast(g: Pool, wakes: set<nat>, actions: seq<Action>, w: nat) returns (i: nat)
    requires Inv(g) && Enabled(g, PostExit(wakes)) && PhaseAt(g, w) == Pooled
    requires var g1 := Apply(g, PostExit(wakes));
             Runs(g1, actions) && Exited in After(g1, actions).workers
    ensures var log := After(Apply(g, PostExit(wakes)), actions).log;
            |g.log| <= i < |log| && Leaves(log[i], w) && log[..|g.log|] == g.log
  {
    hide Inv, Enabled, PhaseAt, After;
    StepInv(g, PostExit(wakes));
    PostedAhead(g, wakes, w);
    ExitLog(g, wakes);
    i := ExitWaits(Apply(g, PostExit(wakes)), actions, w);
  }

  lemma ExitLog(g: Pool, wakes: set<nat>)
    requires Enabled(g, PostExit(wakes))
    ensures Apply(g, PostExit(wakes)).log == g.log
  {
  }
}

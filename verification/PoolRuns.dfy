/** Loops and queues over runs */
module PoolRuns {
  // Who calls done, and in which order, in terms of the actions of a run, of its log, and of the positions in the
  // queues.

  import opened Basics
  import opened Queues
  import opened PoolModel
  import opened PoolSafety

  // ---- the loop of a request ---------------------------------------------------------------------------------------

  predicate Submits(a: Action, w: nat) {
    a.Submit? && a.w == w
  }

  // The last submission of w in these actions was made on the loop l.
  ghost predicate SubmittedOn(actions: seq<Action>, w: nat, l: nat) {
    exists j :: 0 <= j < |actions| && Submits(actions[j], w) && actions[j].l == l
                && forall i :: j < i < |actions| ==> !Submits(actions[i], w)
  }

  // Every request that is not done was submitted on the loop that the pool has for it.
  ghost predicate Homes(g: Pool, hist: seq<Action>) {
    forall w :: PhaseAt(g, w) != Free ==> SubmittedOn(hist, w, LoopAt(g, w))
  }

  lemma SubmittedNow(hist: seq<Action>, a: Action)
    requires a.Submit?
    ensures SubmittedOn(hist + [a], a.w, a.l)
  {
    assert (hist + [a])[|hist|] == a;
  }

  lemma SubmittedStill(hist: seq<Action>, a: Action, w: nat, l: nat)
    requires SubmittedOn(hist, w, l) && !Submits(a, w)
    ensures SubmittedOn(hist + [a], w, l)
  {
    var j :| 0 <= j < |hist| && Submits(hist[j], w) && hist[j].l == l
             && forall i :: j < i < |hist| ==> !Submits(hist[i], w);
    assert (hist + [a])[j] == hist[j];
    assert forall i :: j < i < |hist + [a]| ==> !Submits((hist + [a])[i], w);
  }

  // What the steps do to loops and phases
  lemma TakeKeeps(g: Pool, i: nat, wakes: set<nat>)
    requires i < |g.workers|
    ensures var g' := TakeOne(g, i, wakes);
            && g'.loops == g.loops && g'.loopOf == g.loopOf
            && (g'.phase == g.phase || (ListAt(g, PoolHead) != [] && ListAt(g, PoolHead)[0].Work?
                                        && g'.phase == g.phase[ListAt(g, PoolHead)[0].w := Held(i)]))
  {
    hide Signalled, ListAt;
  }

  lemma PostKeeps(g: Pool, x: Node, wakes: set<nat>)
    ensures var g' := Posted(g, x, wakes);
            g'.loops == g.loops && g'.loopOf == g.loopOf && g'.phase == g.phase
  {
    hide Signalled, ListAt;
  }

  lemma CancelKeeps(g: Pool, l: nat, w: nat)
    ensures var g' := Cancelling(g, l, w);
            && g'.loops == g.loops && g'.loopOf == g.loopOf
            && (g'.phase == g.phase || (PhaseAt(g, w) != Free && g'.phase == g.phase[w := Dropping(l)]))
  {
    hide ListAt, Without;
  }

  lemma SubmitKeeps(g: Pool, l: nat, w: nat, wakes: set<nat>)
    ensures var g' := Submitting(g, l, w, wakes);
            g'.loops == g.loops && g'.loopOf == g.loopOf[w := l] && g'.phase == g.phase[w := Pooled]
  {
    hide Posted;
    PostKeeps(g.(work := g.work[w := UserFn], loopOf := g.loopOf[w := l], phase := g.phase[w := Pooled],
      log := g.log + [Submitted(w)]), Work(w), wakes);
  }

  lemma LoopsStay(g: Pool, a: Action)
    requires Enabled(g, a)
    ensures Apply(g, a).loops == g.loops && (!a.Submit? ==> Apply(g, a).loopOf == g.loopOf)
  {
    hide TakeOne, Posted, Cancelling, Submitting, ListAt;
    match a
    case Enter(i, wakes) => TakeKeeps(g, i, wakes);
    case WakeUp(i, wakes) => TakeKeeps(g.(idle := g.idle - 1), i, wakes);
    case Submit(l, w, wakes) => SubmitKeeps(g, l, w, wakes);
    case PostExit(wakes) => PostKeeps(g, ExitMessage, wakes);
    case CancelTry(l, w) => CancelKeeps(g, l, w);
    case _ =>
  }

  // A step other than a submission takes up no request that was done.
  lemma LivesOn(g: Pool, a: Action, w: nat)
    requires Inv(g) && Enabled(g, a) && !a.Submit? && PhaseAt(Apply(g, a), w) != Free
    ensures PhaseAt(g, w) != Free
  {
    hide TakeOne, Posted, Cancelling, Submitting, ListAt, Heads, Entries, Requests, Threads, Lives, Awake;
    match a
    case Enter(i, wakes) =>
      TakeKeeps(g, i, wakes);
      FirstPooled(g);
    case WakeUp(i, wakes) =>
      TakeKeeps(g.(idle := g.idle - 1), i, wakes);
      SameLists(g, g.(idle := g.idle - 1));
      FirstPooled(g);
    case PostExit(wakes) => PostKeeps(g, ExitMessage, wakes);
    case CancelTry(l, v) => CancelKeeps(g, l, v);
    case Execute(i) => WorkersPhase(g, i);
    case Finish(i) => FinishesOne(g, i);
    case CancelInsert(l) => InsertsOne(g, l);
    case _ =>
  }

  lemma FirstPooled(g: Pool)
    requires Inv(g)
    ensures var s := ListAt(g, PoolHead);
            s != [] && s[0].Work? ==> PhaseAt(g, s[0].w) == Pooled
  {
    hide Heads, Requests, Threads, Lives, Awake;
    assert ListAt(g, PoolHead) != [] ==> PoolEntry(g, ListAt(g, PoolHead)[0]);
  }

  lemma WorkersPhase(g: Pool, i: nat)
    requires Inv(g) && i < |g.workers| && g.workers[i].Holding?
    ensures PhaseAt(g, g.workers[i].w) == Held(i)
  {
    assert WorkerOk(g, i);
  }

  lemma FinishesOne(g: Pool, i: nat)
    requires Inv(g) && i < |g.workers| && g.workers[i].Ran?
    ensures PhaseAt(g, g.workers[i].w) == HasRun(i)
  {
    assert WorkerOk(g, i);
  }

  lemma InsertsOne(g: Pool, l: nat)
    requires Inv(g) && CancelAt(g, l).Marked?
    ensures PhaseAt(g, CancelAt(g, l).w) == Dropping(l)
  {
    assert CancelOk(g, l);
  }

  lemma SameLists(g: Pool, g': Pool)
    requires g'.lists == g.lists
    ensures forall h :: ListAt(g', h) == ListAt(g, h)
  {
  }

  // Only a submission gives a request a loop, or begins its life.
  lemma OnlySubmit(g: Pool, a: Action, w: nat)
    requires Inv(g) && Enabled(g, a) && !Submits(a, w)
    ensures LoopAt(Apply(g, a), w) == LoopAt(g, w) && (PhaseAt(Apply(g, a), w) != Free ==> PhaseAt(g, w) != Free)
  {
    hide Inv, Enabled;
    if a.Submit? {
      hide Submitting;
      SubmitKeeps(g, a.l, a.w, a.wakes);
    } else {
      hide Apply;
      LoopsStay(g, a);
      if PhaseAt(Apply(g, a), w) != Free { LivesOn(g, a, w); }
    }
  }

  lemma SubmitHome(g: Pool, a: Action)
    requires a.Submit? && Enabled(g, a)
    ensures LoopAt(Apply(g, a), a.w) == a.l
  {
  }

  lemma HomesStep(g: Pool, hist: seq<Action>, a: Action)
    requires Inv(g) && Enabled(g, a) && Homes(g, hist)
    ensures Homes(Apply(g, a), hist + [a])
  {
    hide Inv, Enabled, Apply, SubmittedOn;
    var g' := Apply(g, a);
    forall w | PhaseAt(g', w) != Free
      ensures SubmittedOn(hist + [a], w, LoopAt(g', w))
    {
      if Submits(a, w) {
        SubmitHome(g, a);
        SubmittedNow(hist, a);
      } else {
        OnlySubmit(g, a, w);
        SubmittedStill(hist, a, w, LoopAt(g, w));
      }
    }
  }

  lemma {:induction false} RunHomes(g: Pool, hist: seq<Action>, actions: seq<Action>)
    requires Inv(g) && Runs(g, actions) && Homes(g, hist)
    ensures Homes(After(g, actions), hist + actions)
    decreases |actions|
  {
    hide Inv, Enabled, Homes;
    if actions == [] {
      assert hist + actions == hist;
    } else {
      var a := actions[0];
      HomesStep(g, hist, a);
      StepInv(g, a);
      RunHomes(Apply(g, a), hist + [a], actions[1..]);
      assert hist + [a] + actions[1..] == hist + actions;
    }
  }

  lemma StartHomes(n: nat, loops: set<nat>, actions: seq<Action>)
    requires Runs(Start(n, loops), actions)
    ensures var g := After(Start(n, loops), actions);
            Inv(g) && Homes(g, actions)
  {
    hide Inv;
    var g := Start(n, loops);
    StartInv(n, loops);
    RunInv(g, actions);
    assert Homes(g, []);
    RunHomes(g, [], actions);
    assert [] + actions == actions;
  }

  /** A loop calls done for the requests that were submitted on it, and for no others. */
  lemma DoneOnItsLoop(n: nat, loops: set<nat>, actions: seq<Action>, l: nat, w: nat, c: bool)
    requires Runs(Start(n, loops), actions)
    requires var g := After(Start(n, loops), actions);
             Enabled(g, CallDone(l)) && Apply(g, CallDone(l)).log == g.log + [Done(w, c)]
    ensures SubmittedOn(actions, w, l)
  {
    hide Inv, Enabled, Apply, SubmittedOn;
    StartHomes(n, loops, actions);
    CalledHere(After(Start(n, loops), actions), l, w, c);
  }

  // The request that a loop calls done for
  lemma CalledHere(g: Pool, l: nat, w: nat, c: bool)
    requires Inv(g) && Enabled(g, CallDone(l)) && Apply(g, CallDone(l)).log == g.log + [Done(w, c)]
    ensures ListAt(g, LocalHead(l)) != [] && ListAt(g, LocalHead(l))[0] == Work(w)
    ensures PhaseAt(g, w) == Local(l) && LoopAt(g, w) == l
  {
    hide Lives, Awake, Heads, Threads;
    var x := ListAt(g, LocalHead(l))[0];
    assert (g.log + [Done(w, c)])[|g.log|] == Done(w, c);
    assert x in ListAt(g, LocalHead(l));
    assert RequestOk(g, w);
  }

  /** A request that was submitted on a loop and is not done can be cancelled there, if the loop is not busy with
      another cancellation. */
  lemma CancelOnItsLoop(n: nat, loops: set<nat>, actions: seq<Action>, l: nat, w: nat)
    requires Runs(Start(n, loops), actions) && SubmittedOn(actions, w, l)
    requires var log := After(Start(n, loops), actions).log;
             Count(log, w, false) < Count(log, w, true)
    requires CancelAt(After(Start(n, loops), actions), l).NotCancelling?
    ensures Enabled(After(Start(n, loops), actions), CancelTry(l, w))
  {
    hide Awake, Heads, Threads, Entries;
    StartHomes(n, loops, actions);
    var g := After(Start(n, loops), actions);
    assert RequestOk(g, w);
    assert LifeOf(g.log, w) == LifeAt(PhaseAt(g, w), FnAt(g, w));
    DoneCount(g.log, w);
    OneHome(actions, w, l, LoopAt(g, w));
  }

  /** A request that is done, or was never submitted, can be submitted on every loop that does not cancel. */
  lemma SubmitOnAnyLoop(n: nat, loops: set<nat>, actions: seq<Action>, l: nat, w: nat)
    requires Runs(Start(n, loops), actions) && l in loops
    requires var log := After(Start(n, loops), actions).log;
             Count(log, w, false) == Count(log, w, true)
    requires CancelAt(After(Start(n, loops), actions), l).NotCancelling?
    ensures var g := After(Start(n, loops), actions);
            Enabled(g, Submit(l, w, Sleepers(g.workers)))
  {
    hide Awake, Heads, Threads, Entries, Homes;
    StartHomes(n, loops, actions);
    var g := After(Start(n, loops), actions);
    assert LifeOf(g.log, w) == LifeAt(PhaseAt(g, w), FnAt(g, w));
    DoneCount(g.log, w);
    SleepersOk(g.workers);
    SameLoops(Start(n, loops), actions);
  }

  lemma {:induction false} SameLoops(g: Pool, actions: seq<Action>)
    requires Runs(g, actions)
    ensures After(g, actions).loops == g.loops
    decreases |actions|
  {
    hide Enabled;
    if actions != [] {
      LoopsStay(g, actions[0]);
      hide Apply;
      SameLoops(Apply(g, actions[0]), actions[1..]);
    }
  }

  lemma OneHome(actions: seq<Action>, w: nat, l: nat, l': nat)
    requires SubmittedOn(actions, w, l) && SubmittedOn(actions, w, l')
    ensures l == l'
  {
    var j :| 0 <= j < |actions| && Submits(actions[j], w) && actions[j].l == l
             && forall i :: j < i < |actions| ==> !Submits(actions[i], w);
    var j' :| 0 <= j' < |actions| && Submits(actions[j'], w) && actions[j'].l == l'
              && forall i :: j' < i < |actions| ==> !Submits(actions[i], w);
    assert j == j';
  }

  // ---- first in, first out -----------------------------------------------------------------------------------------

  // What a step may do to a queue: nothing, take the first entry, add one at the end, or remove one.
  ghost predicate QueueMoves(q: seq<Node>, q': seq<Node>) {
    || q' == q || (q != [] && q' == q[1..]) || (exists x :: x !in q && q' == q + [x])
    || (exists x :: x in q && q' == Without(q, x))
  }

  // x is in the queue, and y is not, or only behind x.
  ghost predicate Ahead(q: seq<Node>, x: Node, y: Node) {
    x in q && forall i, j :: 0 <= i < |q| && 0 <= j < |q| && q[i] == x && q[j] == y ==> i < j
  }

  lemma TailAhead(q: seq<Node>, x: Node, y: Node)
    requires q != [] && Ahead(q, x, y) && x in q[1..]
    ensures Ahead(q[1..], x, y)
  {
    var q' := q[1..];
    forall i, j | 0 <= i < |q'| && 0 <= j < |q'| && q'[i] == x && q'[j] == y
      ensures i < j
    {
      assert q[i + 1] == x && q[j + 1] == y;
    }
  }

  lemma SnocAhead(q: seq<Node>, z: Node, x: Node, y: Node)
    requires Ahead(q, x, y) && z !in q
    ensures Ahead(q + [z], x, y)
  {
    var q' := q + [z];
    forall i, j | 0 <= i < |q'| && 0 <= j < |q'| && q'[i] == x && q'[j] == y
      ensures i < j
    {
      if j == |q| {
        assert q'[|q|] == z && z != x;
      }
    }
  }

  // Where an entry was before the one at k went
  function Back(k: nat, i: nat): nat {
    if i < k then i else i + 1
  }

  lemma WithoutAt(q: seq<Node>, z: Node, i: nat)
    requires z in q && i < |Without(q, z)|
    ensures |Without(q, z)| + 1 == |q| && Without(q, z)[i] == q[Back(IndexOf(q, z), i)]
  {
    hide IndexOf;
    var k := IndexOf(q, z);
    assert |q[..k]| == k;
  }

  lemma WithoutAhead(q: seq<Node>, z: Node, x: Node, y: Node)
    requires Ahead(q, x, y) && z in q && x in Without(q, z)
    ensures Ahead(Without(q, z), x, y)
  {
    var q' := Without(q, z);
    hide Without, IndexOf;
    forall i, j | 0 <= i < |q'| && 0 <= j < |q'| && q'[i] == x && q'[j] == y
      ensures i < j
    {
      WithoutAt(q, z, i);
      WithoutAt(q, z, j);
    }
  }

  lemma StaysAhead(q: seq<Node>, q': seq<Node>, x: Node, y: Node)
    requires QueueMoves(q, q') && Ahead(q, x, y) && x in q'
    ensures Ahead(q', x, y)
  {
    hide Ahead, Without;
    if q != [] && q' == q[1..] {
      TailAhead(q, x, y);
    } else if z :| z !in q && q' == q + [z] {
      SnocAhead(q, z, x, y);
    } else if z :| z in q && q' == Without(q, z) {
      WithoutAhead(q, z, x, y);
    }
  }

  // ---- the queue of the pool ---------------------------------------------------------------------------------------

  // What the steps of the workers and of the program do to the queue of the pool
  lemma PoolTaken(g: Pool, i: nat, wakes: set<nat>)
    requires i < |g.workers|
    ensures var (q, q') := (ListAt(g, PoolHead), ListAt(TakeOne(g, i, wakes), PoolHead));
            q' == q || (q != [] && q' == q[1..])
  {
    hide Signalled;
  }

  lemma PoolPosted(g: Pool, x: Node, wakes: set<nat>)
    requires x != PoolHead
    ensures ListAt(Posted(g, x, wakes), PoolHead) == ListAt(g, PoolHead) + [x]
  {
    hide Signalled;
  }

  lemma PoolCancelled(g: Pool, l: nat, w: nat)
    ensures var (q, q') := (ListAt(g, PoolHead), ListAt(Cancelling(g, l, w), PoolHead));
            q' == q || (Work(w) in q && q' == Without(q, Work(w)))
  {
  }

  lemma PoolOther(g: Pool, a: Action)
    requires Enabled(g, a) && (a.Spurious? || a.Execute? || a.Finish? || a.CancelMark? || a.CancelInsert? || a.Drain?
      || a.CallDone?)
    ensures ListAt(Apply(g, a), PoolHead) == ListAt(g, PoolHead)
  {
  }

  lemma NotPooled(g: Pool, a: Action)
    requires Entries(g) && Enabled(g, a)
    ensures a.Submit? ==> Work(a.w) !in ListAt(g, PoolHead)
    ensures a.PostExit? ==> ExitMessage !in ListAt(g, PoolHead)
  {
    if a.Submit? { assert Work(a.w) in ListAt(g, PoolHead) ==> PoolEntry(g, Work(a.w)); }
    assert ExitMessage in ListAt(g, PoolHead) ==> PoolEntry(g, ExitMessage);
  }

  lemma PoolMoves(g: Pool, a: Action)
    requires Inv(g) && Enabled(g, a)
    ensures QueueMoves(ListAt(g, PoolHead), ListAt(Apply(g, a), PoolHead))
  {
    hide ListAt, TakeOne, Posted, Cancelling, Heads, Requests, Threads, Lives, Awake, Entries;
    NotPooled(g, a);
    match a
    case Enter(i, wakes) => PoolTaken(g, i, wakes);
    case WakeUp(i, wakes) => SameLists(g, g.(idle := g.idle - 1)); PoolTaken(g.(idle := g.idle - 1), i, wakes);
    case Submit(l, w, wakes) => SubmitPosts(g, l, w, wakes);
    case PostExit(wakes) =>
      PoolPosted(g, ExitMessage, wakes);
      SameLists(Posted(g, ExitMessage, wakes), Apply(g, a));
    case CancelTry(l, w) => PoolCancelled(g, l, w);
    case _ => PoolOther(g, a);
  }

  lemma SubmitPosts(g: Pool, l: nat, w: nat, wakes: set<nat>)
    ensures ListAt(Submitting(g, l, w, wakes), PoolHead) == ListAt(g, PoolHead) + [Work(w)]
  {
    hide Signalled;
  }

  // ---- the requests of a loop --------------------------------------------------------------------------------------

  // The requests that wait for their loop to call done
  function DoneQueue(g: Pool, l: nat): seq<Node> {
    ListAt(g, LocalHead(l)) + ListAt(g, LoopHead(l))
  }

  lemma DoneTaken(g: Pool, i: nat, wakes: set<nat>, l: nat)
    requires i < |g.workers|
    ensures DoneQueue(TakeOne(g, i, wakes), l) == DoneQueue(g, l)
  {
    hide Signalled, DoneQueue;
    OtherLists(g, TakeOne(g, i, wakes), l);
  }

  lemma OtherLists(g: Pool, g': Pool, l: nat)
    requires forall h: Node :: h.LoopHead? || h.LocalHead? ==> ListAt(g', h) == ListAt(g, h)
    ensures DoneQueue(g', l) == DoneQueue(g, l)
  {
  }

  lemma DonePosted(g: Pool, x: Node, wakes: set<nat>, l: nat)
    requires x.Work? || x == ExitMessage
    ensures DoneQueue(Posted(g, x, wakes), l) == DoneQueue(g, l)
  {
    hide Signalled;
  }

  lemma DoneFinished(g: Pool, i: nat, l: nat)
    requires i < |g.workers| && g.workers[i].Ran?
    ensures var (q, q') := (DoneQueue(g, l), DoneQueue(Finishing(g, i), l));
            q' == q || q' == q + [Work(g.workers[i].w)]
  {
  }

  lemma DoneInserted(g: Pool, l0: nat, l: nat)
    requires CancelAt(g, l0).Marked?
    ensures var (q, q') := (DoneQueue(g, l), DoneQueue(Inserting(g, l0), l));
            q' == q || q' == q + [Work(CancelAt(g, l0).w)]
  {
  }

  lemma DoneDrained(g: Pool, l0: nat, l: nat)
    requires ListAt(g, LocalHead(l0)) == []
    ensures DoneQueue(Draining(g, l0), l) == DoneQueue(g, l)
  {
  }

  lemma DoneCalled(g: Pool, l0: nat, l: nat)
    requires ListAt(g, LocalHead(l0)) != [] && ListAt(g, LocalHead(l0))[0].Work?
    ensures var (q, q') := (DoneQueue(g, l), DoneQueue(Calling(g, l0), l));
            q' == q || (q != [] && q' == q[1..])
  {
  }

  lemma {:induction false} IndexBoth(a: seq<Node>, b: seq<Node>, x: Node)
    requires x in a + b
    ensures IndexOf(a + b, x) == if x in a then IndexOf(a, x) else |a| + IndexOf(b, x)
  {
    if a == [] {
      assert a + b == b;
    } else {
      assert (a + b)[1..] == a[1..] + b;
      if a[0] != x { IndexBoth(a[1..], b, x); }
    }
  }

  lemma CutBoth(a: seq<Node>, b: seq<Node>, k: nat)
    requires k < |a + b|
    ensures (a + b)[..k] + (a + b)[k + 1..] ==
            if k < |a| then a[..k] + a[k + 1..] + b else a + (b[..k - |a|] + b[k - |a| + 1..])
  {
  }

  lemma WithoutBoth(a: seq<Node>, b: seq<Node>, x: Node)
    ensures Without(a + b, x) == if x in a then Without(a, x) + b else a + Without(b, x)
  {
    hide IndexOf;
    if x in a + b {
      IndexBoth(a, b, x);
      CutBoth(a, b, IndexOf(a + b, x));
    }
  }

  lemma DoneCancelled(g: Pool, l0: nat, w: nat, l: nat)
    requires Entries(g) && Requests(g)
    ensures var (q, q') := (DoneQueue(g, l), DoneQueue(Cancelling(g, l0, w), l));
            q' == q || (Work(w) in q && q' == Without(q, Work(w)))
  {
    hide Without;
    assert RequestOk(g, w);
    WithoutBoth(ListAt(g, LocalHead(l)), ListAt(g, LoopHead(l)), Work(w));
    assert l in g.loops && Work(w) in ListAt(g, LocalHead(l)) ==> PhaseAt(g, w) == Local(l);
  }

  lemma NotListed(g: Pool, w: nat, l: nat)
    requires Entries(g) && Heads(g) && !PhaseAt(g, w).Listed? && !PhaseAt(g, w).Local?
    ensures Work(w) !in DoneQueue(g, l)
  {
  }

  lemma SameDone(g: Pool, g': Pool, l: nat)
    requires g'.lists == g.lists
    ensures DoneQueue(g', l) == DoneQueue(g, l)
  {
  }

  lemma DoneMoves(g: Pool, a: Action, l: nat)
    requires Inv(g) && Enabled(g, a)
    ensures QueueMoves(DoneQueue(g, l), DoneQueue(Apply(g, a), l))
  {
    hide DoneQueue, TakeOne, Posted, Finishing, Inserting, Draining, Calling, Cancelling, Heads, Requests, Lives, Awake,
      Entries, Threads;
    match a
    case Enter(i, wakes) => DoneTaken(g, i, wakes, l);
    case WakeUp(i, wakes) =>
      SameDone(g, g.(idle := g.idle - 1), l);
      DoneTaken(g.(idle := g.idle - 1), i, wakes, l);
    case Submit(l', w, wakes) => DoneSubmitted(g, l', w, wakes, l);
    case PostExit(wakes) =>
      DonePosted(g, ExitMessage, wakes, l);
      SameDone(Posted(g, ExitMessage, wakes), Apply(g, a), l);
    case CancelTry(l', w) => DoneCancelled(g, l', w, l);
    case Finish(i) =>
      FinishesOne(g, i);
      DoneFinished(g, i, l);
      NotListed(g, g.workers[i].w, l);
    case CancelInsert(l') =>
      InsertsOne(g, l');
      DoneInserted(g, l', l);
      NotListed(g, CancelAt(g, l').w, l);
    case Drain(l') => DoneDrained(g, l', l);
    case CallDone(l') => DoneCalled(g, l', l);
    case _ => SameDone(g, Apply(g, a), l);
  }

  lemma DoneSubmitted(g: Pool, l0: nat, w: nat, wakes: set<nat>, l: nat)
    ensures DoneQueue(Submitting(g, l0, w, wakes), l) == DoneQueue(g, l)
  {
    hide Signalled;
  }

  // ---- runs ------------------------------------------------------------------------------------------------------

  lemma {:induction false} PoolOrder(g: Pool, actions: seq<Action>, x: Node, y: Node)
    requires Inv(g) && Runs(g, actions) && Ahead(ListAt(g, PoolHead), x, y)
    requires forall m :: 0 <= m <= |actions| && Runs(g, actions[..m]) ==> x in ListAt(After(g, actions[..m]), PoolHead)
    ensures Ahead(ListAt(After(g, actions), PoolHead), x, y)
    decreases |actions|
  {
    hide Inv, Enabled, Apply, QueueMoves, Ahead, ListAt;
    if actions != [] {
      var a := actions[0];
      var g' := Apply(g, a);
      PoolMoves(g, a);
      StepInv(g, a);
      FirstOf(g, actions);
      StaysAhead(ListAt(g, PoolHead), ListAt(g', PoolHead), x, y);
      forall m | 0 <= m <= |actions[1..]| && Runs(g', actions[1..][..m])
        ensures x in ListAt(After(g', actions[1..][..m]), PoolHead)
      {
        RestOf(g, actions, m);
      }
      PoolOrder(g', actions[1..], x, y);
    }
  }

  // Prefixes of a run
  lemma FirstOf(g: Pool, actions: seq<Action>)
    requires actions != [] && Enabled(g, actions[0])
    ensures Runs(g, actions[..1]) && After(g, actions[..1]) == Apply(g, actions[0])
  {
    hide Enabled, Apply;
    assert actions[..1] == [actions[0]];
    assert [actions[0]][1..] == [];
  }

  lemma RestOf(g: Pool, actions: seq<Action>, m: nat)
    requires actions != [] && Enabled(g, actions[0]) && m < |actions|
      && Runs(Apply(g, actions[0]), actions[1..][..m])
    ensures Runs(g, actions[..m + 1])
      && After(g, actions[..m + 1]) == After(Apply(g, actions[0]), actions[1..][..m])
  {
    hide Enabled, Apply;
    assert actions[..m + 1][1..] == actions[1..][..m];
  }

  lemma {:induction false} DoneOrder(g: Pool, actions: seq<Action>, l: nat, x: Node, y: Node)
    requires Inv(g) && Runs(g, actions) && Ahead(DoneQueue(g, l), x, y)
    requires forall m :: 0 <= m <= |actions| && Runs(g, actions[..m]) ==> x in DoneQueue(After(g, actions[..m]), l)
    ensures Ahead(DoneQueue(After(g, actions), l), x, y)
    decreases |actions|
  {
    hide Inv, Enabled, Apply, QueueMoves, Ahead, DoneQueue;
    if actions != [] {
      var a := actions[0];
      var g' := Apply(g, a);
      DoneMoves(g, a, l);
      StepInv(g, a);
      FirstOf(g, actions);
      StaysAhead(DoneQueue(g, l), DoneQueue(g', l), x, y);
      forall m | 0 <= m <= |actions[1..]| && Runs(g', actions[1..][..m])
        ensures x in DoneQueue(After(g', actions[1..][..m]), l)
      {
        RestOf(g, actions, m);
      }
      DoneOrder(g', actions[1..], l, x, y);
    }
  }

  // The request that a worker takes
  lemma TakesFirst(g: Pool, a: Action, w: nat)
    requires Enabled(g, a) && Apply(g, a).log == g.log + [Taken(w)]
    ensures ListAt(g, PoolHead) != [] && ListAt(g, PoolHead)[0] == Work(w)
  {
    hide ListAt, TakeOne, Signalled;
    assert (g.log + [Taken(w)])[|g.log|] == Taken(w);
    match a
    case Enter(i, wakes) => TakenLog(g, i, wakes);
    case WakeUp(i, wakes) =>
      SameLists(g, g.(idle := g.idle - 1));
      TakenLog(g.(idle := g.idle - 1), i, wakes);
    case _ =>
  }

  lemma TakenLog(g: Pool, i: nat, wakes: set<nat>)
    requires i < |g.workers|
    ensures var (s, log) := (ListAt(g, PoolHead), TakeOne(g, i, wakes).log);
            if s != [] && s[0].Work? then log == g.log + [Taken(s[0].w)] else log == g.log
  {
    hide Signalled, ListAt, TakeOne;
    var s := ListAt(g, PoolHead);
    if s == [] { TakenNothing(g, i, wakes); }
    else if s[0].Work? { TakenWork(g, i, wakes); }
    else { TakenExit(g, i, wakes); }
  }

  lemma TakenNothing(g: Pool, i: nat, wakes: set<nat>)
    requires i < |g.workers| && ListAt(g, PoolHead) == []
    ensures TakeOne(g, i, wakes).log == g.log
  {
  }

  lemma TakenWork(g: Pool, i: nat, wakes: set<nat>)
    requires i < |g.workers| && ListAt(g, PoolHead) != [] && ListAt(g, PoolHead)[0].Work?
    ensures TakeOne(g, i, wakes).log == g.log + [Taken(ListAt(g, PoolHead)[0].w)]
  {
    hide ListAt;
  }

  lemma TakenExit(g: Pool, i: nat, wakes: set<nat>)
    requires i < |g.workers| && ListAt(g, PoolHead) != [] && !ListAt(g, PoolHead)[0].Work?
    ensures TakeOne(g, i, wakes).log == g.log
  {
    hide ListAt, Signalled;
  }

  // A request waits for a worker exactly when it was submitted and since then neither taken nor cancelled.
  lemma QueuedIs(g: Pool, w: nat)
    requires Inv(g)
    ensures Work(w) in ListAt(g, PoolHead) <==> LifeOf(g.log, w) == Queued
  {
    hide Heads, Threads, Awake;
    assert RequestOk(g, w);
    assert LifeOf(g.log, w) == LifeAt(PhaseAt(g, w), FnAt(g, w));
    assert Work(w) in ListAt(g, PoolHead) ==> PoolEntry(g, Work(w));
  }

  /** Requests are taken in the order of their submission: when v waited before w was submitted and w is taken, then v
      has been taken or cancelled before. */
  lemma TakenInOrder(g: Pool, actions: seq<Action>, a: Action, v: nat, w: nat) returns (m: nat)
    requires Inv(g) && Runs(g, actions) && LifeOf(g.log, v) == Queued && LifeOf(g.log, w) != Queued
    requires var g' := After(g, actions);
             Enabled(g', a) && Apply(g', a).log == g'.log + [Taken(w)]
    ensures m <= |actions| && Runs(g, actions[..m]) && LifeOf(After(g, actions[..m]).log, v) != Queued
  {
    hide Inv, Enabled, Apply, ListAt, LifeOf;
    QueuedIs(g, v);
    QueuedIs(g, w);
    var x, y := Work(v), Work(w);
    if k: nat :| k <= |actions| && Runs(g, actions[..k]) && x !in ListAt(After(g, actions[..k]), PoolHead) {
      m := k;
      RunInv(g, actions[..k]);
      QueuedIs(After(g, actions[..k]), v);
    } else {
      PoolOrder(g, actions, x, y);
      TakesFirst(After(g, actions), a, w);
      assert false;
    }
  }

  /** A loop calls done in the order in which the requests came to it: when v waited there before w came and done is
      called for w, then done was called for v before, or v was taken out by a cancellation. */
  lemma DoneInOrder(g: Pool, actions: seq<Action>, l: nat, v: nat, w: nat, c: bool) returns (m: nat)
    requires Inv(g) && Runs(g, actions) && Work(v) in DoneQueue(g, l) && Work(w) !in DoneQueue(g, l)
    requires var g' := After(g, actions);
             Enabled(g', CallDone(l)) && Apply(g', CallDone(l)).log == g'.log + [Done(w, c)]
    ensures m <= |actions| && Runs(g, actions[..m]) && Work(v) !in DoneQueue(After(g, actions[..m]), l)
  {
    hide Inv, Enabled, Apply, ListAt, DoneQueue;
    var x, y := Work(v), Work(w);
    if k: nat :| k <= |actions| && Runs(g, actions[..k]) && x !in DoneQueue(After(g, actions[..k]), l) {
      m := k;
    } else {
      DoneOrder(g, actions, l, x, y);
      RunInv(g, actions);
      CalledHere(After(g, actions), l, w, c);
      DoneFront(After(g, actions), l, x, y);
      assert false;
    }
  }

  lemma DoneFront(g: Pool, l: nat, x: Node, y: Node)
    requires ListAt(g, LocalHead(l)) != [] && ListAt(g, LocalHead(l))[0] == y
    ensures !Ahead(DoneQueue(g, l), x, y)
  {
    assert DoneQueue(g, l)[0] == y;
  }
}

/** The thread pool of libuv (threadpool.c) in place: every method is what a thread does between two points
    where another thread can come in, and it is the step of the protocol with the same name. */
module ThreadPools {
  import opened Queues
  import opened PoolModel
  import opened PoolSafety

  function UpTo(n: nat): (r: set<nat>)
    ensures forall l: nat :: l in r <==> l < n
  {
    if n == 0 then {} else UpTo(n - 1) + {n - 1}
  }

  class ThreadPool {
    const queues: Memory
    const loops: set<nat>
    var work: map<nat, Fn>
    var loopOf: map<nat, nat>
    var idle_threads: nat
    var workers: seq<Pc>             // where the threads are
    var cancelling: map<nat, Cancel>
    var pending: set<nat>            // loops that uv_async_send has been called for
    var exiting: bool
    ghost var phase: map<nat, Phase>
    ghost var log: seq<Event>

    ghost function State(): Pool
      reads this, queues
    {
      Pool(queues.lists, work, loopOf, idle_threads, workers, cancelling, pending, exiting, loops, phase, log)
    }

    ghost predicate Valid()
      reads this, queues
    {
      queues.Valid() && Inv(State())
    }

    constructor (nthreads: nat, nloops: nat)
      ensures fresh(queues) && Valid() && loops == UpTo(nloops) && State() == Start(nthreads, loops)
    {
      hide Inv, Rings;
      queues := new Memory();
      loops := UpTo(nloops);
      work, loopOf, idle_threads, workers, cancelling, pending, exiting := map[], map[], 0, seq(nthreads,
        _ => Entering), map[], {}, false;
      phase, log := map[], [];
      new;
      InitQueues(nloops);
      StartInv(nthreads, loops);
    }

    method InitQueues(nloops: nat)
      requires queues.Valid() && queues.lists == map[]
      modifies queues
      ensures queues.Valid() && queues.lists == map h | h in AllHeads(UpTo(nloops)) :: []
    {
      hide Rings;
      queues.Init(PoolHead);
      var i := 0;
      while i < nloops
        invariant 0 <= i <= nloops && queues.Valid()
        invariant forall h :: h in queues.lists <==> h in AllHeads(UpTo(i))
        invariant forall h :: h in queues.lists ==> queues.lists[h] == []
      {
        InitLoop(i);
        i := i + 1;
      }
    }

    method InitLoop(i: nat)
      requires queues.Valid() && (forall h :: h in queues.lists <==> h in AllHeads(UpTo(i)))
        && (forall h :: h in queues.lists ==> queues.lists[h] == [])
      modifies queues
      ensures queues.Valid() && (forall h :: h in queues.lists <==> h in AllHeads(UpTo(i + 1)))
        && (forall h :: h in queues.lists ==> queues.lists[h] == [])
    {
      NewHeads(i);
      hide Rings, AllHeads, UpTo;
      ghost var l := queues.lists;
      queues.Init(LoopHead(i));
      queues.Init(LocalHead(i));
      assert queues.lists.Keys == l.Keys + {LoopHead(i), LocalHead(i)};
    }

    // The heads of one more loop
    lemma NewHeads(i: nat)
      ensures AllHeads(UpTo(i + 1)) == AllHeads(UpTo(i)) + {LoopHead(i), LocalHead(i)}
      ensures LoopHead(i) !in AllHeads(UpTo(i)) && LocalHead(i) !in AllHeads(UpTo(i))
    {
    }

    // ---- workers -------------------------------------------------------------------------------------

    // uv_cond_signal
    method Signal(wakes: set<nat>)
      requires WakesOk(workers, wakes)
      modifies this`workers
      ensures workers == Signalled(old(workers), wakes, |old(workers)|)
    {
      var i := 0;
      while i < |workers|
        invariant 0 <= i <= |workers| == |old(workers)| && workers == Signalled(old(workers), wakes, i)
      {
        if i in wakes { workers := workers[i := Woken]; }
        i := i + 1;
      }
    }

    // A worker that holds the mutex waits, leaves, or takes a request.
    method TakeWork(i: nat, wakes: set<nat>)
      requires queues.Valid() && PoolHead in queues.lists && i < |workers| && workers[i] != Waiting
        && WakesOk(workers, wakes)
      requires forall x :: x in queues.lists[PoolHead] ==> x == ExitMessage || (x.Work? && x !in queues.lists)
      modifies this, queues
      ensures queues.Valid() && State() == TakeOne(old(State()), i, wakes)
    {
      hide Rings, Signalled, WakesOk;
      ghost var g := State();
      var empty := queues.IsEmpty(PoolHead);
      if empty {
        idle_threads := idle_threads + 1;
        workers := workers[i := Waiting];
        return;
      }
      var q := queues.Head(PoolHead);
      assert q in queues.lists[PoolHead];
      if q == ExitMessage {
        ExitWakes(workers, i, wakes);
        workers := workers[i := Exited];
        Signal(wakes);
      } else {
        TakeHead(i, q);
      }
    }

    method TakeHead(i: nat, q: Node)
      requires queues.Valid() && PoolHead in queues.lists && i < |workers| && queues.lists[PoolHead] != []
      requires q == queues.lists[PoolHead][0] && q.Work? && q !in queues.lists
      modifies this`workers, this`phase, this`log, queues
      ensures queues.Valid() && State() == TakeOne(old(State()), i, {})
    {
      hide Rings, Signalled, WakesOk;
      ghost var s := queues.lists[PoolHead];
      assert s[..0] + s[0 + 1..] == s[1..];
      queues.Remove(q, PoolHead, 0);
      queues.Init(q);
      workers := workers[i := Holding(q.w)];
      phase := phase[q.w := Held(i)];
      log := log + [Taken(q.w)];
    }

    // What the queue of the pool contains
    lemma PoolEntries()
      requires Valid()
      ensures PoolHead in queues.lists
      ensures forall x :: x in queues.lists[PoolHead] ==> x == ExitMessage || (x.Work? && x !in queues.lists)
    {
      forall x | x in queues.lists[PoolHead]
        ensures x == ExitMessage || (x.Work? && x !in queues.lists)
      {
        assert PoolEntry(State(), x);
        if x in queues.lists { assert HeadOk(State(), x); }
      }
    }

    // A worker comes to the mutex
    method Enters(i: nat, wakes: set<nat>)
      requires Valid() && Enabled(State(), Enter(i, wakes))
      modifies this, queues
      ensures Valid() && State() == Apply(old(State()), Enter(i, wakes))
    {
      hide Inv, WakesOk;
      StepInv(State(), Enter(i, wakes));
      PoolEntries();
      TakeWork(i, wakes);
    }

    // A woken worker returns from uv_cond_wait.
    method WakesUp(i: nat, wakes: set<nat>)
      requires Valid() && Enabled(State(), WakeUp(i, wakes))
      modifies this, queues
      ensures Valid() && State() == Apply(old(State()), WakeUp(i, wakes))
    {
      hide Inv, WakesOk;
      StepInv(State(), WakeUp(i, wakes));
      PoolEntries();
      idle_threads := idle_threads - 1;
      TakeWork(i, wakes);
    }

    // A worker calls the function of its request.
    method Executes(i: nat) returns (f: Fn)
      requires Valid() && Enabled(State(), Execute(i))
      modifies this
      ensures Valid() && State() == Apply(old(State()), Execute(i)) && f == UserFn
    {
      hide Inv;
      ghost var g := State();
      StepInv(g, Execute(i));
      NoAbort(g, i);
      var w := workers[i].w;
      f := if w in work then work[w] else NoFn;
      workers := workers[i := Ran(w)];
      phase := phase[w := HasRun(i)];
      log := log + [Executed(w)];
    }

    // A worker puts its request into the queue of its loop.
    method Finishes(i: nat)
      requires Valid() && Enabled(State(), Finish(i))
      modifies this, queues
      ensures Valid() && State() == Apply(old(State()), Finish(i))
    {
      hide Inv;
      ghost var g := State();
      StepInv(g, Finish(i));
      var w := workers[i].w;
      RanAt(g, i);
      work := work[w := NoFn];
      var l := if w in loopOf then loopOf[w] else 0;
      queues.InsertTail(LoopHead(l), Work(w));
      pending := pending + {l};
      workers := workers[i := Entering];
      phase := phase[w := Listed(l)];
    }

    // ---- loops ---------------------------------------------------------------------------------------

    // post
    method Post(q: Node, wakes: set<nat>)
      requires queues.Valid() && PoolHead in queues.lists && q != PoolHead && WakesOk(workers, wakes)
        && queues.Unlinked(q)
      modifies this`workers, queues
      ensures queues.Valid() && State() == Posted(old(State()), q, wakes)
    {
      queues.InsertTail(PoolHead, q);
      if idle_threads > 0 { Signal(wakes); }
    }

    // uv__work_submit
    method Submits(l: nat, w: nat, wakes: set<nat>)
      requires Valid() && Enabled(State(), Submit(l, w, wakes))
      modifies this, queues
      ensures Valid() && State() == Apply(old(State()), Submit(l, w, wakes))
    {
      hide Inv, WakesOk, Signalled;
      ghost var g := State();
      StepInv(g, Submit(l, w, wakes));
      FreeUnlinked(g, w);
      loopOf := loopOf[w := l];
      work := work[w := UserFn];
      phase := phase[w := Pooled];
      log := log + [Submitted(w)];
      Post(Work(w), wakes);
    }

    // cleanup, before it waits for the workers
    method PostsExit(wakes: set<nat>)
      requires Valid() && Enabled(State(), PostExit(wakes))
      modifies this, queues
      ensures Valid() && State() == Apply(old(State()), PostExit(wakes))
    {
      hide Inv, WakesOk, Signalled;
      ghost var g := State();
      StepInv(g, PostExit(wakes));
      ExitUnlinked(g);
      Post(ExitMessage, wakes);
      exiting := true;
    }

    // uv__work_cancel while it holds both mutexes
    method TriesCancel(l: nat, w: nat) returns (cancelled: bool)
      requires Valid() && Enabled(State(), CancelTry(l, w))
      modifies this, queues
      ensures Valid() && State() == Apply(old(State()), CancelTry(l, w)) && cancelled == Cancellable(old(State()), w)
    {
      hide Inv, Without, Rings;
      ghost var g := State();
      StepInv(g, CancelTry(l, w));
      Unfinished(g, l, w);
      var empty := queues.IsEmpty(Work(w));
      cancelled := !empty && (if w in work then work[w] else NoFn) != NoFn;
      if cancelled { Unqueues(l, w); } else { log := log + [Busy(w)]; }
    }

    method Unqueues(l: nat, w: nat)
      requires queues.Valid() && Cancellable(State(), w)
      requires HeadOf(PhaseAt(State(), w)) in queues.lists && Work(w) in queues.lists[HeadOf(PhaseAt(State(), w))]
      modifies this`cancelling, this`phase, this`log, queues
      ensures queues.Valid() && State() == Cancelling(old(State()), l, w)
    {
      hide Rings, Without;
      ghost var g := State();
      ghost var h := HeadOf(PhaseAt(g, w));
      IsWithout(ListAt(g, h), Work(w));
      queues.Remove(Work(w), h, IndexOf(ListAt(g, h), Work(w)));
      cancelling := cancelling[l := Removed(w)];
      phase := phase[w := Dropping(l)];
      log := log + [Unqueued(w)];
    }

    // uv__work_cancel: w->work = uv__cancelled
    method MarksCancelled(l: nat)
      requires Valid() && Enabled(State(), CancelMark(l))
      modifies this
      ensures Valid() && State() == Apply(old(State()), CancelMark(l))
    {
      hide Inv;
      StepInv(State(), CancelMark(l));
      var w := cancelling[l].w;
      work := work[w := CancelFn];
      cancelling := cancelling[l := Marked(w)];
    }

    // uv__work_cancel: the request goes to its loop, and 0 is returned.
    method InsertsCancelled(l: nat)
      requires Valid() && Enabled(State(), CancelInsert(l))
      modifies this, queues
      ensures Valid() && State() == Apply(old(State()), CancelInsert(l))
    {
      hide Inv;
      ghost var g := State();
      StepInv(g, CancelInsert(l));
      var w := cancelling[l].w;
      DroppedUnlinked(g, l, w);
      assert g.lists - {Work(w)} == g.lists;
      queues.InsertTail(LoopHead(l), Work(w));
      pending := pending + {l};
      cancelling := cancelling[l := NotCancelling];
      phase := phase[w := Listed(l)];
      log := log + [Cancelled(w)];
    }

    // uv__work_done: takes all that the queue of the loop contains.
    method Drains(l: nat)
      requires Valid() && Enabled(State(), Drain(l))
      modifies this, queues
      ensures Valid() && State() == Apply(old(State()), Drain(l))
    {
      hide Inv;
      ghost var g := State();
      StepInv(g, Drain(l));
      LoopHeads(g, l);
      pending := pending - {l};
      queues.Move(LoopHead(l), LocalHead(l));
      phase := map w | w in phase :: if phase[w] == Listed(l) then Local(l) else phase[w];
    }

    // uv__work_done: calls the done callback of the first request.
    method CallsDone(l: nat) returns (w: nat, ecanceled: bool)
      requires Valid() && Enabled(State(), CallDone(l))
      modifies this, queues
      ensures Valid() && State() == Apply(old(State()), CallDone(l)) && log == old(log) + [Done(w, ecanceled)]
    {
      hide Inv;
      ghost var g := State();
      StepInv(g, CallDone(l));
      LoopHeads(g, l);
      var q := queues.Head(LocalHead(l));
      assert g.lists[LocalHead(l)][..0] + g.lists[LocalHead(l)][0 + 1..] == g.lists[LocalHead(l)][1..];
      queues.Remove(q, LocalHead(l), 0);
      w := q.w;
      ecanceled := (if w in work then work[w] else NoFn) == CancelFn;
      phase := phase[w := Free];
      log := log + [Done(w, ecanceled)];
    }

    // ---- what the queues contain ---------------------------------------------------------------------

    lemma FreeUnlinked(g: Pool, w: nat)
      requires Valid() && g == State() && PhaseAt(g, w) == Free
      ensures PoolHead in queues.lists && queues.Unlinked(Work(w)) && Work(w) !in queues.lists
    {
      InLists(g, w);
      NowhereUnlinked(g, w);
    }

    // A request that is in no queue
    lemma NowhereUnlinked(g: Pool, w: nat)
      requires Valid() && g == State() && Located(g, w) && Work(w) !in g.lists
      requires forall h :: IsQueue(g, h) ==> !IsAt(PhaseAt(g, w), h)
      ensures queues.Unlinked(Work(w))
    {
      forall h | h in queues.lists
        ensures !Has(h, queues.lists[h], Work(w))
      {
        assert HeadOk(g, h);
        if IsQueue(g, h) { assert HasIff(ListAt(g, h), w, IsAt(PhaseAt(g, w), h)); }
      }
    }

    lemma DroppedUnlinked(g: Pool, l: nat, w: nat)
      requires Valid() && g == State() && l in g.loops && CancelAt(g, l) == Marked(w)
      ensures LoopHead(l) in queues.lists && queues.Unlinked(Work(w)) && Work(w) !in queues.lists
    {
      assert CancelOk(g, l);
      InLists(g, w);
      NowhereUnlinked(g, w);
    }

    lemma ExitUnlinked(g: Pool)
      requires Valid() && g == State() && !g.exiting
      ensures PoolHead in queues.lists && queues.Unlinked(ExitMessage) && ExitMessage !in queues.lists
    {
      forall h | h in queues.lists
        ensures !Has(h, queues.lists[h], ExitMessage)
      {
        assert HeadOk(g, h);
        NotExit(g, h);
      }
    }

    lemma RanAt(g: Pool, i: nat)
      requires Valid() && g == State() && i < |g.workers| && g.workers[i].Ran?
      ensures var w := g.workers[i].w;
              Work(w) in g.lists && g.lists[Work(w)] == [] && LoopHead(LoopAt(g, w)) in g.lists
    {
      assert WorkerOk(g, i);
      InLists(g, g.workers[i].w);
    }

    lemma LoopHeads(g: Pool, l: nat)
      requires Valid() && g == State() && l in g.loops
      ensures LoopHead(l) in g.lists && LocalHead(l) in g.lists
    {
    }

    // Where uv__work_cancel finds a request
    lemma Unfinished(g: Pool, l: nat, w: nat)
      requires Valid() && g == State() && Enabled(g, CancelTry(l, w))
      ensures var p := PhaseAt(g, w);
              if p.Held? || p.HasRun? then
                Work(w) in g.lists && g.lists[Work(w)] == []
              else
                (p.Pooled? || p.Listed? || p.Local?) && Work(w) !in g.lists && HeadOf(p) in g.lists
                && Work(w) in g.lists[HeadOf(p)]
    {
      InLists(g, w);
    }
  }

  lemma NotExit(g: Pool, h: Node)
    requires Entries(g) && !g.exiting && h in g.lists && HeadOk(g, h)
    ensures ExitMessage !in g.lists[h] && h != ExitMessage
  {
    var s := ListAt(g, h);
    match h {
      case PoolHead => assert ExitMessage in s ==> PoolEntry(g, ExitMessage);
      case LoopHead(l) => assert forall x :: x in ListAt(g, LoopHead(l)) ==> x.Work?;
      case LocalHead(l) => assert forall x :: x in ListAt(g, LocalHead(l)) ==> x.Work?;
      case _ =>
    }
  }

  lemma IsWithout(s: seq<Node>, x: Node)
    requires x in s
    ensures Without(s, x) == s[..IndexOf(s, x)] + s[IndexOf(s, x) + 1..]
  {
  }
}

/** The protocol of libuv's thread pool */
module PoolModel {
  // The state of threadpool.c between two critical sections, and what every interleaving of its workers and its
  // event loops keeps.

  import opened Basics
  import opened Queues

  // What the field `work` of a request says: done, to be run, or uv__cancelled.
  datatype Fn = NoFn | UserFn | CancelFn

  // Where a worker is
  datatype Pc = Entering | Waiting | Woken | Holding(w: nat) | Ran(w: nat) | Exited

  // Where uv__work_cancel is
  datatype Cancel = NotCancelling | Removed(w: nat) | Marked(w: nat)

  // Where a request is; it follows from the queues, the workers and the loops.
  datatype Phase = Free | Pooled | Held(i: nat) | HasRun(i: nat) | Dropping(l: nat) | Listed(l: nat) | Local(l: nat)

  datatype Event =
    | Submitted(w: nat)
    | Taken(w: nat)
    | Executed(w: nat)
    | Unqueued(w: nat)                // uv__work_cancel has removed the request
    | Cancelled(w: nat)               // it returned 0
    | Busy(w: nat)                    // it returned UV_EBUSY
    | Done(w: nat, ecanceled: bool)   // the done callback and its status

  datatype Pool = Pool(lists: map<Node, seq<Node>>, work: map<nat, Fn>, loopOf: map<nat, nat>, idle: nat,
    workers: seq<Pc>,
                       cancelling: map<nat, Cancel>, pending: set<nat>, exiting: bool, loops: set<nat>,
                       phase: map<nat, Phase>, log: seq<Event>)

  function ListAt(g: Pool, h: Node): seq<Node> {
    if h in g.lists then g.lists[h] else []
  }

  function PhaseAt(g: Pool, w: nat): Phase {
    if w in g.phase then g.phase[w] else Free
  }

  function FnAt(g: Pool, w: nat): Fn {
    if w in g.work then g.work[w] else NoFn
  }

  function LoopAt(g: Pool, w: nat): nat {
    if w in g.loopOf then g.loopOf[w] else 0
  }

  function CancelAt(g: Pool, l: nat): Cancel {
    if l in g.cancelling then g.cancelling[l] else NotCancelling
  }

  // ---- uv_cond_signal --------------------------------------------------------------------------------------

  // The workers `wakes` among the first n are woken.
  function Signalled(ws: seq<Pc>, wakes: set<nat>, n: nat): (r: seq<Pc>)
    requires n <= |ws|
    ensures |r| == |ws|
  {
    if n == 0 then ws
    else
      var r := Signalled(ws, wakes, n - 1);
      if n - 1 in wakes then r[n - 1 := Woken] else r
  }

  // A signal wakes at least one thread that waits, if there is one.
  predicate WakesOk(ws: seq<Pc>, wakes: set<nat>) {
    && (forall i :: i in wakes ==> i < |ws| && ws[i] == Waiting)
    && (At(ws, Waiting) > 0 ==> wakes != {})
  }

  lemma {:induction false} SignalledAt(ws: seq<Pc>, wakes: set<nat>, n: nat)
    requires n <= |ws|
    ensures forall i :: 0 <= i < |ws| ==> Signalled(ws, wakes, n)[i] == if i < n && i in wakes then Woken else ws[i]
  {
    if n > 0 { SignalledAt(ws, wakes, n - 1); }
  }

  lemma UpdateCount(ws: seq<Pc>, i: nat, x: Pc)
    requires i < |ws|
    ensures At(ws, ws[i]) > 0
    ensures forall p :: At(ws[i := x], p) == At(ws, p) - (if ws[i] == p then 1 else 0) + (if x == p then 1 else 0)
  {
    assert multiset(ws[i := x]) == multiset(ws) - multiset{ws[i]} + multiset{x};
  }

  // The number of workers that are at p
  function At(ws: seq<Pc>, p: Pc): nat {
    multiset(ws)[p]
  }

  lemma {:induction false} SignalledCount(ws: seq<Pc>, wakes: set<nat>, n: nat)
    requires n <= |ws| && forall i :: i in wakes ==> i < |ws| && ws[i] == Waiting
    ensures var r := Signalled(ws, wakes, n);
            && At(r, Waiting) + At(r, Woken) == At(ws, Waiting) + At(ws, Woken) && At(r, Exited) == At(ws, Exited)
            && At(r, Woken) >= At(ws, Woken) && ((exists i :: i in wakes && i < n) ==> At(r, Woken) > At(ws, Woken))
  {
    hide At;
    if n > 0 {
      SignalledCount(ws, wakes, n - 1);
      SignalledAt(ws, wakes, n - 1);
      UpdateCount(Signalled(ws, wakes, n - 1), n - 1, Woken);
    }
  }

  // ---- the steps -------------------------------------------------------------------------------------------

  // A worker that has the mutex
  function TakeOne(g: Pool, i: nat, wakes: set<nat>): Pool
    requires i < |g.workers|
  {
    var s := ListAt(g, PoolHead);
    if s == [] then
      g.(idle := g.idle + 1, workers := g.workers[i := Waiting])
    else if s[0].Work? then
      var w := s[0].w;
      g.(lists := g.lists[PoolHead := s[1..]][s[0] := []], workers := g.workers[i := Holding(w)],
         phase := g.phase[w := Held(i)], log := g.log + [Taken(w)])
    else
      g.(workers := Signalled(g.workers[i := Exited], wakes, |g.workers|))
  }

  // post
  function Posted(g: Pool, q: Node, wakes: set<nat>): Pool {
    g.(lists := (g.lists - {q})[PoolHead := ListAt(g, PoolHead) + [q]],
       workers := if g.idle > 0 then Signalled(g.workers, wakes, |g.workers|) else g.workers)
  }

  function IndexOf(s: seq<Node>, x: Node): (k: nat)
    requires x in s
    ensures k < |s| && s[k] == x
  {
    if s[0] == x then 0 else 1 + IndexOf(s[1..], x)
  }

  function Without(s: seq<Node>, x: Node): seq<Node> {
    if x in s then s[..IndexOf(s, x)] + s[IndexOf(s, x) + 1..] else s
  }

  // The queue that a request is in
  function HeadOf(p: Phase): Node
    requires p.Pooled? || p.Listed? || p.Local?
  {
    match p case Pooled => PoolHead case Listed(l) => LoopHead(l) case Local(l) => LocalHead(l)
  }

  // uv__work_cancel succeeds for a request that is in a queue and has not run.
  predicate Cancellable(g: Pool, w: nat) {
    (PhaseAt(g, w).Pooled? || PhaseAt(g, w).Listed? || PhaseAt(g, w).Local?) && FnAt(g, w) != NoFn
  }

  datatype Action =
    | Enter(i: nat, wakes: set<nat>)              // a worker locks the mutex
    | WakeUp(i: nat, wakes: set<nat>)             // a woken worker has the mutex again
    | Spurious(i: nat)                            // a worker wakes up without a signal
    | Execute(i: nat)                             // w->work(w)
    | Finish(i: nat)                              // the worker hands the request to its loop
    | Submit(l: nat, w: nat, wakes: set<nat>)     // uv__work_submit
    | PostExit(wakes: set<nat>)                   // cleanup posts exit_message
    | CancelTry(l: nat, w: nat)                   // uv__work_cancel under both locks
    | CancelMark(l: nat)                          // w->work = uv__cancelled
    | CancelInsert(l: nat)                        // under the loop's lock
    | Drain(l: nat)                               // uv__work_done takes the queue
    | CallDone(l: nat)                            // w->done(w, err)

  // When a step can happen.  A loop does one thing at a time; requests are submitted again only when they are
  // done, and cancelled only before.
  predicate Enabled(g: Pool, a: Action) {
    match a
    case Enter(i, wakes) => i < |g.workers| && g.workers[i] == Entering && WakesOk(g.workers, wakes)
    case WakeUp(i, wakes) => i < |g.workers| && g.workers[i] == Woken && g.idle > 0 && WakesOk(g.workers, wakes)
    case Spurious(i) => i < |g.workers| && g.workers[i] == Waiting
    case Execute(i) => i < |g.workers| && g.workers[i].Holding?
    case Finish(i) => i < |g.workers| && g.workers[i].Ran?
    case Submit(l, w, wakes) =>
      l in g.loops && CancelAt(g, l).NotCancelling? && PhaseAt(g, w) == Free
      && WakesOk(g.workers, wakes)
    case PostExit(wakes) => !g.exiting && WakesOk(g.workers, wakes)
    case CancelTry(l, w) => l in g.loops && CancelAt(g, l).NotCancelling? && PhaseAt(g, w) != Free && LoopAt(g, w) == l
    case CancelMark(l) => l in g.loops && CancelAt(g, l).Removed?
    case CancelInsert(l) => l in g.loops && CancelAt(g, l).Marked?
    case Drain(l) => l in g.loops && CancelAt(g, l).NotCancelling? && l in g.pending && ListAt(g, LocalHead(l)) == []
    case CallDone(l) =>
      l in g.loops && CancelAt(g, l).NotCancelling? && ListAt(g, LocalHead(l)) != []
      && ListAt(g, LocalHead(l))[0].Work?
  }

  function Executing(g: Pool, i: nat): Pool
    requires i < |g.workers| && g.workers[i].Holding?
  {
    var w := g.workers[i].w;
    g.(workers := g.workers[i := Ran(w)], phase := g.phase[w := HasRun(i)], log := g.log + [Executed(w)])
  }

  function Finishing(g: Pool, i: nat): Pool
    requires i < |g.workers| && g.workers[i].Ran?
  {
    var w := g.workers[i].w;
    var l := LoopAt(g, w);
    g.(workers := g.workers[i := Entering], phase := g.phase[w := Listed(l)], work := g.work[w := NoFn],
       lists := (g.lists - {Work(w)})[LoopHead(l) := ListAt(g, LoopHead(l)) + [Work(w)]], pending := g.pending + {l})
  }

  function Submitting(g: Pool, l: nat, w: nat, wakes: set<nat>): Pool {
    Posted(g.(work := g.work[w := UserFn], loopOf := g.loopOf[w := l], phase := g.phase[w := Pooled],
      log := g.log + [Submitted(w)]),
           Work(w), wakes)
  }

  function Cancelling(g: Pool, l: nat, w: nat): Pool {
    if Cancellable(g, w) then
      var h := HeadOf(PhaseAt(g, w));
      g.(lists := g.lists[h := Without(ListAt(g, h), Work(w))], cancelling := g.cancelling[l := Removed(w)],
         phase := g.phase[w := Dropping(l)], log := g.log + [Unqueued(w)])
    else
      g.(log := g.log + [Busy(w)])
  }

  function Marking(g: Pool, l: nat): Pool
    requires CancelAt(g, l).Removed?
  {
    var w := CancelAt(g, l).w;
    g.(work := g.work[w := CancelFn], cancelling := g.cancelling[l := Marked(w)])
  }

  function Inserting(g: Pool, l: nat): Pool
    requires CancelAt(g, l).Marked?
  {
    var w := CancelAt(g, l).w;
    g.(lists := g.lists[LoopHead(l) := ListAt(g, LoopHead(l)) + [Work(w)]], pending := g.pending + {l},
       cancelling := g.cancelling[l := NotCancelling], phase := g.phase[w := Listed(l)], log := g.log + [Cancelled(w)])
  }

  function Draining(g: Pool, l: nat): Pool {
    g.(lists := g.lists[LoopHead(l) := []][LocalHead(l) := ListAt(g, LoopHead(l))], pending := g.pending - {l},
       phase := map w | w in g.phase :: if g.phase[w] == Listed(l) then Local(l) else g.phase[w])
  }

  function Calling(g: Pool, l: nat): Pool
    requires ListAt(g, LocalHead(l)) != [] && ListAt(g, LocalHead(l))[0].Work?
  {
    var s := ListAt(g, LocalHead(l));
    var w := s[0].w;
    g.(lists := g.lists[LocalHead(l) := s[1..]], phase := g.phase[w := Free],
      log := g.log + [Done(w, FnAt(g, w) == CancelFn)])
  }

  function Apply(g: Pool, a: Action): Pool
    requires Enabled(g, a)
  {
    match a
    case Enter(i, wakes) => TakeOne(g, i, wakes)
    case WakeUp(i, wakes) => TakeOne(g.(idle := g.idle - 1), i, wakes)
    case Spurious(i) => g.(workers := g.workers[i := Woken])
    case Execute(i) => Executing(g, i)
    case Finish(i) => Finishing(g, i)
    case Submit(l, w, wakes) => Submitting(g, l, w, wakes)
    case PostExit(wakes) => Posted(g, ExitMessage, wakes).(exiting := true)
    case CancelTry(l, w) => Cancelling(g, l, w)
    case CancelMark(l) => Marking(g, l)
    case CancelInsert(l) => Inserting(g, l)
    case Drain(l) => Draining(g, l)
    case CallDone(l) => Calling(g, l)
  }

  // ---- the life of a request -------------------------------------------------------------------------------

  datatype Life = NotSubmitted | Queued | Started | WasRun | BeingCancelled | WasCancelled | Broken

  /** What may happen to a request, one event after the other.  A request that was taken is never cancelled, one
      that was cancelled never runs, and done is called once for each submission. */
  function NextLife(s: Life, e: Event, w: nat): Life {
    if e.w != w then s
    else
      match (s, e)
      case (NotSubmitted, Submitted(_)) => Queued
      case (Queued, Taken(_)) => Started
      case (Started, Executed(_)) => WasRun
      case (WasRun, Done(_, c)) => if c then Broken else NotSubmitted
      case (Queued, Unqueued(_)) => BeingCancelled
      case (WasCancelled, Unqueued(_)) => BeingCancelled
      case (BeingCancelled, Cancelled(_)) => WasCancelled
      case (WasCancelled, Done(_, c)) => if c then NotSubmitted else Broken
      case (Started, Busy(_)) => Started
      case (WasRun, Busy(_)) => WasRun
      case _ => Broken
  }

  function LifeOf(log: seq<Event>, w: nat): Life {
    if log == [] then NotSubmitted else NextLife(LifeOf(log[..|log| - 1], w), log[|log| - 1], w)
  }

  // Where the state of the pool says that a request is in its life
  function LifeAt(p: Phase, f: Fn): Life {
    match p
    case Free => NotSubmitted
    case Pooled => Queued
    case Held(_) => Started
    case HasRun(_) => WasRun
    case Dropping(_) => BeingCancelled
    case Listed(_) => if f == NoFn then WasRun else WasCancelled
    case Local(_) => if f == NoFn then WasRun else WasCancelled
  }

  // ---- the invariant ---------------------------------------------------------------------------------------

  // The queue heads, and nodes that QUEUE_INIT has been used on
  ghost predicate HeadOk(g: Pool, h: Node) {
    && NoDup(ListAt(g, h))
    && match h
       case PoolHead => true
       case ExitMessage => false
       case LoopHead(l) => l in g.loops
       case LocalHead(l) => l in g.loops
       case Work(w) => ListAt(g, h) == [] && (PhaseAt(g, w).Held? || PhaseAt(g, w).HasRun?)
  }

  ghost predicate Heads(g: Pool) {
    && PoolHead in g.lists && (forall l :: l in g.loops ==> LoopHead(l) in g.lists && LocalHead(l) in g.lists)
    && (forall h :: h in g.lists ==> HeadOk(g, h))
  }

  ghost predicate PoolEntry(g: Pool, x: Node) {
    if x == ExitMessage then g.exiting else x.Work? && PhaseAt(g, x.w) == Pooled
  }

  ghost predicate Entries(g: Pool) {
    && (forall x :: x in ListAt(g, PoolHead) ==> PoolEntry(g, x))
    && (g.exiting ==> ExitMessage in ListAt(g, PoolHead))
    && (forall l, x :: l in g.loops && x in ListAt(g, LoopHead(l)) ==> x.Work? && PhaseAt(g, x.w) == Listed(l))
    && (forall l, x :: l in g.loops && x in ListAt(g, LocalHead(l)) ==> x.Work? && PhaseAt(g, x.w) == Local(l))
  }

  ghost predicate RequestOk(g: Pool, w: nat) {
    && (PhaseAt(g, w) != Free ==> LoopAt(g, w) in g.loops)
    && match PhaseAt(g, w)
       case Free => true
       case Pooled => Work(w) in ListAt(g, PoolHead) && FnAt(g, w) == UserFn
       case Held(i) => i < |g.workers| && g.workers[i] == Holding(w) && Work(w) in g.lists && FnAt(g, w) == UserFn
       case HasRun(i) => i < |g.workers| && g.workers[i] == Ran(w) && Work(w) in g.lists && FnAt(g, w) == UserFn
       case Dropping(l) =>
         LoopAt(g, w) == l
           && ((CancelAt(g, l) == Removed(w) && FnAt(g, w) != NoFn) || (CancelAt(g, l) == Marked(w)
           && FnAt(g, w) == CancelFn))
       case Listed(l) => LoopAt(g, w) == l && Work(w) in ListAt(g, LoopHead(l)) && FnAt(g, w) != UserFn
       case Local(l) => LoopAt(g, w) == l && Work(w) in ListAt(g, LocalHead(l)) && FnAt(g, w) != UserFn
  }

  ghost predicate Requests(g: Pool) {
    forall w :: RequestOk(g, w)
  }

  ghost predicate WorkerOk(g: Pool, i: nat)
    requires i < |g.workers|
  {
    match g.workers[i]
    case Holding(w) => PhaseAt(g, w) == Held(i)
    case Ran(w) => PhaseAt(g, w) == HasRun(i)
    case _ => true
  }

  ghost predicate CancelOk(g: Pool, l: nat) {
    match CancelAt(g, l)
    case NotCancelling => true
    case Removed(w) => PhaseAt(g, w) == Dropping(l)
    case Marked(w) => PhaseAt(g, w) == Dropping(l)
  }

  ghost predicate Threads(g: Pool) {
    && (forall i: nat :: i < |g.workers| ==> WorkerOk(g, i))
    && (forall l :: CancelOk(g, l))
  }

  ghost predicate Lives(g: Pool) {
    forall w :: LifeOf(g.log, w) == LifeAt(PhaseAt(g, w), FnAt(g, w))
  }

  // No wake-up is lost: n workers have been woken for whatever the queue holds.
  ghost predicate AwakeFor(g: Pool, n: int) {
    && g.idle == At(g.workers, Waiting) + At(g.workers, Woken)
    && (At(g.workers, Waiting) > 0 ==> n <= At(g.workers, Woken))
  }

  ghost predicate Awake(g: Pool) {
    && AwakeFor(g, |ListAt(g, PoolHead)|)
    && (forall l :: l in g.loops && ListAt(g, LoopHead(l)) != [] ==> l in g.pending)
    && (At(g.workers, Exited) > 0 ==> ListAt(g, PoolHead) != [] && ListAt(g, PoolHead)[0] == ExitMessage)
  }

  ghost predicate Inv(g: Pool) {
    Heads(g) && Entries(g) && Requests(g) && Threads(g) && Lives(g) && Awake(g)
  }

  // ---- every step keeps it ---------------------------------------------------------------------------------

  lemma LifeSnoc(log: seq<Event>, e: Event, w: nat)
    ensures LifeOf(log + [e], w) == NextLife(LifeOf(log, w), e, w)
  {
    assert (log + [e])[..|log|] == log;
  }

  lemma LivesNext(g: Pool, e: Event, g': Pool)
    requires Lives(g) && g'.log == g.log + [e]
    requires forall w :: w != e.w ==> LifeAt(PhaseAt(g', w), FnAt(g', w)) == LifeAt(PhaseAt(g, w), FnAt(g, w))
    requires LifeAt(PhaseAt(g', e.w), FnAt(g', e.w)) == NextLife(LifeAt(PhaseAt(g, e.w), FnAt(g, e.w)), e, e.w)
    ensures Lives(g')
  {
    forall w
      ensures LifeOf(g'.log, w) == LifeAt(PhaseAt(g', w), FnAt(g', w))
    {
      LifeSnoc(g.log, e, w);
    }
  }

  lemma LivesSame(g: Pool, g': Pool)
    requires Lives(g) && g'.log == g.log
    requires forall w :: LifeAt(PhaseAt(g', w), FnAt(g', w)) == LifeAt(PhaseAt(g, w), FnAt(g, w))
    ensures Lives(g')
  {
  }

  // One request moves; the other entries of the queues stay.
  ghost predicate SameBut(s: seq<Node>, s': seq<Node>, w: nat, there: bool) {
    NoDup(s') && (forall x :: x != Work(w) ==> (x in s' <==> x in s)) && (Work(w) in s' <==> there)
  }

  predicate IsQueue(g: Pool, h: Node) {
    match h case PoolHead => true case LoopHead(l) => l in g.loops case LocalHead(l) => l in g.loops case _ => false
  }

  // The queue with this head has a request that is in this phase.
  predicate IsAt(p: Phase, h: Node) {
    match h
    case PoolHead => p == Pooled
    case LoopHead(l) => p == Listed(l)
    case LocalHead(l) => p == Local(l)
    case _ => false
  }

  ghost predicate QueuesMove(g: Pool, g': Pool, w: nat) {
    forall h :: IsQueue(g, h) ==> SameBut(ListAt(g, h), ListAt(g', h), w, IsAt(PhaseAt(g', w), h))
  }

  ghost predicate HeadsMove(g: Pool, g': Pool, w: nat) {
    && (forall h :: h != Work(w) ==> (h in g'.lists <==> h in g.lists))
    && (forall v :: v != w ==> ListAt(g', Work(v)) == ListAt(g, Work(v)))
    && (Work(w) in g'.lists ==> ListAt(g', Work(w)) == [] && (PhaseAt(g', w).Held? || PhaseAt(g', w).HasRun?))
  }

  predicate NotWith(pc: Pc, w: nat) {
    !(pc.Holding? && pc.w != w) && !(pc.Ran? && pc.w != w)
  }

  ghost predicate ThreadsMove(g: Pool, g': Pool, w: nat) {
    && |g'.workers| == |g.workers|
    && (forall i: nat :: i < |g.workers| ==>
        g'.workers[i] == g.workers[i] || (NotWith(g.workers[i], w) && NotWith(g'.workers[i], w)))
    && (forall l :: CancelAt(g', l) == CancelAt(g, l) || (CancelOf(CancelAt(g, l), w) && CancelOf(CancelAt(g', l), w)))
  }

  predicate CancelOf(c: Cancel, w: nat) {
    c == NotCancelling || c == Removed(w) || c == Marked(w)
  }

  ghost predicate Moves(g: Pool, g': Pool, w: nat) {
    && g'.loops == g.loops && g'.exiting == g.exiting
    && (forall v :: v != w ==>
        PhaseAt(g', v) == PhaseAt(g, v) && FnAt(g', v) == FnAt(g, v) && LoopAt(g', v) == LoopAt(g, v))
    && QueuesMove(g, g', w) && HeadsMove(g, g', w) && ThreadsMove(g, g', w)
  }

  ghost predicate HasIff(s: seq<Node>, w: nat, there: bool) {
    NoDup(s) && (Work(w) in s <==> there)
  }

  // Where the queues have a request
  ghost predicate Located(g: Pool, w: nat) {
    forall h :: IsQueue(g, h) ==> HasIff(ListAt(g, h), w, IsAt(PhaseAt(g, w), h))
  }

  // The queue h changes, and it alone has the request before or after.
  lemma OneQueue(g: Pool, g': Pool, w: nat, q: Node)
    requires Located(g, w) && SameBut(ListAt(g, q), ListAt(g', q), w, IsAt(PhaseAt(g', w), q))
    requires forall h :: IsQueue(g, h) && h != q ==>
        ListAt(g', h) == ListAt(g, h) && !IsAt(PhaseAt(g', w), h) && !IsAt(PhaseAt(g, w), h)
    ensures QueuesMove(g, g', w)
  {
    hide IsAt, ListAt, IsQueue;
    forall h | IsQueue(g, h)
      ensures SameBut(ListAt(g, h), ListAt(g', h), w, IsAt(PhaseAt(g', w), h))
    {
      assert HasIff(ListAt(g, h), w, IsAt(PhaseAt(g, w), h));
    }
  }

  lemma NoQueue(g: Pool, g': Pool, w: nat)
    requires Located(g, w)
    requires forall h :: IsQueue(g, h) ==>
        ListAt(g', h) == ListAt(g, h) && !IsAt(PhaseAt(g', w), h) && !IsAt(PhaseAt(g, w), h)
    ensures QueuesMove(g, g', w)
  {
    hide IsAt, ListAt, IsQueue;
    forall h | IsQueue(g, h)
      ensures SameBut(ListAt(g, h), ListAt(g', h), w, IsAt(PhaseAt(g', w), h))
    {
      assert HasIff(ListAt(g, h), w, IsAt(PhaseAt(g, w), h));
    }
  }

  lemma MovesEntries(g: Pool, g': Pool, w: nat)
    requires Entries(g) && Moves(g, g', w)
    ensures Entries(g')
  {
    MovesPool(g, g', w);
    forall l | l in g.loops
      ensures forall x :: x in ListAt(g', LoopHead(l)) ==> x.Work? && PhaseAt(g', x.w) == Listed(l)
      ensures forall x :: x in ListAt(g', LocalHead(l)) ==> x.Work? && PhaseAt(g', x.w) == Local(l)
    {
      MovesLoop(g, g', w, l);
    }
    hide Moves, ListAt, PhaseAt, QueuesMove, HeadsMove, ThreadsMove;
  }

  lemma MovesPool(g: Pool, g': Pool, w: nat)
    requires Entries(g) && Moves(g, g', w)
    ensures g'.loops == g.loops && (g'.exiting ==> ExitMessage in ListAt(g', PoolHead))
      && forall x :: x in ListAt(g', PoolHead) ==> PoolEntry(g', x)
  {
    assert IsQueue(g, PoolHead);
    assert forall x :: x in ListAt(g', PoolHead) && x != Work(w) ==> PoolEntry(g, x);
  }

  lemma MovesLoop(g: Pool, g': Pool, w: nat, l: nat)
    requires Entries(g) && Moves(g, g', w) && l in g.loops
    ensures forall x :: x in ListAt(g', LoopHead(l)) ==> x.Work? && PhaseAt(g', x.w) == Listed(l)
    ensures forall x :: x in ListAt(g', LocalHead(l)) ==> x.Work? && PhaseAt(g', x.w) == Local(l)
  {
    assert IsQueue(g, LoopHead(l)) && IsQueue(g, LocalHead(l));
  }

  lemma MovesHeads(g: Pool, g': Pool, w: nat)
    requires Heads(g) && Moves(g, g', w)
    ensures Heads(g')
  {
    forall h | h in g'.lists
      ensures HeadOk(g', h)
    {
      if h != Work(w) { assert HeadOk(g, h); }
      if IsQueue(g, h) { assert SameBut(ListAt(g, h), ListAt(g', h), w, IsAt(PhaseAt(g', w), h)); }
    }
  }

  lemma MovesRequests(g: Pool, g': Pool, w: nat)
    requires Requests(g) && Moves(g, g', w) && RequestOk(g', w)
    ensures Requests(g')
  {
    forall v
      ensures RequestOk(g', v)
    {
      assert RequestOk(g, v);
      match PhaseAt(g, v) {
        case Pooled => assert IsQueue(g, PoolHead);
        case Listed(l) => assert IsQueue(g, LoopHead(l));
        case Local(l) => assert IsQueue(g, LocalHead(l));
        case _ =>
      }
    }
  }

  // The worker or the loop that has the request, if any
  ghost predicate OwnerOk(g: Pool, w: nat) {
    && (forall i: nat :: i < |g.workers| && (g.workers[i] == Holding(w) || g.workers[i] == Ran(w)) ==> WorkerOk(g, i))
    && (forall l :: CancelAt(g, l) == Removed(w) || CancelAt(g, l) == Marked(w) ==> CancelOk(g, l))
  }

  lemma MovesThreads(g: Pool, g': Pool, w: nat)
    requires Threads(g) && Moves(g, g', w) && OwnerOk(g', w)
    ensures Threads(g')
  {
    forall i: nat | i < |g'.workers|
      ensures WorkerOk(g', i)
    {
      assert WorkerOk(g, i);
    }
    forall l
      ensures CancelOk(g', l)
    {
      assert CancelOk(g, l);
    }
  }

  lemma SameButSnoc(s: seq<Node>, w: nat)
    requires NoDup(s) && Work(w) !in s
    ensures SameBut(s, s + [Work(w)], w, true)
  {
  }

  lemma SameButWithout(s: seq<Node>, w: nat)
    requires NoDup(s)
    ensures SameBut(s, Without(s, Work(w)), w, false)
  {
    if Work(w) in s {
      var k := IndexOf(s, Work(w));
      RemovedFrom(s, k);
      DistinctWithout(s, k);
    }
  }

  lemma DistinctWithout(s: seq<Node>, k: nat)
    requires NoDup(s) && k < |s|
    ensures NoDup(s[..k] + s[k + 1..])
  {
    var r := s[..k] + s[k + 1..];
    forall i, j | 0 <= i < j < |r|
      ensures r[i] != r[j]
    {
      assert s[if i < k then i else i + 1] != s[if j < k then j else j + 1];
    }
  }

  lemma SameButTail(s: seq<Node>, w: nat)
    requires NoDup(s) && s != [] && s[0] == Work(w)
    ensures SameBut(s, s[1..], w, false)
  {
    RemovedFrom(s, 0);
    DistinctWithout(s, 0);
    assert s[..0] + s[0 + 1..] == s[1..];
  }

  lemma InLists(g: Pool, w: nat)
    requires Heads(g) && Entries(g) && Requests(g)
    ensures Located(g, w) && RequestOk(g, w)
    ensures Work(w) in g.lists ==> ListAt(g, Work(w)) == [] && (PhaseAt(g, w).Held? || PhaseAt(g, w).HasRun?)
    ensures PoolHead in g.lists && forall l :: l in g.loops ==> LoopHead(l) in g.lists && LocalHead(l) in g.lists
  {
    assert RequestOk(g, w);
    if Work(w) in g.lists { assert HeadOk(g, Work(w)); }
    forall h | IsQueue(g, h)
      ensures HasIff(ListAt(g, h), w, IsAt(PhaseAt(g, w), h))
    {
      assert HeadOk(g, h);
      if h == PoolHead && Work(w) in ListAt(g, h) { assert PoolEntry(g, Work(w)); }
    }
  }

  lemma IsDistinct(g: Pool, w: nat, h: Node)
    requires Located(g, w) && IsQueue(g, h)
    ensures NoDup(ListAt(g, h)) && (Work(w) in ListAt(g, h) <==> IsAt(PhaseAt(g, w), h))
  {
    assert HasIff(ListAt(g, h), w, IsAt(PhaseAt(g, w), h));
  }

  lemma OwnerIs(g: Pool, w: nat)
    requires Threads(g)
    ensures OwnerOk(g, w)
  {
  }

  lemma RanPhase(g: Pool, i: nat, w: nat)
    requires OwnerOk(g, w) && RequestOk(g, w) && i < |g.workers| && g.workers[i] == Ran(w)
    ensures PhaseAt(g, w) == HasRun(i) && LoopAt(g, w) in g.loops
  {
    assert WorkerOk(g, i);
  }

  lemma MarkedPhase(g: Pool, l: nat, w: nat)
    requires OwnerOk(g, w) && CancelAt(g, l) == Marked(w)
    ensures PhaseAt(g, w) == Dropping(l)
  {
    assert CancelOk(g, l);
  }

  // No other loop is cancelling the request.
  lemma OtherLoops(g: Pool, g': Pool, l: nat, w: nat)
    requires OwnerOk(g, w) && (forall k :: k != l ==> CancelAt(g', k) == CancelAt(g, k)) && CancelOk(g', l)
    requires forall k :: PhaseAt(g, w) == Dropping(k) ==> k == l
    requires forall i: nat :: i < |g'.workers| && (g'.workers[i] == Holding(w) || g'.workers[i] == Ran(w)) ==>
        WorkerOk(g', i)
    ensures OwnerOk(g', w)
  {
    forall k | CancelAt(g', k) == Removed(w) || CancelAt(g', k) == Marked(w)
      ensures CancelOk(g', k)
    {
      if k != l { assert CancelOk(g, k); }
    }
  }

  // The worker has let the request go.
  lemma SameLoops(g: Pool, g': Pool, w: nat)
    requires OwnerOk(g, w) && g'.cancelling == g.cancelling && !PhaseAt(g, w).Dropping?
    requires forall i: nat :: i < |g'.workers| ==> g'.workers[i] != Holding(w) && g'.workers[i] != Ran(w)
    ensures OwnerOk(g', w)
  {
    forall k
      ensures CancelAt(g', k) != Removed(w) && CancelAt(g', k) != Marked(w)
    {
      assert CancelAt(g', k) == CancelAt(g, k);
      if CancelAt(g, k) == Removed(w) || CancelAt(g, k) == Marked(w) { assert CancelOk(g, k); }
    }
  }

  lemma AtPool(g: Pool, w: nat)
    requires Entries(g) && Work(w) in ListAt(g, PoolHead)
    ensures PhaseAt(g, w) == Pooled
  {
    assert PoolEntry(g, Work(w));
  }

  // Only the queue q and the request w change.
  ghost predicate Changes(g: Pool, g': Pool, w: nat, q: Node) {
    && g'.loops == g.loops && g'.exiting == g.exiting
    && (forall v :: v != w ==>
        PhaseAt(g', v) == PhaseAt(g, v) && FnAt(g', v) == FnAt(g, v) && LoopAt(g', v) == LoopAt(g, v))
    && (forall h :: h != q && h != Work(w) ==> ListAt(g', h) == ListAt(g, h))
    && (forall h :: h != Work(w) ==> (h in g'.lists <==> h in g.lists))
    && (Work(w) in g'.lists ==> ListAt(g', Work(w)) == [] && (PhaseAt(g', w).Held? || PhaseAt(g', w).HasRun?))
    && ThreadsMove(g, g', w)
  }

  // If the request is in a queue then in q.
  predicate OnlyAt(p: Phase, q: Node) {
    match p
    case Pooled => q == PoolHead
    case Listed(l) => q == LoopHead(l)
    case Local(l) => q == LocalHead(l)
    case _ => true
  }

  lemma ChangesMoves(g: Pool, g': Pool, w: nat, q: Node)
    requires Changes(g, g', w, q) && Located(g, w) && IsQueue(g, q) && OnlyAt(PhaseAt(g, w), q)
      && OnlyAt(PhaseAt(g', w), q)
    requires SameBut(ListAt(g, q), ListAt(g', q), w, IsAt(PhaseAt(g', w), q))
    ensures Moves(g, g', w)
  {
    hide ListAt, PhaseAt, FnAt, LoopAt, ThreadsMove, Located, SameBut, QueuesMove;
    OneQueue(g, g', w, q);
  }

  // ---- a worker --------------------------------------------------------------------------------------------

  predicate MayTake(g: Pool, i: nat) {
    i < |g.workers| && (g.workers[i] == Entering || g.workers[i] == Woken)
  }

  lemma TakeMoves(g: Pool, i: nat, wakes: set<nat>)
    requires Heads(g) && Entries(g) && Requests(g) && Threads(g) && MayTake(g, i) && ListAt(g, PoolHead) != []
      && ListAt(g, PoolHead)[0].Work?
    ensures var w := ListAt(g, PoolHead)[0].w;
            var g' := TakeOne(g, i, wakes);
            Moves(g, g', w) && RequestOk(g', w) && OwnerOk(g', w) && PhaseAt(g, w) == Pooled
  {
    hide Heads, Entries, Requests, Threads, NoDup, Located, Changes, Moves, SameBut, RequestOk, OwnerOk;
    var w := ListAt(g, PoolHead)[0].w;
    assert ListAt(g, PoolHead)[0] in ListAt(g, PoolHead);
    AtPool(g, w);
    InLists(g, w);
    OwnerIs(g, w);
    TakeChanges(g, i, wakes);
    IsDistinct(g, w, PoolHead);
    SameButTail(ListAt(g, PoolHead), w);
    ChangesMoves(g, TakeOne(g, i, wakes), w, PoolHead);
  }

  lemma TakeChanges(g: Pool, i: nat, wakes: set<nat>)
    requires MayTake(g, i) && ListAt(g, PoolHead) != [] && ListAt(g, PoolHead)[0].Work?
      && RequestOk(g, ListAt(g, PoolHead)[0].w) && OwnerOk(g, ListAt(g, PoolHead)[0].w)
    requires PhaseAt(g, ListAt(g, PoolHead)[0].w) == Pooled
    ensures var w := ListAt(g, PoolHead)[0].w;
            var g' := TakeOne(g, i, wakes);
            Changes(g, g', w, PoolHead) && RequestOk(g', w) && OwnerOk(g', w) && PhaseAt(g', w) == Held(i)
              && ListAt(g', PoolHead) == ListAt(g, PoolHead)[1..]
  {
    hide TakeOne, Signalled;
    var s := ListAt(g, PoolHead);
    TakenAs(g, i, wakes, s, s[0].w);
  }

  // The state when a worker has taken the request w
  lemma TakenAs(g: Pool, i: nat, wakes: set<nat>, s: seq<Node>, w: nat)
    requires i < |g.workers| && s == ListAt(g, PoolHead) && s != [] && s[0] == Work(w)
    ensures TakeOne(g, i, wakes) ==
            g.(lists := g.lists[PoolHead := s[1..]][Work(w) := []], workers := g.workers[i := Holding(w)],
               phase := g.phase[w := Held(i)], log := g.log + [Taken(w)])
  {
    hide Signalled, ListAt;
  }

  lemma ExecuteMoves(g: Pool, i: nat)
    requires Heads(g) && Entries(g) && Requests(g) && Threads(g) && i < |g.workers| && g.workers[i].Holding?
    ensures var w := g.workers[i].w;
            var g' := Executing(g, i);
            Moves(g, g', w) && RequestOk(g', w) && OwnerOk(g', w) && PhaseAt(g, w) == Held(i)
  {
    hide Heads, Entries, Requests, Threads, NoDup, Located, QueuesMove, Without;
    InLists(g, g.workers[i].w);
    OwnerIs(g, g.workers[i].w);
    NoQueue(g, Executing(g, i), g.workers[i].w);
  }

  lemma FinishMoves(g: Pool, i: nat)
    requires Heads(g) && Entries(g) && Requests(g) && Threads(g) && i < |g.workers| && g.workers[i].Ran?
    ensures var w := g.workers[i].w;
            var g' := Finishing(g, i);
            Moves(g, g', w) && RequestOk(g', w) && OwnerOk(g', w) && PhaseAt(g, w) == HasRun(i)
              && LoopAt(g, w) in g.loops
  {
    hide Heads, Entries, Requests, Threads, NoDup, Located, Changes, Moves, SameBut, RequestOk, OwnerOk;
    var w := g.workers[i].w;
    InLists(g, w);
    OwnerIs(g, w);
    RanPhase(g, i, w);
    FinishChanges(g, i);
    IsDistinct(g, w, LoopHead(LoopAt(g, w)));
    SameButSnoc(ListAt(g, LoopHead(LoopAt(g, w))), w);
    ChangesMoves(g, Finishing(g, i), w, LoopHead(LoopAt(g, w)));
  }

  lemma FinishChanges(g: Pool, i: nat)
    requires i < |g.workers| && g.workers[i].Ran? && RequestOk(g, g.workers[i].w) && OwnerOk(g, g.workers[i].w)
    requires LoopHead(LoopAt(g, g.workers[i].w)) in g.lists
    ensures var w := g.workers[i].w;
            var g' := Finishing(g, i);
            Changes(g, g', w, LoopHead(LoopAt(g, w))) && RequestOk(g', w) && OwnerOk(g', w)
              && PhaseAt(g, w) == HasRun(i) && LoopAt(g, w) in g.loops && PhaseAt(g', w) == Listed(LoopAt(g, w))
            && ListAt(g', LoopHead(LoopAt(g, w))) == ListAt(g, LoopHead(LoopAt(g, w))) + [Work(w)]
  {
    var w := g.workers[i].w;
    RanPhase(g, i, w);
    forall j: nat | j < |g.workers| && j != i
      ensures g.workers[j] != Holding(w) && g.workers[j] != Ran(w)
    {
    }
    SameLoops(g, Finishing(g, i), w);
    hide OwnerOk;
  }

  // ---- a loop ----------------------------------------------------------------------------------------------

  lemma SubmitMoves(g: Pool, l: nat, w0: nat, wakes: set<nat>)
    requires Heads(g) && Entries(g) && Requests(g) && Threads(g) && Enabled(g, Submit(l, w0, wakes))
    ensures var w := w0;
            var g' := Submitting(g, l, w0, wakes);
            Moves(g, g', w) && RequestOk(g', w) && OwnerOk(g', w)
  {
    hide Heads, Entries, Requests, Threads, NoDup, Located, Changes, Moves, SameBut, RequestOk, OwnerOk,
      Signalled, WakesOk;
    var w := w0;
    InLists(g, w);
    OwnerIs(g, w);
    SubmitChanges(g, l, w0, wakes);
    IsDistinct(g, w, PoolHead);
    SameButSnoc(ListAt(g, PoolHead), w);
    ChangesMoves(g, Submitting(g, l, w0, wakes), w, PoolHead);
  }

  lemma SubmitChanges(g: Pool, l: nat, w0: nat, wakes: set<nat>)
    requires Enabled(g, Submit(l, w0, wakes)) && RequestOk(g, w0) && OwnerOk(g, w0)
    requires PoolHead in g.lists && Work(w0) !in g.lists
    ensures var w := w0;
            var g' := Submitting(g, l, w0, wakes);
            Changes(g, g', w, PoolHead) && RequestOk(g', w) && OwnerOk(g', w) && PhaseAt(g', w) == Pooled
              && ListAt(g', PoolHead) == ListAt(g, PoolHead) + [Work(w)]
  {
    hide ThreadsMove, Signalled, WakesOk, RequestOk, OwnerOk;
    SignalThreads(g, Submitting(g, l, w0, wakes), w0, wakes);
    SubmitOk(g, l, w0, wakes);
  }

  lemma SubmitOk(g: Pool, l: nat, w0: nat, wakes: set<nat>)
    requires Enabled(g, Submit(l, w0, wakes)) && OwnerOk(g, w0)
    ensures RequestOk(Submitting(g, l, w0, wakes), w0) && OwnerOk(Submitting(g, l, w0, wakes), w0)
  {
    hide Signalled, WakesOk;
    var g' := Submitting(g, l, w0, wakes);
    SignalThreads(g, g', w0, wakes);
    forall i: nat | i < |g'.workers| && (g'.workers[i] == Holding(w0) || g'.workers[i] == Ran(w0))
      ensures WorkerOk(g', i)
    {
      assert WorkerOk(g, i);
    }
    forall k | CancelAt(g', k) == Removed(w0) || CancelAt(g', k) == Marked(w0)
      ensures CancelOk(g', k)
    {
      assert CancelAt(g, k) == CancelAt(g', k) && CancelOk(g, k);
    }
  }

  lemma SignalThreads(g: Pool, g': Pool, w: nat, wakes: set<nat>)
    requires WakesOk(g.workers, wakes)
      && (g'.workers == g.workers || g'.workers == Signalled(g.workers, wakes, |g.workers|))
      && g'.cancelling == g.cancelling
    ensures ThreadsMove(g, g', w)
    ensures forall i: nat, v :: i < |g.workers| ==>
        (g'.workers[i] == Holding(v) <==> g.workers[i] == Holding(v))
        && (g'.workers[i] == Ran(v) <==> g.workers[i] == Ran(v))
  {
    SignalledAt(g.workers, wakes, |g.workers|);
  }

  lemma CancelMoves(g: Pool, l: nat, w0: nat)
    requires Heads(g) && Entries(g) && Requests(g) && Threads(g) && Enabled(g, CancelTry(l, w0)) && Cancellable(g, w0)
    ensures var w := w0;
            var g' := Cancelling(g, l, w0);
            Moves(g, g', w) && RequestOk(g', w) && OwnerOk(g', w)
  {
    hide Heads, Entries, Requests, Threads, NoDup, Located, Changes, Moves, SameBut, RequestOk, OwnerOk, Without;
    var w := w0;
    InLists(g, w);
    OwnerIs(g, w);
    CancelChanges(g, l, w0);
    IsDistinct(g, w, HeadOf(PhaseAt(g, w0)));
    SameButWithout(ListAt(g, HeadOf(PhaseAt(g, w0))), w);
    ChangesMoves(g, Cancelling(g, l, w0), w, HeadOf(PhaseAt(g, w0)));
  }

  lemma CancelChanges(g: Pool, l: nat, w0: nat)
    requires Enabled(g, CancelTry(l, w0)) && Cancellable(g, w0) && RequestOk(g, w0) && OwnerOk(g, w0)
    requires HeadOf(PhaseAt(g, w0)) in g.lists && Work(w0) !in g.lists
    ensures var w := w0;
            var g' := Cancelling(g, l, w0);
            Changes(g, g', w, HeadOf(PhaseAt(g, w0))) && RequestOk(g', w) && OwnerOk(g', w)
              && PhaseAt(g', w) == Dropping(l) && IsQueue(g, HeadOf(PhaseAt(g, w0)))
            && ListAt(g', HeadOf(PhaseAt(g, w0))) == Without(ListAt(g, HeadOf(PhaseAt(g, w0))), Work(w))
  {
    OtherLoops(g, Cancelling(g, l, w0), l, w0);
  }

  lemma MarkMoves(g: Pool, l: nat)
    requires Heads(g) && Entries(g) && Requests(g) && Threads(g) && Enabled(g, CancelMark(l))
    ensures var w := CancelAt(g, l).w;
            var g' := Marking(g, l);
            Moves(g, g', w) && RequestOk(g', w) && OwnerOk(g', w) && PhaseAt(g, w) == Dropping(l) == PhaseAt(g', w)
  {
    hide Heads, Entries, Requests, Threads, NoDup, Located, QueuesMove, Without;
    InLists(g, CancelAt(g, l).w);
    OwnerIs(g, CancelAt(g, l).w);
    NoQueue(g, Marking(g, l), CancelAt(g, l).w);
  }

  lemma InsertMoves(g: Pool, l: nat)
    requires Heads(g) && Entries(g) && Requests(g) && Threads(g) && Enabled(g, CancelInsert(l))
    ensures var w := CancelAt(g, l).w;
            var g' := Inserting(g, l);
            Moves(g, g', w) && RequestOk(g', w) && OwnerOk(g', w) && PhaseAt(g, w) == Dropping(l)
              && FnAt(g, w) == CancelFn
  {
    hide Heads, Entries, Requests, Threads, NoDup, Located, Changes, Moves, SameBut, RequestOk, OwnerOk;
    var w := CancelAt(g, l).w;
    InLists(g, w);
    OwnerIs(g, w);
    MarkedPhase(g, l, w);
    InsertChanges(g, l);
    IsDistinct(g, w, LoopHead(l));
    SameButSnoc(ListAt(g, LoopHead(l)), w);
    ChangesMoves(g, Inserting(g, l), w, LoopHead(l));
  }

  lemma InsertChanges(g: Pool, l: nat)
    requires Enabled(g, CancelInsert(l)) && RequestOk(g, CancelAt(g, l).w) && OwnerOk(g, CancelAt(g, l).w)
    requires LoopHead(l) in g.lists && Work(CancelAt(g, l).w) !in g.lists
    ensures var w := CancelAt(g, l).w;
            var g' := Inserting(g, l);
            Changes(g, g', w, LoopHead(l)) && RequestOk(g', w) && OwnerOk(g', w) && PhaseAt(g, w) == Dropping(l)
              && FnAt(g, w) == CancelFn && PhaseAt(g', w) == Listed(l)
            && ListAt(g', LoopHead(l)) == ListAt(g, LoopHead(l)) + [Work(w)]
  {
    MarkedPhase(g, l, CancelAt(g, l).w);
    OtherLoops(g, Inserting(g, l), l, CancelAt(g, l).w);
  }

  lemma CallMoves(g: Pool, l: nat)
    requires Heads(g) && Entries(g) && Requests(g) && Threads(g) && Enabled(g, CallDone(l))
    ensures var w := ListAt(g, LocalHead(l))[0].w;
            var g' := Calling(g, l);
            Moves(g, g', w) && RequestOk(g', w) && OwnerOk(g', w) && PhaseAt(g, w) == Local(l) && FnAt(g, w) != UserFn
  {
    hide Heads, Entries, Requests, Threads, NoDup, Located, QueuesMove, Without;
    var s := ListAt(g, LocalHead(l));
    assert s[0] in s;
    InLists(g, s[0].w);
    OwnerIs(g, s[0].w);
    IsDistinct(g, s[0].w, LocalHead(l));
    SameButTail(s, s[0].w);
    OneQueue(g, Calling(g, l), s[0].w, LocalHead(l));
  }

  // ---- no wake-up is lost ----------------------------------------------------------------------------------

  // A worker without the mutex any more; idle has been adjusted.
  lemma TakeAwake(g: Pool, i: nat, wakes: set<nat>)
    requires Awake(g) && Entries(g) && MayTake(g, i) && WakesOk(g.workers, wakes)
      && (g.workers[i] == Woken ==> g.idle > 0)
    ensures var g0 := g.(idle := if g.workers[i] == Woken then g.idle - 1 else g.idle);
            Awake(TakeOne(g0, i, wakes))
  {
    hide At, Signalled, WakesOk;
    var g0 := g.(idle := if g.workers[i] == Woken then g.idle - 1 else g.idle);
    var s, g' := ListAt(g, PoolHead), TakeOne(g0, i, wakes);
    if s == [] {
      UpdateCount(g.workers, i, Waiting);
    } else if s[0].Work? {
      UpdateCount(g.workers, i, Holding(s[0].w));
    } else {
      assert PoolEntry(g, s[0]);
      UpdateCount(g.workers, i, Exited);
      ExitWakes(g.workers, i, wakes);
      SignalledCount(g.workers[i := Exited], wakes, |g.workers|);
    }
  }

  lemma ExitWakes(ws: seq<Pc>, i: nat, wakes: set<nat>)
    requires i < |ws| && ws[i] != Waiting && WakesOk(ws, wakes)
    ensures WakesOk(ws[i := Exited], wakes) && forall k :: k in wakes ==> k < |ws| && ws[i := Exited][k] == Waiting
    ensures At(ws, Waiting) > 0 ==> exists k :: k in wakes && k < |ws|
  {
    UpdateCount(ws, i, Exited);
    if At(ws, Waiting) > 0 {
      var k :| k in wakes;
    }
  }

  // post wakes a worker if one sleeps.
  lemma PostAwake(g: Pool, q: Node, wakes: set<nat>)
    requires Awake(g) && WakesOk(g.workers, wakes) && !q.PoolHead? && !q.LoopHead?
      && (At(g.workers, Exited) > 0 ==> ListAt(g, PoolHead) != [])
    ensures Awake(Posted(g, q, wakes))
  {
    hide At, Signalled;
    SignalledCount(g.workers, wakes, |g.workers|);
    if At(g.workers, Waiting) > 0 {
      var k :| k in wakes;
      assert k in wakes && k < |g.workers|;
    }
  }

  lemma StepAwake(g: Pool, i: nat, pc: Pc, g': Pool)
    requires Awake(g) && i < |g.workers| && (g.workers[i].Holding? || g.workers[i].Ran?) && (pc.Ran? || pc == Entering)
    requires g'.workers == g.workers[i := pc] && g'.idle == g.idle && g'.loops == g.loops
      && ListAt(g', PoolHead) == ListAt(g, PoolHead)
    requires forall l :: l in g.loops && ListAt(g', LoopHead(l)) != [] ==> l in g'.pending
    ensures Awake(g')
  {
    hide At;
    UpdateCount(g.workers, i, pc);
  }

  lemma CancelAwake(g: Pool, l: nat, w: nat)
    requires Awake(g) && Requests(g) && Cancellable(g, w)
    ensures Awake(Cancelling(g, l, w))
  {
    hide At;
    assert RequestOk(g, w);
    var q := HeadOf(PhaseAt(g, w));
    WithoutHead(ListAt(g, q), Work(w));
  }

  lemma WithoutHead(s: seq<Node>, x: Node)
    ensures |Without(s, x)| <= |s| && (s != [] && s[0] != x ==> Without(s, x) != [] && Without(s, x)[0] == s[0])
    ensures s == [] ==> Without(s, x) == []
  {
  }

  lemma SpuriousAwake(g: Pool, i: nat)
    requires Awake(g) && i < |g.workers| && g.workers[i] == Waiting
    ensures Awake(g.(workers := g.workers[i := Woken]))
  {
    hide At;
    UpdateCount(g.workers, i, Woken);
  }

  // ---- every step keeps the invariant ----------------------------------------------------------------------

  ghost predicate SameHolders(ws: seq<Pc>, ws': seq<Pc>) {
    |ws'| == |ws| && forall i: nat :: i < |ws| ==> SameHolder(ws[i], ws'[i])
  }

  predicate SameHolder(a: Pc, b: Pc) {
    b == a || !(a.Holding? || a.Ran? || b.Holding? || b.Ran?)
  }

  // The same requests in the same places
  ghost predicate Alike(g: Pool, g': Pool) {
    && g'.lists == g.lists && g'.phase == g.phase && g'.work == g.work && g'.loopOf == g.loopOf
    && g'.cancelling == g.cancelling && g'.loops == g.loops && g'.exiting == g.exiting
      && SameHolders(g.workers, g'.workers)
  }

  lemma AlikeHeads(g: Pool, g': Pool)
    requires Heads(g) && Alike(g, g')
    ensures Heads(g')
  {
    forall h | h in g'.lists
      ensures HeadOk(g', h)
    {
      assert HeadOk(g, h);
    }
  }

  lemma AlikeEntries(g: Pool, g': Pool)
    requires Entries(g) && Alike(g, g')
    ensures Entries(g')
  {
    forall x | x in ListAt(g', PoolHead)
      ensures PoolEntry(g', x)
    {
      assert PoolEntry(g, x);
    }
  }

  lemma AlikeRequests(g: Pool, g': Pool)
    requires Requests(g) && Alike(g, g')
    ensures Requests(g')
  {
    forall w
      ensures RequestOk(g', w)
    {
      assert RequestOk(g, w);
      match PhaseAt(g, w) {
        case Held(i) => assert SameHolder(g.workers[i], g'.workers[i]);
        case HasRun(i) => assert SameHolder(g.workers[i], g'.workers[i]);
        case _ =>
      }
    }
  }

  lemma AlikeThreads(g: Pool, g': Pool)
    requires Threads(g) && Alike(g, g')
    ensures Threads(g')
  {
    forall i: nat | i < |g'.workers|
      ensures WorkerOk(g', i)
    {
      assert WorkerOk(g, i) && SameHolder(g.workers[i], g'.workers[i]);
    }
    forall l
      ensures CancelOk(g', l)
    {
      assert CancelOk(g, l);
    }
  }

  lemma SameRequests(g: Pool, g': Pool)
    requires Heads(g) && Entries(g) && Requests(g) && Threads(g) && Alike(g, g')
    ensures Heads(g') && Entries(g') && Requests(g') && Threads(g')
    ensures Lives(g) && g'.log == g.log ==> Lives(g')
  {
    hide Heads, Entries, Requests, Threads, Lives, Alike;
    AlikeHeads(g, g');
    AlikeEntries(g, g');
    AlikeRequests(g, g');
    AlikeThreads(g, g');
    if Lives(g) && g'.log == g.log { AlikeLives(g, g'); }
  }

  lemma AlikeLives(g: Pool, g': Pool)
    requires Lives(g) && g'.log == g.log && Alike(g, g')
    ensures Lives(g')
  {
    LivesSame(g, g');
  }

  lemma SignalledHolders(ws: seq<Pc>, i: nat, pc: Pc, wakes: set<nat>)
    requires i < |ws| && SameHolder(ws[i], pc) && WakesOk(ws, wakes)
    ensures SameHolders(ws, Signalled(ws[i := pc], wakes, |ws|)) && SameHolders(ws, ws[i := pc])
  {
    SignalledAt(ws[i := pc], wakes, |ws|);
  }

  lemma TakeInv(g: Pool, i: nat, wakes: set<nat>)
    requires Inv(g) && MayTake(g, i) && WakesOk(g.workers, wakes) && (g.workers[i] == Woken ==> g.idle > 0)
    ensures var g0 := g.(idle := if g.workers[i] == Woken then g.idle - 1 else g.idle);
            Inv(TakeOne(g0, i, wakes))
  {
    hide Heads, Requests, Threads, Lives, Awake, Moves, RequestOk, OwnerOk, WakesOk, Signalled, SameHolders, Entries;
    TakeAwake(g, i, wakes);
    var s, g0 := ListAt(g, PoolHead), g.(idle := if g.workers[i] == Woken then g.idle - 1 else g.idle);
    if s != [] && s[0].Work? {
      SameRequests(g, g0) by { SameHoldersRefl(g.workers); }
      TakeMoves(g0, i, wakes);
      TakeLives(g0, i, wakes);
      MovedRequests(g0, TakeOne(g0, i, wakes), s[0].w);
    } else {
      SignalledHolders(g.workers, i, if s == [] then Waiting else Exited, wakes);
      SameRequests(g, TakeOne(g0, i, wakes));
    }
  }

  lemma SameHoldersRefl(ws: seq<Pc>)
    ensures SameHolders(ws, ws)
  {
  }

  lemma TakeLives(g: Pool, i: nat, wakes: set<nat>)
    requires Lives(g) && MayTake(g, i) && ListAt(g, PoolHead) != [] && ListAt(g, PoolHead)[0].Work?
    requires PhaseAt(g, ListAt(g, PoolHead)[0].w) == Pooled
    ensures Lives(TakeOne(g, i, wakes))
  {
    hide Lives;
    var w := ListAt(g, PoolHead)[0].w;
    LivesNext(g, Taken(w), TakeOne(g, i, wakes));
  }

  lemma MovedRequests(g: Pool, g': Pool, w: nat)
    requires Heads(g) && Entries(g) && Requests(g) && Threads(g) && Moves(g, g', w) && RequestOk(g', w)
      && OwnerOk(g', w)
    ensures Heads(g') && Entries(g') && Requests(g') && Threads(g')
  {
    hide Moves, Entries, Heads, Requests, Threads, OwnerOk, RequestOk;
    MovesEntries(g, g', w);
    MovesHeads(g, g', w);
    MovesRequests(g, g', w);
    MovesThreads(g, g', w);
  }

  lemma ExecuteInv(g: Pool, i: nat)
    requires Inv(g) && Enabled(g, Execute(i))
    ensures Inv(Executing(g, i))
  {
    hide Heads, Requests, Threads, Lives, Awake, Moves, RequestOk, OwnerOk, Entries;
    var w := g.workers[i].w;
    ExecuteMoves(g, i);
    LivesNext(g, Executed(w), Executing(g, i));
    StepAwake(g, i, Ran(w), Executing(g, i)) by { PendingIs(g); }
    MovedRequests(g, Executing(g, i), w);
  }

  lemma PendingIs(g: Pool)
    requires Awake(g)
    ensures forall l :: l in g.loops && ListAt(g, LoopHead(l)) != [] ==> l in g.pending
  {
  }

  lemma FinishInv(g: Pool, i: nat)
    requires Inv(g) && Enabled(g, Finish(i))
    ensures Inv(Finishing(g, i))
  {
    hide Heads, Requests, Threads, Lives, Awake, Moves, RequestOk, OwnerOk, Entries;
    var w := g.workers[i].w;
    FinishMoves(g, i);
    LivesSame(g, Finishing(g, i));
    StepAwake(g, i, Entering, Finishing(g, i)) by { PendingIs(g); }
    MovedRequests(g, Finishing(g, i), w);
  }

  lemma SubmitInv(g: Pool, l: nat, w: nat, wakes: set<nat>)
    requires Inv(g) && Enabled(g, Submit(l, w, wakes))
    ensures Inv(Submitting(g, l, w, wakes))
  {
    hide Heads, Requests, Threads, Lives, Awake, Moves, RequestOk, OwnerOk, Entries, WakesOk, Signalled;
    SubmitMoves(g, l, w, wakes);
    LivesNext(g, Submitted(w), Submitting(g, l, w, wakes));
    SubmitAwake(g, l, w, wakes);
    MovedRequests(g, Submitting(g, l, w, wakes), w);
  }

  lemma SubmitAwake(g: Pool, l: nat, w: nat, wakes: set<nat>)
    requires Awake(g) && WakesOk(g.workers, wakes)
    ensures Awake(Submitting(g, l, w, wakes))
  {
    hide WakesOk, Signalled;
    PostAwake(g.(work := g.work[w := UserFn], loopOf := g.loopOf[w := l], phase := g.phase[w := Pooled],
      log := g.log + [Submitted(w)]),
              Work(w), wakes);
  }

  lemma CancelInv(g: Pool, l: nat, w: nat)
    requires Inv(g) && Enabled(g, CancelTry(l, w))
    ensures Inv(Cancelling(g, l, w))
  {
    hide Heads, Requests, Threads, Lives, Awake, Moves, RequestOk, OwnerOk, Entries;
    CancelLives(g, l, w);
    if Cancellable(g, w) {
      CancelMoves(g, l, w);
      CancelAwake(g, l, w);
      MovedRequests(g, Cancelling(g, l, w), w);
    } else {
      LogOnly(g, g.log + [Busy(w)]);
    }
  }

  // Where a request is when uv__work_cancel looks at it
  lemma CancelLives(g: Pool, l: nat, w: nat)
    requires Lives(g) && Requests(g) && Enabled(g, CancelTry(l, w))
    ensures Lives(Cancelling(g, l, w))
  {
    hide Lives;
    assert RequestOk(g, w);
    LivesNext(g, if Cancellable(g, w) then Unqueued(w) else Busy(w), Cancelling(g, l, w));
  }

  lemma LogOnly(g: Pool, log: seq<Event>)
    requires Heads(g) && Entries(g) && Requests(g) && Threads(g) && Awake(g)
    ensures var g' := g.(log := log);
            Heads(g') && Entries(g') && Requests(g') && Threads(g') && Awake(g')
  {
    hide Heads, Entries, Requests, Threads, SameHolders;
    SameHoldersRefl(g.workers);
    SameRequests(g, g.(log := log));
  }

  lemma MarkInv(g: Pool, l: nat)
    requires Inv(g) && Enabled(g, CancelMark(l))
    ensures Inv(Marking(g, l))
  {
    hide Heads, Requests, Threads, Lives, Moves, RequestOk, OwnerOk, Entries;
    MarkMoves(g, l);
    LivesSame(g, Marking(g, l));
    MovedRequests(g, Marking(g, l), CancelAt(g, l).w);
  }

  lemma InsertInv(g: Pool, l: nat)
    requires Inv(g) && Enabled(g, CancelInsert(l))
    ensures Inv(Inserting(g, l))
  {
    hide Heads, Requests, Threads, Lives, Moves, RequestOk, OwnerOk, Entries;
    var w := CancelAt(g, l).w;
    InsertMoves(g, l);
    LivesNext(g, Cancelled(w), Inserting(g, l));
    MovedRequests(g, Inserting(g, l), w);
  }

  lemma CallInv(g: Pool, l: nat)
    requires Inv(g) && Enabled(g, CallDone(l))
    ensures Inv(Calling(g, l))
  {
    hide Heads, Requests, Threads, Lives, Moves, RequestOk, OwnerOk, Entries;
    var w := ListAt(g, LocalHead(l))[0].w;
    CallMoves(g, l);
    LivesNext(g, Done(w, FnAt(g, w) == CancelFn), Calling(g, l));
    MovedRequests(g, Calling(g, l), w);
  }

  // ---- the other steps -------------------------------------------------------------------------------------

  lemma SpuriousInv(g: Pool, i: nat)
    requires Inv(g) && Enabled(g, Spurious(i))
    ensures Inv(g.(workers := g.workers[i := Woken]))
  {
    hide Heads, Requests, Threads, Lives, Awake, Entries;
    SpuriousAwake(g, i);
    SameRequests(g, g.(workers := g.workers[i := Woken]));
  }

  lemma ExitInv(g: Pool, wakes: set<nat>)
    requires Inv(g) && Enabled(g, PostExit(wakes))
    ensures Inv(Posted(g, ExitMessage, wakes).(exiting := true))
  {
    hide Heads, Entries, Requests, Threads, SameHolders, Awake, Lives, WakesOk, Signalled;
    var g' := Posted(g, ExitMessage, wakes).(exiting := true);
    ExitAwake(g, wakes);
    SameHoldersRefl(g.workers);
    SignalledAll(g.workers, wakes);
    var g1 := g.(workers := g'.workers);
    SameRequests(g, g1);
    ExitHeads(g1, g');
    ExitEntries(g1, g');
    ExitRequests(g1, g');
  }

  lemma SignalledAll(ws: seq<Pc>, wakes: set<nat>)
    requires WakesOk(ws, wakes)
    ensures SameHolders(ws, Signalled(ws, wakes, |ws|))
  {
    SignalledAt(ws, wakes, |ws|);
  }

  lemma ExitAwake(g: Pool, wakes: set<nat>)
    requires Awake(g) && WakesOk(g.workers, wakes)
    ensures Awake(Posted(g, ExitMessage, wakes).(exiting := true))
  {
    hide WakesOk, Signalled;
    PostAwake(g, ExitMessage, wakes);
  }

  // The message is posted.
  predicate Posts(g: Pool, g': Pool) {
    !g.exiting
      && g' == g.(lists := (g.lists - {ExitMessage})[PoolHead := ListAt(g, PoolHead) + [ExitMessage]], exiting := true)
  }

  lemma ExitHeads(g: Pool, g': Pool)
    requires Heads(g) && Entries(g) && Posts(g, g')
    ensures Heads(g')
  {
    var s := ListAt(g, PoolHead);
    assert HeadOk(g, PoolHead);
    assert ExitMessage in s ==> PoolEntry(g, ExitMessage);
    assert ExitMessage in g.lists ==> HeadOk(g, ExitMessage);
    forall h | h in g'.lists
      ensures HeadOk(g', h)
    {
      assert HeadOk(g, h);
    }
  }

  lemma ExitEntries(g: Pool, g': Pool)
    requires Entries(g) && Posts(g, g')
    ensures Entries(g') && (Lives(g) ==> Lives(g'))
  {
    forall x | x in ListAt(g', PoolHead)
      ensures PoolEntry(g', x)
    {
      if x != ExitMessage { assert PoolEntry(g, x); }
    }
    if Lives(g) { LivesSame(g, g'); }
  }

  lemma ExitRequests(g: Pool, g': Pool)
    requires Requests(g) && Threads(g) && Posts(g, g')
    ensures Requests(g') && Threads(g')
  {
    forall w
      ensures RequestOk(g', w)
    {
      assert RequestOk(g, w);
    }
    forall i: nat | i < |g'.workers|
      ensures WorkerOk(g', i)
    {
      assert WorkerOk(g, i);
    }
    forall l
      ensures CancelOk(g', l)
    {
      assert CancelOk(g, l);
    }
  }

  // uv__work_done takes all of the loop's queue.
  lemma DrainInv(g: Pool, l: nat)
    requires Inv(g) && Enabled(g, Drain(l))
    ensures Inv(Draining(g, l))
  {
    hide Heads, Entries, Requests, Threads, Awake, Lives;
    DrainHeads(g, l);
    DrainEntries(g, l);
    DrainRequests(g, l);
    DrainThreads(g, l);
    DrainPhases(g, l);
    LivesSame(g, Draining(g, l));
    DrainAwake(g, l);
  }

  lemma DrainRequests(g: Pool, l: nat)
    requires Requests(g) && Entries(g) && Enabled(g, Drain(l))
    ensures Requests(Draining(g, l))
  {
    DrainPhases(g, l);
    hide Entries;
    forall w
      ensures RequestOk(Draining(g, l), w)
    {
      assert RequestOk(g, w);
    }
  }

  lemma DrainThreads(g: Pool, l: nat)
    requires Threads(g)
    ensures Threads(Draining(g, l))
  {
    DrainPhases(g, l);
    var g' := Draining(g, l);
    forall i: nat | i < |g'.workers|
      ensures WorkerOk(g', i)
    {
      assert WorkerOk(g, i);
    }
    forall k
      ensures CancelOk(g', k)
    {
      assert CancelOk(g, k);
    }
  }

  lemma DrainPhases(g: Pool, l: nat)
    ensures forall w :: PhaseAt(Draining(g, l), w) == if PhaseAt(g, w) == Listed(l) then Local(l) else PhaseAt(g, w)
  {
  }

  lemma DrainAwake(g: Pool, l: nat)
    requires Awake(g)
    ensures Awake(Draining(g, l))
  {
    hide At;
  }

  lemma DrainHeads(g: Pool, l: nat)
    requires Heads(g) && Enabled(g, Drain(l))
    ensures Heads(Draining(g, l))
  {
    var g' := Draining(g, l);
    DrainPhases(g, l);
    assert HeadOk(g, LoopHead(l));
    forall h | h in g'.lists
      ensures HeadOk(g', h)
    {
      assert HeadOk(g, h);
    }
  }

  lemma DrainEntries(g: Pool, l: nat)
    requires Entries(g) && Enabled(g, Drain(l))
    ensures Entries(Draining(g, l))
  {
    var g' := Draining(g, l);
    DrainPhases(g, l);
    forall x | x in ListAt(g', PoolHead)
      ensures PoolEntry(g', x)
    {
      assert PoolEntry(g, x);
    }
    hide Draining;
    DrainQueues(g, l);
  }

  lemma DrainQueues(g: Pool, l: nat)
    ensures var g' := Draining(g, l);
            g'.loops == g.loops && g'.exiting == g.exiting && ListAt(g', PoolHead) == ListAt(g, PoolHead)
            && (forall k :: ListAt(g', LoopHead(k)) == if k == l then [] else ListAt(g, LoopHead(k)))
            && (forall k :: ListAt(g', LocalHead(k)) == if k == l then ListAt(g, LoopHead(l)) else ListAt(g,
              LocalHead(k)))
  {
  }

  /** Every step of every worker and every loop keeps the invariant. */
  lemma StepInv(g: Pool, a: Action)
    requires Inv(g) && Enabled(g, a)
    ensures Inv(Apply(g, a))
  {
    hide Inv;
    match a {
      case Enter(i, wakes) =>
        TakeInv(g, i, wakes);
        assert g.(idle := g.idle) == g;
      case WakeUp(i, wakes) => TakeInv(g, i, wakes);
      case Spurious(i) => SpuriousInv(g, i);
      case Execute(i) => ExecuteInv(g, i);
      case Finish(i) => FinishInv(g, i);
      case Submit(l, w, wakes) => SubmitInv(g, l, w, wakes);
      case PostExit(wakes) => ExitInv(g, wakes);
      case CancelTry(l, w) => CancelInv(g, l, w);
      case CancelMark(l) => MarkInv(g, l);
      case CancelInsert(l) => InsertInv(g, l);
      case Drain(l) => DrainInv(g, l);
      case CallDone(l) => CallInv(g, l);
    }
  }
}

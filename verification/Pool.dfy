/** The ticket thread pool that serves one lookup job at a time, for whichever layer's store: every thread's program
    counter, the shared counters, and the heap of job objects. The pool mutex is only ever held across a
    step by the caller (publishing a job, or between its wait predicate and falling asleep);
    every other locked section is one step that needs the mutex to be free. */
module Pool {
  import opened Options
  import opened Rows
  import opened ServeSteps

  /** The stores that share the pool, one for each layer. */
  type Layers = seq<Config>

  ghost predicate ValidLayers(c: Layers)
  {
    forall l :: 0 <= l < |c| ==> ValidConfig(c[l])
  }

  /** A job: whose store it asks, the ids, one output row per position, and how often each position was written. */
  datatype Job = Job(layer: nat, ids: seq<int>, out: seq<Row>, served: seq<nat>)

  /** The loop over tickets; a ticket is a position, since a chunk is one id. */
  datatype DrainPc =
    | Claim
    | Test(ticket: nat)
    | Serve(ticket: nat, p: ServePc)
    | Finish(ticket: nat)
    | Signal

  datatype CallerPc =
    | Idle
    | PubLock | PubJob | PubNext | PubChunks | PubRemaining | PubGeneration
    | WakeAll
    | CallerDrains(d: DrainPc)
    | WaitLock | ReadRemaining | ReadActive | FallAsleep
    | Asleep

  datatype WorkerPc =
    | Sleeping
    | Awake
    | WorkerDrains(job: nat, d: DrainPc)
    | Leave

  /** `seen` is the generation a worker last reacted to. */
  datatype Thread = Caller(c: CallerPc) | Worker(seen: nat, w: WorkerPc)

  /** `done` collects the tickets whose `remaining` decrement has happened. */
  datatype State = State(threads: seq<Thread>, jobs: seq<Job>, job: Option<nat>,
                         next: nat, chunks: nat, remaining: int, active: int, generation: nat,
                         done: set<nat>, stores: seq<Store>, aborted: bool)

  datatype Action =
    | Run(layer: nat, ids: seq<int>, out: seq<Row>)
    | Step(thread: nat)
    | Spurious(thread: nat)
    | ShortRead(thread: nat)   // the backing read of a missed row comes up short or fails

  predicate CallerHoldsMutex(c: CallerPc)
  {
    c.PubJob? || c.PubNext? || c.PubChunks? || c.PubRemaining? || c.PubGeneration?
    || c.ReadRemaining? || c.ReadActive? || c.FallAsleep?
  }

  ghost predicate WellFormed(s: State)
  {
    && |s.threads| > 0 && s.threads[0].Caller?
    && forall i :: 1 <= i < |s.threads| ==> s.threads[i].Worker?
  }

  predicate MutexFree(s: State)
    requires WellFormed(s)
  {
    !CallerHoldsMutex(s.threads[0].c)
  }

  /** The job at work and the place in its ticket loop, of a thread inside `drain`. */
  function Draining(s: State, t: Thread): Option<(nat, DrainPc)>
  {
    match t
    case Caller(CallerDrains(d)) => if |s.jobs| > 0 then Some((|s.jobs| - 1, d)) else None
    case Worker(_, WorkerDrains(k, d)) => Some((k, d))
    case _ => None
  }

  function WithDrain(t: Thread, d: DrainPc): Thread
  {
    match t
    case Caller(_) => Caller(CallerDrains(d))
    case Worker(seen, WorkerDrains(k, _)) => Worker(seen, WorkerDrains(k, d))
    case Worker(seen, _) => t
  }

  function AfterDrain(t: Thread): Thread
  {
    match t
    case Caller(_) => Caller(WaitLock)
    case Worker(seen, _) => Worker(seen, Leave)
  }

  /** `done_.notify_one()`: only the caller ever waits on it. */
  function WakeCaller(threads: seq<Thread>): seq<Thread>
    requires |threads| > 0
  {
    if threads[0] == Caller(Asleep) then threads[0 := Caller(WaitLock)] else threads
  }

  function WakeWorker(t: Thread): Thread
  {
    if t.Worker? && t.w.Sleeping? then t.(w := Awake) else t
  }

  /** `ready_.notify_all()`. */
  function WakeWorkers(threads: seq<Thread>): (r: seq<Thread>)
    ensures |r| == |threads|
    ensures forall i :: 0 <= i < |r| ==> r[i] == WakeWorker(threads[i])
  {
    seq(|threads|, i requires 0 <= i < |threads| => WakeWorker(threads[i]))
  }

  /** The job object after position `i` was written. */
  function Emitted(j: Job, i: nat, row: Row): Job
    requires i < |j.out| && i < |j.served|
  {
    j.(out := j.out[i := row], served := j.served[i := j.served[i] + 1])
  }

  /** What the step of a thread that serves position `t` of job `k` relies on. */
  ghost predicate ServeEnabled(c: Layers, s: State, k: nat, t: nat, p: ServePc)
    requires ValidLayers(c)
  {
    && k < |s.jobs| && t < |s.jobs[k].ids| == |s.jobs[k].out| == |s.jobs[k].served|
    && var l := s.jobs[k].layer;
       l < |c| == |s.stores| && StoreInv(c[l], s.stores[l]) && PcInv(c[l], s.stores[l], s.jobs[k].ids[t], p)
  }

  ghost predicate DrainEnabled(c: Layers, s: State, k: nat, d: DrainPc)
    requires ValidLayers(c) && WellFormed(s)
  {
    match d
    case Serve(t, p) => ServeEnabled(c, s, k, t, p)
    case Signal => MutexFree(s)
    case _ => true
  }

  /** One step of a thread `i` inside `drain` on job `k`. */
  function DrainStep(c: Layers, s: State, i: nat, k: nat, d: DrainPc): State
    requires ValidLayers(c) && WellFormed(s) && i < |s.threads| && DrainEnabled(c, s, k, d)
  {
    var t := s.threads[i];
    match d
    case Claim => s.(next := s.next + 1, threads := s.threads[i := WithDrain(t, Test(s.next))])
    case Test(ticket) =>
      s.(threads := s.threads[i := if ticket >= s.chunks then AfterDrain(t) else WithDrain(t, Serve(ticket, Start))])
    case Serve(ticket, p) =>
      var id, l := s.jobs[k].ids[ticket], s.jobs[k].layer;
      if p.Start? && !InTable(c[l], id) then s.(aborted := true)
      else if p.Emit? then
        s.(jobs := s.jobs[k := Emitted(s.jobs[k], ticket, p.row)],
           threads := s.threads[i := WithDrain(t, Finish(ticket))])
      else
        var (store', p') := ServeStep(c[l], s.stores[l], id, p);
        s.(stores := s.stores[l := store'], threads := s.threads[i := WithDrain(t, Serve(ticket, p'))])
    case Finish(ticket) =>
      s.(remaining := s.remaining - 1, done := s.done + {ticket},
         threads := s.threads[i := WithDrain(t, if s.remaining == 1 then Signal else Claim)])
    case Signal => s.(threads := WakeCaller(s.threads)[i := WithDrain(t, Claim)])
  }

  /** The steps of `run` outside `drain`. */
  function CallerStep(s: State): State
    requires WellFormed(s) && |s.jobs| > 0
  {
    var c := s.threads[0].c;
    match c
    case PubLock => s.(threads := s.threads[0 := Caller(PubJob)])
    case PubJob => s.(job := Some(|s.jobs| - 1), threads := s.threads[0 := Caller(PubNext)])
    case PubNext => s.(next := 0, threads := s.threads[0 := Caller(PubChunks)])
    case PubChunks => s.(chunks := |s.jobs[|s.jobs| - 1].ids|, threads := s.threads[0 := Caller(PubRemaining)])
    case PubRemaining =>
      s.(remaining := |s.jobs[|s.jobs| - 1].ids|, done := {}, threads := s.threads[0 := Caller(PubGeneration)])
    case PubGeneration => s.(generation := s.generation + 1, threads := s.threads[0 := Caller(WakeAll)])
    case WakeAll => s.(threads := WakeWorkers(s.threads)[0 := Caller(CallerDrains(Claim))])
    case WaitLock => s.(threads := s.threads[0 := Caller(ReadRemaining)])
    case ReadRemaining => s.(threads := s.threads[0 := Caller(if s.remaining == 0 then ReadActive else FallAsleep)])
    case ReadActive =>
      if s.active == 0 then s.(job := None, threads := s.threads[0 := Caller(Idle)])
      else s.(threads := s.threads[0 := Caller(FallAsleep)])
    case FallAsleep => s.(threads := s.threads[0 := Caller(Asleep)])
    case _ => s
  }

  /** The steps of a worker's loop outside `drain`; both need the mutex. */
  function WorkerStep(s: State, i: nat): State
    requires WellFormed(s) && 1 <= i < |s.threads|
  {
    var t := s.threads[i];
    match t.w
    case Awake =>
      if s.generation == t.seen then s.(threads := s.threads[i := Worker(t.seen, Sleeping)])
      else if s.job.None? then s.(threads := s.threads[i := Worker(s.generation, Awake)])
      else
        s.(active := s.active + 1,
           threads := s.threads[i := Worker(s.generation, WorkerDrains(s.job.value, Claim))])
    case Leave =>
      s.(active := s.active - 1, threads := WakeCaller(s.threads)[i := Worker(t.seen, Awake)])
    case _ => s
  }

  ghost predicate Enabled(c: Layers, s: State, a: Action)
    requires ValidLayers(c)
  {
    && WellFormed(s) && !s.aborted
    && match a
       case Run(layer, ids, out) => s.threads[0].c.Idle? && layer < |c| && |ids| == |out|
       case Spurious(i) =>
         && i < |s.threads|
         && (s.threads[i] == Caller(Asleep) || (s.threads[i].Worker? && s.threads[i].w.Sleeping?))
       case ShortRead(i) =>
         && i < |s.threads|
         && Draining(s, s.threads[i]).Some?
         && Draining(s, s.threads[i]).value.1.Serve? && Draining(s, s.threads[i]).value.1.p.Read?
       case Step(i) =>
         && i < |s.threads|
         && match Draining(s, s.threads[i])
            case Some(kd) => DrainEnabled(c, s, kd.0, kd.1)
            case None =>
              match s.threads[i]
              case Caller(cp) => !cp.Idle? && !cp.Asleep? && |s.jobs| > 0
              case Worker(_, w) => !w.Sleeping? && MutexFree(s)
  }

  /** The successor state of an enabled action. */
  function After(c: Layers, s: State, a: Action): State
    requires ValidLayers(c) && Enabled(c, s, a)
  {
    match a
    case Run(layer, ids, out) =>
      s.(jobs := s.jobs + [Job(layer, ids, out, seq(|ids|, _ => 0))], threads := s.threads[0 := Caller(PubLock)])
    case Spurious(i) =>
      s.(threads := s.threads[i := if s.threads[i].Caller? then Caller(WaitLock) else WakeWorker(s.threads[i])])
    case ShortRead(_) => s.(aborted := true)
    case Step(i) =>
      match Draining(s, s.threads[i])
      case Some(kd) => DrainStep(c, s, i, kd.0, kd.1)
      case None => if s.threads[i].Caller? then CallerStep(s) else WorkerStep(s, i)
  }

  /** A pool with `workers` worker threads over freshly opened stores. */
  function Fresh(c: Layers, workers: nat): State
    requires ValidLayers(c)
  {
    State([Caller(Idle)] + seq(workers, _ => Worker(0, Awake)), [], None, 0, 0, 0, 0, 0, {},
          seq(|c|, l requires 0 <= l < |c| => Opened(c[l])), false)
  }

  /** `states` are the states passed through by the actions `run`, each enabled in its turn. */
  ghost predicate IsRun(c: Layers, states: seq<State>, run: seq<Action>)
    requires ValidLayers(c)
  {
    && |states| == |run| + 1
    && forall n {:trigger run[n]} :: 0 <= n < |run| ==>
        Enabled(c, states[n], run[n]) && states[n + 1] == After(c, states[n], run[n])
  }

  ghost predicate Reachable(c: Layers, workers: nat, s: State)
    requires ValidLayers(c)
  {
    exists states, run :: IsRun(c, states, run) && states[0] == Fresh(c, workers) && states[|run|] == s
  }
}

/** Who may be where: the phases of a job, generations, and the count of active workers. A worker inside the ticket loop
    belongs to the current job and generation and is counted; between the return of one lookup and the announcement of
    the next nobody is inside. Each step of the ticket loop, of the caller and of a worker is checked against the
    caller's part, the worker's part and the count separately, and `ControlKept` puts the three together. */
module PoolControl {
  import opened Options
  import opened Totals
  import opened Pool

  /** A job is published and its caller has not returned. */
  predicate Open(cp: CallerPc)
  {
    cp.WakeAll? || cp.CallerDrains? || cp.WaitLock? || cp.ReadRemaining? || cp.ReadActive? || cp.FallAsleep? || cp.Asleep?
  }

  predicate Inside(w: WorkerPc)
  {
    w.WorkerDrains? || w.Leave?
  }

  /** About to decrement `remaining`. */
  predicate AtFinish(t: Thread)
  {
    match t
    case Caller(CallerDrains(d)) => d.Finish?
    case Worker(_, WorkerDrains(_, d)) => d.Finish?
    case _ => false
  }

  /** Workers counted by `active_`. */
  ghost function ActiveWeight(t: Thread, unit: ()): nat
  {
    if t.Worker? && Inside(t.w) then 1 else 0
  }

  ghost predicate WorkerInv(s: State, i: nat)
    requires WellFormed(s) && 1 <= i < |s.threads|
  {
    var t := s.threads[i];
    && t.seen <= s.generation
    && (Inside(t.w) ==> Open(s.threads[0].c) && t.seen == s.generation)
    && (t.w.WorkerDrains? ==> t.w.job == |s.jobs| - 1)
  }

  ghost predicate CallerInv(s: State)
    requires WellFormed(s)
  {
    var cp := s.threads[0].c;
    && (!cp.Idle? ==> |s.jobs| > 0)
    && s.job == (if cp.Idle? || cp.PubLock? || cp.PubJob? then None else Some(|s.jobs| - 1))
    && (cp.PubChunks? || cp.PubRemaining? || cp.PubGeneration? ==> s.next == 0)
    && (cp.PubRemaining? || cp.PubGeneration? || Open(cp) ==> s.chunks == |s.jobs[|s.jobs| - 1].ids|)
    && (cp.ReadActive? ==> s.remaining == 0)
    && (cp.FallAsleep? || cp.Asleep? ==> s.active > 0)
  }

  ghost predicate JobsInv(s: State)
  {
    forall k :: 0 <= k < |s.jobs| ==> |s.jobs[k].ids| == |s.jobs[k].out| == |s.jobs[k].served|
  }

  ghost predicate Control(s: State)
  {
    && WellFormed(s) && CallerInv(s) && JobsInv(s)
    && (forall i :: 1 <= i < |s.threads| ==> WorkerInv(s, i))
    && s.active == Total(s.threads, (), ActiveWeight)
  }

  lemma FreshControl(c: Layers, workers: nat)
    requires ValidLayers(c)
    ensures Control(Fresh(c, workers))
  {
    NobodyInside(Fresh(c, workers).threads);
  }

  lemma {:induction false} NobodyInside(threads: seq<Thread>)
    requires forall i :: 0 <= i < |threads| ==> ActiveWeight(threads[i], ()) == 0
    ensures Total(threads, (), ActiveWeight) == 0
  {
    if threads != [] {
      NobodyInside(threads[1..]);
    }
  }

  /** With no worker counted, no worker is inside: the counters may be reset. */
  lemma QuietWhenInactive(s: State, i: nat)
    requires WellFormed(s) && s.active == Total(s.threads, (), ActiveWeight) && s.active == 0
    requires 1 <= i < |s.threads|
    ensures !Inside(s.threads[i].w)
  {
    TotalAtLeast(s.threads, (), ActiveWeight, i);
  }

  lemma WakeCallerKeepsCount(threads: seq<Thread>)
    requires |threads| > 0
    ensures Total(WakeCaller(threads), (), ActiveWeight) == Total(threads, (), ActiveWeight)
  {
    TotalUpdate(threads, (), ActiveWeight, 0, Caller(WaitLock));
  }

  lemma {:induction false} WakeWorkersKeepsCount(threads: seq<Thread>, woken: seq<Thread>)
    requires |threads| == |woken|
    requires forall i :: 0 <= i < |threads| ==> woken[i] == WakeWorker(threads[i])
    ensures Total(woken, (), ActiveWeight) == Total(threads, (), ActiveWeight)
  {
    if threads != [] {
      assert forall i :: 0 <= i < |threads| - 1 ==> woken[1..][i] == WakeWorker(threads[1..][i]);
      WakeWorkersKeepsCount(threads[1..], woken[1..]);
    }
  }

  /** The threads after a step in `drain`: its own has moved, and a signal has woken the caller. */
  lemma DrainShape(c: Layers, s: State, i: nat, k: nat, d: DrainPc)
    requires ValidLayers(c) && WellFormed(s) && i < |s.threads| && Draining(s, s.threads[i]) == Some((k, d))
    requires DrainEnabled(c, s, k, d)
    ensures var t, base := DrainStep(c, s, i, k, d).threads, if d.Signal? then WakeCaller(s.threads) else s.threads;
            |t| == |s.threads| && t == base[i := t[i]] && base[i] == s.threads[i]
    ensures WellFormed(DrainStep(c, s, i, k, d))
  {
  }

  lemma DrainCount(c: Layers, s: State, i: nat, k: nat, d: DrainPc)
    requires ValidLayers(c) && WellFormed(s) && i < |s.threads| && Draining(s, s.threads[i]) == Some((k, d))
    requires DrainEnabled(c, s, k, d)
    ensures WellFormed(DrainStep(c, s, i, k, d))
    ensures Total(DrainStep(c, s, i, k, d).threads, (), ActiveWeight) == Total(s.threads, (), ActiveWeight)
  {
    var s' := DrainStep(c, s, i, k, d);
    WakeCallerKeepsCount(s.threads);
    var base := if d.Signal? then WakeCaller(s.threads) else s.threads;
    if s'.threads != s.threads {
      TotalUpdate(base, (), ActiveWeight, i, s'.threads[i]);
      assert s'.threads == base[i := s'.threads[i]];
    }
  }

  lemma DrainJobs(c: Layers, s: State, i: nat, k: nat, d: DrainPc)
    requires ValidLayers(c) && WellFormed(s) && JobsInv(s) && i < |s.threads| && DrainEnabled(c, s, k, d)
    ensures JobsInv(DrainStep(c, s, i, k, d))
    ensures |DrainStep(c, s, i, k, d).jobs| == |s.jobs|
    ensures forall j :: 0 <= j < |s.jobs| ==> DrainStep(c, s, i, k, d).jobs[j].ids == s.jobs[j].ids
  {
  }

  lemma DrainCaller(c: Layers, s: State, i: nat, k: nat, d: DrainPc)
    requires ValidLayers(c) && Control(s) && i < |s.threads| && Draining(s, s.threads[i]) == Some((k, d))
    requires DrainEnabled(c, s, k, d)
    requires d.Finish? ==> s.remaining > 0
    ensures WellFormed(DrainStep(c, s, i, k, d)) && CallerInv(DrainStep(c, s, i, k, d))
  {
    DrainShape(c, s, i, k, d);
    DrainJobs(c, s, i, k, d);
    assert i > 0 ==> WorkerInv(s, i);
  }

  lemma DrainWorker(c: Layers, s: State, i: nat, k: nat, d: DrainPc, j: nat)
    requires ValidLayers(c) && Control(s) && i < |s.threads| && Draining(s, s.threads[i]) == Some((k, d))
    requires DrainEnabled(c, s, k, d) && 1 <= j < |s.threads|
    ensures WellFormed(DrainStep(c, s, i, k, d)) && WorkerInv(DrainStep(c, s, i, k, d), j)
  {
    DrainCount(c, s, i, k, d);
    DrainJobs(c, s, i, k, d);
    assert WorkerInv(s, j);
    assert i > 0 ==> WorkerInv(s, i);
  }

  lemma DrainControl(c: Layers, s: State, i: nat, k: nat, d: DrainPc)
    requires ValidLayers(c) && Control(s) && i < |s.threads| && Draining(s, s.threads[i]) == Some((k, d))
    requires DrainEnabled(c, s, k, d)
    requires d.Finish? ==> s.remaining > 0
    ensures Control(DrainStep(c, s, i, k, d))
  {
    var s' := DrainStep(c, s, i, k, d);
    DrainCount(c, s, i, k, d);
    DrainJobs(c, s, i, k, d);
    DrainCaller(c, s, i, k, d);
    forall j | 1 <= j < |s'.threads|
      ensures WorkerInv(s', j)
    {
      DrainWorker(c, s, i, k, d, j);
    }
    assert s'.active == s.active;
  }

  lemma CallerCount(s: State)
    requires WellFormed(s) && |s.jobs| > 0
    ensures WellFormed(CallerStep(s))
    ensures Total(CallerStep(s).threads, (), ActiveWeight) == Total(s.threads, (), ActiveWeight)
  {
    var s' := CallerStep(s);
    if s.threads[0].c.WakeAll? {
      var woken := WakeWorkers(s.threads);
      WakeWorkersKeepsCount(s.threads, woken);
      TotalUpdate(woken, (), ActiveWeight, 0, s'.threads[0]);
    } else if s'.threads != s.threads {
      TotalUpdate(s.threads, (), ActiveWeight, 0, s'.threads[0]);
    }
  }

  lemma CallerCaller(s: State)
    requires Control(s) && |s.jobs| > 0
    requires Draining(s, s.threads[0]).None?
    requires s.threads[0].c.ReadRemaining? && s.remaining != 0 ==> s.active > 0
    ensures WellFormed(CallerStep(s)) && CallerInv(CallerStep(s))
  {
    CallerCount(s);
  }

  lemma CallerWorker(s: State, j: nat)
    requires Control(s) && |s.jobs| > 0 && 1 <= j < |s.threads|
    requires Draining(s, s.threads[0]).None?
    ensures WellFormed(CallerStep(s)) && WorkerInv(CallerStep(s), j)
  {
    CallerCount(s);
    assert WorkerInv(s, j);
    assert CallerStep(s).threads[j] == s.threads[j] || CallerStep(s).threads[j] == WakeWorker(s.threads[j]);
    if s.active == 0 {
      QuietWhenInactive(s, j);
    }
  }

  lemma CallerControl(s: State)
    requires Control(s) && |s.jobs| > 0
    requires Draining(s, s.threads[0]).None?
    requires s.threads[0].c.ReadRemaining? && s.remaining != 0 ==> s.active > 0
    ensures Control(CallerStep(s))
  {
    var s' := CallerStep(s);
    CallerCount(s);
    CallerCaller(s);
    forall j | 1 <= j < |s'.threads|
      ensures WorkerInv(s', j)
    {
      CallerWorker(s, j);
    }
    assert s'.active == s.active && s'.jobs == s.jobs;
  }

  lemma WorkerCount(s: State, i: nat)
    requires Control(s) && 1 <= i < |s.threads|
    ensures WellFormed(WorkerStep(s, i))
    ensures WorkerStep(s, i).active == Total(WorkerStep(s, i).threads, (), ActiveWeight)
    ensures WorkerStep(s, i).jobs == s.jobs
  {
    var s' := WorkerStep(s, i);
    WakeCallerKeepsCount(s.threads);
    var base := if s.threads[i].w.Leave? then WakeCaller(s.threads) else s.threads;
    if s'.threads != s.threads {
      assert s'.threads == base[i := s'.threads[i]];
      TotalUpdate(base, (), ActiveWeight, i, s'.threads[i]);
    }
  }

  lemma WorkerCaller(s: State, i: nat)
    requires Control(s) && 1 <= i < |s.threads| && MutexFree(s)
    ensures WellFormed(WorkerStep(s, i)) && CallerInv(WorkerStep(s, i))
  {
    assert WorkerInv(s, i);
    WorkerCount(s, i);
    assert WorkerStep(s, i).threads[0] == s.threads[0] || WorkerStep(s, i).threads[0] == Caller(WaitLock);
  }

  lemma WorkerWorker(s: State, i: nat, j: nat)
    requires Control(s) && 1 <= i < |s.threads| && 1 <= j < |s.threads| && MutexFree(s)
    ensures WellFormed(WorkerStep(s, i)) && WorkerInv(WorkerStep(s, i), j)
  {
    assert WorkerInv(s, i) && WorkerInv(s, j);
    WorkerCount(s, i);
  }

  lemma WorkerControl(s: State, i: nat)
    requires Control(s) && 1 <= i < |s.threads| && MutexFree(s)
    ensures Control(WorkerStep(s, i))
  {
    var s' := WorkerStep(s, i);
    WorkerCount(s, i);
    WorkerCaller(s, i);
    forall j | 1 <= j < |s'.threads|
      ensures WorkerInv(s', j)
    {
      WorkerWorker(s, i, j);
    }
  }

  lemma AbortKeepsControl(s: State)
    requires Control(s)
    ensures Control(s.(aborted := true))
  {
    var s' := s.(aborted := true);
    forall j | 1 <= j < |s'.threads|
      ensures WorkerInv(s', j)
    {
      assert WorkerInv(s, j);
    }
  }

  lemma ControlKept(c: Layers, s: State, a: Action)
    requires ValidLayers(c) && Control(s) && Enabled(c, s, a)
    requires forall i :: 0 <= i < |s.threads| && AtFinish(s.threads[i]) ==> s.remaining > 0
    requires s.threads[0].c.ReadRemaining? && s.remaining != 0 ==> s.active > 0
    ensures Control(After(c, s, a))
  {
    match a
    case Run(layer, ids, out) =>
      var s' := After(c, s, a);
      TotalUpdate(s.threads, (), ActiveWeight, 0, Caller(PubLock));
      forall j | 1 <= j < |s'.threads|
        ensures WorkerInv(s', j)
      {
        assert WorkerInv(s, j);
      }
    case Spurious(i) =>
      var s' := After(c, s, a);
      TotalUpdate(s.threads, (), ActiveWeight, i, s'.threads[i]);
      forall j | 1 <= j < |s'.threads|
        ensures WorkerInv(s', j)
      {
        assert WorkerInv(s, j);
      }
    case ShortRead(_) => AbortKeepsControl(s);
    case Step(i) =>
      match Draining(s, s.threads[i]) {
        case Some(kd) => DrainControl(c, s, i, kd.0, kd.1);
        case None => if i == 0 { CallerControl(s); } else { WorkerControl(s, i); }
      }
  }
}

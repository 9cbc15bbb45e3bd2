/** A published job always comes to its end: somebody can always move, and every move that is not
    a spurious wake-up uses up a part of a rank that is fixed when the job is published. */
module PoolProgress {
  import opened Options
  import opened ServeSteps
  import opened Totals
  import opened Pool
  import opened PoolControl
  import opened PoolTickets
  import opened PoolData

  /** What a thread's rank depends on: `chunks`, `generation` and the number of threads. */
  datatype Env = Env(chunks: nat, generation: nat, threads: nat)

  ghost function DrainRank(d: DrainPc, chunks: nat): nat
  {
    match d
    case Claim => 8
    case Test(n) => if n < chunks then 32 else 7
    case Serve(_, p) => 14 + ServeRank(p)
    case Finish(_) => 14
    case Signal => 13
  }

  /** Steps a thread can still take before it rests, counting the wake-ups it will cause. */
  ghost function ThreadRank(t: Thread, e: Env): nat
  {
    match t
    case Caller(c) =>
      (match c
       case Idle => 0
       case PubLock => 10 * e.threads + 15
       case PubJob => 10 * e.threads + 14
       case PubNext => 10 * e.threads + 13
       case PubChunks => 10 * e.threads + 12
       case PubRemaining => 10 * e.threads + 11
       case PubGeneration => 10 * e.threads + 10
       case WakeAll => e.threads + 9
       case CallerDrains(d) => DrainRank(d, e.chunks)
       case WaitLock => 4
       case ReadRemaining => 3
       case ReadActive => 2
       case FallAsleep => 1
       case Asleep => 0)
    case Worker(seen, w) =>
      (match w
       case Sleeping => if seen == e.generation then 0 else 9
       case Awake => if seen == e.generation then 1 else 10
       case WorkerDrains(_, d) => DrainRank(d, e.chunks)
       case Leave => 6)
  }

  function Environment(s: State): Env
  {
    Env(s.chunks, s.generation, |s.threads|)
  }

  /** Tickets that nobody has drawn yet. */
  function Undrawn(s: State): nat
    requires WellFormed(s)
  {
    var cp := s.threads[0].c;
    if Open(cp) then (if s.next < s.chunks then s.chunks - s.next else 0)
    else if cp.Idle? || |s.jobs| == 0 then 0
    else |s.jobs[|s.jobs| - 1].ids|
  }

  ghost function Rank(s: State): nat
    requires WellFormed(s)
  {
    25 * Undrawn(s) + Total(s.threads, Environment(s), ThreadRank)
  }

  /** Waking the caller costs at most four steps. */
  lemma WakeCallerRank(threads: seq<Thread>, e: Env)
    requires |threads| > 0
    ensures Total(WakeCaller(threads), e, ThreadRank) <= Total(threads, e, ThreadRank) + 4
  {
    TotalUpdate(threads, e, ThreadRank, 0, Caller(WaitLock));
  }

  lemma DrainProgresses(c: Layers, s: State, i: nat, k: nat, d: DrainPc)
    requires ValidLayers(c) && Control(s) && i < |s.threads| && Draining(s, s.threads[i]) == Some((k, d))
    requires DrainEnabled(c, s, k, d) && !DrainStep(c, s, i, k, d).aborted
    requires !s.aborted
    ensures WellFormed(DrainStep(c, s, i, k, d)) && Rank(DrainStep(c, s, i, k, d)) < Rank(s)
  {
    var s' := DrainStep(c, s, i, k, d);
    var e := Environment(s);
    assert i > 0 ==> WorkerInv(s, i);
    var base := if d.Signal? then WakeCaller(s.threads) else s.threads;
    DrainShape(c, s, i, k, d);
    DrainRankDrops(c, s, i, k, d);
    WakeCallerRank(s.threads, e);
    TotalUpdate(base, e, ThreadRank, i, s'.threads[i]);
  }

  lemma DrainRankDrops(c: Layers, s: State, i: nat, k: nat, d: DrainPc)
    requires ValidLayers(c) && WellFormed(s) && i < |s.threads| && Draining(s, s.threads[i]) == Some((k, d))
    requires DrainEnabled(c, s, k, d) && !DrainStep(c, s, i, k, d).aborted
    requires !s.aborted && Open(s.threads[0].c)
    ensures WellFormed(DrainStep(c, s, i, k, d)) && Environment(DrainStep(c, s, i, k, d)) == Environment(s)
    ensures var s' := DrainStep(c, s, i, k, d);
            ThreadRank(s'.threads[i], Environment(s)) + 25 * Undrawn(s') + (if d.Signal? then 5 else 1)
            <= ThreadRank(s.threads[i], Environment(s)) + 25 * Undrawn(s)
  {
    match d
    case Serve(n, p) =>
      if !p.Emit? {
        StepProgresses(c[s.jobs[k].layer], s.stores[s.jobs[k].layer], s.jobs[k].ids[n], p);
      }
    case _ =>
  }

  lemma WorkerProgresses(s: State, i: nat)
    requires Control(s) && 1 <= i < |s.threads| && !s.threads[i].w.WorkerDrains? && !s.threads[i].w.Sleeping?
    ensures WellFormed(WorkerStep(s, i)) && Rank(WorkerStep(s, i)) < Rank(s)
  {
    var s' := WorkerStep(s, i);
    var e := Environment(s);
    assert WorkerInv(s, i);
    var base := if s.threads[i].w.Leave? then WakeCaller(s.threads) else s.threads;
    TotalUpdate(s.threads, e, ThreadRank, 0, Caller(WaitLock));
    TotalUpdate(base, e, ThreadRank, i, s'.threads[i]);
    assert s'.threads == base[i := s'.threads[i]];
  }

  /** A new generation makes every resting worker eligible again: at most nine steps each. */
  lemma GenerationShift(s: State)
    requires Control(s) && s.threads[0].c.PubGeneration?
    ensures WellFormed(CallerStep(s)) && Rank(CallerStep(s)) < Rank(s)
  {
    var s' := CallerStep(s);
    var e, e' := Environment(s), Environment(s');
    TotalUpdate(s.threads, e, ThreadRank, 0, Caller(WakeAll));
    assert forall i :: 1 <= i < |s.threads| ==> WorkerInv(s, i);
    TotalShift(s.threads[0 := Caller(WakeAll)], s'.threads, e, e', ThreadRank, 9);
  }

  /** While the counters are rewritten no thread's rank depends on them. */
  lemma RankWhilePublishing(s: State, i: nat)
    requires Control(s) && |s.jobs| > 0 && !Open(s.threads[0].c) && i < |s.threads|
    requires !s.threads[0].c.PubGeneration? && !s.threads[0].c.Idle?
    ensures WellFormed(CallerStep(s)) && |CallerStep(s).threads| == |s.threads|
    ensures CallerStep(s).threads[0].c.CallerDrains? == false
    ensures i > 0 ==> CallerStep(s).threads[i] == s.threads[i]
    ensures ThreadRank(CallerStep(s).threads[i], Environment(CallerStep(s)))
            == ThreadRank(CallerStep(s).threads[i], Environment(s))
  {
    assert i > 0 ==> WorkerInv(s, i);
  }

  /** Each publishing step lowers the caller's own share. */
  lemma PublishDrops(s: State)
    requires Control(s) && |s.jobs| > 0 && !Open(s.threads[0].c)
    requires !s.threads[0].c.PubGeneration? && !s.threads[0].c.Idle?
    ensures WellFormed(CallerStep(s)) && CallerStep(s).threads == s.threads[0 := CallerStep(s).threads[0]]
    ensures 25 * Undrawn(CallerStep(s)) + ThreadRank(CallerStep(s).threads[0], Environment(s))
          < 25 * Undrawn(s) + ThreadRank(s.threads[0], Environment(s))
  {
  }

  lemma PublishShift(s: State)
    requires Control(s) && |s.jobs| > 0 && !Open(s.threads[0].c)
    requires !s.threads[0].c.PubGeneration? && !s.threads[0].c.Idle?
    ensures WellFormed(CallerStep(s)) && Rank(CallerStep(s)) < Rank(s)
  {
    var s' := CallerStep(s);
    PublishDrops(s);
    TotalUpdate(s.threads, Environment(s), ThreadRank, 0, s'.threads[0]);
    forall i | 0 <= i < |s.threads|
      ensures ThreadRank(s'.threads[i], Environment(s')) <= ThreadRank(s'.threads[i], Environment(s)) + 0
    {
      RankWhilePublishing(s, i);
    }
    TotalShift(s'.threads, s'.threads, Environment(s), Environment(s'), ThreadRank, 0);
  }

  lemma WakeAllShift(s: State)
    requires Control(s) && s.threads[0].c.WakeAll?
    ensures WellFormed(CallerStep(s)) && Rank(CallerStep(s)) < Rank(s)
  {
    var s' := CallerStep(s);
    var e := Environment(s);
    var woken := WakeWorkers(s.threads);
    TotalUpdate(woken, e, ThreadRank, 0, s'.threads[0]);
    TotalShift(s.threads, woken, e, e, ThreadRank, 1);
  }

  lemma CallerProgresses(s: State)
    requires Control(s) && |s.jobs| > 0 && Draining(s, s.threads[0]).None?
    requires !s.threads[0].c.Idle? && !s.threads[0].c.Asleep?
    ensures WellFormed(CallerStep(s)) && Rank(CallerStep(s)) < Rank(s)
  {
    var cp := s.threads[0].c;
    if cp.PubGeneration? {
      GenerationShift(s);
    } else if !Open(cp) {
      PublishShift(s);
    } else if cp.WakeAll? {
      WakeAllShift(s);
    } else {
      var s' := CallerStep(s);
      TotalUpdate(s.threads, Environment(s), ThreadRank, 0, s'.threads[0]);
    }
  }

  /** Every step either aborts the process or lowers the rank. */
  lemma StepLowersRank(c: Layers, s: State, i: nat)
    requires ValidLayers(c) && Data(c, s) && Enabled(c, s, Step(i)) && !After(c, s, Step(i)).aborted
    ensures WellFormed(After(c, s, Step(i))) && Rank(After(c, s, Step(i))) < Rank(s)
  {
    match Draining(s, s.threads[i])
    case Some(kd) => DrainProgresses(c, s, i, kd.0, kd.1);
    case None => if i == 0 { CallerProgresses(s); } else { WorkerProgresses(s, i); }
  }

  lemma SpuriousRaisesRank(c: Layers, s: State, i: nat)
    requires ValidLayers(c) && Data(c, s) && Enabled(c, s, Spurious(i))
    ensures WellFormed(After(c, s, Spurious(i))) && Rank(After(c, s, Spurious(i))) <= Rank(s) + 4
  {
    var s' := After(c, s, Spurious(i));
    TotalUpdate(s.threads, Environment(s), ThreadRank, i, s'.threads[i]);
  }

  /** One step: a lower rank, or at most four more after a spurious wake-up. */
  lemma StepBound(c: Layers, s: State, a: Action, s': State)
    requires ValidLayers(c) && Data(c, s) && Enabled(c, s, a) && !a.Run? && s' == After(c, s, a)
    ensures Data(c, s')
    ensures !s'.aborted ==> 1 + Rank(s') <= Rank(s) + if a.Spurious? then 5 else 0
  {
    DataKept(c, s, a);
    if a.Spurious? {
      SpuriousRaisesRank(c, s, a.thread);
    } else if !After(c, s, a).aborted {
      StepLowersRank(c, s, a.thread);
    }
  }

  /** Spurious wake-ups among the first `n` actions. */
  function SpuriousCount(run: seq<Action>, n: nat): nat
    requires n <= |run|
  {
    if n == 0 then 0 else SpuriousCount(run, n - 1) + if run[n - 1].Spurious? then 1 else 0
  }

  /** `n` steps with `spurious` spurious wake-ups among them led from rank `rank` to `s`. */
  ghost predicate Within(s: State, rank: nat, spurious: nat, n: nat)
    requires WellFormed(s)
  {
    n <= rank + 5 * spurious + 1 && (!s.aborted ==> n + Rank(s) <= rank + 5 * spurious)
  }

  lemma WithinNext(c: Layers, s: State, a: Action, s': State, rank: nat, spurious: nat, n: nat)
    requires ValidLayers(c) && Data(c, s) && Enabled(c, s, a) && !a.Run? && s' == After(c, s, a)
    requires Within(s, rank, spurious, n)
    ensures Data(c, s') && Within(s', rank, spurious + if a.Spurious? then 1 else 0, n + 1)
  {
    StepBound(c, s, a, s');
  }

  /** Between two publications, however the threads are scheduled, the number of steps is bounded by
      the rank, plus five for every spurious wake-up. */
  lemma {:induction false} StepsAreBounded(c: Layers, states: seq<State>, run: seq<Action>, n: nat)
    requires ValidLayers(c) && IsRun(c, states, run) && Data(c, states[0]) && n <= |run|
    requires forall m :: 0 <= m < |run| ==> !run[m].Run?
    ensures Data(c, states[n]) && Within(states[n], Rank(states[0]), SpuriousCount(run, n), n)
  {
    if n > 0 {
      StepsAreBounded(c, states, run, n - 1);
      assert !run[n - 1].Run?;
      WithinNext(c, states[n - 1], run[n - 1], states[n], Rank(states[0]), SpuriousCount(run, n - 1), n - 1);
    }
  }

  /** What `Enabled` asks of a thread that serves a row is always met: such a thread can step. */
  lemma ServingCanStep(c: Layers, s: State, i: nat)
    requires ValidLayers(c) && Data(c, s) && !s.aborted && i < |s.threads| && ServingAt(s.threads[i]).Some?
    ensures Enabled(c, s, Step(i))
  {
    assert ThreadData(c, s, i) && Held(s, i);
    assert i > 0 ==> WorkerInv(s, i);
  }

  /** No deadlock: until `run` returns, some thread can step without a spurious wake-up. */
  lemma SomebodyCanStep(c: Layers, s: State) returns (i: nat)
    requires ValidLayers(c) && Data(c, s) && !s.aborted && !s.threads[0].c.Idle?
    ensures Enabled(c, s, Step(i))
  {
    if s.threads[0].c.Asleep? {
      i := TotalWitness(s.threads, (), ActiveWeight);
      assert WorkerInv(s, i);
    } else {
      i := 0;
    }
    if ServingAt(s.threads[i]).Some? {
      ServingCanStep(c, s, i);
    }
  }

  /** Threads whose last draw for this job failed. */
  ghost function Spent(t: Thread, e: Env): nat
  {
    match t
    case Caller(CallerDrains(Test(n))) => if n >= e.chunks then 1 else 0
    case Worker(_, WorkerDrains(_, Test(n))) => if n >= e.chunks then 1 else 0
    case Worker(_, WorkerDrains(_, _)) => 0
    case Worker(seen, _) => if seen == e.generation then 1 else 0
    case Caller(cp) => if Open(cp) && !cp.WakeAll? && !cp.CallerDrains? then 1 else 0
  }

  ghost predicate Overdraw(s: State)
    requires WellFormed(s)
  {
    Open(s.threads[0].c) ==> s.next <= s.chunks + Total(s.threads, Environment(s), Spent)
  }

  lemma {:induction false} SpentBound(threads: seq<Thread>, e: Env)
    ensures Total(threads, e, Spent) <= |threads|
  {
    if threads != [] {
      SpentBound(threads[1..], e);
    }
  }

  lemma SpentDraining(c: Layers, s: State, i: nat, k: nat, d: DrainPc)
    requires ValidLayers(c) && WellFormed(s) && i < |s.threads| && Draining(s, s.threads[i]) == Some((k, d))
    requires DrainEnabled(c, s, k, d) && Open(s.threads[0].c) && (i > 0 ==> s.threads[i].seen == s.generation)
    ensures var s' := DrainStep(c, s, i, k, d);
            && WellFormed(s') && Environment(s') == Environment(s) && |s'.threads| == |s.threads|
            && s'.threads == (if d.Signal? then WakeCaller(s.threads) else s.threads)[i := s'.threads[i]]
            && (s'.next <= s.next
                || (s'.next == s.next + 1
                    && (s'.next <= s.chunks
                        || Spent(s'.threads[i], Environment(s)) == Spent(s.threads[i], Environment(s)) + 1)))
            && Spent(s'.threads[i], Environment(s)) >= Spent(s.threads[i], Environment(s))
  {
  }

  lemma OverdrawDraining(c: Layers, s: State, i: nat, k: nat, d: DrainPc)
    requires ValidLayers(c) && Control(s) && Overdraw(s) && i < |s.threads| && Draining(s, s.threads[i]) == Some((k, d))
    requires DrainEnabled(c, s, k, d)
    ensures WellFormed(DrainStep(c, s, i, k, d)) && Overdraw(DrainStep(c, s, i, k, d))
  {
    var s' := DrainStep(c, s, i, k, d);
    assert i > 0 ==> WorkerInv(s, i);
    SpentDraining(c, s, i, k, d);
    TotalUpdate(s.threads, Environment(s), Spent, 0, Caller(WaitLock));
    TotalUpdate(if d.Signal? then WakeCaller(s.threads) else s.threads, Environment(s), Spent, i, s'.threads[i]);
  }

  lemma OverdrawWaking(s: State)
    requires Control(s) && Overdraw(s) && s.threads[0].c.WakeAll?
    ensures WellFormed(CallerStep(s)) && Overdraw(CallerStep(s))
  {
    var s' := CallerStep(s);
    var e := Environment(s);
    var woken := WakeWorkers(s.threads);
    TotalUpdate(woken, e, Spent, 0, s'.threads[0]);
    TotalSame(s.threads, woken, e, Spent);
    assert Environment(s') == e;
  }

  lemma OverdrawCaller(s: State)
    requires Control(s) && Overdraw(s) && |s.jobs| > 0 && Draining(s, s.threads[0]).None?
    ensures WellFormed(CallerStep(s)) && Overdraw(CallerStep(s))
  {
    if s.threads[0].c.WakeAll? {
      OverdrawWaking(s);
    } else {
      TotalUpdate(s.threads, Environment(s), Spent, 0, CallerStep(s).threads[0]);
    }
  }

  lemma OverdrawWorker(s: State, i: nat)
    requires Control(s) && Overdraw(s) && 1 <= i < |s.threads| && !s.threads[i].w.WorkerDrains?
    ensures WellFormed(WorkerStep(s, i)) && Overdraw(WorkerStep(s, i))
  {
    var s' := WorkerStep(s, i);
    var e := Environment(s);
    assert WorkerInv(s, i);
    var base := if s.threads[i].w.Leave? then WakeCaller(s.threads) else s.threads;
    TotalUpdate(s.threads, e, Spent, 0, Caller(WaitLock));
    TotalUpdate(base, e, Spent, i, s'.threads[i]);
    assert s'.threads == base[i := s'.threads[i]];
  }

  lemma OverdrawKept(c: Layers, s: State, a: Action)
    requires ValidLayers(c) && Control(s) && Overdraw(s) && Enabled(c, s, a)
    ensures WellFormed(After(c, s, a)) && Overdraw(After(c, s, a))
  {
    match a
    case Run(_, _, _) =>
    case ShortRead(_) => assert Environment(After(c, s, a)) == Environment(s);
    case Spurious(i) => TotalUpdate(s.threads, Environment(s), Spent, i, After(c, s, a).threads[i]);
    case Step(i) =>
      match Draining(s, s.threads[i]) {
        case Some(kd) => OverdrawDraining(c, s, i, kd.0, kd.1);
        case None => if i == 0 { OverdrawCaller(s); } else { OverdrawWorker(s, i); }
      }
  }

  lemma OverdrawNext(c: Layers, s: State, a: Action, s': State)
    requires ValidLayers(c) && Control(s) && Overdraw(s) && Enabled(c, s, a) && s' == After(c, s, a)
    ensures WellFormed(s') && Overdraw(s')
  {
    OverdrawKept(c, s, a);
  }

  lemma {:induction false} RunOverdraw(c: Layers, workers: nat, states: seq<State>, run: seq<Action>, n: nat)
    requires ValidLayers(c) && IsRun(c, states, run) && states[0] == Fresh(c, workers) && n <= |run|
    ensures WellFormed(states[n]) && Overdraw(states[n])
  {
    if n > 0 {
      RunOverdraw(c, workers, states, run, n - 1);
      RunData(c, workers, states, run, n - 1);
      OverdrawNext(c, states[n - 1], run[n - 1], states[n]);
    }
  }
}

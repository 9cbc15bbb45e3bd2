/** No worker sleeps through the announcement of a job: the other half of the wake-up discipline, beside the caller's. */
module PoolWakeups {
  import opened Options
  import opened Pool

  /** Worker `i`, if it sleeps, has seen the current generation, or the caller is about to wake everybody. */
  ghost predicate ToldOf(t: Thread, generation: nat, caller: Thread)
  {
    t.Worker? && t.w.Sleeping? ==> t.seen == generation || caller == Caller(CallerPc.WakeAll)
  }

  ghost predicate Told(s: State)
  {
    |s.threads| > 0 && forall i :: 1 <= i < |s.threads| ==> ToldOf(s.threads[i], s.generation, s.threads[0])
  }

  lemma DrainTold(c: Layers, s: State, i: nat, k: nat, d: DrainPc)
    requires ValidLayers(c) && WellFormed(s) && Told(s) && i < |s.threads|
    requires Draining(s, s.threads[i]) == Some((k, d)) && DrainEnabled(c, s, k, d)
    ensures Told(DrainStep(c, s, i, k, d))
  {
    var t := DrainStep(c, s, i, k, d);
    assert t.generation == s.generation && |t.threads| == |s.threads|;
    forall j | 1 <= j < |t.threads|
      ensures ToldOf(t.threads[j], t.generation, t.threads[0])
    {
      assert ToldOf(s.threads[j], s.generation, s.threads[0]);
    }
  }

  lemma CallerTold(s: State)
    requires WellFormed(s) && |s.jobs| > 0 && Told(s) && Draining(s, s.threads[0]).None?
    ensures Told(CallerStep(s))
  {
    var t := CallerStep(s);
    forall j | 1 <= j < |t.threads|
      ensures ToldOf(t.threads[j], t.generation, t.threads[0])
    {
      assert ToldOf(s.threads[j], s.generation, s.threads[0]);
    }
  }

  lemma WorkerTold(s: State, i: nat)
    requires WellFormed(s) && 1 <= i < |s.threads| && Told(s)
    ensures Told(WorkerStep(s, i))
  {
    var t := WorkerStep(s, i);
    forall j | 1 <= j < |t.threads|
      ensures ToldOf(t.threads[j], t.generation, t.threads[0])
    {
      assert ToldOf(s.threads[j], s.generation, s.threads[0]);
    }
  }

  lemma ToldKept(c: Layers, s: State, a: Action)
    requires ValidLayers(c) && Told(s) && Enabled(c, s, a)
    ensures Told(After(c, s, a))
  {
    if a.Step? {
      if Draining(s, s.threads[a.thread]).Some? {
        var (k, d) := Draining(s, s.threads[a.thread]).value;
        DrainTold(c, s, a.thread, k, d);
      } else if a.thread == 0 {
        CallerTold(s);
      } else {
        WorkerTold(s, a.thread);
      }
    } else {
      var t := After(c, s, a);
      forall j | 1 <= j < |t.threads|
        ensures ToldOf(t.threads[j], t.generation, t.threads[0])
      {
        assert ToldOf(s.threads[j], s.generation, s.threads[0]);
      }
    }
  }

  lemma {:induction false} RunTold(c: Layers, workers: nat, states: seq<State>, run: seq<Action>, n: nat)
    requires ValidLayers(c) && IsRun(c, states, run) && states[0] == Fresh(c, workers) && n <= |run|
    ensures Told(states[n])
  {
    if n > 0 {
      RunTold(c, workers, states, run, n - 1);
      ToldKept(c, states[n - 1], run[n - 1]);
    }
  }

  /** Every worker hears of every job: in any reachable state a worker that sleeps has seen the generation that is current,
      or the caller has just announced a new one and its next step wakes everybody. */
  lemma NoWorkerMissesAJob(c: Layers, workers: nat, s: State, i: nat)
    requires ValidLayers(c) && Reachable(c, workers, s) && 1 <= i < |s.threads|
    requires s.threads[i].Worker? && s.threads[i].w.Sleeping?
    ensures s.threads[i].seen == s.generation || s.threads[0] == Caller(CallerPc.WakeAll)
  {
    var states, run :| IsRun(c, states, run) && states[0] == Fresh(c, workers) && states[|run|] == s;
    RunTold(c, workers, states, run, |run|);
    assert ToldOf(s.threads[i], s.generation, s.threads[0]);
  }
}

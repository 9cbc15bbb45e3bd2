/** What callers of a lookup may rely on, for any number of workers, any sequence of jobs for any
    layers and any schedule, spurious wake-ups included. */
module PoolTheorems {
  import opened Options
  import opened Rows
  import opened CacheModel
  import opened SeenBits
  import opened ServeSteps
  import opened Residency
  import opened Totals
  import opened Pool
  import opened PoolControl
  import opened PoolTickets
  import opened PoolData
  import opened PoolProgress

  ghost predicate CallerIs(s: State, cp: CallerPc)
  {
    |s.threads| > 0 && s.threads[0] == Caller(cp)
  }

  /** Position `t` of a job was written exactly once, with the row of its id in the table of the job's layer if this
      rank owns it and zeros otherwise. */
  ghost predicate Answered(c: Layers, j: Job, t: nat)
    requires ValidLayers(c)
  {
    && t < |j.ids| == |j.out| == |j.served| && j.served[t] == 1 && j.layer < |c|
    && InTable(c[j.layer], j.ids[t]) && j.out[t] == Wanted(c[j.layer], j.ids[t])
  }

  /** Once `run` has returned, every position of every job so far holds the answer of a serial pass. */
  lemma ReturnedLookupIsSerial(c: Layers, workers: nat, s: State)
    requires ValidLayers(c) && Reachable(c, workers, s) && CallerIs(s, Idle)
    ensures forall k, t :: 0 <= k < |s.jobs| && 0 <= t < |s.jobs[k].ids| ==> Answered(c, s.jobs[k], t)
  {
    ReachableData(c, workers, s);
    forall k, t | 0 <= k < |s.jobs| && 0 <= t < |s.jobs[k].ids|
      ensures Answered(c, s.jobs[k], t)
    {
      assert Served(s, k, t) == 1;
      assert Written(c, s, k, t);
    }
  }

  /** When the ticket counter is reset, and until the next job is announced, no worker can draw,
      test, serve or finish a ticket, and none is about to decrement a counter. */
  lemma ResetNeverRaces(c: Layers, workers: nat, s: State, i: nat)
    requires ValidLayers(c) && Reachable(c, workers, s) && 1 <= i < |s.threads|
    requires WellFormed(s) && !Open(s.threads[0].c)
    ensures (s.threads[i].w.Sleeping? || s.threads[i].w.Awake?)
  {
    ReachableData(c, workers, s);
    assert WorkerInv(s, i);
  }

  /** In every reachable state two threads never hold the same ticket, and a position that is being
      served or waits to be served has not been written. */
  lemma TicketsAreExclusive(c: Layers, workers: nat, s: State, i: nat, j: nat)
    requires ValidLayers(c) && Reachable(c, workers, s) && i < |s.threads| && j < |s.threads|
    requires TicketOf(s.threads[i]).Some?
    ensures i != j ==> TicketOf(s.threads[j]) != TicketOf(s.threads[i])
    ensures TicketOf(s.threads[i]).value < s.chunks
            ==> ServedNow(s, TicketOf(s.threads[i]).value) == Writes(s.threads[i])
  {
    ReachableData(c, workers, s);
    assert Apart(s, i, j) && Held(s, i);
  }

  /** The caller never sleeps, nor decides to, while the condition it waits for holds, and a worker
      that will notify it is still inside. */
  lemma NoLostWakeup(c: Layers, workers: nat, s: State) returns (i: nat)
    requires ValidLayers(c) && Reachable(c, workers, s)
    requires CallerIs(s, Asleep) || CallerIs(s, FallAsleep)
    ensures !(s.remaining == 0 && s.active == 0)
    ensures 1 <= i < |s.threads| && s.threads[i].Worker? && Inside(s.threads[i].w)
  {
    ReachableData(c, workers, s);
    i := TotalWitness(s.threads, (), ActiveWeight);
  }

  /** The ticket counter overshoots the number of chunks by at most one draw per thread. */
  lemma TicketsAreBounded(c: Layers, workers: nat, s: State)
    requires ValidLayers(c) && Reachable(c, workers, s)
    ensures WellFormed(s) && |s.threads| == workers + 1
    ensures Open(s.threads[0].c) ==> s.next <= s.chunks + workers + 1
  {
    var states, run :| IsRun(c, states, run) && states[0] == Fresh(c, workers) && states[|run|] == s;
    RunData(c, workers, states, run, |run|);
    RunOverdraw(c, workers, states, run, |run|);
    SpentBound(s.threads, Environment(s));
  }

  /** Every lookup returns: from a reachable state, any run without a new publication is bounded, and
      while the caller has not returned some thread can step. So a run that cannot be continued has
      returned, with no fairness assumption. */
  lemma EveryLookupReturns(c: Layers, workers: nat, s: State, states: seq<State>, run: seq<Action>)
    requires ValidLayers(c) && Reachable(c, workers, s) && WellFormed(s)
    requires IsRun(c, states, run) && states[0] == s
    requires forall n :: 0 <= n < |run| ==> !run[n].Run?
    ensures |run| <= Rank(s) + 5 * SpuriousCount(run, |run|) + 1
    ensures var last := states[|run|];
            last.aborted || CallerIs(last, Idle) || exists i :: Enabled(c, last, Step(i))
  {
    ReachableData(c, workers, s);
    StepsAreBounded(c, states, run, |run|);
    var last := states[|run|];
    if !last.aborted && !CallerIs(last, Idle) {
      var i := SomebodyCanStep(c, last);
    }
  }

  /** Misses are accounted for: each one evicted a row, filled a free slot, or is not inserted yet. */
  lemma MissesAreAccountedFor(c: Layers, workers: nat, s: State, l: nat)
    requires ValidLayers(c) && Reachable(c, workers, s) && l < |c| == |s.stores| && c[l].sets > 0
    ensures s.stores[l].misses == s.stores[l].evictions + Occupied(s.stores[l].cache) + PendingAt(s, l)
  {
    ReachableData(c, workers, s);
    assert Balanced(c[l], s.stores[l], PendingAt(s, l), UncountedAt(s, l));
  }

  /** Distinct rows are counted once: the counter plus the threads that won a bit and have not yet
      counted it is the number of set bits. */
  lemma UniqueRowsAreCountedOnce(c: Layers, workers: nat, s: State, l: nat)
    requires ValidLayers(c) && Reachable(c, workers, s) && l < |c| == |s.stores|
    ensures s.stores[l].unique + UncountedAt(s, l) == SetBits(s.stores[l].seen)
  {
    ReachableData(c, workers, s);
    assert Balanced(c[l], s.stores[l], PendingAt(s, l), UncountedAt(s, l));
  }

  /** The cache stays coherent, and it is the replay of the fills in the order of their locked
      sections, so what is resident follows from `Residency.ResidentIffRecentlyFilled`. */
  lemma CacheStaysCoherent(c: Layers, workers: nat, s: State, l: nat)
    requires ValidLayers(c) && Reachable(c, workers, s) && l < |c|
    ensures |s.stores| == |c| && Coherent(c[l], s.stores[l].cache)
    ensures ExactFills(c[l], s.stores[l].log) && s.stores[l].cache == Replay(c[l], s.stores[l].log)
  {
    ReachableData(c, workers, s);
    assert StoreInv(c[l], s.stores[l]);
  }

  /** Thread `i` is about to check the id of position `t` of the current job, and the id is not in the table. */
  ghost predicate MeetsBadId(c: Layers, s: State, i: nat, t: nat)
  {
    && i < |s.threads| && |s.jobs| > 0 && t < |s.jobs[|s.jobs| - 1].ids|
    && DrainOf(s.threads[i]) == Some(DrainPc.Serve(t, Start)) && s.jobs[|s.jobs| - 1].layer < |c|
    && !InTable(c[s.jobs[|s.jobs| - 1].layer], s.jobs[|s.jobs| - 1].ids[t])
  }

  /** Thread `i` is reading the backing row of position `t` of the current job, a row this rank owns. */
  ghost predicate ReadsBacking(c: Layers, s: State, i: nat, t: nat)
  {
    && i < |s.threads| && |s.jobs| > 0 && t < |s.jobs[|s.jobs| - 1].ids|
    && DrainOf(s.threads[i]) == Some(DrainPc.Serve(t, Read)) && s.jobs[|s.jobs| - 1].layer < |c|
    && var config := c[s.jobs[|s.jobs| - 1].layer];
       InTable(config, s.jobs[|s.jobs| - 1].ids[t]) && Owned(config, s.jobs[|s.jobs| - 1].ids[t])
  }

  /** An abort is a step of a thread inside `serve`: at an id outside the table, or a short read. */
  lemma AbortInServe(c: Layers, s: State, a: Action)
    requires ValidLayers(c) && Enabled(c, s, a) && After(c, s, a).aborted
    ensures (a.Step? || a.ShortRead?) && Draining(s, s.threads[a.thread]).Some?
    ensures var (k, d) := Draining(s, s.threads[a.thread]).value;
            && d.Serve? && (a.ShortRead? ==> d.p.Read?)
            && (a.Step? ==> k < |s.jobs| && d.ticket < |s.jobs[k].ids| && s.jobs[k].layer < |c|
                            && d.p.Start? && !InTable(c[s.jobs[k].layer], s.jobs[k].ids[d.ticket]))
  {
  }

  lemma BadIdAborts(c: Layers, s: State, i: nat, t: nat)
    requires ValidLayers(c) && Control(s) && Enabled(c, s, Step(i)) && MeetsBadId(c, s, i, t)
    ensures After(c, s, Step(i)).aborted
  {
    assert i > 0 ==> WorkerInv(s, i);
    assert Draining(s, s.threads[i]) == Some((|s.jobs| - 1, DrainPc.Serve(t, Start)));
  }

  /** A step aborts the process exactly when it meets an id outside the table, or is the failed backing read
      of an owned row. */
  lemma AbortsExactlyWhen(c: Layers, workers: nat, s: State, a: Action)
    requires ValidLayers(c) && Reachable(c, workers, s) && Enabled(c, s, a)
    ensures After(c, s, a).aborted <==>
        || (a.Step? && exists t: nat :: MeetsBadId(c, s, a.thread, t))
        || (a.ShortRead? && exists t: nat :: ReadsBacking(c, s, a.thread, t))
  {
    ReachableData(c, workers, s);
    if After(c, s, a).aborted {
      AbortInServe(c, s, a);
      var (k, d) := Draining(s, s.threads[a.thread]).value;
      ServesCurrentJob(s, a.thread, k, d);
      assert ThreadData(c, s, a.thread);
      assert if a.Step? then MeetsBadId(c, s, a.thread, d.ticket) else ReadsBacking(c, s, a.thread, d.ticket);
    } else if a.Step? {
      if t: nat :| MeetsBadId(c, s, a.thread, t) {
        BadIdAborts(c, s, a.thread, t);
      }
    }
  }

  /** The ids are rows of the table of their layer. */
  ghost predicate AsksInTable(c: Layers, layer: nat, ids: seq<int>)
  {
    layer < |c| && forall t :: 0 <= t < |ids| ==> InTable(c[layer], ids[t])
  }

  /** The run has no failed backing read and its jobs ask only for rows of the table. */
  ghost predicate Clean(c: Layers, run: seq<Action>)
  {
    forall n :: 0 <= n < |run| ==>
        !run[n].ShortRead? && (run[n].Run? ==> AsksInTable(c, run[n].layer, run[n].ids))
  }

  ghost predicate AskedInTable(c: Layers, s: State)
  {
    forall k :: 0 <= k < |s.jobs| ==> AsksInTable(c, s.jobs[k].layer, s.jobs[k].ids)
  }

  /** Without a fault of the disk or of the caller nothing ever aborts. */
  lemma {:induction false} CleanRunsNeverAbort(c: Layers, workers: nat, states: seq<State>, run: seq<Action>, n: nat)
    requires ValidLayers(c) && IsRun(c, states, run) && states[0] == Fresh(c, workers) && n <= |run| && Clean(c, run)
    ensures !states[n].aborted && AskedInTable(c, states[n])
  {
    if n > 0 {
      var s, a := states[n - 1], run[n - 1];
      CleanRunsNeverAbort(c, workers, states, run, n - 1);
      PrefixReaches(c, workers, states, run, n - 1);
      AbortsExactlyWhen(c, workers, s, a);
      JobsAsked(c, s, a);
    }
  }

  lemma PrefixReaches(c: Layers, workers: nat, states: seq<State>, run: seq<Action>, n: nat)
    requires ValidLayers(c) && IsRun(c, states, run) && states[0] == Fresh(c, workers) && n <= |run|
    ensures Reachable(c, workers, states[n])
  {
    assert IsRun(c, states[..n + 1], run[..n]);
    assert states[..n + 1][|run[..n]|] == states[n];
  }

  /** A step adds no ids but those of the job it publishes. */
  lemma JobsAsked(c: Layers, s: State, a: Action)
    requires ValidLayers(c) && Enabled(c, s, a) && AskedInTable(c, s)
    requires a.Run? ==> AsksInTable(c, a.layer, a.ids)
    ensures AskedInTable(c, After(c, s, a))
  {
  }

  /** Nothing but the mutex ever holds a thread back: in a reachable state every thread that is not
      at rest can step, unless it needs the mutex while the caller holds it. */
  lemma OnlyTheMutexBlocks(c: Layers, workers: nat, s: State, i: nat)
    requires ValidLayers(c) && Reachable(c, workers, s) && WellFormed(s) && !s.aborted && i < |s.threads|
    requires s.threads[i] != Caller(Idle) && s.threads[i] != Caller(Asleep)
    requires s.threads[i].Worker? ==> !s.threads[i].w.Sleeping?
    requires i == 0 || MutexFree(s) || (DrainOf(s.threads[i]).Some? && !DrainOf(s.threads[i]).value.Signal?)
    ensures Enabled(c, s, Step(i))
  {
    ReachableData(c, workers, s);
    if ServingAt(s.threads[i]).Some? {
      ServingCanStep(c, s, i);
    }
  }
}

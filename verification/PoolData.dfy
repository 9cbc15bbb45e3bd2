/** What the threads hold and write: exact rows, exact counters, under every schedule and for every layer's store. A step
    either serves a position, and then `ServeSteps` says what it does to the store of the job's layer, to the thread's
    own bytes and to what other threads know; or it copies a row out; or it serves nothing, and then stores, outputs and
    the weights of all threads stay what they were. `DataKept` puts them together and `ReachableData` carries the
    invariant to every reachable state. */
module PoolData {
  import opened Options
  import opened Rows
  import opened CacheModel
  import opened SeenBits
  import opened ServeSteps
  import opened Totals
  import opened Pool
  import opened PoolControl
  import opened PoolTickets
  import opened PoolTicketSteps

  ghost predicate ThreadData(c: Layers, s: State, i: nat)
    requires ValidLayers(c) && i < |s.threads|
  {
    match DrainOf(s.threads[i])
    case Some(Serve(t, p)) =>
      |s.jobs| > 0 && t < |s.jobs[|s.jobs| - 1].ids|
      && var l := s.jobs[|s.jobs| - 1].layer;
         l < |c| == |s.stores| && PcInv(c[l], s.stores[l], s.jobs[|s.jobs| - 1].ids[t], p)
    case _ => true
  }

  /** Every layer has its store, and every job asks one of them. */
  ghost predicate Layered(c: Layers, s: State)
  {
    |s.stores| == |c| && forall k :: 0 <= k < |s.jobs| ==> s.jobs[k].layer < |c|
  }

  /** A written position holds the row its id asks for. */
  ghost predicate Written(c: Layers, s: State, k: nat, t: nat)
    requires ValidLayers(c) && JobsInv(s) && k < |s.jobs| && t < |s.jobs[k].ids| && s.jobs[k].layer < |c|
  {
    var config := c[s.jobs[k].layer];
    InTable(config, s.jobs[k].ids[t]) && s.jobs[k].out[t] == Wanted(config, s.jobs[k].ids[t])
  }

  ghost predicate Outputs(c: Layers, s: State)
    requires ValidLayers(c) && JobsInv(s) && Layered(c, s)
  {
    forall k, t :: 0 <= k < |s.jobs| && 0 <= t < |s.jobs[k].ids| && Served(s, k, t) > 0 ==> Written(c, s, k, t)
  }

  function ServingAt(t: Thread): Option<ServePc>
  {
    match DrainOf(t)
    case Some(Serve(_, p)) => Some(p)
    case _ => None
  }

  ghost function PendingWeight(t: Thread, unit: ()): nat
  {
    if ServingAt(t).Some? then Pending(ServingAt(t).value) else 0
  }

  ghost function UncountedWeight(t: Thread, unit: ()): nat
  {
    if ServingAt(t).Some? then Uncounted(ServingAt(t).value) else 0
  }

  /** The job at work asks layer `l`. */
  predicate AtWork(s: State, l: nat)
  {
    |s.jobs| > 0 && s.jobs[|s.jobs| - 1].layer == l
  }

  /** Misses of layer `l` that are counted and whose row is not inserted yet. */
  ghost function PendingAt(s: State, l: nat): nat
  {
    if AtWork(s, l) then Total(s.threads, (), PendingWeight) else 0
  }

  /** Bits of layer `l` that are set and not counted yet. */
  ghost function UncountedAt(s: State, l: nat): nat
  {
    if AtWork(s, l) then Total(s.threads, (), UncountedWeight) else 0
  }

  ghost predicate Balanced(config: Config, store: Store, pending: nat, uncounted: nat)
  {
    && (config.sets > 0 ==> store.misses == store.evictions + Occupied(store.cache) + pending)
    && store.unique + uncounted == SetBits(store.seen)
  }

  ghost predicate Counters(c: Layers, s: State)
    requires Layered(c, s)
  {
    forall l :: 0 <= l < |c| ==> Balanced(c[l], s.stores[l], PendingAt(s, l), UncountedAt(s, l))
  }

  ghost predicate Stores(c: Layers, s: State)
    requires ValidLayers(c) && Layered(c, s)
  {
    forall l :: 0 <= l < |c| ==> StoreInv(c[l], s.stores[l])
  }

  ghost predicate Data(c: Layers, s: State)
    requires ValidLayers(c)
  {
    && Tickets(s) && Layered(c, s) && Stores(c, s) && Outputs(c, s) && Counters(c, s)
    && forall i :: 0 <= i < |s.threads| ==> ThreadData(c, s, i)
  }

  lemma {:induction false} NobodyServing(threads: seq<Thread>)
    requires forall i :: 0 <= i < |threads| ==> ServingAt(threads[i]).None?
    ensures Total(threads, (), PendingWeight) == 0 && Total(threads, (), UncountedWeight) == 0
  {
    if threads != [] {
      NobodyServing(threads[1..]);
    }
  }

  lemma FreshData(c: Layers, workers: nat)
    requires ValidLayers(c)
    ensures Data(c, Fresh(c, workers))
  {
    FreshTickets(c, workers);
    forall l | 0 <= l < |c|
      ensures StoreInv(c[l], Opened(c[l])) && Balanced(c[l], Opened(c[l]), 0, 0)
    {
      OpenedInv(c[l]);
    }
    NobodyServing(Fresh(c, workers).threads);
  }

  /** What a step that serves nothing leaves alone. */
  ghost predicate SameService(s: State, s': State)
  {
    && |s'.threads| == |s.threads| && s'.stores == s.stores && |s'.jobs| >= |s.jobs|
    && (forall k :: 0 <= k < |s.jobs| ==> s'.jobs[k] == s.jobs[k])
    && (forall i :: 0 <= i < |s.threads| ==>
                      && PendingWeight(s'.threads[i], ()) == PendingWeight(s.threads[i], ())
                      && UncountedWeight(s'.threads[i], ()) == UncountedWeight(s.threads[i], ()))
  }

  /** The books stay balanced when the stores and the totals of the threads stay and the layer at work is the same, or
      nobody serves. */
  lemma BalanceKept(c: Layers, s: State, s': State)
    requires Layered(c, s) && Layered(c, s') && Counters(c, s) && s'.stores == s.stores
    requires Total(s'.threads, (), PendingWeight) == Total(s.threads, (), PendingWeight)
    requires Total(s'.threads, (), UncountedWeight) == Total(s.threads, (), UncountedWeight)
    requires || (forall l :: AtWork(s', l) <==> AtWork(s, l))
             || Total(s.threads, (), PendingWeight) == Total(s.threads, (), UncountedWeight) == 0
    ensures Counters(c, s')
  {
    forall l | 0 <= l < |c|
      ensures Balanced(c[l], s'.stores[l], PendingAt(s', l), UncountedAt(s', l))
    {
      assert Balanced(c[l], s.stores[l], PendingAt(s, l), UncountedAt(s, l));
    }
  }

  lemma SameServiceCounters(c: Layers, s: State, s': State)
    requires Layered(c, s) && Layered(c, s') && Counters(c, s) && SameService(s, s')
    requires |s'.jobs| > |s.jobs| ==> forall i :: 0 <= i < |s.threads| ==> ServingAt(s.threads[i]).None?
    ensures Counters(c, s')
  {
    TotalSame(s.threads, s'.threads, (), PendingWeight);
    TotalSame(s.threads, s'.threads, (), UncountedWeight);
    if |s'.jobs| > |s.jobs| {
      NobodyServing(s.threads);
    }
    BalanceKept(c, s, s');
  }

  lemma SameServiceKept(c: Layers, s: State, s': State)
    requires ValidLayers(c) && Data(c, s) && Tickets(s') && SameService(s, s') && Layered(c, s')
    requires forall k, t :: |s.jobs| <= k < |s'.jobs| && 0 <= t ==> Served(s', k, t) == 0
    requires |s'.jobs| > |s.jobs| ==> forall i :: 0 <= i < |s.threads| ==> ServingAt(s.threads[i]).None?
    requires forall i :: 0 <= i < |s'.threads| ==> ThreadData(c, s', i)
    ensures Data(c, s')
  {
    SameServiceCounters(c, s, s');
    forall k, t | 0 <= k < |s'.jobs| && 0 <= t < |s'.jobs[k].ids| && Served(s', k, t) > 0
      ensures Written(c, s', k, t)
    {
      if k < |s.jobs| {
        assert Served(s', k, t) == Served(s, k, t);
        assert Written(c, s, k, t);
      }
    }
  }

  /** Job number and place of a draining thread that serves. */
  lemma ServesCurrentJob(s: State, i: nat, k: nat, d: DrainPc)
    requires Tickets(s) && i < |s.threads| && Draining(s, s.threads[i]) == Some((k, d))
    ensures k == |s.jobs| - 1 && DrainOf(s.threads[i]) == Some(d)
  {
    assert i > 0 ==> WorkerInv(s, i);
  }

  lemma ServeStore(c: Layers, s: State, i: nat, k: nat, n: nat, p: ServePc)
    requires ValidLayers(c) && WellFormed(s) && i < |s.threads| && Draining(s, s.threads[i]) == Some((k, Serve(n, p)))
    requires DrainEnabled(c, s, k, Serve(n, p)) && !p.Emit?
    requires p.Start? ==> InTable(c[s.jobs[k].layer], s.jobs[k].ids[n])
    ensures var s', l := DrainStep(c, s, i, k, Serve(n, p)), s.jobs[k].layer;
            && s'.stores == s.stores[l := ServeStep(c[l], s.stores[l], s.jobs[k].ids[n], p).0] && s'.jobs == s.jobs
            && |s'.threads| == |s.threads| && s'.threads == s.threads[i := s'.threads[i]]
            && ServingAt(s.threads[i]) == Some(p)
            && ServingAt(s'.threads[i]) == Some(ServeStep(c[l], s.stores[l], s.jobs[k].ids[n], p).1)
  {
  }

  lemma ServeCounters(c: Layers, s: State, i: nat, k: nat, n: nat, p: ServePc)
    requires ValidLayers(c) && WellFormed(s) && i < |s.threads| && Draining(s, s.threads[i]) == Some((k, Serve(n, p)))
    requires DrainEnabled(c, s, k, Serve(n, p)) && !p.Emit?
    requires p.Start? ==> InTable(c[s.jobs[k].layer], s.jobs[k].ids[n])
    requires Layered(c, s) && Counters(c, s) && k == |s.jobs| - 1
    ensures Layered(c, DrainStep(c, s, i, k, Serve(n, p))) && Counters(c, DrainStep(c, s, i, k, Serve(n, p)))
  {
    var s' := DrainStep(c, s, i, k, Serve(n, p));
    var work := s.jobs[k].layer;
    ServeStore(c, s, i, k, n, p);
    StepConserves(c[work], s.stores[work], s.jobs[k].ids[n], p);
    TotalUpdate(s.threads, (), PendingWeight, i, s'.threads[i]);
    TotalUpdate(s.threads, (), UncountedWeight, i, s'.threads[i]);
    forall l | 0 <= l < |c|
      ensures Balanced(c[l], s'.stores[l], PendingAt(s', l), UncountedAt(s', l))
    {
      assert Balanced(c[l], s.stores[l], PendingAt(s, l), UncountedAt(s, l));
    }
  }

  lemma ServeThread(c: Layers, s: State, i: nat, k: nat, n: nat, p: ServePc, j: nat)
    requires ValidLayers(c) && Data(c, s) && i < |s.threads| && Draining(s, s.threads[i]) == Some((k, Serve(n, p)))
    requires DrainEnabled(c, s, k, Serve(n, p)) && !p.Emit?
    requires p.Start? ==> InTable(c[s.jobs[k].layer], s.jobs[k].ids[n])
    requires j < |s.threads|
    ensures ThreadData(c, DrainStep(c, s, i, k, Serve(n, p)), j)
  {
    var id, l := s.jobs[k].ids[n], s.jobs[k].layer;
    ServesCurrentJob(s, i, k, Serve(n, p));
    StepKeepsInv(c[l], s.stores[l], id, p);
    assert ThreadData(c, s, j);
    if j != i && ServingAt(s.threads[j]).Some? {
      var d := DrainOf(s.threads[j]).value;
      StepKeepsOthers(c[l], s.stores[l], id, p, s.jobs[k].ids[d.ticket], d.p);
    }
  }

  lemma ServeData(c: Layers, s: State, i: nat, k: nat, n: nat, p: ServePc)
    requires ValidLayers(c) && Data(c, s) && i < |s.threads| && Draining(s, s.threads[i]) == Some((k, Serve(n, p)))
    requires DrainEnabled(c, s, k, Serve(n, p)) && !p.Emit?
    requires p.Start? ==> InTable(c[s.jobs[k].layer], s.jobs[k].ids[n])
    requires Tickets(DrainStep(c, s, i, k, Serve(n, p)))
    ensures Data(c, DrainStep(c, s, i, k, Serve(n, p)))
  {
    var s' := DrainStep(c, s, i, k, Serve(n, p));
    var l := s.jobs[k].layer;
    ServesCurrentJob(s, i, k, Serve(n, p));
    ServeStore(c, s, i, k, n, p);
    StepKeepsInv(c[l], s.stores[l], s.jobs[k].ids[n], p);
    ServeCounters(c, s, i, k, n, p);
    forall j | 0 <= j < |s'.threads|
      ensures ThreadData(c, s', j)
    {
      ServeThread(c, s, i, k, n, p, j);
    }
    SameOutputs(c, s, s');
  }

  lemma SameOutputs(c: Layers, s: State, s': State)
    requires ValidLayers(c) && JobsInv(s) && Layered(c, s) && Outputs(c, s) && s'.jobs == s.jobs
    requires |s'.stores| == |s.stores|
    ensures Outputs(c, s')
  {
    forall a, t | 0 <= a < |s'.jobs| && 0 <= t < |s'.jobs[a].ids| && Served(s', a, t) > 0
      ensures Written(c, s', a, t)
    {
      assert Served(s', a, t) == Served(s, a, t);
      assert Written(c, s, a, t);
    }
  }

  lemma EmitOutputs(c: Layers, s: State, i: nat, k: nat, n: nat, row: Row)
    requires ValidLayers(c) && Data(c, s) && i < |s.threads|
    requires Draining(s, s.threads[i]) == Some((k, Serve(n, Emit(row))))
    requires DrainEnabled(c, s, k, Serve(n, Emit(row)))
    requires JobsInv(DrainStep(c, s, i, k, Serve(n, Emit(row))))
    ensures Layered(c, DrainStep(c, s, i, k, Serve(n, Emit(row))))
    ensures Outputs(c, DrainStep(c, s, i, k, Serve(n, Emit(row))))
  {
    var s' := DrainStep(c, s, i, k, Serve(n, Emit(row)));
    forall a, t | 0 <= a < |s'.jobs| && 0 <= t < |s'.jobs[a].ids| && Served(s', a, t) > 0
      ensures Written(c, s', a, t)
    {
      if a != k || t != n {
        assert Served(s', a, t) == Served(s, a, t);
        assert Written(c, s, a, t);
      }
    }
  }

  /** Copying a row out changes no store, no layer and no weight. */
  lemma EmitShape(c: Layers, s: State, i: nat, k: nat, n: nat, row: Row)
    requires ValidLayers(c) && WellFormed(s) && i < |s.threads|
    requires Draining(s, s.threads[i]) == Some((k, Serve(n, Emit(row))))
    requires DrainEnabled(c, s, k, Serve(n, Emit(row)))
    ensures var s' := DrainStep(c, s, i, k, Serve(n, Emit(row)));
            && s'.stores == s.stores && |s'.jobs| == |s.jobs| && |s'.threads| == |s.threads|
            && (forall j :: 0 <= j < |s.jobs| ==> s'.jobs[j].layer == s.jobs[j].layer)
            && (forall j :: 0 <= j < |s.threads| ==>
                  && PendingWeight(s'.threads[j], ()) == PendingWeight(s.threads[j], ())
                  && UncountedWeight(s'.threads[j], ()) == UncountedWeight(s.threads[j], ()))
  {
  }

  lemma EmitCounters(c: Layers, s: State, i: nat, k: nat, n: nat, row: Row)
    requires ValidLayers(c) && WellFormed(s) && i < |s.threads|
    requires Draining(s, s.threads[i]) == Some((k, Serve(n, Emit(row))))
    requires DrainEnabled(c, s, k, Serve(n, Emit(row))) && Layered(c, s) && Counters(c, s)
    ensures Layered(c, DrainStep(c, s, i, k, Serve(n, Emit(row))))
    ensures Counters(c, DrainStep(c, s, i, k, Serve(n, Emit(row))))
  {
    var s' := DrainStep(c, s, i, k, Serve(n, Emit(row)));
    EmitShape(c, s, i, k, n, row);
    TotalSame(s.threads, s'.threads, (), PendingWeight);
    TotalSame(s.threads, s'.threads, (), UncountedWeight);
    BalanceKept(c, s, s');
  }

  lemma EmitThread(c: Layers, s: State, i: nat, k: nat, n: nat, row: Row, j: nat)
    requires ValidLayers(c) && WellFormed(s) && i < |s.threads| && j < |s.threads| && ThreadData(c, s, j)
    requires Draining(s, s.threads[i]) == Some((k, Serve(n, Emit(row))))
    requires DrainEnabled(c, s, k, Serve(n, Emit(row)))
    ensures j < |DrainStep(c, s, i, k, Serve(n, Emit(row))).threads|
    ensures ThreadData(c, DrainStep(c, s, i, k, Serve(n, Emit(row))), j)
  {
  }

  lemma EmitData(c: Layers, s: State, i: nat, k: nat, n: nat, row: Row)
    requires ValidLayers(c) && Data(c, s) && i < |s.threads|
    requires Draining(s, s.threads[i]) == Some((k, Serve(n, Emit(row))))
    requires DrainEnabled(c, s, k, Serve(n, Emit(row)))
    requires Tickets(DrainStep(c, s, i, k, Serve(n, Emit(row))))
    ensures Data(c, DrainStep(c, s, i, k, Serve(n, Emit(row))))
  {
    var s' := DrainStep(c, s, i, k, Serve(n, Emit(row)));
    EmitCounters(c, s, i, k, n, row);
    EmitOutputs(c, s, i, k, n, row);
    forall j | 0 <= j < |s'.threads|
      ensures ThreadData(c, s', j)
    {
      EmitThread(c, s, i, k, n, row, j);
    }
  }

  /** The step serves nothing: it is outside `serve`, or the abort on a bad id. */
  ghost predicate ServesNothing(c: Layers, s: State, k: nat, d: DrainPc)
    requires ValidLayers(c) && WellFormed(s) && DrainEnabled(c, s, k, d)
  {
    d.Serve? ==> d.p.Start? && !InTable(c[s.jobs[k].layer], s.jobs[k].ids[d.ticket])
  }

  lemma NothingServed(c: Layers, s: State, i: nat, k: nat, d: DrainPc)
    requires ValidLayers(c) && WellFormed(s) && i < |s.threads| && Draining(s, s.threads[i]) == Some((k, d))
    requires DrainEnabled(c, s, k, d) && ServesNothing(c, s, k, d)
    ensures DrainStep(c, s, i, k, d).jobs == s.jobs && DrainStep(c, s, i, k, d).stores == s.stores
    ensures |DrainStep(c, s, i, k, d).threads| == |s.threads|
  {
  }

  lemma ThreadServesNothing(c: Layers, s: State, i: nat, k: nat, d: DrainPc, j: nat)
    requires ValidLayers(c) && WellFormed(s) && i < |s.threads| && Draining(s, s.threads[i]) == Some((k, d))
    requires DrainEnabled(c, s, k, d) && ServesNothing(c, s, k, d) && j < |s.threads|
    ensures |DrainStep(c, s, i, k, d).threads| == |s.threads|
    ensures var t := DrainStep(c, s, i, k, d).threads[j];
            || DrainOf(t) == DrainOf(s.threads[j])
            || (d.Test? && d.ticket < s.chunks && DrainOf(t) == Some(Serve(d.ticket, Start)) && ServingAt(s.threads[j]).None?)
            || (ServingAt(t).None? && ServingAt(s.threads[j]).None?)
  {
  }

  lemma SameServiceDraining(c: Layers, s: State, i: nat, k: nat, d: DrainPc)
    requires ValidLayers(c) && WellFormed(s) && i < |s.threads| && Draining(s, s.threads[i]) == Some((k, d))
    requires DrainEnabled(c, s, k, d) && ServesNothing(c, s, k, d)
    ensures SameService(s, DrainStep(c, s, i, k, d)) && DrainStep(c, s, i, k, d).jobs == s.jobs
  {
    NothingServed(c, s, i, k, d);
    forall j | 0 <= j < |s.threads|
      ensures PendingWeight(DrainStep(c, s, i, k, d).threads[j], ()) == PendingWeight(s.threads[j], ())
      ensures UncountedWeight(DrainStep(c, s, i, k, d).threads[j], ()) == UncountedWeight(s.threads[j], ())
    {
      ThreadServesNothing(c, s, i, k, d, j);
    }
  }

  lemma OtherThread(c: Layers, s: State, i: nat, k: nat, d: DrainPc, j: nat)
    requires ValidLayers(c) && WellFormed(s) && Layered(c, s) && i < |s.threads| && j < |s.threads| && ThreadData(c, s, j)
    requires Draining(s, s.threads[i]) == Some((k, d)) && DrainEnabled(c, s, k, d) && ServesNothing(c, s, k, d)
    requires |s.jobs| > 0 && s.chunks <= |s.jobs[|s.jobs| - 1].ids|
    ensures j < |DrainStep(c, s, i, k, d).threads| && ThreadData(c, DrainStep(c, s, i, k, d), j)
  {
    NothingServed(c, s, i, k, d);
    ThreadServesNothing(c, s, i, k, d, j);
  }

  lemma OtherThreads(c: Layers, s: State, i: nat, k: nat, d: DrainPc)
    requires ValidLayers(c) && Data(c, s) && i < |s.threads| && Draining(s, s.threads[i]) == Some((k, d))
    requires DrainEnabled(c, s, k, d) && ServesNothing(c, s, k, d) && Layered(c, DrainStep(c, s, i, k, d))
    ensures var s' := DrainStep(c, s, i, k, d);
            |s'.threads| == |s.threads| && forall j :: 0 <= j < |s'.threads| ==> ThreadData(c, s', j)
  {
    ServesCurrentJob(s, i, k, d);
    assert i > 0 ==> WorkerInv(s, i);
    forall j | 0 <= j < |s.threads|
      ensures j < |DrainStep(c, s, i, k, d).threads| && ThreadData(c, DrainStep(c, s, i, k, d), j)
    {
      OtherThread(c, s, i, k, d, j);
    }
  }

  lemma OtherData(c: Layers, s: State, i: nat, k: nat, d: DrainPc)
    requires ValidLayers(c) && Data(c, s) && i < |s.threads| && Draining(s, s.threads[i]) == Some((k, d))
    requires DrainEnabled(c, s, k, d) && ServesNothing(c, s, k, d)
    requires Tickets(DrainStep(c, s, i, k, d))
    ensures Data(c, DrainStep(c, s, i, k, d))
  {
    var s' := DrainStep(c, s, i, k, d);
    SameServiceDraining(c, s, i, k, d);
    OtherThreads(c, s, i, k, d);
    SameServiceKept(c, s, s');
  }

  lemma SameServiceCaller(s: State)
    requires WellFormed(s) && |s.jobs| > 0 && Draining(s, s.threads[0]).None?
    ensures SameService(s, CallerStep(s)) && CallerStep(s).jobs == s.jobs
    ensures forall j :: 0 <= j < |s.threads| ==>
              (ServingAt(CallerStep(s).threads[j]).None? || CallerStep(s).threads[j] == s.threads[j])
  {
    forall j | 0 <= j < |s.threads|
      ensures ServingAt(CallerStep(s).threads[j]).None? || CallerStep(s).threads[j] == s.threads[j]
      ensures ServingAt(CallerStep(s).threads[j]) == ServingAt(s.threads[j])
    {
      assert j == 0 || CallerStep(s).threads[j] == s.threads[j] || CallerStep(s).threads[j] == WakeWorker(s.threads[j]);
    }
  }

  lemma SameServiceWorker(s: State, i: nat)
    requires WellFormed(s) && 1 <= i < |s.threads| && Draining(s, s.threads[i]).None?
    ensures SameService(s, WorkerStep(s, i)) && WorkerStep(s, i).jobs == s.jobs
    ensures forall j :: 0 <= j < |s.threads| ==>
              (ServingAt(WorkerStep(s, i).threads[j]).None? || WorkerStep(s, i).threads[j] == s.threads[j])
  {
  }

  lemma SameServiceOutside(c: Layers, s: State, a: Action)
    requires ValidLayers(c) && Enabled(c, s, a) && !a.Run? && (a.Step? ==> Draining(s, s.threads[a.thread]).None?)
    ensures SameService(s, After(c, s, a)) && After(c, s, a).jobs == s.jobs
    ensures forall j :: 0 <= j < |s.threads| ==>
              (ServingAt(After(c, s, a).threads[j]).None? || After(c, s, a).threads[j] == s.threads[j])
  {
    if a.Step? {
      if a.thread == 0 {
        SameServiceCaller(s);
      } else {
        SameServiceWorker(s, a.thread);
      }
    }
  }

  lemma OutsideData(c: Layers, s: State, a: Action)
    requires ValidLayers(c) && Data(c, s) && Enabled(c, s, a)
    requires !a.Run? && (a.Step? ==> Draining(s, s.threads[a.thread]).None?)
    requires Tickets(After(c, s, a))
    ensures Data(c, After(c, s, a))
  {
    var s' := After(c, s, a);
    SameServiceOutside(c, s, a);
    forall j | 0 <= j < |s'.threads|
      ensures ThreadData(c, s', j)
    {
      assert ThreadData(c, s, j);
    }
    SameServiceKept(c, s, s');
  }

  lemma RunJobData(c: Layers, s: State, layer: nat, ids: seq<int>, out: seq<Row>)
    requires ValidLayers(c) && Data(c, s) && Enabled(c, s, Run(layer, ids, out))
    requires Tickets(After(c, s, Run(layer, ids, out)))
    ensures Data(c, After(c, s, Run(layer, ids, out)))
  {
    var s' := After(c, s, Run(layer, ids, out));
    forall j | 0 <= j < |s'.threads|
      ensures ServingAt(s'.threads[j]).None? && ServingAt(s.threads[j]).None?
    {
      NoTicketOutside(s, j);
    }
    SameServiceKept(c, s, s');
  }

  lemma DataKept(c: Layers, s: State, a: Action)
    requires ValidLayers(c) && Data(c, s) && Enabled(c, s, a)
    ensures Data(c, After(c, s, a))
  {
    TicketsKept(c, s, a);
    if a.Step? && Draining(s, s.threads[a.thread]).Some? {
      var (k, d) := Draining(s, s.threads[a.thread]).value;
      if d.Serve? && d.p.Emit? {
        EmitData(c, s, a.thread, k, d.ticket, d.p.row);
      } else if d.Serve? && (d.p.Start? ==> InTable(c[s.jobs[k].layer], s.jobs[k].ids[d.ticket])) {
        ServeData(c, s, a.thread, k, d.ticket, d.p);
      } else {
        OtherData(c, s, a.thread, k, d);
      }
    } else if a.Run? {
      RunJobData(c, s, a.layer, a.ids, a.out);
    } else {
      OutsideData(c, s, a);
    }
  }

  lemma SameThreadCount(c: Layers, s: State, a: Action)
    requires ValidLayers(c) && Enabled(c, s, a)
    ensures |After(c, s, a).threads| == |s.threads|
  {
  }

  lemma {:induction false} RunData(c: Layers, workers: nat, states: seq<State>, run: seq<Action>, n: nat)
    requires ValidLayers(c) && IsRun(c, states, run) && states[0] == Fresh(c, workers) && n <= |run|
    ensures Data(c, states[n]) && |states[n].threads| == workers + 1
  {
    if n == 0 {
      FreshData(c, workers);
    } else {
      RunData(c, workers, states, run, n - 1);
      SameThreadCount(c, states[n - 1], run[n - 1]);
      DataKept(c, states[n - 1], run[n - 1]);
    }
  }

  lemma ReachableData(c: Layers, workers: nat, s: State)
    requires ValidLayers(c) && Reachable(c, workers, s)
    ensures Data(c, s) && |s.threads| == workers + 1
  {
    var states, run :| IsRun(c, states, run) && states[0] == Fresh(c, workers) && states[|run|] == s;
    RunData(c, workers, states, run, |run|);
  }
}

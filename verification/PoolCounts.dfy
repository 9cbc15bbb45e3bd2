/** What the counters of a store add up to once lookups have returned, under every schedule: the distinct rows that were
    missed, and the positions that were looked up. Both follow from what each step of each thread owes or has done. */
module PoolCounts {
  import opened Options
  import opened Rows
  import opened ServeSteps
  import opened Totals
  import opened Pool
  import opened PoolControl
  import opened PoolTickets
  import opened PoolData

  /** Thread `i` has counted its miss of `id` and is at the bitmap. */
  ghost predicate AtBitmap(s: State, i: nat, id: int)
  {
    && i < |s.threads| && |s.jobs| > 0 && ServingAt(s.threads[i]).Some?
    && (ServingAt(s.threads[i]).value.Load? || ServingAt(s.threads[i]).value.Swap?)
    && DrainOf(s.threads[i]).value.ticket < |s.jobs[|s.jobs| - 1].ids|
    && s.jobs[|s.jobs| - 1].ids[DrainOf(s.threads[i]).value.ticket] == id
  }

  ghost predicate InFlight(s: State, l: nat, id: int)
  {
    AtWork(s, l) && exists i: nat :: AtBitmap(s, i, id)
  }

  /** Every row that was missed is marked, or its thread is at the bitmap. */
  ghost predicate Covered(c: Layers, s: State)
    requires Layered(c, s)
  {
    forall l, id :: 0 <= l < |c| && c[l].tracked && id in s.stores[l].missed ==> id in s.stores[l].met || InFlight(s, l, id)
  }

  /** The threads at the bitmap stay there, with the same rows. */
  ghost predicate SameFlight(s: State, t: State)
  {
    && |t.jobs| == |s.jobs| && (|s.jobs| > 0 ==> t.jobs[|s.jobs| - 1].layer == s.jobs[|s.jobs| - 1].layer)
    && forall i: nat, id :: AtBitmap(s, i, id) ==> AtBitmap(t, i, id)
  }

  lemma SameFlightCovers(c: Layers, s: State, t: State)
    requires Layered(c, s) && Layered(c, t) && Covered(c, s) && SameFlight(s, t) && t.stores == s.stores
    ensures Covered(c, t)
  {
    forall l, id | 0 <= l < |c| && c[l].tracked && id in t.stores[l].missed
      ensures id in t.stores[l].met || InFlight(t, l, id)
    {
      if id !in s.stores[l].met {
        var i: nat :| AtBitmap(s, i, id);
        assert AtBitmap(t, i, id);
      }
    }
  }

  /** A serving step: what it misses it marks or is still about to mark. */
  lemma ServedIsCovered(c: Config, s: Store, id: int, p: ServePc)
    requires ValidConfig(c) && StoreInv(c, s) && PcInv(c, s, id, p) && !p.Emit? && (p.Start? ==> InTable(c, id)) && c.tracked
    ensures var (s', p') := ServeStep(c, s, id, p);
            && s.met <= s'.met && s'.missed == s.missed + (if p.Tally? then {id} else {})
            && (p.Tally? || p.Load? || p.Swap? ==> id in s'.met || p'.Load? || p'.Swap?)
  {
    if p.Load? || p.Swap? {
      assert BitOf(c, s.seen, id) <==> id in s.met;
    }
  }

  lemma ServeCovers(c: Layers, s: State, i: nat, k: nat, n: nat, p: ServePc)
    requires ValidLayers(c) && Data(c, s) && Covered(c, s) && i < |s.threads|
    requires Draining(s, s.threads[i]) == Some((k, DrainPc.Serve(n, p))) && DrainEnabled(c, s, k, DrainPc.Serve(n, p)) && !p.Emit?
    requires p.Start? ==> InTable(c[s.jobs[k].layer], s.jobs[k].ids[n])
    ensures Layered(c, DrainStep(c, s, i, k, DrainPc.Serve(n, p))) && Covered(c, DrainStep(c, s, i, k, DrainPc.Serve(n, p)))
  {
    var t := DrainStep(c, s, i, k, DrainPc.Serve(n, p));
    var work, at := s.jobs[k].layer, s.jobs[k].ids[n];
    ServesCurrentJob(s, i, k, DrainPc.Serve(n, p));
    ServeStore(c, s, i, k, n, p);
    if c[work].tracked {
      ServedIsCovered(c[work], s.stores[work], at, p);
    }
    forall l, id | 0 <= l < |c| && c[l].tracked && id in t.stores[l].missed
      ensures id in t.stores[l].met || InFlight(t, l, id)
    {
      ServeCoversRow(c, s, i, k, n, p, l, id);
    }
  }

  /** The other threads at the bitmap stay there; the serving thread is there with its own row. */
  lemma ServeFlight(c: Layers, s: State, i: nat, k: nat, n: nat, p: ServePc, j: nat, id: int)
    requires ValidLayers(c) && WellFormed(s) && Layered(c, s) && i < |s.threads| && k == |s.jobs| - 1
    requires Draining(s, s.threads[i]) == Some((k, DrainPc.Serve(n, p))) && DrainEnabled(c, s, k, DrainPc.Serve(n, p)) && !p.Emit?
    requires DrainOf(s.threads[i]) == Some(DrainPc.Serve(n, p))
    requires p.Start? ==> InTable(c[s.jobs[k].layer], s.jobs[k].ids[n])
    requires AtBitmap(s, j, id)
    ensures if j == i then id == s.jobs[k].ids[n] && (p.Load? || p.Swap?)
            else AtBitmap(DrainStep(c, s, i, k, DrainPc.Serve(n, p)), j, id)
  {
  }

  /** Where a serving step leaves its thread. */
  lemma ServeLands(c: Layers, s: State, i: nat, k: nat, n: nat, p: ServePc)
    requires ValidLayers(c) && WellFormed(s) && i < |s.threads| && k == |s.jobs| - 1
    requires Draining(s, s.threads[i]) == Some((k, DrainPc.Serve(n, p))) && DrainEnabled(c, s, k, DrainPc.Serve(n, p)) && !p.Emit?
    requires DrainOf(s.threads[i]) == Some(DrainPc.Serve(n, p)) && !p.Start?
    ensures var t, work := DrainStep(c, s, i, k, DrainPc.Serve(n, p)), s.jobs[k].layer;
            var q := ServeStep(c[work], s.stores[work], s.jobs[k].ids[n], p);
            && t.stores == s.stores[work := q.0] && t.jobs == s.jobs && i < |t.threads|
            && DrainOf(t.threads[i]) == Some(DrainPc.Serve(n, q.1))
  {
  }

  lemma LandsAtBitmap(t: State, i: nat, n: nat, p: ServePc)
    requires i < |t.threads| && |t.jobs| > 0 && DrainOf(t.threads[i]) == Some(DrainPc.Serve(n, p)) && (p.Load? || p.Swap?)
    requires n < |t.jobs[|t.jobs| - 1].ids|
    ensures AtBitmap(t, i, t.jobs[|t.jobs| - 1].ids[n])
  {
  }

  /** The served row itself, in its own layer. */
  lemma ServeCoversOwn(c: Layers, s: State, i: nat, k: nat, n: nat, p: ServePc)
    requires ValidLayers(c) && WellFormed(s) && Layered(c, s) && i < |s.threads| && k == |s.jobs| - 1
    requires Draining(s, s.threads[i]) == Some((k, DrainPc.Serve(n, p))) && DrainEnabled(c, s, k, DrainPc.Serve(n, p)) && !p.Emit?
    requires DrainOf(s.threads[i]) == Some(DrainPc.Serve(n, p)) && (p.Tally? || p.Load? || p.Swap?)
    requires c[s.jobs[k].layer].tracked
    requires |DrainStep(c, s, i, k, DrainPc.Serve(n, p)).stores| == |c|
    ensures var t, id := DrainStep(c, s, i, k, DrainPc.Serve(n, p)), s.jobs[k].ids[n];
            id in t.stores[s.jobs[k].layer].met || AtBitmap(t, i, id)
  {
    var work, at := s.jobs[k].layer, s.jobs[k].ids[n];
    var q := ServeStep(c[work], s.stores[work], at, p);
    ServedIsCovered(c[work], s.stores[work], at, p);
    ServeLands(c, s, i, k, n, p);
    if q.1.Load? || q.1.Swap? {
      LandsAtBitmap(DrainStep(c, s, i, k, DrainPc.Serve(n, p)), i, n, q.1);
    }
  }

  lemma ServeCoversRow(c: Layers, s: State, i: nat, k: nat, n: nat, p: ServePc, l: nat, id: int)
    requires ValidLayers(c) && WellFormed(s) && Layered(c, s) && Covered(c, s) && i < |s.threads| && k == |s.jobs| - 1
    requires Draining(s, s.threads[i]) == Some((k, DrainPc.Serve(n, p))) && DrainEnabled(c, s, k, DrainPc.Serve(n, p)) && !p.Emit?
    requires DrainOf(s.threads[i]) == Some(DrainPc.Serve(n, p))
    requires p.Start? ==> InTable(c[s.jobs[k].layer], s.jobs[k].ids[n])
    requires |DrainStep(c, s, i, k, DrainPc.Serve(n, p)).stores| == |c|
    requires l < |c| && c[l].tracked && id in DrainStep(c, s, i, k, DrainPc.Serve(n, p)).stores[l].missed
    ensures id in DrainStep(c, s, i, k, DrainPc.Serve(n, p)).stores[l].met
            || InFlight(DrainStep(c, s, i, k, DrainPc.Serve(n, p)), l, id)
  {
    var t := DrainStep(c, s, i, k, DrainPc.Serve(n, p));
    var work, at := s.jobs[k].layer, s.jobs[k].ids[n];
    if l == work {
      ServedIsCovered(c[work], s.stores[work], at, p);
    }
    if l == work && id == at && (p.Tally? || p.Load? || p.Swap?) {
      ServeCoversOwn(c, s, i, k, n, p);
    } else if id !in s.stores[l].met {
      var j: nat :| AtBitmap(s, j, id);
      ServeFlight(c, s, i, k, n, p, j, id);
    }
  }

  lemma EmitSameFlight(c: Layers, s: State, i: nat, k: nat, n: nat, row: Row)
    requires ValidLayers(c) && WellFormed(s) && i < |s.threads| && k == |s.jobs| - 1
    requires Draining(s, s.threads[i]) == Some((k, DrainPc.Serve(n, Emit(row))))
    requires DrainOf(s.threads[i]) == Some(DrainPc.Serve(n, Emit(row)))
    requires DrainEnabled(c, s, k, DrainPc.Serve(n, Emit(row)))
    ensures SameFlight(s, DrainStep(c, s, i, k, DrainPc.Serve(n, Emit(row))))
  {
  }

  lemma NothingSameFlight(c: Layers, s: State, i: nat, k: nat, d: DrainPc)
    requires ValidLayers(c) && WellFormed(s) && i < |s.threads| && Draining(s, s.threads[i]) == Some((k, d))
    requires DrainEnabled(c, s, k, d) && ServesNothing(c, s, k, d)
    ensures SameFlight(s, DrainStep(c, s, i, k, d))
  {
    NothingServed(c, s, i, k, d);
    forall j: nat, id | AtBitmap(s, j, id)
      ensures AtBitmap(DrainStep(c, s, i, k, d), j, id)
    {
      ThreadServesNothing(c, s, i, k, d, j);
    }
  }

  lemma OutsideSameFlight(c: Layers, s: State, a: Action)
    requires ValidLayers(c) && Enabled(c, s, a) && !a.Run? && (a.Step? ==> Draining(s, s.threads[a.thread]).None?)
    ensures SameFlight(s, After(c, s, a)) && After(c, s, a).stores == s.stores
  {
    SameServiceOutside(c, s, a);
    forall j: nat, id | AtBitmap(s, j, id)
      ensures AtBitmap(After(c, s, a), j, id)
    {
      assert PendingWeight(After(c, s, a).threads[j], ()) == PendingWeight(s.threads[j], ()) == 1;
    }
  }

  /** While no job is open nobody serves. */
  lemma NobodyServes(s: State, i: nat)
    requires Tickets(s) && !Open(s.threads[0].c) && i < |s.threads|
    ensures ServingAt(s.threads[i]).None?
  {
    NoTicketOutside(s, i);
  }

  lemma RunCovers(c: Layers, s: State, a: Action)
    requires ValidLayers(c) && Data(c, s) && Covered(c, s) && Enabled(c, s, a) && a.Run?
    ensures Layered(c, After(c, s, a)) && Covered(c, After(c, s, a))
  {
    forall l, id | 0 <= l < |c| && c[l].tracked && id in s.stores[l].missed
      ensures id in s.stores[l].met
    {
      if InFlight(s, l, id) {
        var i: nat :| AtBitmap(s, i, id);
        NobodyServes(s, i);
      }
    }
  }

  lemma CoveredKept(c: Layers, s: State, a: Action)
    requires ValidLayers(c) && Data(c, s) && Covered(c, s) && Enabled(c, s, a) && Data(c, After(c, s, a))
    ensures Covered(c, After(c, s, a))
  {
    if a.Step? && Draining(s, s.threads[a.thread]).Some? {
      var (k, d) := Draining(s, s.threads[a.thread]).value;
      ServesCurrentJob(s, a.thread, k, d);
      if d.Serve? && d.p.Emit? {
        EmitSameFlight(c, s, a.thread, k, d.ticket, d.p.row);
        EmitShape(c, s, a.thread, k, d.ticket, d.p.row);
        SameFlightCovers(c, s, After(c, s, a));
      } else if d.Serve? && (d.p.Start? ==> InTable(c[s.jobs[k].layer], s.jobs[k].ids[d.ticket])) {
        ServeCovers(c, s, a.thread, k, d.ticket, d.p);
      } else {
        NothingSameFlight(c, s, a.thread, k, d);
        NothingServed(c, s, a.thread, k, d);
        SameFlightCovers(c, s, After(c, s, a));
      }
    } else if a.Run? {
      RunCovers(c, s, a);
    } else {
      OutsideSameFlight(c, s, a);
      SameFlightCovers(c, s, After(c, s, a));
    }
  }

  /** While no job is open nothing is in flight. */
  lemma AllCounted(s: State, l: nat)
    requires Tickets(s) && !Open(s.threads[0].c)
    ensures UncountedAt(s, l) == 0 && forall id :: !InFlight(s, l, id)
  {
    forall i | 0 <= i < |s.threads|
      ensures ServingAt(s.threads[i]).None?
    {
      NobodyServes(s, i);
    }
    NobodyServing(s.threads);
  }

  /** An owned position that was counted as a hit or a miss and whose row is not written yet. */
  ghost function Charged(t: Thread, e: (Config, seq<int>)): nat
  {
    match DrainOf(t)
    case Some(Serve(n, p)) =>
      if n < |e.1| && Owned(e.0, e.1[n]) && (p.Load? || p.Swap? || p.Won? || p.Put? || p.Emit?) then 1 else 0
    case _ => 0
  }

  /** Owned positions among the first `n` of a job that are written. */
  function WrittenOwned(config: Config, ids: seq<int>, served: seq<nat>, n: nat): nat
    requires n <= |ids| == |served|
  {
    if n == 0 then 0
    else WrittenOwned(config, ids, served, n - 1) + if Owned(config, ids[n - 1]) && served[n - 1] > 0 then 1 else 0
  }

  /** Those of the jobs for layer `l` among the first `k` jobs. */
  function WrittenIn(config: Config, jobs: seq<Job>, l: nat, k: nat): nat
    requires k <= |jobs| && forall j :: 0 <= j < |jobs| ==> |jobs[j].ids| == |jobs[j].served|
  {
    if k == 0 then 0
    else WrittenIn(config, jobs, l, k - 1)
         + if jobs[k - 1].layer == l then WrittenOwned(config, jobs[k - 1].ids, jobs[k - 1].served, |jobs[k - 1].ids|) else 0
  }

  lemma {:induction false} WrittenGrows(config: Config, ids: seq<int>, served: seq<nat>, t: nat, n: nat)
    requires n <= |ids| == |served| && t < |ids| && served[t] == 0
    ensures WrittenOwned(config, ids, served[t := 1], n)
            == WrittenOwned(config, ids, served, n) + if t < n && Owned(config, ids[t]) then 1 else 0
  {
    if n > 0 {
      WrittenGrows(config, ids, served, t, n - 1);
    }
  }

  lemma {:induction false} WrittenSame(config: Config, jobs: seq<Job>, more: seq<Job>, l: nat, k: nat)
    requires k <= |jobs| && k <= |more| && jobs[..k] == more[..k]
    requires forall j :: 0 <= j < |jobs| ==> |jobs[j].ids| == |jobs[j].served|
    requires forall j :: 0 <= j < |more| ==> |more[j].ids| == |more[j].served|
    ensures WrittenIn(config, more, l, k) == WrittenIn(config, jobs, l, k)
  {
    if k > 0 {
      assert jobs[..k - 1] == jobs[..k][..k - 1] && more[..k - 1] == more[..k][..k - 1];
      assert jobs[k - 1] == jobs[..k][k - 1] && more[k - 1] == more[..k][k - 1];
      WrittenSame(config, jobs, more, l, k - 1);
    }
  }

  /** The ids of the job at work. */
  function CurrentIds(s: State): seq<int>
  {
    if |s.jobs| > 0 then s.jobs[|s.jobs| - 1].ids else []
  }

  ghost function ChargedAt(c: Layers, s: State, l: nat): nat
    requires l < |c|
  {
    if AtWork(s, l) then Total(s.threads, (c[l], CurrentIds(s)), Charged) else 0
  }

  /** Hits and misses of a layer are the owned positions written and those on their way. */
  ghost predicate Tallied(c: Layers, s: State, l: nat)
    requires Layered(c, s) && JobsInv(s) && l < |c|
  {
    s.stores[l].hits + s.stores[l].misses == WrittenIn(c[l], s.jobs, l, |s.jobs|) + ChargedAt(c, s, l)
  }

  /** What a step charges, in one equation with what it counts. */
  lemma ServeCharges(c: Layers, s: State, i: nat, k: nat, n: nat, p: ServePc)
    requires ValidLayers(c) && WellFormed(s) && Layered(c, s) && i < |s.threads| && k == |s.jobs| - 1
    requires Draining(s, s.threads[i]) == Some((k, DrainPc.Serve(n, p))) && DrainEnabled(c, s, k, DrainPc.Serve(n, p)) && !p.Emit?
    requires DrainOf(s.threads[i]) == Some(DrainPc.Serve(n, p))
    requires p.Start? ==> InTable(c[s.jobs[k].layer], s.jobs[k].ids[n])
    ensures var t, work := DrainStep(c, s, i, k, DrainPc.Serve(n, p)), s.jobs[k].layer;
            && |t.threads| == |s.threads| && |t.stores| == |s.stores|
            && t.stores[work].hits + t.stores[work].misses + Charged(s.threads[i], (c[work], s.jobs[k].ids))
               == s.stores[work].hits + s.stores[work].misses + Charged(t.threads[i], (c[work], s.jobs[k].ids))
  {
    ServeStore(c, s, i, k, n, p);
    StepCounts(c[s.jobs[k].layer], s.stores[s.jobs[k].layer], s.jobs[k].ids[n], p);
  }

  lemma ServeTallied(c: Layers, s: State, i: nat, k: nat, n: nat, p: ServePc, l: nat)
    requires ValidLayers(c) && WellFormed(s) && Layered(c, s) && JobsInv(s) && i < |s.threads| && k == |s.jobs| - 1
    requires Draining(s, s.threads[i]) == Some((k, DrainPc.Serve(n, p))) && DrainEnabled(c, s, k, DrainPc.Serve(n, p)) && !p.Emit?
    requires DrainOf(s.threads[i]) == Some(DrainPc.Serve(n, p))
    requires p.Start? ==> InTable(c[s.jobs[k].layer], s.jobs[k].ids[n])
    requires l < |c| && Tallied(c, s, l)
    ensures var t := DrainStep(c, s, i, k, DrainPc.Serve(n, p));
            Layered(c, t) && JobsInv(t) && Tallied(c, t, l)
  {
    var t := DrainStep(c, s, i, k, DrainPc.Serve(n, p));
    ServeStore(c, s, i, k, n, p);
    if AtWork(s, l) {
      ServeCharges(c, s, i, k, n, p);
      TotalUpdate(s.threads, (c[l], CurrentIds(s)), Charged, i, t.threads[i]);
    }
  }

  /** Copying a row out turns a charged position into a written one. */
  lemma EmitCharges(c: Layers, s: State, i: nat, k: nat, n: nat, row: Row)
    requires ValidLayers(c) && WellFormed(s) && i < |s.threads| && k == |s.jobs| - 1
    requires Draining(s, s.threads[i]) == Some((k, DrainPc.Serve(n, Emit(row))))
    requires DrainOf(s.threads[i]) == Some(DrainPc.Serve(n, Emit(row)))
    requires DrainEnabled(c, s, k, DrainPc.Serve(n, Emit(row))) && s.jobs[k].served[n] == 0
    ensures var t, e := DrainStep(c, s, i, k, DrainPc.Serve(n, Emit(row))), (c[s.jobs[k].layer], s.jobs[k].ids);
            && |t.threads| == |s.threads| && t.threads == s.threads[i := t.threads[i]] && t.stores == s.stores
            && |t.jobs| == |s.jobs| && t.jobs[..k] == s.jobs[..k] && t.jobs[k].layer == s.jobs[k].layer
            && t.jobs[k].ids == s.jobs[k].ids && t.jobs[k].served == s.jobs[k].served[n := 1]
            && Charged(t.threads[i], e) == 0 && Charged(s.threads[i], e) == if Owned(e.0, e.1[n]) then 1 else 0
  {
  }

  lemma EmitTallied(c: Layers, s: State, i: nat, k: nat, n: nat, row: Row, l: nat)
    requires ValidLayers(c) && WellFormed(s) && Layered(c, s) && JobsInv(s) && i < |s.threads| && k == |s.jobs| - 1
    requires Draining(s, s.threads[i]) == Some((k, DrainPc.Serve(n, Emit(row))))
    requires DrainOf(s.threads[i]) == Some(DrainPc.Serve(n, Emit(row)))
    requires DrainEnabled(c, s, k, DrainPc.Serve(n, Emit(row))) && s.jobs[k].served[n] == 0
    requires Layered(c, DrainStep(c, s, i, k, DrainPc.Serve(n, Emit(row))))
    requires JobsInv(DrainStep(c, s, i, k, DrainPc.Serve(n, Emit(row))))
    requires l < |c| && Tallied(c, s, l)
    ensures Tallied(c, DrainStep(c, s, i, k, DrainPc.Serve(n, Emit(row))), l)
  {
    var t := DrainStep(c, s, i, k, DrainPc.Serve(n, Emit(row)));
    EmitCharges(c, s, i, k, n, row);
    WrittenSame(c[l], s.jobs, t.jobs, l, k);
    if AtWork(s, l) {
      TotalUpdate(s.threads, (c[l], CurrentIds(s)), Charged, i, t.threads[i]);
      WrittenGrows(c[l], s.jobs[k].ids, s.jobs[k].served, n, |s.jobs[k].ids|);
    }
  }

  /** Nothing that was counted, charged or written has changed. */
  ghost predicate SameTally(s: State, t: State)
  {
    && t.stores == s.stores && t.jobs == s.jobs && |t.threads| == |s.threads|
    && forall j :: 0 <= j < |s.threads| ==> SameCharge(s.threads[j], t.threads[j])
  }

  ghost predicate SameCharge(a: Thread, b: Thread)
  {
    forall e :: Charged(b, e) == Charged(a, e)
  }

  lemma SameTallied(c: Layers, s: State, t: State, l: nat)
    requires Layered(c, s) && JobsInv(s) && l < |c| && Tallied(c, s, l) && SameTally(s, t)
    ensures Layered(c, t) && JobsInv(t) && Tallied(c, t, l)
  {
    var e := (c[l], CurrentIds(s));
    forall j | 0 <= j < |s.threads|
      ensures Charged(t.threads[j], e) == Charged(s.threads[j], e)
    {
      assert SameCharge(s.threads[j], t.threads[j]);
    }
    TotalSame(s.threads, t.threads, e, Charged);
  }

  lemma NothingSameTally(c: Layers, s: State, i: nat, k: nat, d: DrainPc)
    requires ValidLayers(c) && WellFormed(s) && i < |s.threads| && Draining(s, s.threads[i]) == Some((k, d))
    requires DrainEnabled(c, s, k, d) && ServesNothing(c, s, k, d)
    ensures SameTally(s, DrainStep(c, s, i, k, d))
  {
    NothingServed(c, s, i, k, d);
    forall j | 0 <= j < |s.threads|
      ensures SameCharge(s.threads[j], DrainStep(c, s, i, k, d).threads[j])
    {
      ThreadServesNothing(c, s, i, k, d, j);
    }
  }

  lemma CallerSameCharge(s: State, j: nat)
    requires WellFormed(s) && |s.jobs| > 0 && Draining(s, s.threads[0]).None? && j < |s.threads|
    ensures |CallerStep(s).threads| == |s.threads| && SameCharge(s.threads[j], CallerStep(s).threads[j])
  {
    assert j == 0 || CallerStep(s).threads[j] == s.threads[j] || CallerStep(s).threads[j] == WakeWorker(s.threads[j]);
  }

  lemma WorkerSameCharge(s: State, i: nat, j: nat)
    requires WellFormed(s) && 1 <= i < |s.threads| && Draining(s, s.threads[i]).None? && j < |s.threads|
    ensures |WorkerStep(s, i).threads| == |s.threads| && SameCharge(s.threads[j], WorkerStep(s, i).threads[j])
  {
  }

  lemma OutsideSameTally(c: Layers, s: State, a: Action)
    requires ValidLayers(c) && Enabled(c, s, a) && !a.Run? && (a.Step? ==> Draining(s, s.threads[a.thread]).None?)
    ensures SameTally(s, After(c, s, a))
  {
    SameServiceOutside(c, s, a);
    forall j | 0 <= j < |s.threads|
      ensures SameCharge(s.threads[j], After(c, s, a).threads[j])
    {
      if a.Step? {
        if a.thread == 0 {
          CallerSameCharge(s, j);
        } else {
          WorkerSameCharge(s, a.thread, j);
        }
      }
    }
  }

  lemma {:induction false} NobodyCharged(threads: seq<Thread>, e: (Config, seq<int>))
    requires forall i :: 0 <= i < |threads| ==> ServingAt(threads[i]).None?
    ensures Total(threads, e, Charged) == 0
  {
    if threads != [] {
      assert ServingAt(threads[0]).None?;
      NobodyCharged(threads[1..], e);
    }
  }

  lemma {:induction false} NothingWritten(config: Config, ids: seq<int>, served: seq<nat>, n: nat)
    requires n <= |ids| == |served| && forall t :: 0 <= t < n ==> served[t] == 0
    ensures WrittenOwned(config, ids, served, n) == 0
  {
    if n > 0 {
      NothingWritten(config, ids, served, n - 1);
    }
  }

  lemma RunTallied(c: Layers, s: State, a: Action, l: nat)
    requires ValidLayers(c) && Data(c, s) && Enabled(c, s, a) && a.Run? && Data(c, After(c, s, a))
    requires l < |c| && Tallied(c, s, l)
    ensures Tallied(c, After(c, s, a), l)
  {
    var t := After(c, s, a);
    forall i | 0 <= i < |s.threads|
      ensures ServingAt(s.threads[i]).None? && ServingAt(t.threads[i]).None?
    {
      NobodyServes(s, i);
    }
    NobodyCharged(s.threads, (c[l], CurrentIds(s)));
    NobodyCharged(t.threads, (c[l], CurrentIds(t)));
    WrittenSame(c[l], s.jobs, t.jobs, l, |s.jobs|);
    NothingWritten(c[a.layer], a.ids, t.jobs[|s.jobs|].served, |a.ids|);
  }

  lemma TalliedKept(c: Layers, s: State, a: Action, l: nat)
    requires ValidLayers(c) && Data(c, s) && Enabled(c, s, a) && Data(c, After(c, s, a))
    requires l < |c| && Tallied(c, s, l)
    ensures Tallied(c, After(c, s, a), l)
  {
    if a.Step? && Draining(s, s.threads[a.thread]).Some? {
      var (k, d) := Draining(s, s.threads[a.thread]).value;
      ServesCurrentJob(s, a.thread, k, d);
      if d.Serve? && d.p.Emit? {
        NotYetWritten(s, a.thread, k, d.ticket, d.p);
        EmitTallied(c, s, a.thread, k, d.ticket, d.p.row, l);
      } else if d.Serve? && (d.p.Start? ==> InTable(c[s.jobs[k].layer], s.jobs[k].ids[d.ticket])) {
        ServeTallied(c, s, a.thread, k, d.ticket, d.p, l);
      } else {
        NothingSameTally(c, s, a.thread, k, d);
        SameTallied(c, s, After(c, s, a), l);
      }
    } else if a.Run? {
      RunTallied(c, s, a, l);
    } else {
      OutsideSameTally(c, s, a);
      SameTallied(c, s, After(c, s, a), l);
    }
  }

  lemma NotYetWritten(s: State, i: nat, k: nat, n: nat, p: ServePc)
    requires Tickets(s) && i < |s.threads| && DrainOf(s.threads[i]) == Some(DrainPc.Serve(n, p)) && k == |s.jobs| - 1
    requires k >= 0 && n < |s.jobs[k].served|
    ensures s.jobs[k].served[n] == 0
  {
    assert Held(s, i);
    assert i > 0 ==> WorkerInv(s, i);
  }

  /** Everything that is known of the counters. */
  ghost predicate Counting(c: Layers, s: State)
    requires ValidLayers(c)
  {
    Data(c, s) && Covered(c, s) && forall l :: 0 <= l < |c| ==> Tallied(c, s, l)
  }

  lemma FreshCounting(c: Layers, workers: nat)
    requires ValidLayers(c)
    ensures Counting(c, Fresh(c, workers))
  {
    FreshData(c, workers);
  }

  lemma CountingKept(c: Layers, s: State, a: Action)
    requires ValidLayers(c) && Counting(c, s) && Enabled(c, s, a)
    ensures Counting(c, After(c, s, a))
  {
    DataKept(c, s, a);
    CoveredKept(c, s, a);
    forall l | 0 <= l < |c|
      ensures Tallied(c, After(c, s, a), l)
    {
      TalliedKept(c, s, a, l);
    }
  }

  lemma {:induction false} RunCounting(c: Layers, workers: nat, states: seq<State>, run: seq<Action>, n: nat)
    requires ValidLayers(c) && IsRun(c, states, run) && states[0] == Fresh(c, workers) && n <= |run|
    ensures Counting(c, states[n])
  {
    if n == 0 {
      FreshCounting(c, workers);
    } else {
      RunCounting(c, workers, states, run, n - 1);
      CountingKept(c, states[n - 1], run[n - 1]);
    }
  }

  lemma ReachableCounting(c: Layers, workers: nat, s: State)
    requires ValidLayers(c) && Reachable(c, workers, s)
    ensures Counting(c, s)
  {
    var states, run :| IsRun(c, states, run) && states[0] == Fresh(c, workers) && states[|run|] == s;
    RunCounting(c, workers, states, run, |run|);
  }

  /** What that says of one layer's bitmap. */
  lemma LayerCounting(c: Layers, s: State, l: nat)
    requires ValidLayers(c) && Counting(c, s) && l < |c| == |s.stores| && c[l].tracked
    ensures BitsAreRows(c[l], s.stores[l].seen, s.stores[l].met, s.stores[l].missed)
    ensures s.stores[l].unique + UncountedAt(s, l) == |s.stores[l].met|
    ensures forall id :: id in s.stores[l].missed ==> id in s.stores[l].met || InFlight(s, l, id)
  {
    assert StoreInv(c[l], s.stores[l]) && Balanced(c[l], s.stores[l], PendingAt(s, l), UncountedAt(s, l));
  }

  /** In every reachable state: the bit of an owned row is set if and only if it was marked, and the counter with the
      threads that have yet to count a bit they set is the number of marked rows. */
  lemma BitsAreMarkedRows(c: Layers, workers: nat, s: State, l: nat)
    requires ValidLayers(c) && Reachable(c, workers, s) && l < |c| == |s.stores| && c[l].tracked
    ensures s.stores[l].unique + UncountedAt(s, l) == |s.stores[l].met| && c[l].hi - c[l].lo <= 8 * |s.stores[l].seen|
    ensures forall id: int {:trigger id in s.stores[l].met} :: c[l].lo <= id < c[l].hi ==>
        ((id - c[l].lo) % 8 in s.stores[l].seen[(id - c[l].lo) / 8] <==> id in s.stores[l].met)
    ensures forall id :: id in s.stores[l].missed ==> id in s.stores[l].met || InFlight(s, l, id)
    ensures s.stores[l].met <= s.stores[l].missed
  {
    ReachableCounting(c, workers, s);
    LayerCounting(c, s, l);
    AllBits(c[l], s.stores[l].seen, s.stores[l].met, s.stores[l].missed);
  }

  lemma IdleCounted(c: Layers, workers: nat, s: State, l: nat)
    requires ValidLayers(c) && Reachable(c, workers, s) && WellFormed(s) && s.threads[0].c.Idle?
    ensures UncountedAt(s, l) == 0 && forall id :: !InFlight(s, l, id)
  {
    ReachableData(c, workers, s);
    AllCounted(s, l);
  }

  /** Distinct rows are counted exactly: once `run` has returned, the bit of an owned row is set if and only if the row
      was ever missed, and the unique counter is the number of rows that were. */
  lemma DistinctMissesAreCounted(c: Layers, workers: nat, s: State, l: nat)
    requires ValidLayers(c) && Reachable(c, workers, s) && WellFormed(s) && s.threads[0].c.Idle?
    requires l < |c| == |s.stores| && c[l].tracked
    ensures s.stores[l].unique == |s.stores[l].missed| && c[l].hi - c[l].lo <= 8 * |s.stores[l].seen|
    ensures forall id: int {:trigger id in s.stores[l].missed} :: c[l].lo <= id < c[l].hi ==>
        ((id - c[l].lo) % 8 in s.stores[l].seen[(id - c[l].lo) / 8] <==> id in s.stores[l].missed)
  {
    IdleCounted(c, workers, s, l);
    BitsAreMarkedRows(c, workers, s, l);
    forall id | id in s.stores[l].missed
      ensures id in s.stores[l].met
    {
      assert !InFlight(s, l, id);
    }
    assert s.stores[l].missed == s.stores[l].met;
  }

  /** Owned ids that the first `k` jobs asked of layer `l`. */
  function Asked(config: Config, jobs: seq<Job>, l: nat, k: nat): nat
    requires k <= |jobs|
  {
    if k == 0 then 0
    else Asked(config, jobs, l, k - 1) + if jobs[k - 1].layer == l then OwnedIn(config, jobs[k - 1].ids, |jobs[k - 1].ids|) else 0
  }

  lemma {:induction false} AllWritten(config: Config, ids: seq<int>, served: seq<nat>, n: nat)
    requires n <= |ids| == |served| && forall t :: 0 <= t < n ==> served[t] == 1
    ensures WrittenOwned(config, ids, served, n) == OwnedIn(config, ids, n)
  {
    if n > 0 {
      AllWritten(config, ids, served, n - 1);
    }
  }

  lemma {:induction false} AllAsked(config: Config, jobs: seq<Job>, l: nat, k: nat)
    requires k <= |jobs| && forall j :: 0 <= j < |jobs| ==> |jobs[j].ids| == |jobs[j].served|
    requires forall j, t :: 0 <= j < k && 0 <= t < |jobs[j].served| ==> jobs[j].served[t] == 1
    ensures WrittenIn(config, jobs, l, k) == Asked(config, jobs, l, k)
  {
    if k > 0 {
      AllAsked(config, jobs, l, k - 1);
      AllWritten(config, jobs[k - 1].ids, jobs[k - 1].served, |jobs[k - 1].ids|);
    }
  }

  /** Every lookup is counted once: when `run` has returned, the hits and the misses of a layer are together the owned
      positions that its jobs asked for. */
  lemma LookupsAreCounted(c: Layers, workers: nat, s: State, l: nat)
    requires ValidLayers(c) && Reachable(c, workers, s) && WellFormed(s) && s.threads[0].c.Idle? && l < |c| == |s.stores|
    ensures s.stores[l].hits + s.stores[l].misses == Asked(c[l], s.jobs, l, |s.jobs|)
  {
    ReachableCounting(c, workers, s);
    assert Tallied(c, s, l);
    forall i | 0 <= i < |s.threads|
      ensures ServingAt(s.threads[i]).None?
    {
      NobodyServes(s, i);
    }
    NobodyCharged(s.threads, (c[l], CurrentIds(s)));
    forall j, t | 0 <= j < |s.jobs| && 0 <= t < |s.jobs[j].served|
      ensures s.jobs[j].served[t] == 1
    {
      assert Served(s, j, t) == 1;
    }
    AllAsked(c[l], s.jobs, l, |s.jobs|);
  }
}

/** Every step of every thread keeps the ticket invariant. There is one lemma for each kind of step. Steps that touch
    no ticket (waking, waiting, publishing while nobody is inside) are compared with their predecessor by `SameTickets`
    or happen while no job is open. Each place of the ticket loop has three parts: its books (what is counted), the
    ticket of every thread (`Held`), and what only the moving thread's change means for the others (`OnlyMoved`):
    drawing a ticket, testing it against the number of chunks, serving and writing its position, finishing it, and
    signalling the caller. `TicketsKept` puts them together. */
module PoolTicketSteps {
  import opened Options
  import opened Rows
  import opened ServeSteps
  import opened Pool
  import opened PoolControl
  import opened PoolTickets

  /** `s'` differs from `s` in nothing that the ticket of any thread depends on. */
  ghost predicate SameTickets(s: State, s': State)
  {
    && |s'.threads| == |s.threads| && |s'.jobs| == |s.jobs|
    && s'.next == s.next && s'.chunks == s.chunks && s'.done == s.done && s'.remaining == s.remaining
    && (forall k, t :: 0 <= k < |s.jobs| && 0 <= t ==> Served(s', k, t) == Served(s, k, t))
    && (forall k :: 0 <= k < |s.jobs| ==> |s'.jobs[k].ids| == |s.jobs[k].ids|)
    && (forall i :: 0 <= i < |s.threads| ==>
                      && TicketOf(s'.threads[i]) == TicketOf(s.threads[i])
                      && Writes(s'.threads[i]) == Writes(s.threads[i]))
  }

  /** Thread `i` did not get past its ticket test without passing it. */
  ghost predicate Untested(s: State, s': State, i: nat)
    requires i < |s.threads| == |s'.threads|
  {
    s'.threads[i] == s.threads[i] || TicketOf(s.threads[i]).None? || TicketOf(s.threads[i]).value < s.chunks
  }

  /** Steps that touch no ticket: only the caller's phase has to be checked. */
  lemma SameTicketsKept(s: State, s': State)
    requires Tickets(s) && Control(s') && SameTickets(s, s')
    requires Books(s') && Returned(s')
    requires Open(s'.threads[0].c) ==> Open(s.threads[0].c) || s.next == 0
    requires forall i :: 0 <= i < |s.threads| ==> Untested(s, s', i)
    ensures Tickets(s')
  {
    forall i | 0 <= i < |s'.threads|
      ensures Held(s', i)
    {
      assert Held(s, i) && Untested(s, s', i);
    }
    forall i, j | 0 <= i < |s'.threads| && 0 <= j < |s'.threads|
      ensures Apart(s', i, j)
    {
      assert Apart(s, i, j);
    }
    if Open(s'.threads[0].c) {
      forall t | 0 <= t < s'.next && t < s'.chunks
        ensures Somewhere(s', t)
      {
        assert Somewhere(s, t);
        if t !in s.done {
          var i :| 0 <= i < |s.threads| && TicketOf(s.threads[i]) == Some(t);
          assert TicketOf(s'.threads[i]) == Some(t);
        }
      }
    }
  }

  /** While no job is open nobody holds a ticket, so the counters may change freely. */
  lemma NoTicketsKept(s: State, s': State)
    requires Tickets(s) && Control(s') && |s'.threads| == |s.threads|
    requires !Open(s.threads[0].c)
    requires forall i :: 0 <= i < |s.threads| && TicketOf(s.threads[i]).None? ==> TicketOf(s'.threads[i]).None?
    requires Books(s') && Returned(s')
    requires Open(s'.threads[0].c) ==> s'.next == 0
    ensures Tickets(s')
  {
    forall i | 0 <= i < |s'.threads|
      ensures TicketOf(s'.threads[i]).None?
    {
      NoTicketOutside(s, i);
    }
  }

  lemma CallerTickets(s: State)
    requires Tickets(s) && |s.jobs| > 0 && Draining(s, s.threads[0]).None?
    requires Control(CallerStep(s))
    ensures Tickets(CallerStep(s))
  {
    var s' := CallerStep(s);
    CallerBooks(s);
    CallerReturned(s);
    if Open(s.threads[0].c) {
      SameTicketsHere(s);
      SameTicketsKept(s, s');
    } else {
      NoTicketsKept(s, s');
    }
  }

  lemma CallerBooks(s: State)
    requires WellFormed(s) && CallerInv(s) && Books(s) && |s.jobs| > 0 && Draining(s, s.threads[0]).None?
    ensures WellFormed(CallerStep(s)) && Books(CallerStep(s))
  {
    var s' := CallerStep(s);
    assert s'.jobs == s.jobs;
    assert forall t: nat :: ServedNow(s', t) == ServedNow(s, t);
  }

  lemma CallerReturned(s: State)
    requires Tickets(s) && |s.jobs| > 0 && Draining(s, s.threads[0]).None?
    requires WellFormed(CallerStep(s))
    ensures Returned(CallerStep(s))
  {
    var s' := CallerStep(s);
    assert s'.jobs == s.jobs;
    if s.threads[0].c.ReadActive? {
      NothingRemains(s);
    }
    forall k, t | 0 <= k < |s'.jobs| && (k < |s'.jobs| - 1 || s'.threads[0].c.Idle?) && 0 <= t < |s'.jobs[k].ids|
      ensures Served(s', k, t) == 1
    {
      assert Served(s', k, t) == Served(s, k, t);
      if k == |s.jobs| - 1 && s.threads[0].c.ReadActive? {
        assert ServedNow(s, t) == 1;
      }
    }
  }

  /** Outside the publishing steps the caller leaves every thread's ticket alone. */
  lemma SameTicketsHere(s: State)
    requires Tickets(s) && |s.jobs| > 0 && Draining(s, s.threads[0]).None? && Open(s.threads[0].c)
    ensures SameTickets(s, CallerStep(s))
    ensures forall i :: 0 <= i < |s.threads| ==> Untested(s, CallerStep(s), i)
  {
    var s' := CallerStep(s);
    forall i | 0 <= i < |s.threads|
      ensures TicketOf(s'.threads[i]) == TicketOf(s.threads[i]) && Writes(s'.threads[i]) == Writes(s.threads[i])
      ensures Untested(s, s', i)
    {
      assert i == 0 || s'.threads[i] == s.threads[i] || s'.threads[i] == WakeWorker(s.threads[i]);
    }
  }

  lemma SameTicketsThere(s: State, i: nat)
    requires WellFormed(s) && 1 <= i < |s.threads| && !s.threads[i].w.WorkerDrains?
    ensures WellFormed(WorkerStep(s, i)) && SameTickets(s, WorkerStep(s, i))
    ensures forall j :: 0 <= j < |s.threads| ==> Untested(s, WorkerStep(s, i), j)
  {
    var s' := WorkerStep(s, i);
    forall j | 0 <= j < |s.threads|
      ensures TicketOf(s'.threads[j]) == TicketOf(s.threads[j]) && Writes(s'.threads[j]) == Writes(s.threads[j])
      ensures Untested(s, s', j)
    {
      assert j == i || s'.threads[j] == s.threads[j] || s.threads[j] == Caller(Asleep);
    }
  }

  lemma WorkerTickets(s: State, i: nat)
    requires Tickets(s) && 1 <= i < |s.threads| && MutexFree(s) && !s.threads[i].w.WorkerDrains?
    requires Control(WorkerStep(s, i))
    ensures Tickets(WorkerStep(s, i))
  {
    var s' := WorkerStep(s, i);
    SameTicketsThere(s, i);
    assert forall t: nat :: ServedNow(s', t) == ServedNow(s, t);
    assert s'.threads[0] == s.threads[0] || (s.threads[0] == Caller(Asleep) && s'.threads[0] == Caller(WaitLock));
    SameTicketsKept(s, s');
  }

  /** Only thread `i` moved, and it kept its ticket or gave it up. */
  ghost predicate OnlyMoved(s: State, s': State, i: nat)
  {
    && i < |s.threads| == |s'.threads| && s'.next == s.next && s'.chunks == s.chunks && s.done <= s'.done
    && (forall j :: 0 <= j < |s.threads| && j != i ==> TicketOf(s'.threads[j]) == TicketOf(s.threads[j]))
    && (TicketOf(s'.threads[i]) == TicketOf(s.threads[i]) || TicketOf(s'.threads[i]).None?)
  }

  lemma ApartAfter(s: State, s': State, i: nat)
    requires OnlyMoved(s, s', i)
    requires forall j, l :: 0 <= j < |s.threads| && 0 <= l < |s.threads| ==> Apart(s, j, l)
    ensures forall j, l :: 0 <= j < |s'.threads| && 0 <= l < |s'.threads| ==> Apart(s', j, l)
  {
    forall j, l | 0 <= j < |s'.threads| && 0 <= l < |s'.threads|
      ensures Apart(s', j, l)
    {
      assert Apart(s, j, l);
    }
  }

  lemma SomewhereAfter(s: State, s': State, i: nat)
    requires OnlyMoved(s, s', i)
    requires forall t :: 0 <= t < s.next && t < s.chunks ==> Somewhere(s, t)
    requires TicketOf(s'.threads[i]).Some? || TicketOf(s.threads[i]).None?
             || TicketOf(s.threads[i]).value >= s.chunks || TicketOf(s.threads[i]).value in s'.done
    ensures forall t :: 0 <= t < s'.next && t < s'.chunks ==> Somewhere(s', t)
  {
    forall t | 0 <= t < s'.next && t < s'.chunks
      ensures Somewhere(s', t)
    {
      assert Somewhere(s, t);
      if TicketOf(s.threads[i]) != Some(t) {
        SomewhereElse(s, s', t, i);
      } else if TicketOf(s'.threads[i]) == Some(t) {
        assert TicketOf(s'.threads[i]) == Some(t);
      }
    }
  }

  lemma ClaimTickets(c: Layers, s: State, i: nat, k: nat)
    requires ValidLayers(c) && Tickets(s) && i < |s.threads| && Draining(s, s.threads[i]) == Some((k, Claim))
    requires Control(DrainStep(c, s, i, k, Claim))
    ensures Tickets(DrainStep(c, s, i, k, Claim))
  {
    var s' := DrainStep(c, s, i, k, Claim);
    assert i > 0 ==> WorkerInv(s, i);
    assert forall t: nat :: ServedNow(s', t) == ServedNow(s, t);
    assert forall j, t: nat :: 0 <= j < |s.jobs| ==> Served(s', j, t) == Served(s, j, t);
    forall j | 0 <= j < |s'.threads|
      ensures Held(s', j)
    {
      assert Held(s, j);
    }
    forall j, l | 0 <= j < |s'.threads| && 0 <= l < |s'.threads|
      ensures Apart(s', j, l)
    {
      assert Apart(s, j, l) && Held(s, j) && Held(s, l);
    }
    forall t | 0 <= t < s'.next && t < s'.chunks
      ensures Somewhere(s', t)
    {
      if t < s.next {
        SomewhereElse(s, s', t, i);
      } else {
        assert TicketOf(s'.threads[i]) == Some(t);
      }
    }
  }

  /** A ticket that thread `i` does not hold is found again if only thread `i` moved. */
  lemma SomewhereElse(s: State, s': State, t: nat, i: nat)
    requires Somewhere(s, t) && i < |s.threads| == |s'.threads| && s.done <= s'.done
    requires forall j :: 0 <= j < |s.threads| && j != i ==> TicketOf(s'.threads[j]) == TicketOf(s.threads[j])
    requires TicketOf(s.threads[i]) != Some(t)
    ensures Somewhere(s', t)
  {
    if t !in s.done {
      var j :| 0 <= j < |s.threads| && TicketOf(s.threads[j]) == Some(t);
      assert TicketOf(s'.threads[j]) == Some(t);
    }
  }

  lemma TestBooks(c: Layers, s: State, i: nat, k: nat, n: nat)
    requires ValidLayers(c) && WellFormed(s) && CallerInv(s) && Books(s) && Returned(s)
    requires i < |s.threads| && Held(s, i) && (i > 0 ==> WorkerInv(s, i))
    requires Draining(s, s.threads[i]) == Some((k, Test(n)))
    ensures WellFormed(DrainStep(c, s, i, k, Test(n)))
    ensures Books(DrainStep(c, s, i, k, Test(n))) && Returned(DrainStep(c, s, i, k, Test(n)))
  {
    var s' := DrainStep(c, s, i, k, Test(n));
    assert s'.jobs == s.jobs;
    assert forall t: nat :: ServedNow(s', t) == ServedNow(s, t);
    assert forall j, t: nat :: 0 <= j < |s.jobs| ==> Served(s', j, t) == Served(s, j, t);
  }

  lemma TestMoved(c: Layers, s: State, i: nat, k: nat, n: nat)
    requires ValidLayers(c) && WellFormed(s) && i < |s.threads| && Draining(s, s.threads[i]) == Some((k, Test(n)))
    ensures WellFormed(DrainStep(c, s, i, k, Test(n))) && OnlyMoved(s, DrainStep(c, s, i, k, Test(n)), i)
    ensures Open(DrainStep(c, s, i, k, Test(n)).threads[0].c) == Open(s.threads[0].c)
    ensures var t := TicketOf(DrainStep(c, s, i, k, Test(n)).threads[i]);
            t == Some(n) || (t.None? && (n >= s.chunks || n in DrainStep(c, s, i, k, Test(n)).done))
  {
  }

  lemma TestHeld(c: Layers, s: State, i: nat, k: nat, n: nat, j: nat)
    requires ValidLayers(c) && Tickets(s) && i < |s.threads| && Draining(s, s.threads[i]) == Some((k, Test(n)))
    requires j < |s.threads|
    ensures Held(DrainStep(c, s, i, k, Test(n)), j)
  {
    assert Held(s, j);
    assert forall t: nat :: ServedNow(DrainStep(c, s, i, k, Test(n)), t) == ServedNow(s, t);
  }

  lemma TestTickets(c: Layers, s: State, i: nat, k: nat, n: nat)
    requires ValidLayers(c) && Tickets(s) && i < |s.threads| && Draining(s, s.threads[i]) == Some((k, Test(n)))
    requires Control(DrainStep(c, s, i, k, Test(n)))
    ensures Tickets(DrainStep(c, s, i, k, Test(n)))
  {
    var s' := DrainStep(c, s, i, k, Test(n));
    assert i > 0 ==> WorkerInv(s, i);
    assert Held(s, i);
    TestBooks(c, s, i, k, n);
    forall j | 0 <= j < |s'.threads|
      ensures Held(s', j)
    {
      TestHeld(c, s, i, k, n, j);
    }
    TestMoved(c, s, i, k, n);
    ApartAfter(s, s', i);
    if Open(s.threads[0].c) {
      SomewhereAfter(s, s', i);
    }
  }

  lemma SameTicketsServing(c: Layers, s: State, i: nat, k: nat, d: DrainPc)
    requires ValidLayers(c) && WellFormed(s) && i < |s.threads| && Draining(s, s.threads[i]) == Some((k, d))
    requires DrainEnabled(c, s, k, d)
    requires d.Signal? || (d.Serve? && !d.p.Emit? && d.ticket < s.chunks)
    ensures WellFormed(DrainStep(c, s, i, k, d)) && SameTickets(s, DrainStep(c, s, i, k, d))
    ensures DrainStep(c, s, i, k, d).jobs == s.jobs
    ensures DrainStep(c, s, i, k, d).threads[0] == s.threads[0]
            || (s.threads[0] == Caller(Asleep) && DrainStep(c, s, i, k, d).threads[0] == Caller(WaitLock))
            || (s.threads[0].c.CallerDrains? && DrainStep(c, s, i, k, d).threads[0].c.CallerDrains?)
    ensures forall j :: 0 <= j < |s.threads| ==> Untested(s, DrainStep(c, s, i, k, d), j)
  {
    var s' := DrainStep(c, s, i, k, d);
    assert forall j, t: nat :: 0 <= j < |s.jobs| ==> Served(s', j, t) == Served(s, j, t);
    assert s'.threads[0] == s.threads[0] || s.threads[0] == Caller(Asleep) || i == 0;
  }

  /** A step inside the service of one position, an abort or a notification moves no ticket. */
  lemma ServeTickets(c: Layers, s: State, i: nat, k: nat, d: DrainPc)
    requires ValidLayers(c) && Tickets(s) && i < |s.threads| && Draining(s, s.threads[i]) == Some((k, d))
    requires DrainEnabled(c, s, k, d)
    requires d.Signal? || (d.Serve? && !d.p.Emit?)
    requires Control(DrainStep(c, s, i, k, d))
    ensures Tickets(DrainStep(c, s, i, k, d))
  {
    var s' := DrainStep(c, s, i, k, d);
    assert Held(s, i);
    assert i > 0 ==> WorkerInv(s, i);
    SameTicketsServing(c, s, i, k, d);
    assert forall t: nat :: ServedNow(s', t) == ServedNow(s, t);
    SameTicketsKept(s, s');
  }

  /** Writing a position raises its count from zero to one and leaves every other count alone. */
  lemma EmitBooks(c: Layers, s: State, i: nat, k: nat, n: nat, row: Row)
    requires ValidLayers(c) && WellFormed(s) && CallerInv(s) && Books(s) && Returned(s) && JobsInv(s)
    requires i < |s.threads| && Held(s, i) && (i > 0 ==> WorkerInv(s, i))
    requires Draining(s, s.threads[i]) == Some((k, Serve(n, Emit(row))))
    requires DrainEnabled(c, s, k, Serve(n, Emit(row)))
    ensures WellFormed(DrainStep(c, s, i, k, Serve(n, Emit(row))))
    ensures Books(DrainStep(c, s, i, k, Serve(n, Emit(row)))) && Returned(DrainStep(c, s, i, k, Serve(n, Emit(row))))
    ensures forall t: nat :: ServedNow(DrainStep(c, s, i, k, Serve(n, Emit(row))), t)
                             == if t == n then ServedNow(s, t) + 1 else ServedNow(s, t)
  {
    var s' := DrainStep(c, s, i, k, Serve(n, Emit(row)));
    assert k == |s.jobs| - 1;
    assert forall t: nat :: ServedNow(s', t) == if t == n then ServedNow(s, t) + 1 else ServedNow(s, t);
    assert forall j, t: nat :: 0 <= j < k ==> Served(s', j, t) == Served(s, j, t);
  }

  lemma EmitTickets(c: Layers, s: State, i: nat, k: nat, n: nat, row: Row)
    requires ValidLayers(c) && Tickets(s) && i < |s.threads|
    requires Draining(s, s.threads[i]) == Some((k, Serve(n, Emit(row))))
    requires DrainEnabled(c, s, k, Serve(n, Emit(row)))
    requires Control(DrainStep(c, s, i, k, Serve(n, Emit(row))))
    ensures Tickets(DrainStep(c, s, i, k, Serve(n, Emit(row))))
  {
    var s' := DrainStep(c, s, i, k, Serve(n, Emit(row)));
    assert i > 0 ==> WorkerInv(s, i);
    assert Held(s, i);
    EmitBooks(c, s, i, k, n, row);
    forall j | 0 <= j < |s'.threads|
      ensures Held(s', j)
    {
      assert Held(s, j) && Apart(s, i, j);
    }
    ApartAfter(s, s', i);
    SomewhereAfter(s, s', i);
  }

  /** `t` is `s` after thread `i` has finished ticket `n`. */
  ghost predicate FinishedTo(s: State, t: State, i: nat, n: nat)
    requires i < |s.threads|
  {
    && t.jobs == s.jobs && t.next == s.next && t.chunks == s.chunks
    && t.remaining == s.remaining - 1 && t.done == s.done + {n}
    && t.threads == s.threads[i := WithDrain(s.threads[i], if s.remaining == 1 then Signal else Claim)]
  }

  lemma FinishBooks(s: State, t: State, i: nat, k: nat, n: nat)
    requires WellFormed(s) && CallerInv(s) && Books(s) && Returned(s)
    requires i < |s.threads| && Held(s, i) && (i > 0 ==> WorkerInv(s, i))
    requires Draining(s, s.threads[i]) == Some((k, Finish(n))) && FinishedTo(s, t, i, n)
    ensures WellFormed(t) && Books(t) && Returned(t)
  {
    assert forall p: nat :: ServedNow(t, p) == ServedNow(s, p);
    assert forall j, p: nat :: 0 <= j < |s.jobs| ==> Served(t, j, p) == Served(s, j, p);
  }

  lemma FinishHeld(c: Layers, s: State, i: nat, k: nat, n: nat, j: nat)
    requires ValidLayers(c) && Tickets(s) && i < |s.threads| && Draining(s, s.threads[i]) == Some((k, Finish(n)))
    requires j < |s.threads|
    ensures Held(DrainStep(c, s, i, k, Finish(n)), j)
  {
    assert Held(s, j) && Apart(s, i, j);
    assert forall t: nat :: ServedNow(DrainStep(c, s, i, k, Finish(n)), t) == ServedNow(s, t);
  }

  lemma FinishMoved(c: Layers, s: State, i: nat, k: nat, n: nat)
    requires ValidLayers(c) && WellFormed(s) && i < |s.threads| && Draining(s, s.threads[i]) == Some((k, Finish(n)))
    ensures WellFormed(DrainStep(c, s, i, k, Finish(n))) && OnlyMoved(s, DrainStep(c, s, i, k, Finish(n)), i)
    ensures Open(DrainStep(c, s, i, k, Finish(n)).threads[0].c) == Open(s.threads[0].c)
    ensures var t := TicketOf(DrainStep(c, s, i, k, Finish(n)).threads[i]);
            t == Some(n) || (t.None? && (n >= s.chunks || n in DrainStep(c, s, i, k, Finish(n)).done))
  {
  }

  lemma FinishTickets(c: Layers, s: State, i: nat, k: nat, n: nat)
    requires ValidLayers(c) && Tickets(s) && i < |s.threads| && Draining(s, s.threads[i]) == Some((k, Finish(n)))
    requires Control(DrainStep(c, s, i, k, Finish(n)))
    ensures Tickets(DrainStep(c, s, i, k, Finish(n)))
  {
    var s' := DrainStep(c, s, i, k, Finish(n));
    assert i > 0 ==> WorkerInv(s, i);
    assert Held(s, i);
    FinishBooks(s, s', i, k, n);
    forall j | 0 <= j < |s'.threads|
      ensures Held(s', j)
    {
      FinishHeld(c, s, i, k, n, j);
    }
    FinishMoved(c, s, i, k, n);
    ApartAfter(s, s', i);
    if Open(s.threads[0].c) {
      SomewhereAfter(s, s', i);
    }
  }

  lemma RunTickets(c: Layers, s: State, layer: nat, ids: seq<int>, out: seq<Row>)
    requires ValidLayers(c) && Tickets(s) && Enabled(c, s, Run(layer, ids, out))
    requires Control(After(c, s, Run(layer, ids, out)))
    ensures Tickets(After(c, s, Run(layer, ids, out)))
  {
    var s' := After(c, s, Run(layer, ids, out));
    assert forall t: nat :: ServedNow(s', t) == 0;
    assert forall j, t: nat :: 0 <= j < |s.jobs| ==> Served(s', j, t) == Served(s, j, t);
    assert Returned(s');
    NoTicketsKept(s, s');
  }

  lemma SpuriousTickets(c: Layers, s: State, i: nat)
    requires ValidLayers(c) && Tickets(s) && Enabled(c, s, Spurious(i))
    requires Control(After(c, s, Spurious(i)))
    ensures Tickets(After(c, s, Spurious(i)))
  {
    var s' := After(c, s, Spurious(i));
    assert forall t: nat :: ServedNow(s', t) == ServedNow(s, t);
    assert forall j, t: nat :: 0 <= j < |s.jobs| ==> Served(s', j, t) == Served(s, j, t);
    SameTicketsKept(s, s');
  }

  lemma AbortTickets(s: State)
    requires Tickets(s)
    ensures Tickets(s.(aborted := true))
  {
    var s' := s.(aborted := true);
    AbortKeepsControl(s);
    assert forall t: nat :: ServedNow(s', t) == ServedNow(s, t);
    assert forall j, t: nat :: 0 <= j < |s.jobs| ==> Served(s', j, t) == Served(s, j, t);
    SameTicketsKept(s, s');
  }

  lemma TicketsKept(c: Layers, s: State, a: Action)
    requires ValidLayers(c) && Tickets(s) && Enabled(c, s, a)
    ensures Tickets(After(c, s, a))
  {
    forall i | 0 <= i < |s.threads| && AtFinish(s.threads[i])
      ensures s.remaining > 0
    {
      FinishHasRemaining(s, i);
    }
    if s.threads[0].c.ReadRemaining? && s.remaining != 0 {
      RemainingMeansActive(s);
    }
    ControlKept(c, s, a);
    match a
    case Run(layer, ids, out) => RunTickets(c, s, layer, ids, out);
    case Spurious(i) => SpuriousTickets(c, s, i);
    case ShortRead(_) => AbortTickets(s);
    case Step(i) =>
      match Draining(s, s.threads[i]) {
        case Some(kd) =>
          match kd.1 {
            case Claim => ClaimTickets(c, s, i, kd.0);
            case Test(n) => TestTickets(c, s, i, kd.0, n);
            case Serve(n, p) =>
              if p.Emit? {
                EmitTickets(c, s, i, kd.0, n, p.row);
              } else {
                ServeTickets(c, s, i, kd.0, kd.1);
              }
            case Finish(n) => FinishTickets(c, s, i, kd.0, n);
            case Signal => ServeTickets(c, s, i, kd.0, kd.1);
          }
        case None => if i == 0 { CallerTickets(s); } else { WorkerTickets(s, i); }
      }
  }
}

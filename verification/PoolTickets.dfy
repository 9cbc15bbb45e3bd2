/** Where every ticket of the current job is: unclaimed, held by exactly one thread, or done. */
module PoolTickets {
  import opened Options
  import opened SeenBits
  import opened Totals
  import opened Pool
  import opened PoolControl

  function DrainOf(t: Thread): Option<DrainPc>
  {
    match t
    case Caller(CallerDrains(d)) => Some(d)
    case Worker(_, WorkerDrains(_, d)) => Some(d)
    case _ => None
  }

  /** The ticket a thread has drawn and not yet finished. */
  function TicketOf(t: Thread): Option<nat>
  {
    match DrainOf(t)
    case Some(Test(n)) => Some(n)
    case Some(Serve(n, _)) => Some(n)
    case Some(Finish(n)) => Some(n)
    case _ => None
  }

  /** How often position `t` of job `k` was written. */
  function Served(s: State, k: nat, t: nat): nat
    requires k < |s.jobs|
  {
    if t < |s.jobs[k].served| then s.jobs[k].served[t] else 0
  }

  /** The same for the job at work. */
  function ServedNow(s: State, t: nat): nat
  {
    if |s.jobs| > 0 then Served(s, |s.jobs| - 1, t) else 0
  }

  /** How often a drawn ticket's position has been written so far. */
  function Writes(t: Thread): nat
  {
    if DrainOf(t).Some? && DrainOf(t).value.Finish? then 1 else 0
  }

  /** A thread's ticket was drawn, is in no other state, and was written iff it is at `Finish`. */
  ghost predicate Held(s: State, i: nat)
    requires i < |s.threads|
  {
    var t := TicketOf(s.threads[i]);
    t.Some? ==>
      && |s.jobs| > 0 && t.value < s.next
      && (!DrainOf(s.threads[i]).value.Test? ==> t.value < s.chunks)
      && (t.value < s.chunks ==>
            t.value !in s.done && ServedNow(s, t.value) == Writes(s.threads[i]))
  }

  ghost predicate Apart(s: State, i: nat, j: nat)
    requires i < |s.threads| && j < |s.threads|
  {
    i != j && TicketOf(s.threads[i]).Some? ==> TicketOf(s.threads[i]) != TicketOf(s.threads[j])
  }

  ghost predicate Somewhere(s: State, t: nat)
  {
    t in s.done || exists i :: 0 <= i < |s.threads| && TicketOf(s.threads[i]) == Some(t)
  }

  /** Book-keeping of the job at work. */
  ghost predicate Books(s: State)
    requires WellFormed(s)
  {
    var cp := s.threads[0].c;
    && (cp.PubGeneration? ==> s.remaining == s.chunks && s.done == {})
    && (!cp.Idle? && !Open(cp) ==> forall t: nat :: ServedNow(s, t) == 0)
    && (Open(cp) ==>
          && s.remaining == s.chunks - |s.done|
          && (forall t :: t in s.done ==> t < s.chunks && t < s.next && ServedNow(s, t) == 1)
          && (forall t: nat :: s.next <= t < s.chunks ==> ServedNow(s, t) == 0))
    && (Open(cp) && !cp.WakeAll? && !cp.CallerDrains? ==> s.next >= s.chunks)
  }

  /** Jobs whose `run` has returned were written everywhere exactly once. */
  ghost predicate Returned(s: State)
    requires WellFormed(s)
  {
    forall k, t :: 0 <= k < |s.jobs| && (k < |s.jobs| - 1 || s.threads[0].c.Idle?) && 0 <= t < |s.jobs[k].ids|
                   ==> Served(s, k, t) == 1
  }

  ghost predicate Tickets(s: State)
  {
    && Control(s) && Books(s) && Returned(s)
    && (forall i :: 0 <= i < |s.threads| ==> Held(s, i))
    && (forall i, j :: 0 <= i < |s.threads| && 0 <= j < |s.threads| ==> Apart(s, i, j))
    && (Open(s.threads[0].c) ==> forall t :: 0 <= t < s.next && t < s.chunks ==> Somewhere(s, t))
  }

  function Upto(n: nat): (r: set<nat>)
    ensures forall t :: t in r <==> 0 <= t < n
    ensures |r| == n
  {
    if n == 0 then {} else Upto(n - 1) + {n - 1}
  }

  /** A thread about to decrement finds something left to decrement. */
  lemma FinishHasRemaining(s: State, i: nat)
    requires Tickets(s) && i < |s.threads| && AtFinish(s.threads[i])
    ensures s.remaining > 0
  {
    assert Held(s, i);
    assert i > 0 ==> WorkerInv(s, i);
    var t := TicketOf(s.threads[i]).value;
    assert s.done + {t} <= Upto(s.chunks);
    SubsetSize(s.done + {t}, Upto(s.chunks));
  }

  /** When every ticket is done nothing remains. */
  lemma AllDoneMeansNone(s: State)
    requires Tickets(s) && Open(s.threads[0].c) && forall t :: 0 <= t < s.chunks ==> t in s.done
    ensures s.remaining == 0
  {
    assert s.done == Upto(s.chunks);
  }

  /** If the caller finds tickets unfinished after draining, some worker is still inside. */
  lemma RemainingMeansActive(s: State)
    requires Tickets(s)
    requires Open(s.threads[0].c) && !s.threads[0].c.WakeAll? && !s.threads[0].c.CallerDrains? && s.remaining != 0
    ensures s.active > 0
  {
    if forall t :: 0 <= t < s.chunks ==> t in s.done {
      AllDoneMeansNone(s);
    } else {
      var t :| 0 <= t < s.chunks && t !in s.done;
      assert Somewhere(s, t);
      var i :| 0 <= i < |s.threads| && TicketOf(s.threads[i]) == Some(t);
      TotalAtLeast(s.threads, (), ActiveWeight, i);
    }
  }

  /** When nothing remains, every position was written exactly once. */
  lemma NothingRemains(s: State)
    requires Tickets(s) && Open(s.threads[0].c) && s.remaining == 0
    ensures forall t :: 0 <= t < |s.jobs[|s.jobs| - 1].ids| ==> ServedNow(s, t) == 1
  {
    assert s.done <= Upto(s.chunks);
    SubsetSize(s.done, Upto(s.chunks));
    assert s.done == Upto(s.chunks);
  }

  lemma NoTicketOutside(s: State, i: nat)
    requires Control(s) && i < |s.threads| && !Open(s.threads[0].c)
    ensures TicketOf(s.threads[i]).None?
  {
    assert i > 0 ==> WorkerInv(s, i);
  }

  lemma FreshTickets(c: Layers, workers: nat)
    requires ValidLayers(c)
    ensures Tickets(Fresh(c, workers))
  {
    FreshControl(c, workers);
  }
}

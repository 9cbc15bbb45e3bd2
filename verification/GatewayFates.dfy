/** What each request was told, from the actions of a run alone: where a request stands is decided by the last thing
    that happened to it, and the counters count what happened. */
module GatewayFates {
  import opened Options
  import opened Totals
  import opened GatewayAdmission

  /** `a` is about request `i`. */
  predicate About(a: Action, i: nat)
  {
    !a.Arrive? && a.i == i
  }

  /** The last of the first `n` actions that was about request `i`. */
  function LastAbout(run: seq<Action>, i: nat, n: nat): Option<Action>
    requires n <= |run|
  {
    if n == 0 then None else if About(run[n - 1], i) then Some(run[n - 1]) else LastAbout(run, i, n - 1)
  }

  /** How many of the first `n` actions were arrivals, and how many queue timeouts. */
  function Arrivals(run: seq<Action>, n: nat): nat
    requires n <= |run|
  {
    if n == 0 then 0 else Arrivals(run, n - 1) + if run[n - 1].Arrive? then 1 else 0
  }

  function Timeouts(run: seq<Action>, n: nat): nat
    requires n <= |run|
  {
    if n == 0 then 0 else Timeouts(run, n - 1) + if run[n - 1].GiveUp? then 1 else 0
  }

  /** Where a request stands after the last thing that happened to it. */
  ghost predicate StandsAt(r: Request, last: Option<Action>)
  {
    match last
    case None => r == Waiting
    case Some(Arrive) => false
    case Some(Admit(_)) => r == Reading
    case Some(GiveUp(_)) => r == Gone(QueueFull)
    case Some(CancelWait(_)) => r == Gone(Failed)
    case Some(AbortBody(_)) => r == Gone(Failed)
    case Some(Plain(_)) => r == Relaying
    case Some(PlainEnds(_)) => r == Gone(Served)
    case Some(Place(_, key)) => r == Preparing(key) || r == Gone(Duplicate)
    case Some(PrepareFails(_)) => r == Gone(Failed)
    case Some(PrepareDone(_)) => r.Streaming?
    case Some(StreamEnds(_)) => r == Ending
    case Some(Closed(_)) => r == Gone(Served)
  }

  ghost predicate Fates(s: State, run: seq<Action>, n: nat)
    requires n <= |run|
  {
    && |s.requests| == Arrivals(run, n) == s.total && s.rejectedQueue == Timeouts(run, n)
    && (forall i: nat :: i < |s.requests| ==> StandsAt(s.requests[i], LastAbout(run, i, n)))
    && (forall i: nat :: i >= |s.requests| ==> LastAbout(run, i, n).None?)
  }

  lemma FatesKept(c: Config, s: State, run: seq<Action>, n: nat)
    requires n < |run| && Fates(s, run, n) && Enabled(s, run[n])
    ensures Fates(After(c, s, run[n]), run, n + 1)
  {
    var a, s' := run[n], After(c, s, run[n]);
    forall i: nat
      ensures LastAbout(run, i, n + 1) == if About(a, i) then Some(a) else LastAbout(run, i, n)
    {
    }
    forall i: nat | i < |s'.requests|
      ensures StandsAt(s'.requests[i], LastAbout(run, i, n + 1))
    {
      assert LastAbout(run, i, n + 1) == if About(a, i) then Some(a) else LastAbout(run, i, n);
      if i == |s.requests| {
        assert LastAbout(run, i, n).None?;
      } else if !About(a, i) {
        assert s'.requests[i] == s.requests[i] && StandsAt(s.requests[i], LastAbout(run, i, n));
      }
    }
  }

  lemma {:induction false} RunFates(c: Config, states: seq<State>, run: seq<Action>, n: nat)
    requires IsRun(c, states, run) && n <= |run|
    ensures Fates(states[n], run, n)
  {
    if n > 0 {
      RunFates(c, states, run, n - 1);
      FatesKept(c, states[n - 1], run, n - 1);
    }
  }

  /** Each answer has its one cause, and the counters count the causes: a request is told that the queue is full exactly
      when its wait timed out, that it failed exactly when its client left, its body or its stream could not be had, and
      that it is a duplicate only in answer to its placement. */
  lemma AnswersHaveCauses(c: Config, states: seq<State>, run: seq<Action>, i: nat)
    requires IsRun(c, states, run) && i < |states[|run|].requests|
    ensures var r, last := states[|run|].requests[i], LastAbout(run, i, |run|);
            && (r == Gone(QueueFull) <==> last == Some(GiveUp(i)))
            && (r == Gone(Served) <==> last == Some(PlainEnds(i)) || last == Some(Closed(i)))
            && (r == Gone(Failed) <==> last == Some(CancelWait(i)) || last == Some(AbortBody(i)) || last == Some(PrepareFails(i)))
            && (r == Gone(Duplicate) ==> last.Some? && last.value.Place?)
            && (last.Some? && last.value.Place? ==> r == Gone(Duplicate) || r == Preparing(last.value.key))
    ensures states[|run|].rejectedQueue == Timeouts(run, |run|) && states[|run|].total == Arrivals(run, |run|)
  {
    RunFates(c, states, run, |run|);
    LastIsAbout(run, i, |run|);
  }

  lemma {:induction false} LastIsAbout(run: seq<Action>, i: nat, n: nat)
    requires n <= |run|
    ensures LastAbout(run, i, n).Some? ==> About(LastAbout(run, i, n).value, i)
  {
    if n > 0 {
      LastIsAbout(run, i, n - 1);
    }
  }

  /** A waiting request can be admitted exactly while fewer than MAX_CONCURRENCY requests hold a slot. */
  lemma AdmittedIffSlotFree(c: Config, s: State, i: nat)
    requires Reachable(c, s) && i < |s.requests| && s.requests[i].Waiting?
    ensures Enabled(s, Admit(i)) <==> Total(s.requests, (), Holds) < c.maxConcurrency
  {
    SlotsAndGaugesAreConserved(c, s);
  }

  /** The steps that are left to a request. */
  ghost function StepsLeft(r: Request, unit: ()): nat
  {
    match r
    case Waiting => 5
    case Reading => 4
    case Preparing(_) => 3
    case Streaming(_) => 2
    case Relaying => 1
    case Ending => 1
    case Gone(_) => 0
  }

  lemma StepSpends(c: Config, s: State, a: Action)
    requires Enabled(s, a)
    ensures var t := After(c, s, a);
            Total(t.requests, (), StepsLeft) + (if a.Arrive? then 0 else 1)
            <= Total(s.requests, (), StepsLeft) + if a.Arrive? then 5 else 0
  {
    if a.Arrive? {
      TotalAppend(s.requests, (), StepsLeft, Waiting);
    } else {
      TotalUpdate(s.requests, (), StepsLeft, a.i, After(c, s, a).requests[a.i]);
    }
  }

  lemma {:induction false} StepsSpent(c: Config, states: seq<State>, run: seq<Action>, n: nat)
    requires IsRun(c, states, run) && n <= |run|
    ensures n + Total(states[n].requests, (), StepsLeft) <= 6 * Arrivals(run, n)
  {
    if n > 0 {
      StepsSpent(c, states, run, n - 1);
      StepSpends(c, states[n - 1], run[n - 1]);
    }
  }

  /** No request is forgotten: a run has at most six steps for each request that arrived, and in every reachable state each
      request that has not been answered can take a step, whatever the others do; one that waits for a slot can give up. */
  lemma EveryRequestIsAnswered(c: Config, states: seq<State>, run: seq<Action>)
    requires IsRun(c, states, run)
    ensures |run| <= 6 * Arrivals(run, |run|)
    ensures forall i: nat :: i < |states[|run|].requests| && !states[|run|].requests[i].Gone? ==> CanMove(states[|run|], i)
    ensures (forall a :: Enabled(states[|run|], a) ==> a.Arrive?) ==>
        states[|run|].free == c.maxConcurrency && states[|run|].inflight == {}
  {
    var s := states[|run|];
    StepsSpent(c, states, run, |run|);
    forall i: nat | i < |s.requests| && !s.requests[i].Gone?
      ensures CanMove(s, i)
    {
      NextStep(s, i);
    }
    if forall a :: Enabled(s, a) ==> a.Arrive? {
      forall i | 0 <= i < |s.requests|
        ensures s.requests[i].Gone?
      {
        assert !CanMove(s, i);
      }
      assert Reachable(c, s);
      NothingLeaks(c, s);
    }
  }

  ghost predicate CanMove(s: State, i: nat)
  {
    exists a :: About(a, i) && Enabled(s, a)
  }

  lemma NextStep(s: State, i: nat)
    requires i < |s.requests| && !s.requests[i].Gone?
    ensures CanMove(s, i)
  {
    var a := match s.requests[i]
             case Waiting => GiveUp(i)
             case Reading => Plain(i)
             case Relaying => PlainEnds(i)
             case Preparing(_) => PrepareDone(i)
             case Streaming(_) => StreamEnds(i)
             case _ => Closed(i);
    assert About(a, i) && Enabled(s, a);
  }
}

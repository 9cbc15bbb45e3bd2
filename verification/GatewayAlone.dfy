/** What the gateway can do by itself, with nothing from the engine or the client: its own timers and tasks always
    bring the response to its end when there is a first-token budget, and without one a silent engine holds it. */
module GatewayAlone {
  import opened GatewayStream
  import opened GatewayDelivery
  import opened GatewayProgress

  /** The steps that the gateway takes of itself, timers included. */
  predicate Own(a: Action)
  {
    match a
    case Connect(_) => false
    case RejectBody(_) => false
    case Read(outcome) => outcome.TimesOut?
    case Write(result) => result.SlowClient?
    case Beat => false
    case ClientGone => false
    case _ => true
  }

  /** The next thing the producer needs is a word from the engine, and no timer of its own runs. */
  predicate NeedsEngine(p: ProducerPc)
  {
    p.Connecting? || p.Rejecting? || p.FirstRead?
  }

  /** No budget, no first byte, and nothing to do for the consumer. */
  predicate Hung(c: Config, s: State)
  {
    && !c.budgeted && s.main.AwaitFirst? && NeedsEngine(s.producer)
    && (s.consumer.Stopped? || (s.consumer.Getting? && s.queue == []))
  }

  /** Which tasks are cancelled when. */
  ghost predicate Tasks(s: State)
  {
    && (s.consumerCancel ==> !s.consumer.Stopped? && (s.main.Cleaning? || s.main.Returned?))
    && (s.producerCancel ==> !s.main.AwaitFirst?)
  }

  lemma MonitorTasks(s: State)
    requires Tasks(s) && s.main.AwaitFirst?
    ensures Tasks(AfterMonitor(s))
  {
    TwoFramesSize(s.(producerCancel := true));
  }

  lemma CrashTasks(s: State)
    requires Tasks(s) && s.main.AwaitConsumer?
    ensures Tasks(AfterCrashed(s))
  {
    TwoFramesSize(s);
  }

  lemma ConsumerTasks(c: Config, s: State, a: Action)
    requires Tasks(s) && Enabled(c, s, a) && OfConsumer(a)
    ensures Tasks(After(c, s, a))
  {
    if a.Beat? {
      EnqueueSize(s, Heartbeat);
    }
  }

  lemma TasksKept(c: Config, s: State, a: Action)
    requires Tasks(s) && Enabled(c, s, a)
    ensures Tasks(After(c, s, a))
  {
    if OfProducer(a) {
      ProducerLowers(c, s, a);
    } else if OfConsumer(a) {
      ConsumerTasks(c, s, a);
    } else if a.FirstTokenTimeout? {
      MonitorTasks(s);
    } else if a.SeeConsumer? {
      CrashTasks(s);
    }
  }

  lemma {:induction false} RunTasks(c: Config, states: seq<State>, run: seq<Action>, n: nat)
    requires IsRun(c, states, run) && n <= |run|
    ensures Tasks(states[n])
  {
    if n > 0 {
      RunTasks(c, states, run, n - 1);
      TasksKept(c, states[n - 1], run[n - 1]);
    }
  }

  lemma ReachableTasks(c: Config, s: State)
    requires Reachable(c, s)
    ensures Inv(s) && History(s) && Tasks(s)
  {
    ReachableInv(c, s);
    var states, run :| IsRun(c, states, run) && states[|run|] == s;
    RunTasks(c, states, run, |run|);
  }

  /** Some step of the gateway's own can be taken. */
  ghost predicate CanStepAlone(c: Config, s: State)
  {
    exists a :: Own(a) && Enabled(c, s, a)
  }

  lemma OwnStepOfMain(c: Config, s: State) returns (a: Action)
    requires Inv(s) && Tasks(s) && !s.main.Returned? && !s.main.AwaitConsumer?
    requires s.main.AwaitFirst? ==> s.firstSeen || c.budgeted
    ensures Own(a) && Enabled(c, s, a)
  {
    a := match s.main
         case AwaitFirst => if s.firstSeen then SeeFirst else FirstTokenTimeout
         case AfterCrash => CrashHandled
         case _ => EndOfResponse;
  }

  /** The consumer or the producer can step while the handler waits for them. */
  lemma OwnStepOfTasks(c: Config, s: State) returns (a: Action)
    requires Inv(s) && History(s) && Tasks(s) && (s.main.AwaitConsumer? || (s.main.AwaitFirst? && !s.firstSeen && !c.budgeted))
    requires !Hung(c, s)
    ensures Own(a) && Enabled(c, s, a)
  {
    if s.consumer.Writing? {
      a := Write(SlowClient(false));
    } else if s.consumer.Getting? && s.queue != [] {
      a := Take(false);
    } else if s.main.AwaitConsumer? && s.consumer.Stopped? {
      a := SeeConsumer;
    } else {
      if s.consumer.Getting? {
        EmptyQueueMeansMore(s);
      }
      a := if s.producerCancel then ProducerCancelled
           else if s.producer.Reading? then Read(TimesOut)
           else if s.producer.Backoff? then Wake
           else Put;
    }
  }

  lemma HungIsStuck(c: Config, s: State, a: Action)
    requires Inv(s) && Tasks(s) && Hung(c, s) && Own(a)
    ensures !Enabled(c, s, a)
  {
  }

  /** Until the response has ended the gateway can take a step of its own exactly when it is not hung. */
  lemma StepsAloneUnlessHung(c: Config, s: State)
    requires Reachable(c, s) && !s.main.Returned?
    ensures CanStepAlone(c, s) <==> !Hung(c, s)
  {
    ReachableTasks(c, s);
    if Hung(c, s) {
      forall a | Own(a)
        ensures !Enabled(c, s, a)
      {
        HungIsStuck(c, s, a);
      }
    } else if s.main.AwaitConsumer? || (s.main.AwaitFirst? && !s.firstSeen && !c.budgeted) {
      var a := OwnStepOfTasks(c, s);
    } else {
      var a := OwnStepOfMain(c, s);
    }
  }

  /** Any run is bounded by the heartbeats and chunks in it, and where it cannot be continued by the gateway alone the
      response has ended, or there is no first-token budget and the engine is silent. */
  lemma EveryResponseEnds(c: Config, states: seq<State>, run: seq<Action>)
    requires IsRun(c, states, run)
    ensures |run| <= 4 * c.retries + 21 + 3 * Beats(run, |run|) + 4 * |states[|run|].rx|
    ensures !CanStepAlone(c, states[|run|]) ==> states[|run|].main.Returned? || Hung(c, states[|run|])
  {
    StepsAreBounded(c, states, run, |run|);
    assert Reachable(c, states[|run|]);
    if !states[|run|].main.Returned? {
      StepsAloneUnlessHung(c, states[|run|]);
    }
  }

  /** `run` leads from `s` through `states`, by steps of the gateway's own. */
  ghost predicate AlonePath(c: Config, s: State, states: seq<State>, run: seq<Action>)
  {
    && |states| == |run| + 1 && states[0] == s
    && forall n :: 0 <= n < |run| ==> Own(run[n]) && Enabled(c, states[n], run[n]) && states[n + 1] == After(c, states[n], run[n])
  }

  /** Whatever has happened so far, and though neither the engine nor the client ever does anything again, the gateway
      brings the response to its end or hangs; with a first-token budget it brings it to its end. */
  lemma {:induction false} BudgetSuffices(c: Config, s: State) returns (states: seq<State>, run: seq<Action>)
    requires Reachable(c, s)
    ensures AlonePath(c, s, states, run) && |run| <= Rank(c, s)
    ensures states[|run|].main.Returned? || Hung(c, states[|run|])
    ensures c.budgeted ==> states[|run|].main.Returned?
    decreases Rank(c, s)
  {
    if s.main.Returned? || Hung(c, s) {
      states, run := [s], [];
    } else {
      StepsAloneUnlessHung(c, s);
      var a :| Own(a) && Enabled(c, s, a);
      StepLowers(c, s, a);
      ReachNext(c, s, a);
      var rest, steps := BudgetSuffices(c, After(c, s, a));
      states, run := [s] + rest, [a] + steps;
      forall n | 0 <= n < |run|
        ensures Own(run[n]) && Enabled(c, states[n], run[n]) && states[n + 1] == After(c, states[n], run[n])
      {
        assert n > 0 ==> run[n] == steps[n - 1] && states[n] == rest[n - 1];
        assert states[n + 1] == rest[n];
      }
    }
  }

  /** Neither the engine says anything nor the client leaves. */
  predicate Quiet(a: Action)
  {
    !a.Connect? && !a.RejectBody? && !(a.Read? && !a.outcome.TimesOut?) && !a.ClientGone?
  }

  /** The handler waits for a first byte, without a budget. */
  predicate Stalled(c: Config, s: State)
  {
    !c.budgeted && s.main.AwaitFirst? && NeedsEngine(s.producer)
  }

  lemma StalledStays(c: Config, s: State, a: Action)
    requires Inv(s) && Tasks(s) && Stalled(c, s) && Enabled(c, s, a) && Quiet(a)
    ensures Stalled(c, After(c, s, a))
  {
  }

  /** Without a budget an engine that accepts and never answers holds the handler, and its admission slot, for as long
      as the client stays: neither the heartbeat, nor the lifetime limit, nor a write timeout ends it. */
  lemma {:induction false} SilentEngineHolds(c: Config, states: seq<State>, run: seq<Action>, m: nat, n: nat)
    requires IsRun(c, states, run) && m <= n <= |run| && Stalled(c, states[m])
    requires forall k :: m <= k < n ==> Quiet(run[k])
    ensures Stalled(c, states[n])
    decreases n - m
  {
    if m < n {
      SilentEngineHolds(c, states, run, m, n - 1);
      assert Reachable(c, states[n - 1]) by {
        assert IsRun(c, states[..n], run[..n - 1]);
        assert states[..n][|run[..n - 1]|] == states[n - 1];
      }
      ReachableTasks(c, states[n - 1]);
      StalledStays(c, states[n - 1], run[n - 1]);
    }
  }

  /** Such a state is reached: the lifetime limit has stopped the consumer at a heartbeat and the handler waits on. */
  lemma LifetimeLimitCanHang(c: Config) returns (s: State)
    requires !c.budgeted
    ensures Reachable(c, s) && Hung(c, s) && s.consumer == Stopped(TotalTimeout)
  {
    ReachStart(c);
    ReachNext(c, Start(), Beat);
    s := After(c, Start(), Beat);
    ReachNext(c, s, Take(true));
    s := After(c, s, Take(true));
  }

  /** The client's leaving releases a handler that hangs: two steps later the response has ended. */
  lemma LeavingReleases(c: Config, s: State)
    requires Hung(c, s)
    ensures Enabled(c, s, ClientGone) && Enabled(c, After(c, s, ClientGone), EndOfResponse)
    ensures After(c, After(c, s, ClientGone), EndOfResponse).main.Returned?
  {
  }
}

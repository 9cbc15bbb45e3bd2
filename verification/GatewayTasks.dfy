/** What is left of a stream's tasks once its response has ended, and what the consumer's records mean: why it stopped,
    which frames reached the client, and when heartbeats are queued. */
module GatewayTasks {
  import opened Options
  import opened GatewayStream
  import opened GatewayDelivery
  import opened GatewayAnswers
  import GatewayLimits

  /** How many frames of a sequence are heartbeats. */
  function Heartbeats(fs: seq<Frame>): nat
  {
    if fs == [] then 0 else Heartbeats(fs[..|fs| - 1]) + if fs[|fs| - 1].Heartbeat? then 1 else 0
  }

  lemma OneFrame(fs: seq<Frame>, f: Frame)
    ensures Heartbeats(fs + [f]) == Heartbeats(fs) + if f.Heartbeat? then 1 else 0
  {
    assert (fs + [f])[..|fs|] == fs;
  }

  /** A step that leaves the consumer and the handler alone, hands nothing to the client and queues no heartbeat. */
  ghost predicate Apart(s: State, t: State)
  {
    && t.main == s.main && t.beating == s.beating && t.consumer == s.consumer && t.consumerCancel == s.consumerCancel
    && t.client == s.client && Heartbeats(t.sent) == Heartbeats(s.sent) && (s.errorTried ==> t.errorTried)
    && (s.consumer.Stopped? ==> t.sent == s.sent)
  }

  ghost predicate SameProducer(s: State, t: State)
  {
    t.producer == s.producer && t.producerCancel == s.producerCancel
  }

  lemma PutApart(s: State, f: Frame)
    requires !f.Heartbeat?
    ensures Apart(s, PutFrame(s, f)) && SameProducer(s, PutFrame(s, f))
  {
    OneFrame(s.sent, f);
  }

  lemma EnqueueApart(s: State, f: Frame)
    requires !f.Heartbeat?
    ensures Apart(s, Enqueue(s, f)) && SameProducer(s, Enqueue(s, f))
  {
    OneFrame(s.sent, f);
  }

  /** A beat that finds room. */
  lemma BeatApart(s: State)
    ensures var t := Enqueue(s, Heartbeat);
            && Heartbeats(t.sent) == Heartbeats(s.sent) + (if Listening(s) then 1 else 0) && SameProducer(s, t)
            && t.main == s.main && t.beating == s.beating && t.consumer == s.consumer && t.consumerCancel == s.consumerCancel
            && t.client == s.client
  {
    OneFrame(s.sent, Heartbeat);
  }

  /** Where the producer goes does not matter. */
  lemma StillApart(s: State, t: State, p: ProducerPc)
    requires Apart(s, t)
    ensures Apart(s, t.(producer := p)) && t.(producer := p).producerCancel == t.producerCancel
  {
  }

  lemma FailApart(s: State)
    ensures Apart(s, FailWith(s)) && FailWith(s).producer.Closing? && FailWith(s).producerCancel == s.producerCancel
  {
    PutApart(s, Error);
  }

  lemma ReadApart(s: State, outcome: ReadOutcome)
    ensures Apart(s, AfterRead(s, outcome)) && AfterRead(s, outcome).producerCancel == s.producerCancel
  {
    if outcome.TimesOut? || outcome.Fails? {
      FailApart(s);
    }
  }

  lemma RetryApart(c: Config, s: State, attempt: nat)
    ensures Apart(s, Retry(c, s, attempt)) && Retry(c, s, attempt).producerCancel == s.producerCancel
  {
    if attempt >= c.retries {
      FailApart(s);
    }
  }

  lemma ConnectApart(c: Config, s: State, attempt: nat, status: Option<nat>)
    ensures Apart(s, AfterConnect(c, s, attempt, status))
    ensures AfterConnect(c, s, attempt, status).producerCancel == s.producerCancel
  {
    if status.None? {
      RetryApart(c, s, attempt);
    }
  }

  lemma PutsApart(s: State)
    requires s.producer.Putting? || s.producer.Closing?
    ensures Apart(s, AfterPut(s)) && AfterPut(s).producerCancel == s.producerCancel
    ensures s.producer.Closing? ==> AfterPut(s).producer.Finished?
  {
    match s.producer
    case Putting(chunk) =>
      EnqueueApart(s, Data(chunk));
      StillApart(s, Enqueue(s, Data(chunk)), Reading);
    case _ =>
      EnqueueApart(s, Done);
      StillApart(s, Enqueue(s, Done), Finished);
  }

  /** The producer's steps; once it is in its `finally` or was cancelled it goes nowhere else. */
  lemma ProducerApart(c: Config, s: State, a: Action)
    requires Enabled(c, s, a) && OfProducer(a)
    ensures Apart(s, After(c, s, a))
    ensures s.producer.Closing? || s.producerCancel ==> After(c, s, a).producer.Closing? || After(c, s, a).producer.Finished?
  {
    match a
    case Connect(status) => ConnectApart(c, s, s.producer.attempt, status);
    case Read(outcome) => ReadApart(s, outcome);
    case Put => PutsApart(s);
    case RejectBody(raises) => if raises { RetryApart(c, s, s.producer.attempt); } else { FailApart(s); }
    case _ =>
  }

  lemma TwoApart(s: State)
    ensures Apart(s, PutFrame(PutFrame(s, Error), Done)) && SameProducer(s, PutFrame(PutFrame(s, Error), Done))
  {
    PutApart(s, Error);
    PutApart(PutFrame(s, Error), Done);
  }

  /** A step of the handler: it leaves the two tasks where they are, tells both to end when it cleans up, and then only
      returns. */
  ghost predicate HandlerMoves(s: State, t: State)
  {
    && t.consumer == s.consumer && t.producer == s.producer
    && t.client == s.client && Heartbeats(t.sent) == Heartbeats(s.sent) && (s.errorTried ==> t.errorTried)
    && (s.consumer.Stopped? ==> t.sent == s.sent)
    && (t.main.Cleaning? ==>
          && !s.main.Cleaning? && !s.main.Returned?
          && !t.beating && t.consumerCancel == !s.consumer.Stopped? && t.producerCancel == !s.producer.Finished?)
    && (!t.main.Cleaning? ==> t.beating == s.beating && t.consumerCancel == s.consumerCancel)
    && (t.main.Returned? ==> s.main.Cleaning? && t.producerCancel == s.producerCancel)
    && (s.main.Cleaning? || s.main.Returned? ==> t.main.Returned?)
  }

  lemma MonitorMoves(s: State)
    requires s.main.AwaitFirst?
    ensures HandlerMoves(s, AfterMonitor(s))
  {
    TwoApart(s.(producerCancel := true));
  }

  lemma CrashMoves(s: State)
    requires s.main.AwaitConsumer?
    ensures HandlerMoves(s, AfterCrashed(s))
  {
    TwoApart(s);
  }

  lemma CancelMoves(s: State)
    requires !s.main.Cleaning? && !s.main.Returned?
    ensures HandlerMoves(s, CancelAll(s))
  {
  }

  lemma HandlerSteps(c: Config, s: State, a: Action)
    requires Enabled(c, s, a) && !OfProducer(a) && !OfConsumer(a)
    ensures HandlerMoves(s, After(c, s, a))
  {
    match a
    case FirstTokenTimeout => MonitorMoves(s);
    case SeeConsumer => if s.consumer.reason.Crash? { CrashMoves(s); } else { CancelMoves(s); }
    case CrashHandled => CancelMoves(s);
    case ClientGone => CancelMoves(s);
    case _ =>
  }

  /** Behind the handler's `finally` nothing beats, and every task has ended, was told to end, or is queuing DONE. */
  ghost predicate CleanedUp(s: State)
  {
    if s.main.Cleaning? || s.main.Returned? then
      && !s.beating && (s.consumer.Stopped? || s.consumerCancel)
      && (s.producer.Finished? || s.producer.Closing? || s.producerCancel)
    else s.beating && !s.consumerCancel
  }

  lemma ConsumerCleanedUp(c: Config, s: State, a: Action)
    requires CleanedUp(s) && Enabled(c, s, a) && OfConsumer(a)
    ensures CleanedUp(After(c, s, a))
  {
    if a.Beat? {
      BeatApart(s);
    }
  }

  lemma CleanedUpKept(c: Config, s: State, a: Action)
    requires CleanedUp(s) && Enabled(c, s, a)
    ensures CleanedUp(After(c, s, a))
  {
    if OfProducer(a) {
      ProducerApart(c, s, a);
    } else if OfConsumer(a) {
      ConsumerCleanedUp(c, s, a);
    } else {
      HandlerSteps(c, s, a);
    }
  }

  lemma {:induction false} RunCleanedUp(c: Config, states: seq<State>, run: seq<Action>, n: nat)
    requires IsRun(c, states, run) && n <= |run|
    ensures CleanedUp(states[n])
  {
    if n > 0 {
      RunCleanedUp(c, states, run, n - 1);
      CleanedUpKept(c, states[n - 1], run[n - 1]);
    }
  }

  lemma ReachableCleanedUp(c: Config, s: State)
    requires Reachable(c, s)
    ensures CleanedUp(s)
  {
    var states, run :| IsRun(c, states, run) && states[|run|] == s;
    RunCleanedUp(c, states, run, |run|);
  }

  /** Nothing can happen any more. */
  ghost predicate Quiet(c: Config, s: State)
  {
    forall a :: !Enabled(c, s, a)
  }

  /** Heartbeats run exactly until the handler cleans up. */
  lemma BeatsUntilCleanup(c: Config, s: State)
    requires Reachable(c, s)
    ensures Enabled(c, s, Beat) <==> !s.main.Cleaning? && !s.main.Returned?
  {
    ReachableCleanedUp(c, s);
  }

  /** Behind the end of the response everything falls quiet exactly when the consumer has stopped and the producer has
      ended, or is left waiting to queue DONE on a full queue that nobody reads. */
  lemma QuietExactlyWhen(c: Config, s: State)
    requires Reachable(c, s) && s.main.Returned?
    ensures Quiet(c, s) <==>
        s.consumer.Stopped?
        && (s.producer.Finished? || (s.producer.Closing? && !s.producerCancel && |s.queue| >= QUEUE_MAX))
  {
    ReachableCleanedUp(c, s);
    if Quiet(c, s) {
      assert !Enabled(c, s, ConsumerCancelled(false));
      assert !Enabled(c, s, ProducerCancelled);
      assert !Enabled(c, s, Put);
    }
  }

  /** And so it can be left: the client stops reading while the queue is full, its write times out, and the producer,
      cancelled while it waits to queue a chunk, waits to queue DONE and is never woken. */
  lemma ProducerCanBeLeftBehind(c: Config, chunk: Chunk) returns (s: State)
    ensures Reachable(c, s) && s.main.Returned? && s.consumer == Stopped(WriteTimeout)
    ensures s.producer.Closing? && Quiet(c, s)
  {
    s := GatewayLimits.FirstWrite(c, chunk);
    s := GatewayLimits.FillQueue(c, s, chunk, QUEUE_MAX);
    s := BlockedAtCleanup(c, s, chunk);
    QuietExactlyWhen(c, s);
  }

  lemma BlockedAtCleanup(c: Config, s: State, chunk: Chunk) returns (t: State)
    requires Reachable(c, s) && GatewayLimits.Streaming(s) && s.consumer.Writing? && |s.queue| == QUEUE_MAX
    ensures Reachable(c, t) && t.main.Returned? && t.consumer == Stopped(WriteTimeout)
    ensures t.producer.Closing? && !t.producerCancel && |t.queue| == QUEUE_MAX
  {
    t := GatewayLimits.Reach(c, s, Read(Bytes(chunk)));
    t := GatewayLimits.Reach(c, t, Write(SlowClient(false)));
    t := GatewayLimits.Reach(c, t, SeeFirst);
    t := GatewayLimits.Reach(c, t, SeeConsumer);
    t := GatewayLimits.Reach(c, t, ProducerCancelled);
    t := GatewayLimits.Reach(c, t, EndOfResponse);
  }

  /** The last step of the consumer among the first `n`. */
  function LastOfConsumer(run: seq<Action>, n: nat): Option<Action>
    requires n <= |run|
  {
    if n == 0 then None
    else if run[n - 1].Take? || run[n - 1].Write? || run[n - 1].ConsumerCancelled? then Some(run[n - 1])
    else LastOfConsumer(run, n - 1)
  }

  /** Why a consumer has stopped. */
  ghost predicate StoppedBy(reason: StopReason, last: Option<Action>)
  {
    && last.Some?
    && match reason
       case SawDone => last.value.Take?
       case TotalTimeout => last.value == Take(true)
       case WriteTimeout => last.value.Write? && last.value.result.SlowClient?
       case Disconnect => last.value.ConsumerCancelled? || (last.value.Write? && last.value.result.Resets?)
       case Crash => last.value.Write? && last.value.result.Breaks?
  }

  /** The consumer stops only for cause, and in the name of that cause. */
  lemma {:induction false} StopsHaveCauses(c: Config, states: seq<State>, run: seq<Action>, n: nat)
    requires IsRun(c, states, run) && n <= |run|
    ensures states[n].consumer.Stopped? ==> StoppedBy(states[n].consumer.reason, LastOfConsumer(run, n))
    ensures !states[n].consumer.Stopped? ==>
        var last := LastOfConsumer(run, n);
        last.Some? ==> !last.value.ConsumerCancelled? && (last.value.Write? ==> last.value.result.Completes?)
  {
    if n > 0 {
      StopsHaveCauses(c, states, run, n - 1);
      var a := run[n - 1];
      if a.Take? || a.Write? || a.ConsumerCancelled? {
        OwnStop(c, states[n - 1], a);
      } else {
        NoStop(c, states[n - 1], a);
      }
    }
  }

  /** The consumer's own steps ... */
  lemma OwnStop(c: Config, s: State, a: Action)
    requires Enabled(c, s, a) && (a.Take? || a.Write? || a.ConsumerCancelled?)
    ensures var t := After(c, s, a).consumer;
            if t.Stopped? then StoppedBy(t.reason, Some(a)) else !a.ConsumerCancelled? && (a.Write? ==> a.result.Completes?)
  {
  }

  /** ... and no one else's. */
  lemma NoStop(c: Config, s: State, a: Action)
    requires Enabled(c, s, a) && !a.Take? && !a.Write? && !a.ConsumerCancelled?
    ensures After(c, s, a).consumer == s.consumer
  {
    if OfProducer(a) {
      ProducerApart(c, s, a);
    } else if a.Beat? {
      BeatApart(s);
    } else {
      HandlerSteps(c, s, a);
    }
  }

  /** The handler saw that the consumer had stopped. */
  predicate IsSeen(a: Action)
  {
    a.SeeConsumer?
  }

  lemma StepTries(c: Config, s: State, a: Action)
    requires Enabled(c, s, a)
    ensures s.errorTried ==> After(c, s, a).errorTried
    ensures a.SeeConsumer? && s.consumer == Stopped(Crash) ==> After(c, s, a).errorTried
  {
    if OfProducer(a) {
      ProducerApart(c, s, a);
    } else if !OfConsumer(a) {
      HandlerSteps(c, s, a);
    }
  }

  /** Once stopped, the consumer stays so, and what it was to take and has sent on stays what it is. */
  lemma StaysStopped(c: Config, s: State, a: Action)
    requires Enabled(c, s, a) && s.consumer.Stopped?
    ensures var t := After(c, s, a);
            t.consumer == s.consumer && t.sent == s.sent && t.client == s.client
  {
    if OfProducer(a) {
      ProducerApart(c, s, a);
    } else if !OfConsumer(a) {
      HandlerSteps(c, s, a);
    }
  }

  /** The lifetime limit never cuts a stream at its DONE: the frame that was due when it struck is another one. */
  lemma {:induction false} DoneIsNotCut(c: Config, states: seq<State>, run: seq<Action>, n: nat)
    requires IsRun(c, states, run) && n <= |run| && states[n].consumer == Stopped(TotalTimeout)
    ensures var s := states[n];
            s.client < s.sent && !s.sent[|s.client|].Done?
  {
    if n > 0 {
      var s, a := states[n - 1], run[n - 1];
      if s.consumer.Stopped? {
        StaysStopped(c, s, a);
        DoneIsNotCut(c, states, run, n - 1);
      } else {
        assert Reachable(c, s) by {
          assert IsRun(c, states[..n], run[..n - 1]) && states[..n][|run[..n - 1]|] == s;
        }
        ReachableInv(c, s);
        CutDue(c, s, a);
      }
    }
  }

  lemma CutDue(c: Config, s: State, a: Action)
    requires Enabled(c, s, a) && Pipeline(s) && !s.consumer.Stopped? && After(c, s, a).consumer == Stopped(TotalTimeout)
    ensures var t := After(c, s, a);
            t.client < t.sent && !t.sent[|t.client|].Done?
  {
    if !a.Take? && !a.Write? && !a.ConsumerCancelled? {
      NoStop(c, s, a);
    } else {
      assert a.Take?;
      assert s.sent == s.client + s.queue;
    }
  }

  /** When the handler has seen that the consumer crashed, an error frame was tried. */
  lemma {:induction false} CrashIsReported(c: Config, states: seq<State>, run: seq<Action>, n: nat)
    requires IsRun(c, states, run) && n <= |run|
    ensures Saw(run, n, IsSeen) ==> states[n].consumer.Stopped?
    ensures Saw(run, n, IsSeen) && states[n].consumer == Stopped(Crash) ==> states[n].errorTried
  {
    if n > 0 {
      var s, a := states[n - 1], run[n - 1];
      CrashIsReported(c, states, run, n - 1);
      StepTries(c, s, a);
      if s.consumer.Stopped? {
        StaysStopped(c, s, a);
      }
    }
  }

  /** How many of the first `n` beats found room while the consumer was there. */
  ghost function BeatsWithRoom(states: seq<State>, run: seq<Action>, n: nat): nat
    requires n <= |run| <= |states|
  {
    if n == 0 then 0
    else
      BeatsWithRoom(states, run, n - 1)
      + if run[n - 1].Beat? && |states[n - 1].queue| < QUEUE_MAX && Listening(states[n - 1]) then 1 else 0
  }

  /** Whether a step in state `s` hands a frame to the client. */
  function HandedOver(s: State, a: Action): nat
  {
    match a
    case Write(Completes) => 1
    case Write(SlowClient(yes)) => if yes then 1 else 0
    case Write(Resets(yes)) => if yes then 1 else 0
    case Write(Breaks(yes)) => if yes then 1 else 0
    case ConsumerCancelled(yes) => if yes && s.consumer.Writing? then 1 else 0
    case _ => 0
  }

  /** How many frames the first `n` steps handed to the client. */
  ghost function Delivered(states: seq<State>, run: seq<Action>, n: nat): nat
    requires n <= |run| <= |states|
  {
    if n == 0 then 0 else Delivered(states, run, n - 1) + HandedOver(states[n - 1], run[n - 1])
  }

  /** What one step adds to the frames handed over and to the heartbeats queued. */
  lemma StepDelivers(c: Config, s: State, a: Action)
    requires Enabled(c, s, a)
    ensures var t := After(c, s, a);
            && Heartbeats(t.sent) == Heartbeats(s.sent) + (if a.Beat? && |s.queue| < QUEUE_MAX && Listening(s) then 1 else 0)
            && |t.client| == |s.client| + HandedOver(s, a)
  {
    if OfProducer(a) {
      ProducerApart(c, s, a);
    } else if a.Beat? {
      BeatApart(s);
    } else if OfConsumer(a) {
      ConsumerDelivers(c, s, a);
    } else {
      HandlerSteps(c, s, a);
    }
  }

  lemma ConsumerDelivers(c: Config, s: State, a: Action)
    requires Enabled(c, s, a) && (a.Take? || a.Write? || a.ConsumerCancelled?)
    ensures var t := After(c, s, a);
            Heartbeats(t.sent) == Heartbeats(s.sent) && |t.client| == |s.client| + HandedOver(s, a)
  {
  }

  /** The records mean what they say: a heartbeat is queued at every beat that finds room while the consumer is there, and
      the client has one frame for every write that went through. */
  lemma {:induction false} FramesAreCounted(c: Config, states: seq<State>, run: seq<Action>, n: nat)
    requires IsRun(c, states, run) && n <= |run|
    ensures Heartbeats(states[n].sent) == BeatsWithRoom(states, run, n)
    ensures |states[n].client| == Delivered(states, run, n)
  {
    if n > 0 {
      FramesAreCounted(c, states, run, n - 1);
      StepDelivers(c, states[n - 1], run[n - 1]);
    }
  }
}

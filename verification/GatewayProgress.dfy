/** A measure of one response that every step lowers, except a heartbeat and a chunk from the engine. It adds up two for
    every queued frame, what the producer can still do (its connection attempts, its last frames), what the consumer can
    still do with the frame in its hand, and what is left of the handler. Steps of the producer, of the consumer and of
    the handler are taken in turn; those of the producer leave the other tasks alone, which `GatewayAlone` relies on.
    `StepsAreBounded` draws the bound for whole runs. */
module GatewayProgress {
  import opened Options
  import opened GatewayStream
  import opened GatewayDelivery

  /** Attempts to connect that are left after this one. */
  function Left(c: Config, attempt: nat): nat
  {
    if attempt < c.retries then c.retries - attempt else 0
  }

  function ProducerRank(c: Config, p: ProducerPc): nat
  {
    match p
    case Connecting(attempt) => 4 * Left(c, attempt) + 8
    case Rejecting(attempt) => 4 * Left(c, attempt) + 7
    case Backoff(attempt) => if attempt < c.retries then 4 * Left(c, attempt) + 5 else 9
    case FirstRead => 6
    case Putting(_) => 9
    case Reading => 6
    case Closing => 3
    case Finished => 0
  }

  function ConsumerRank(p: ConsumerPc): nat
  {
    match p
    case Writing(_) => 2
    case Getting => 1
    case Stopped(_) => 0
  }

  function MainRank(p: MainPc): nat
  {
    match p
    case AwaitFirst => 12
    case AwaitConsumer => 7
    case AfterCrash => 2
    case Cleaning => 1
    case Returned => 0
  }

  function Rank(c: Config, s: State): nat
  {
    2 * |s.queue| + ProducerRank(c, s.producer) + ConsumerRank(s.consumer) + MainRank(s.main)
  }

  predicate IsChunk(a: Action)
  {
    a.Read? && a.outcome.Bytes?
  }

  /** What a step may add: a chunk three, a heartbeat two, and every other step takes at least one. */
  function Gain(a: Action): int
  {
    if IsChunk(a) then 3 else if a.Beat? then 2 else -1
  }

  /** The producer's steps leave the other tasks alone. */
  ghost predicate SameTasks(s: State, t: State)
  {
    && t.consumerCancel == s.consumerCancel && t.consumer == s.consumer && t.main == s.main
    && (t.producerCancel ==> s.producerCancel)
  }

  /** What the measure and the count of chunks read depend on. */
  ghost predicate Sized(s: State, t: State, frames: int)
  {
    |t.queue| <= |s.queue| + frames && |t.rx| == |s.rx| && SameTasks(s, t)
  }

  lemma PutFrameSize(s: State, f: Frame)
    ensures Sized(s, PutFrame(s, f), 1) && PutFrame(s, f).producer == s.producer
  {
  }

  lemma FailSize(s: State)
    ensures Sized(s, FailWith(s), 1) && FailWith(s).producer.Closing?
  {
    PutFrameSize(s, Error);
  }

  lemma RetryLowers(c: Config, s: State, attempt: nat)
    requires s.producer == Connecting(attempt) || s.producer == Rejecting(attempt)
    ensures Rank(c, Retry(c, s, attempt)) < Rank(c, s) && |Retry(c, s, attempt).rx| == |s.rx|
    ensures SameTasks(s, Retry(c, s, attempt))
  {
    FailSize(s);
  }

  lemma ConnectLowers(c: Config, s: State, status: Option<nat>)
    requires s.producer.Connecting?
    ensures var t := AfterConnect(c, s, s.producer.attempt, status);
            Rank(c, t) < Rank(c, s) && |t.rx| == |s.rx| && SameTasks(s, t)
  {
    if status.None? {
      RetryLowers(c, s, s.producer.attempt);
    } else {
      MoveLowers(c, s, AfterStatus(c, s.producer.attempt, status.value));
    }
  }

  lemma MoveLowers(c: Config, s: State, p: ProducerPc)
    requires ProducerRank(c, p) < ProducerRank(c, s.producer)
    ensures Rank(c, s.(producer := p)) < Rank(c, s) && s.(producer := p).rx == s.rx
  {
  }

  lemma ReadLowers(c: Config, s: State, outcome: ReadOutcome)
    requires s.producer.FirstRead? || s.producer.Reading?
    ensures Rank(c, AfterRead(s, outcome)) <= Rank(c, s) + if outcome.Bytes? then 3 else -1
    ensures |AfterRead(s, outcome).rx| == |s.rx| + if outcome.Bytes? then 1 else 0
    ensures SameTasks(s, AfterRead(s, outcome))
  {
    if outcome.TimesOut? || outcome.Fails? {
      FailSize(s);
      assert AfterRead(s, outcome) == FailWith(s);
    }
  }

  lemma EnqueueSize(s: State, f: Frame)
    ensures Sized(s, Enqueue(s, f), 1) && Enqueue(s, f).producer == s.producer
  {
  }

  lemma PutLowers(c: Config, s: State)
    requires s.producer.Putting? || s.producer.Closing?
    ensures Rank(c, AfterPut(s)) < Rank(c, s) && |AfterPut(s).rx| == |s.rx| && SameTasks(s, AfterPut(s))
  {
    EnqueueSize(s, if s.producer.Putting? then Data(s.producer.chunk) else Done);
  }

  lemma ProducerLowers(c: Config, s: State, a: Action)
    requires Enabled(c, s, a) && OfProducer(a)
    ensures Rank(c, After(c, s, a)) <= Rank(c, s) + Gain(a)
    ensures |After(c, s, a).rx| == |s.rx| + if IsChunk(a) then 1 else 0
    ensures SameTasks(s, After(c, s, a))
  {
    match a
    case Connect(status) => ConnectLowers(c, s, status);
    case Wake =>
    case RejectBody(raises) => if raises { RetryLowers(c, s, s.producer.attempt); } else { FailSize(s); }
    case Read(outcome) => ReadLowers(c, s, outcome);
    case Put => PutLowers(c, s);
    case ProducerCancelled =>
  }

  lemma ConsumerLowers(c: Config, s: State, a: Action)
    requires Enabled(c, s, a) && OfConsumer(a)
    ensures Rank(c, After(c, s, a)) <= Rank(c, s) + Gain(a) && |After(c, s, a).rx| == |s.rx|
  {
    match a
    case Take(_) =>
    case Write(_) =>
    case ConsumerCancelled(_) =>
    case Beat => EnqueueSize(s, Heartbeat);
  }

  lemma TwoFramesSize(s: State)
    ensures Sized(s, PutFrame(PutFrame(s, Error), Done), 2) && PutFrame(PutFrame(s, Error), Done).producer == s.producer
  {
    PutFrameSize(s, Error);
    PutFrameSize(PutFrame(s, Error), Done);
  }

  lemma MonitorLowers(c: Config, s: State)
    requires s.main.AwaitFirst?
    ensures Rank(c, AfterMonitor(s)) < Rank(c, s) && |AfterMonitor(s).rx| == |s.rx|
  {
    TwoFramesSize(s.(producerCancel := true));
  }

  lemma CrashLowers(c: Config, s: State)
    requires s.main.AwaitConsumer?
    ensures Rank(c, AfterCrashed(s)) < Rank(c, s) && |AfterCrashed(s).rx| == |s.rx|
  {
    TwoFramesSize(s);
  }

  lemma MainLowers(c: Config, s: State, a: Action)
    requires Enabled(c, s, a) && !OfProducer(a) && !OfConsumer(a)
    ensures Rank(c, After(c, s, a)) <= Rank(c, s) + Gain(a) && |After(c, s, a).rx| == |s.rx|
  {
    match a
    case FirstTokenTimeout => MonitorLowers(c, s);
    case SeeConsumer => if s.consumer.reason.Crash? { CrashLowers(c, s); } else { CancelLowers(c, s); }
    case SeeFirst =>
    case EndOfResponse =>
    case _ => CancelLowers(c, s);
  }

  lemma CancelLowers(c: Config, s: State)
    requires s.main.AwaitFirst? || s.main.AwaitConsumer? || s.main.AfterCrash?
    ensures Rank(c, CancelAll(s)) < Rank(c, s) && CancelAll(s).rx == s.rx
  {
  }

  lemma StepLowers(c: Config, s: State, a: Action)
    requires Enabled(c, s, a)
    ensures Rank(c, After(c, s, a)) <= Rank(c, s) + Gain(a)
    ensures |After(c, s, a).rx| == |s.rx| + if IsChunk(a) then 1 else 0
  {
    if OfProducer(a) {
      ProducerLowers(c, s, a);
    } else if OfConsumer(a) {
      ConsumerLowers(c, s, a);
    } else {
      MainLowers(c, s, a);
    }
  }

  function Beats(run: seq<Action>, n: nat): nat
    requires n <= |run|
  {
    if n == 0 then 0 else Beats(run, n - 1) + if run[n - 1].Beat? then 1 else 0
  }

  /** However the tasks, the network and the clock are scheduled, a response takes at most a fixed number of steps,
      and three more for every heartbeat and four for every chunk that was read. */
  lemma {:induction false} StepsAreBounded(c: Config, states: seq<State>, run: seq<Action>, n: nat)
    requires IsRun(c, states, run) && n <= |run|
    ensures n + Rank(c, states[n]) <= 4 * c.retries + 21 + 3 * Beats(run, n) + 4 * |states[n].rx|
  {
    if n > 0 {
      StepsAreBounded(c, states, run, n - 1);
      StepLowers(c, states[n - 1], run[n - 1]);
    }
  }
}

/** One proxied stream: producer, consumer, heartbeat and the first-token monitor around a bounded
    queue. Every stretch of code between two awaits is one step; what the network and the clock do is
    chosen by the action. */
module GatewayStream {
  import opened Options

  const QUEUE_MAX: nat := 256

  /** A non-empty read from the engine. */
  datatype Chunk = Chunk(first: int, rest: seq<int>)

  datatype Frame = Data(chunk: Chunk) | Error | Heartbeat | Done

  /** What a sequence of frames says to a client: everything but heartbeats, up to the first DONE. */
  datatype Said = Said(frames: seq<Frame>, closed: bool)

  function Say(x: Said, f: Frame): Said
  {
    if x.closed || f.Heartbeat? then x
    else if f.Done? then Said(x.frames, true)
    else Said(x.frames + [f], false)
  }

  function Content(fs: seq<Frame>): Said
  {
    if fs == [] then Said([], false) else Say(Content(fs[..|fs| - 1]), fs[|fs| - 1])
  }

  /** Settings: RETRY_CONNECT and whether FIRST_TOKEN_TIMEOUT is positive. */
  datatype Config = Config(retries: nat, budgeted: bool)

  datatype ProducerPc =
    | Connecting(attempt: nat)
    | Backoff(attempt: nat)
    | Rejecting(attempt: nat)
    | FirstRead
    | Putting(chunk: Chunk)
    | Reading
    | Closing
    | Finished

  datatype StopReason = SawDone | TotalTimeout | WriteTimeout | Disconnect | Crash

  datatype ConsumerPc = Getting | Writing(item: Frame) | Stopped(reason: StopReason)

  datatype MainPc = AwaitFirst | AwaitConsumer | AfterCrash | Cleaning | Returned

  /** `rx` and `eof` are what was read from the engine, `client` what the client was sent. `sent` is
      everything that was queued while the consumer could still take it, `enqueued` its chunks;
      `errorTried`, `errorIn` and `errorDropped` follow the error frame; `told` and `heard` are what
      `sent` and `client` say. They only record. */
  datatype State = State(queue: seq<Frame>, producer: ProducerPc, producerCancel: bool,
                         consumer: ConsumerPc, consumerCancel: bool, main: MainPc,
                         firstSeen: bool, beating: bool, drops: nat,
                         rx: seq<Chunk>, eof: bool, client: seq<Frame>,
                         sent: seq<Frame>, enqueued: seq<Chunk>,
                         errorTried: bool, errorIn: bool, errorDropped: bool,
                         told: Said, heard: Said)

  datatype ReadOutcome = Bytes(chunk: Chunk) | EndOfStream | TimesOut | Fails
  datatype WriteOutcome = Completes | SlowClient(delivered: bool) | Resets(delivered: bool) | Breaks(delivered: bool)

  datatype Action =
    | Connect(status: Option<nat>)     // None: the connection attempt raises
    | Wake
    | RejectBody(raises: bool)
    | Read(outcome: ReadOutcome)
    | Put
    | ProducerCancelled
    | Take(expired: bool)
    | Write(result: WriteOutcome)
    | ConsumerCancelled(delivered: bool)
    | Beat
    | SeeFirst
    | FirstTokenTimeout
    | SeeConsumer
    | CrashHandled
    | ClientGone
    | EndOfResponse

  function Start(): State
  {
    State([], Connecting(0), false, Getting, false, AwaitFirst, false, true, 0, [], false, [], [], [], false, false, false,
          Said([], false), Said([], false))
  }

  /** The consumer will still take what is queued now. */
  predicate Listening(s: State)
  {
    !s.consumer.Stopped? && !s.consumerCancel
  }

  /** A frame goes into the queue. */
  function Enqueue(s: State, f: Frame): State
  {
    var live := Listening(s);
    s.(queue := s.queue + [f],
       sent := if live then s.sent + [f] else s.sent,
       told := if live then Say(s.told, f) else s.told,
       enqueued := if live && f.Data? then s.enqueued + [f.chunk] else s.enqueued,
       errorIn := s.errorIn || (live && f.Error?))
  }

  /** `put_frame`: never raises, drops and counts when the queue is full. */
  function PutFrame(s: State, f: Frame): State
  {
    var room := |s.queue| < QUEUE_MAX;
    var live := room && Listening(s);
    s.(queue := if room then s.queue + [f] else s.queue,
       sent := if live then s.sent + [f] else s.sent,
       told := if live then Say(s.told, f) else s.told,
       enqueued := if live && f.Data? then s.enqueued + [f.chunk] else s.enqueued,
       drops := if room then s.drops else s.drops + 1,
       errorTried := s.errorTried || f.Error?,
       errorIn := s.errorIn || (live && f.Error?),
       errorDropped := s.errorDropped || (!room && f.Error?))
  }

  /** The producer leaves its try block: `finally` announces the first byte and will queue DONE. */
  function Leave(s: State): State
  {
    s.(firstSeen := true, producer := Closing)
  }

  function FailWith(s: State): State
  {
    Leave(PutFrame(s, Error))
  }

  function Retry(c: Config, s: State, attempt: nat): State
  {
    if attempt < c.retries then s.(producer := Backoff(attempt)) else FailWith(s)
  }

  predicate BeforeFirst(p: ProducerPc)
  {
    p.Connecting? || p.Backoff? || p.Rejecting? || p.FirstRead?
  }

  /** `finally` of the handler: every task is cancelled. */
  function CancelAll(s: State): State
  {
    s.(beating := false, producerCancel := !s.producer.Finished?, consumerCancel := !s.consumer.Stopped?, main := Cleaning)
  }

  predicate Enabled(c: Config, s: State, a: Action)
  {
    match a
    case Connect(_) => s.producer.Connecting? && !s.producerCancel
    case Wake => s.producer.Backoff? && !s.producerCancel
    case RejectBody(_) => s.producer.Rejecting? && !s.producerCancel
    case Read(o) => (s.producer.FirstRead? || s.producer.Reading?) && !s.producerCancel
                    && (o.TimesOut? && s.producer.FirstRead? ==> c.budgeted)
    case Put => (s.producer.Putting? || s.producer.Closing?) && !s.producerCancel && |s.queue| < QUEUE_MAX
    case ProducerCancelled => s.producerCancel && !s.producer.Finished?
    case Take(_) => s.consumer.Getting? && !s.consumerCancel && s.queue != []
    case Write(_) => s.consumer.Writing? && !s.consumerCancel
    case ConsumerCancelled(_) => s.consumerCancel && !s.consumer.Stopped?
    case Beat => s.beating
    case SeeFirst => s.main.AwaitFirst? && s.firstSeen
    case FirstTokenTimeout => s.main.AwaitFirst? && !s.firstSeen && c.budgeted
    case SeeConsumer => s.main.AwaitConsumer? && s.consumer.Stopped?
    case CrashHandled => s.main.AfterCrash?
    case ClientGone => s.main.AwaitFirst? || s.main.AwaitConsumer?
    case EndOfResponse => s.main.Cleaning?
  }

  /** The item in the consumer's hand reaches the client; after a bad write it may not have. */
  function Deliver(s: State, item: Frame, yes: bool): State
  {
    s.(client := if yes then s.client + [item] else s.client,
       heard := if yes then Say(s.heard, item) else s.heard)
  }

  function AfterStatus(c: Config, attempt: nat, status: nat): ProducerPc
  {
    if status >= 500 && attempt < c.retries then Backoff(attempt)
    else if status != 200 then Rejecting(attempt)
    else FirstRead
  }

  function AfterConnect(c: Config, s: State, attempt: nat, status: Option<nat>): State
  {
    if status.None? then Retry(c, s, attempt) else s.(producer := AfterStatus(c, attempt, status.value))
  }

  function AfterRead(s: State, outcome: ReadOutcome): State
  {
    match outcome
    case Bytes(chunk) => s.(rx := s.rx + [chunk], firstSeen := true, producer := Putting(chunk))
    case EndOfStream => Leave(s.(eof := true))
    case TimesOut => FailWith(s)
    case Fails => FailWith(s)
  }

  function AfterPut(s: State): State
  {
    match s.producer
    case Putting(chunk) => Enqueue(s, Data(chunk)).(producer := Reading)
    case _ => Enqueue(s, Done).(producer := Finished)
  }

  /** Cancelled while it waits to queue DONE the producer ends; cancelled earlier it goes on to `finally`. */
  function AfterProducerCancel(s: State): State
  {
    s.(producerCancel := false,
       firstSeen := s.firstSeen || !s.producer.Closing?,
       producer := if s.producer.Closing? then Finished else Closing)
  }

  function AfterTake(s: State, expired: bool): State
    requires s.queue != []
  {
    var item := s.queue[0];
    s.(queue := s.queue[1..],
       consumer := if item.Done? then Stopped(SawDone) else if expired then Stopped(TotalTimeout) else Writing(item))
  }

  function Reaches(result: WriteOutcome): bool
  {
    result.Completes? || result.delivered
  }

  function NextAfterWrite(result: WriteOutcome): ConsumerPc
  {
    match result
    case Completes => Getting
    case SlowClient(_) => Stopped(WriteTimeout)
    case Resets(_) => Stopped(Disconnect)
    case Breaks(_) => Stopped(Crash)
  }

  function AfterWrite(s: State, item: Frame, result: WriteOutcome): State
  {
    Deliver(s, item, Reaches(result)).(consumer := NextAfterWrite(result))
  }

  function AfterConsumerCancel(s: State, yes: bool): State
  {
    Deliver(s, if s.consumer.Writing? then s.consumer.item else Heartbeat, s.consumer.Writing? && yes)
      .(consumer := Stopped(Disconnect), consumerCancel := false)
  }

  function AfterMonitor(s: State): State
  {
    PutFrame(PutFrame(s.(producerCancel := true), Error), Done).(main := AwaitConsumer)
  }

  function AfterCrashed(s: State): State
  {
    PutFrame(PutFrame(s, Error), Done).(main := AfterCrash)
  }

  function After(c: Config, s: State, a: Action): State
    requires Enabled(c, s, a)
  {
    match a
    case Connect(status) => AfterConnect(c, s, s.producer.attempt, status)
    case Wake => s.(producer := Connecting(s.producer.attempt + 1))
    case RejectBody(raises) => if raises then Retry(c, s, s.producer.attempt) else FailWith(s)
    case Read(outcome) => AfterRead(s, outcome)
    case Put => AfterPut(s)
    case ProducerCancelled => AfterProducerCancel(s)
    case Take(expired) => AfterTake(s, expired)
    case Write(result) => AfterWrite(s, s.consumer.item, result)
    case ConsumerCancelled(yes) => AfterConsumerCancel(s, yes)
    case Beat => if |s.queue| < QUEUE_MAX then Enqueue(s, Heartbeat) else s
    case SeeFirst => s.(main := AwaitConsumer)
    case FirstTokenTimeout => AfterMonitor(s)
    case SeeConsumer => if s.consumer.reason.Crash? then AfterCrashed(s) else CancelAll(s)
    case CrashHandled => CancelAll(s)
    case ClientGone => CancelAll(s)
    case EndOfResponse => s.(main := Returned)
  }

  ghost predicate IsRun(c: Config, states: seq<State>, run: seq<Action>)
  {
    && |states| == |run| + 1 && states[0] == Start()
    && forall n :: 0 <= n < |run| ==> Enabled(c, states[n], run[n]) && states[n + 1] == After(c, states[n], run[n])
  }

  ghost predicate Reachable(c: Config, s: State)
  {
    exists states, run :: IsRun(c, states, run) && states[|run|] == s
  }

  lemma ReachNext(c: Config, s: State, a: Action)
    requires Reachable(c, s) && Enabled(c, s, a)
    ensures Reachable(c, After(c, s, a))
  {
    var states, run :| IsRun(c, states, run) && states[|run|] == s;
    var states', run' := states + [After(c, s, a)], run + [a];
    assert IsRun(c, states', run') && states'[|run'|] == After(c, s, a);
  }

  lemma ReachStart(c: Config)
    ensures Reachable(c, Start())
  {
    assert IsRun(c, [Start()], []);
  }
}

/** No silent truncation: what the client was sent, against what the engine said. */
module GatewayDelivery {
  import opened Options
  import opened GatewayStream

  function Datas(chunks: seq<Chunk>): (fs: seq<Frame>)
    ensures |fs| == |chunks| && forall i :: 0 <= i < |fs| ==> fs[i] == Data(chunks[i])
  {
    seq(|chunks|, i requires 0 <= i < |chunks| => Data(chunks[i]))
  }

  lemma ContentAppend(fs: seq<Frame>, f: Frame)
    ensures Content(fs + [f]) == Say(Content(fs), f)
  {
    assert (fs + [f])[..|fs|] == fs;
  }

  /** What was said stays said, and behind a DONE nothing is added. */
  lemma {:induction false} ContentPrefix(fs: seq<Frame>, n: nat)
    requires n <= |fs|
    ensures Content(fs[..n]).frames <= Content(fs).frames
    ensures Content(fs[..n]).closed ==> Content(fs) == Content(fs[..n])
  {
    if n < |fs| {
      ContentPrefix(fs[..|fs| - 1], n);
      assert fs[..|fs| - 1][..n] == fs[..n];
    } else {
      assert fs[..n] == fs;
    }
  }

  function InHand(s: State): seq<Frame>
  {
    if s.consumer.Writing? then [s.consumer.item] else []
  }

  /** The queue is first-in first-out, and the client's frames are its past. */
  ghost predicate Pipeline(s: State)
  {
    && |s.queue| <= QUEUE_MAX
    && !s.heard.closed && (s.consumer.Writing? ==> !s.consumer.item.Done?)
    && s.client + InHand(s) <= s.sent
    && (Listening(s) ==> s.sent == s.client + InHand(s) + s.queue)
    && (s.consumer == Stopped(SawDone) ==> s.client + [Done] <= s.sent && s.told.closed)
  }

  /** The records say what the frames say. */
  ghost predicate History(s: State)
  {
    && s.told == Content(s.sent) && s.heard == Content(s.client)
  }

  /** What was queued: chunks in order, then at most one error frame. */
  ghost predicate Queued(s: State)
  {
    && s.told.frames == Datas(s.enqueued) + (if s.errorIn then [Error] else [])
    && s.enqueued <= s.rx
    && (s.errorIn ==> s.errorTried) && (s.errorDropped ==> s.errorTried && s.drops > 0)
  }

  /** What the producer's place says while the consumer listens. */
  ghost predicate Phase(s: State)
  {
    && s.errorTried == (s.errorIn || s.errorDropped) && !(s.errorIn && s.errorDropped)
    && (s.main.AwaitFirst? || s.main.AwaitConsumer?)
    && (s.producerCancel ==> s.main.AwaitConsumer? && BeforeFirst(s.producer))
    && match s.producer
       case Putting(chunk) => s.firstSeen && s.rx == s.enqueued + [chunk] && !s.eof && !s.errorTried && !s.told.closed
       case Reading => s.firstSeen && s.rx == s.enqueued && !s.eof && !s.errorTried && !s.told.closed
       case Closing => s.firstSeen && s.rx == s.enqueued && s.eof != s.errorTried && (s.told.closed ==> s.errorTried)
       case Finished => s.firstSeen && s.rx == s.enqueued && s.eof != s.errorTried && s.told.closed
       case _ =>
         && !s.firstSeen && s.rx == [] && s.enqueued == [] && !s.eof
         && s.errorTried == s.producerCancel && (s.told.closed ==> s.producerCancel)
         && (!s.producerCancel ==> s.main.AwaitFirst?)
  }

  /** What is settled once the consumer has taken DONE. */
  ghost predicate Settled(s: State)
  {
    && s.heard.frames == s.told.frames && s.rx == s.enqueued && s.eof != s.errorTried
    && (s.errorTried ==> s.errorIn != s.errorDropped)
    && (s.producer.Closing? || s.producer.Finished? || s.producerCancel)
    && (s.firstSeen || !s.main.AwaitFirst?)
  }

  ghost predicate Inv(s: State)
  {
    && s.firstSeen == !BeforeFirst(s.producer) && (s.producerCancel ==> !s.producer.Finished?)
    && Pipeline(s) && Queued(s)
    && (Listening(s) ==> Phase(s))
    && (s.consumer == Stopped(SawDone) ==> Settled(s))
  }

  lemma StartInv()
    ensures Inv(Start()) && History(Start())
  {
    assert Datas([]) == [];
  }

  /** Nothing that the client sees or will see has changed. */
  ghost predicate SameFrames(s: State, s': State)
  {
    && s'.queue == s.queue && s'.client == s.client && s'.sent == s.sent && s'.enqueued == s.enqueued
    && s'.consumer == s.consumer && (Listening(s') ==> Listening(s)) && s.rx <= s'.rx
    && s'.errorTried == s.errorTried && s'.errorIn == s.errorIn && s'.errorDropped == s.errorDropped
    && s'.drops == s.drops && s'.told == s.told && s'.heard == s.heard
  }

  lemma SameFramesKept(s: State, s': State)
    requires Pipeline(s) && Queued(s) && SameFrames(s, s')
    ensures Pipeline(s') && Queued(s')
  {
  }

  /** Nothing that matters after DONE has changed. */
  lemma SettledKept(s: State, s': State)
    requires Settled(s) && SameFrames(s, s') && s'.rx == s.rx && s'.eof == s.eof
    requires s'.producer.Closing? || s'.producer.Finished? || s'.producerCancel
    requires s'.firstSeen || !s'.main.AwaitFirst?
    ensures Settled(s')
  {
  }

  lemma PipelineGrows(s: State, f: Frame)
    requires Pipeline(s) && |s.queue| < QUEUE_MAX
    ensures Pipeline(Enqueue(s, f))
  {
    if Listening(s) {
      assert s.client + InHand(s) + s.queue + [f] == s.client + InHand(s) + (s.queue + [f]);
    }
  }

  /** Queueing a frame appends to what the client will be told, unless DONE is already queued. */
  lemma QueuedGrows(s: State, f: Frame)
    requires Queued(s)
    requires Listening(s) && (f.Data? || f.Error?) ==> !s.told.closed && !s.errorIn
    requires f.Data? && Listening(s) ==> s.enqueued + [f.chunk] <= s.rx
    requires f.Error? ==> s.errorTried
    ensures Queued(Enqueue(s, f))
  {
    if Listening(s) && f.Data? {
      assert Datas(s.enqueued + [f.chunk]) == Datas(s.enqueued) + [f];
    }
  }

  lemma PutFrameEnqueues(s: State, f: Frame)
    requires |s.queue| < QUEUE_MAX && !f.Data?
    ensures PutFrame(s, f) == Enqueue(s.(errorTried := s.errorTried || f.Error?), f)
  {
  }

  lemma PutFrameKeeps(s: State, f: Frame)
    requires Pipeline(s) && Queued(s)
    requires f.Error? || f.Done?
    requires Listening(s) && f.Error? ==> !s.told.closed && !s.errorIn
    ensures Pipeline(PutFrame(s, f)) && Queued(PutFrame(s, f))
  {
    if |s.queue| < QUEUE_MAX {
      PutFrameEnqueues(s, f);
      PipelineGrows(s.(errorTried := s.errorTried || f.Error?), f);
      QueuedGrows(s.(errorTried := s.errorTried || f.Error?), f);
    }
  }

  /** The producer gives up with an error frame before anything went wrong earlier. */
  lemma FailPhase(s: State)
    requires Listening(s) && Phase(s) && !s.producerCancel && (BeforeFirst(s.producer) || s.producer.Reading?)
    ensures Phase(FailWith(s))
    ensures !s.errorTried && !s.told.closed
  {
  }

  lemma FailKeeps(s: State)
    requires Inv(s) && !s.producerCancel
    requires BeforeFirst(s.producer) || s.producer.Reading?
    ensures Inv(FailWith(s))
  {
    if Listening(s) {
      FailPhase(s);
    }
    PutFrameKeeps(s, Error);
    SameFramesKept(PutFrame(s, Error), FailWith(s));
  }

  /** The producer moves on before its first byte. */
  lemma MoveKeeps(s: State, p: ProducerPc)
    requires Inv(s) && BeforeFirst(s.producer) && BeforeFirst(p)
    ensures Inv(s.(producer := p))
  {
    SameFramesKept(s, s.(producer := p));
  }

  lemma ConnectKeeps(c: Config, s: State, attempt: nat, status: Option<nat>)
    requires Inv(s) && !s.producerCancel && BeforeFirst(s.producer)
    ensures Inv(AfterConnect(c, s, attempt, status))
  {
    if status.None? {
      RetryKeeps(c, s, attempt);
    } else {
      MoveKeeps(s, AfterStatus(c, attempt, status.value));
    }
  }

  lemma RetryKeeps(c: Config, s: State, attempt: nat)
    requires Inv(s) && !s.producerCancel && BeforeFirst(s.producer)
    ensures Inv(Retry(c, s, attempt))
  {
    MoveKeeps(s, Backoff(attempt));
    FailKeeps(s);
  }

  lemma ReadKeeps(s: State, outcome: ReadOutcome)
    requires Inv(s) && !s.producerCancel && (s.producer.FirstRead? || s.producer.Reading?)
    ensures Inv(AfterRead(s, outcome))
  {
    if outcome.TimesOut? || outcome.Fails? {
      FailKeeps(s);
    } else {
      SameFramesKept(s, AfterRead(s, outcome));
    }
  }

  lemma PutKeeps(s: State)
    requires Inv(s) && !s.producerCancel && (s.producer.Putting? || s.producer.Closing?) && |s.queue| < QUEUE_MAX
    ensures Inv(AfterPut(s))
  {
    var f := if s.producer.Putting? then Data(s.producer.chunk) else Done;
    PipelineGrows(s, f);
    QueuedGrows(s, f);
    SameFramesKept(Enqueue(s, f), AfterPut(s));
  }

  /** Taking DONE settles the account: the client has everything that was queued before it. */
  lemma TakeDone(s: State)
    requires Pipeline(s) && History(s) && s.consumer.Getting? && !s.consumerCancel && s.queue != [] && s.queue[0].Done?
    ensures s.told == Said(s.heard.frames, true) && s.client + [Done] <= s.sent
  {
    var n := |s.client|;
    assert s.sent == s.client + s.queue;
    assert s.sent[..n + 1] == s.client + [Done];
    ContentAppend(s.client, Done);
    ContentPrefix(s.sent, n + 1);
  }

  lemma TakePipeline(s: State, expired: bool)
    requires Pipeline(s) && History(s) && s.consumer.Getting? && !s.consumerCancel && s.queue != []
    ensures Pipeline(AfterTake(s, expired))
  {
    assert s.sent == s.client + s.queue;
    if s.queue[0].Done? {
      TakeDone(s);
    } else {
      assert s.sent == s.client + [s.queue[0]] + s.queue[1..];
    }
  }

  lemma TakeKeeps(s: State, expired: bool)
    requires Inv(s) && History(s) && s.consumer.Getting? && !s.consumerCancel && s.queue != []
    ensures Inv(AfterTake(s, expired))
  {
    TakePipeline(s, expired);
    if s.queue[0].Done? {
      TakeDone(s);
    }
  }

  lemma DeliverKeeps(s: State, yes: bool)
    requires Pipeline(s) && s.consumer.Writing?
    ensures var t := Deliver(s, s.consumer.item, yes);
            t.client <= s.client + InHand(s) && !t.heard.closed && (yes ==> t.client == s.client + InHand(s))
  {
  }

  lemma WritePipeline(s: State, result: WriteOutcome)
    requires Pipeline(s) && s.consumer.Writing? && !s.consumerCancel
    ensures Pipeline(AfterWrite(s, s.consumer.item, result))
  {
    DeliverKeeps(s, Reaches(result));
  }

  lemma WriteKeeps(s: State, result: WriteOutcome)
    requires Inv(s) && s.consumer.Writing? && !s.consumerCancel
    ensures Inv(AfterWrite(s, s.consumer.item, result))
  {
    WritePipeline(s, result);
  }

  lemma ConsumerCancelKeeps(s: State, yes: bool)
    requires Inv(s) && s.consumerCancel && !s.consumer.Stopped?
    ensures Inv(AfterConsumerCancel(s, yes))
  {
    if s.consumer.Writing? {
      DeliverKeeps(s, yes);
    }
    assert Pipeline(AfterConsumerCancel(s, yes));
  }

  lemma BeatKeeps(s: State)
    requires Inv(s) && |s.queue| < QUEUE_MAX
    ensures Inv(Enqueue(s, Heartbeat))
  {
    PipelineGrows(s, Heartbeat);
    QueuedGrows(s, Heartbeat);
  }

  /** The monitor fires only while nothing was read, so its error frame follows no data. */
  lemma QuietBeforeFirst(s: State)
    requires Phase(s) && s.main.AwaitFirst? && !s.firstSeen
    ensures BeforeFirst(s.producer) && !s.producerCancel && !s.errorTried && !s.told.closed
    ensures s.rx == [] && s.enqueued == [] && !s.eof
  {
  }

  lemma MonitorPhase(s: State)
    requires Listening(s) && BeforeFirst(s.producer) && !s.errorTried && !s.errorIn && !s.errorDropped && !s.told.closed
    requires !s.firstSeen && s.rx == [] && s.enqueued == [] && !s.eof
    ensures Phase(AfterMonitor(s))
  {
  }

  lemma MonitorKeeps(s: State)
    requires Inv(s) && s.main.AwaitFirst? && !s.firstSeen
    ensures Inv(AfterMonitor(s))
  {
    if Listening(s) {
      QuietBeforeFirst(s);
      MonitorPhase(s);
    }
    TwoFrames(s, s.(producerCancel := true), AfterMonitor(s));
  }

  /** An error frame and a DONE, and then nothing that the client could see. */
  lemma TwoFrames(s: State, t: State, u: State)
    requires Pipeline(s) && Queued(s) && SameFrames(s, t)
    requires Listening(t) ==> !s.told.closed && !s.errorIn
    requires SameFrames(PutFrame(PutFrame(t, Error), Done), u)
    ensures Pipeline(u) && Queued(u)
  {
    SameFramesKept(s, t);
    PutFrameKeeps(t, Error);
    PutFrameKeeps(PutFrame(t, Error), Done);
    SameFramesKept(PutFrame(PutFrame(t, Error), Done), u);
  }

  lemma CrashKeeps(s: State)
    requires Inv(s) && s.consumer == Stopped(Crash)
    ensures Inv(AfterCrashed(s))
  {
    TwoFrames(s, s, AfterCrashed(s));
  }

  lemma CancelAllKeeps(s: State)
    requires Inv(s) && !s.main.Cleaning? && !s.main.Returned?
    ensures Inv(CancelAll(s))
  {
    SameFramesKept(s, CancelAll(s));
  }

  lemma ProducerCancelPhase(s: State)
    requires s.producerCancel && !s.producer.Finished? && Phase(s)
    ensures Phase(AfterProducerCancel(s))
  {
  }

  lemma ProducerCancelKeeps(s: State)
    requires Inv(s) && s.producerCancel && !s.producer.Finished?
    ensures Inv(AfterProducerCancel(s))
  {
    SameFramesKept(s, AfterProducerCancel(s));
    if Listening(s) {
      ProducerCancelPhase(s);
    }
    if s.consumer == Stopped(SawDone) {
      SettledKept(s, AfterProducerCancel(s));
    }
  }

  lemma MainMoves(s: State, m: MainPc)
    requires Inv(s)
    requires (s.main.AwaitFirst? && s.firstSeen && m.AwaitConsumer?) || (s.main.Cleaning? && m.Returned?)
    ensures Inv(s.(main := m))
  {
    SameFramesKept(s, s.(main := m));
  }

  predicate OfProducer(a: Action)
  {
    a.Connect? || a.Wake? || a.RejectBody? || a.Read? || a.Put? || a.ProducerCancelled?
  }

  lemma ProducerKeeps(c: Config, s: State, a: Action)
    requires Inv(s) && Enabled(c, s, a) && OfProducer(a)
    ensures Inv(After(c, s, a))
  {
    match a
    case Connect(status) => ConnectKeeps(c, s, s.producer.attempt, status);
    case Wake => MoveKeeps(s, Connecting(s.producer.attempt + 1));
    case RejectBody(raises) => if raises { RetryKeeps(c, s, s.producer.attempt); } else { FailKeeps(s); }
    case Read(outcome) => ReadKeeps(s, outcome);
    case Put => PutKeeps(s);
    case ProducerCancelled => ProducerCancelKeeps(s);
  }

  predicate OfConsumer(a: Action)
  {
    a.Take? || a.Write? || a.ConsumerCancelled? || a.Beat?
  }

  lemma ConsumerKeeps(c: Config, s: State, a: Action)
    requires Inv(s) && History(s) && Enabled(c, s, a) && OfConsumer(a)
    ensures Inv(After(c, s, a))
  {
    match a
    case Take(expired) => TakeKeeps(s, expired);
    case Write(result) => WriteKeeps(s, result);
    case ConsumerCancelled(yes) => ConsumerCancelKeeps(s, yes);
    case Beat => if |s.queue| < QUEUE_MAX { BeatKeeps(s); }
  }

  lemma InvKept(c: Config, s: State, a: Action)
    requires Inv(s) && History(s) && Enabled(c, s, a)
    ensures Inv(After(c, s, a))
  {
    if OfProducer(a) {
      ProducerKeeps(c, s, a);
    } else if OfConsumer(a) {
      ConsumerKeeps(c, s, a);
    } else {
      match a
      case SeeFirst => MainMoves(s, AwaitConsumer);
      case FirstTokenTimeout => MonitorKeeps(s);
      case SeeConsumer => if s.consumer.reason.Crash? { CrashKeeps(s); } else { CancelAllKeeps(s); }
      case CrashHandled => CancelAllKeeps(s);
      case ClientGone => CancelAllKeeps(s);
      case EndOfResponse => MainMoves(s, Returned);
    }
  }

  lemma HistoryGrows(s: State, f: Frame)
    requires History(s)
    ensures History(Enqueue(s, f))
  {
    ContentAppend(s.sent, f);
    assert Enqueue(s, f).sent == if Listening(s) then s.sent + [f] else s.sent;
  }

  lemma HistoryPut(s: State, f: Frame)
    requires History(s)
    ensures History(PutFrame(s, f))
  {
    ContentAppend(s.sent, f);
    assert PutFrame(s, f).sent == if |s.queue| < QUEUE_MAX && Listening(s) then s.sent + [f] else s.sent;
  }

  /** States with the same frames have the same history. */
  lemma SameHistory(s: State, s': State)
    requires History(s) && s'.sent == s.sent && s'.told == s.told && s'.client == s.client && s'.heard == s.heard
    ensures History(s')
  {
  }

  lemma HistoryDeliver(s: State, item: Frame, yes: bool)
    requires History(s)
    ensures History(Deliver(s, item, yes))
  {
    ContentAppend(s.client, item);
    assert Deliver(s, item, yes).client == if yes then s.client + [item] else s.client;
  }

  lemma HistoryFail(s: State)
    requires History(s)
    ensures History(FailWith(s))
  {
    var t := PutFrame(s, Error);
    HistoryPut(s, Error);
    SameHistory(t, FailWith(s));
  }

  lemma HistoryTwo(s: State, m: MainPc)
    requires History(s)
    ensures History(PutFrame(PutFrame(s, Error), Done).(main := m))
  {
    HistoryPut(s, Error);
    HistoryPut(PutFrame(s, Error), Done);
    SameHistory(PutFrame(PutFrame(s, Error), Done), PutFrame(PutFrame(s, Error), Done).(main := m));
  }

  lemma HistoryMove(s: State, p: ProducerPc)
    requires History(s)
    ensures History(s.(producer := p))
  {
    SameHistory(s, s.(producer := p));
  }

  lemma HistoryRetry(c: Config, s: State, attempt: nat)
    requires History(s)
    ensures History(Retry(c, s, attempt))
  {
    if attempt < c.retries {
      HistoryMove(s, Backoff(attempt));
    } else {
      HistoryFail(s);
    }
  }

  lemma HistoryConnect(c: Config, s: State, attempt: nat, status: Option<nat>)
    requires History(s)
    ensures History(AfterConnect(c, s, attempt, status))
  {
    if status.None? {
      HistoryRetry(c, s, attempt);
    } else {
      HistoryMove(s, AfterStatus(c, attempt, status.value));
    }
  }

  lemma HistoryRead(s: State, outcome: ReadOutcome)
    requires History(s)
    ensures History(AfterRead(s, outcome))
  {
    HistoryFail(s);
    match outcome
    case Bytes(chunk) => SameHistory(s, AfterRead(s, outcome));
    case EndOfStream => SameHistory(s, AfterRead(s, outcome));
    case _ =>
  }

  lemma HistoryPutting(s: State)
    requires History(s)
    ensures History(AfterPut(s))
  {
    HistoryGrows(s, if s.producer.Putting? then Data(s.producer.chunk) else Done);
    if s.producer.Putting? {
      SameHistory(Enqueue(s, Data(s.producer.chunk)), AfterPut(s));
    } else {
      SameHistory(Enqueue(s, Done), AfterPut(s));
    }
  }

  lemma HistoryConsumer(s: State, item: Frame, yes: bool, next: ConsumerPc, cancel: bool)
    requires History(s)
    ensures History(Deliver(s, item, yes).(consumer := next, consumerCancel := cancel))
  {
    HistoryDeliver(s, item, yes);
    SameHistory(Deliver(s, item, yes), Deliver(s, item, yes).(consumer := next, consumerCancel := cancel));
  }

  lemma ProducerHistory(c: Config, s: State, a: Action)
    requires History(s) && Enabled(c, s, a) && OfProducer(a)
    ensures History(After(c, s, a))
  {
    match a
    case Connect(status) => HistoryConnect(c, s, s.producer.attempt, status);
    case Wake => HistoryMove(s, Connecting(s.producer.attempt + 1));
    case RejectBody(raises) => if raises { HistoryRetry(c, s, s.producer.attempt); } else { HistoryFail(s); }
    case Read(outcome) => HistoryRead(s, outcome);
    case Put => HistoryPutting(s);
    case ProducerCancelled => SameHistory(s, AfterProducerCancel(s));
  }

  lemma ConsumerHistory(c: Config, s: State, a: Action)
    requires History(s) && Enabled(c, s, a) && OfConsumer(a)
    ensures History(After(c, s, a))
  {
    match a
    case Take(expired) => SameHistory(s, AfterTake(s, expired));
    case Write(result) =>
      HistoryConsumer(s, s.consumer.item, Reaches(result), NextAfterWrite(result), s.consumerCancel);
    case ConsumerCancelled(yes) =>
      HistoryConsumer(s, if s.consumer.Writing? then s.consumer.item else Heartbeat, s.consumer.Writing? && yes,
                      Stopped(Disconnect), false);
    case Beat => HistoryGrows(s, Heartbeat);
  }

  lemma MonitorHistory(s: State)
    requires History(s)
    ensures History(AfterMonitor(s))
  {
    SameHistory(s, s.(producerCancel := true));
    HistoryTwo(s.(producerCancel := true), AwaitConsumer);
  }

  lemma MainHistory(c: Config, s: State, a: Action)
    requires History(s) && Enabled(c, s, a) && !OfProducer(a) && !OfConsumer(a)
    ensures History(After(c, s, a))
  {
    if a.FirstTokenTimeout? {
      MonitorHistory(s);
    } else if a.SeeConsumer? && s.consumer.reason.Crash? {
      HistoryTwo(s, AfterCrash);
    } else {
      var t := After(c, s, a);
      assert t.sent == s.sent && t.told == s.told && t.client == s.client && t.heard == s.heard;
    }
  }

  lemma HistoryKept(c: Config, s: State, a: Action)
    requires History(s) && Enabled(c, s, a)
    ensures History(After(c, s, a))
  {
    if OfProducer(a) {
      ProducerHistory(c, s, a);
    } else if OfConsumer(a) {
      ConsumerHistory(c, s, a);
    } else {
      MainHistory(c, s, a);
    }
  }

  lemma {:induction false} RunInv(c: Config, states: seq<State>, run: seq<Action>, n: nat)
    requires IsRun(c, states, run) && n <= |run|
    ensures Inv(states[n]) && History(states[n])
  {
    if n == 0 {
      StartInv();
    } else {
      RunInv(c, states, run, n - 1);
      InvKept(c, states[n - 1], run[n - 1]);
      HistoryKept(c, states[n - 1], run[n - 1]);
    }
  }

  lemma ReachableInv(c: Config, s: State)
    requires Reachable(c, s)
    ensures Inv(s) && History(s)
  {
    var states, run :| IsRun(c, states, run) && states[|run|] == s;
    RunInv(c, states, run, |run|);
  }

  /** The client's frames: `n` chunks in the engine's order, and possibly one error frame behind them. */
  ghost predicate Tells(said: seq<Frame>, rx: seq<Chunk>, n: nat)
  {
    n <= |rx| && (said == Datas(rx[..n]) || said == Datas(rx[..n]) + [Error])
  }

  /** In every reachable state, on every exit path, what the client was sent (heartbeats aside) is a
      prefix of what the engine sent, in order, with at most one error frame, at the end. */
  lemma ClientSeesPrefix(c: Config, s: State) returns (n: nat)
    requires Reachable(c, s)
    ensures Tells(Content(s.client).frames, s.rx, n)
    ensures Error in Content(s.client).frames ==> s.errorTried
  {
    ReachableInv(c, s);
    assert s.sent[..|s.client|] == s.client;
    ContentPrefix(s.sent, |s.client|);
    var said := s.heard.frames;
    assert said <= s.told.frames;
    if |said| <= |s.enqueued| {
      n := |said|;
      assert said == s.told.frames[..n] == Datas(s.rx[..n]);
    } else {
      n := |s.enqueued|;
      assert said == s.told.frames;
      assert s.rx[..n] == s.enqueued;
    }
  }

  /** The client got every chunk and the engine ended cleanly. */
  ghost predicate Complete(s: State)
  {
    s.eof && Content(s.client).frames == Datas(s.rx)
  }

  /** The last thing the client was told is the error frame. */
  ghost predicate Explicit(s: State)
  {
    var said := Content(s.client).frames;
    said != [] && said[|said| - 1] == Error
  }

  lemma DatasHaveNoError(chunks: seq<Chunk>)
    ensures Error !in Datas(chunks)
  {
  }

  /** No silent truncation, exactly: a stream that ends at DONE was complete or ended with the error
      frame, except when the error frame itself was dropped at a full queue. */
  lemma SilentOnlyIfErrorDropped(c: Config, s: State)
    requires Reachable(c, s) && s.consumer == Stopped(SawDone)
    ensures s.errorDropped <==> !Complete(s) && !Explicit(s)
    ensures s.errorDropped ==> s.drops > 0
    ensures !(Complete(s) && Explicit(s))
  {
    ReachableInv(c, s);
    DatasHaveNoError(s.rx);
    var said := s.heard.frames;
    if s.errorIn {
      assert said == Datas(s.rx) + [Error] && said[|said| - 1] == Error;
      assert |said| != |Datas(s.rx)|;
    } else {
      assert said == Datas(s.rx) + [] == Datas(s.rx);
      assert said != [] ==> said[|said| - 1] in Datas(s.rx);
    }
  }

  /** With no counted drop, a client that saw DONE has the whole answer or an error frame at its end. */
  lemma DoneWithoutDropIsHonest(c: Config, s: State)
    requires Reachable(c, s) && s.consumer == Stopped(SawDone) && s.drops == 0
    ensures Complete(s) || Explicit(s)
  {
    SilentOnlyIfErrorDropped(c, s);
  }

  lemma EmptyQueueMeansMore(s: State)
    requires Inv(s) && History(s) && s.consumer.Getting? && !s.consumerCancel && s.queue == []
    ensures !s.producer.Finished?
  {
    assert s.client + s.queue == s.client && s.sent == s.client;
  }

  /** The consumer never waits for nothing: while it waits on an empty queue the producer has not ended, and the
      step that ends the producer puts DONE into the queue. */
  lemma DoneIsStillComing(c: Config, s: State, a: Action)
    requires Reachable(c, s) && s.consumer.Getting? && !s.consumerCancel && s.queue == []
    ensures !s.producer.Finished?
    ensures Enabled(c, s, a) && After(c, s, a).producer.Finished? ==> After(c, s, a).queue == [Done]
  {
    ReachableInv(c, s);
    EmptyQueueMeansMore(s);
  }
}

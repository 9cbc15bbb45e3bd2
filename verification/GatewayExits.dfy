/** Every way a stream can end, DONE or not: exactly when the client has the whole answer or an error frame. */
module GatewayExits {
  import opened Options
  import opened GatewayStream
  import opened GatewayDelivery

  /** An error frame in the queue's history excludes a clean end of the engine, then and later. */
  ghost predicate Verdict(s: State)
  {
    s.errorIn ==> !s.eof && (s.producerCancel || s.producer.Closing? || s.producer.Finished?)
  }

  lemma FailVerdict(s: State)
    requires Inv(s) && Verdict(s) && !s.producerCancel && (BeforeFirst(s.producer) || s.producer.Reading?)
    ensures Verdict(FailWith(s))
  {
    if Listening(s) {
      FailPhase(s);
    }
  }

  lemma MonitorVerdict(s: State)
    requires Inv(s) && Verdict(s) && s.main.AwaitFirst? && !s.firstSeen
    ensures Verdict(AfterMonitor(s))
  {
    if Listening(s) {
      QuietBeforeFirst(s);
    }
  }

  lemma ConnectVerdict(c: Config, s: State, attempt: nat, status: Option<nat>)
    requires Inv(s) && Verdict(s) && !s.producerCancel && BeforeFirst(s.producer)
    ensures Verdict(AfterConnect(c, s, attempt, status)) && Verdict(Retry(c, s, attempt)) && Verdict(FailWith(s))
  {
    FailVerdict(s);
  }

  lemma ReadVerdict(s: State, outcome: ReadOutcome)
    requires Inv(s) && Verdict(s) && !s.producerCancel && (s.producer.FirstRead? || s.producer.Reading?)
    ensures Verdict(AfterRead(s, outcome))
  {
    FailVerdict(s);
  }

  lemma ProducerVerdict(c: Config, s: State, a: Action)
    requires Inv(s) && Verdict(s) && Enabled(c, s, a) && OfProducer(a)
    ensures Verdict(After(c, s, a))
  {
    match a
    case Connect(status) => ConnectVerdict(c, s, s.producer.attempt, status);
    case RejectBody(_) => ConnectVerdict(c, s, s.producer.attempt, None);
    case Read(outcome) => ReadVerdict(s, outcome);
    case _ =>
  }

  lemma ConsumerVerdict(c: Config, s: State, a: Action)
    requires Inv(s) && Verdict(s) && Enabled(c, s, a) && OfConsumer(a)
    ensures Verdict(After(c, s, a))
  {
  }

  lemma CrashVerdict(s: State)
    requires Verdict(s) && s.consumer.Stopped?
    ensures Verdict(AfterCrashed(s))
  {
  }

  lemma VerdictKept(c: Config, s: State, a: Action)
    requires Inv(s) && Verdict(s) && Enabled(c, s, a)
    ensures Verdict(After(c, s, a))
  {
    if OfProducer(a) {
      ProducerVerdict(c, s, a);
    } else if OfConsumer(a) {
      ConsumerVerdict(c, s, a);
    } else if a.FirstTokenTimeout? {
      MonitorVerdict(s);
    } else if a.SeeConsumer? {
      CrashVerdict(s);
    }
  }

  lemma {:induction false} RunVerdict(c: Config, states: seq<State>, run: seq<Action>, n: nat)
    requires IsRun(c, states, run) && n <= |run|
    ensures Verdict(states[n])
  {
    if n > 0 {
      RunVerdict(c, states, run, n - 1);
      RunInv(c, states, run, n - 1);
      VerdictKept(c, states[n - 1], run[n - 1]);
    }
  }

  lemma ReachableVerdict(c: Config, s: State)
    requires Reachable(c, s)
    ensures Verdict(s)
  {
    var states, run :| IsRun(c, states, run) && states[|run|] == s;
    RunVerdict(c, states, run, |run|);
  }

  /** What the client has was cut short, and nothing told it so. */
  ghost predicate Silent(s: State)
  {
    !Complete(s) && !Explicit(s)
  }

  /** Everything that was queued for the client has reached it. */
  ghost predicate AllHeard(s: State)
  {
    s.heard.frames == s.told.frames
  }

  /** The engine's clean end, with every chunk before it, or the error frame was queued for the client. */
  ghost predicate EndTold(s: State)
  {
    s.errorIn || (s.eof && s.rx == s.enqueued)
  }

  lemma ErrorIsLast(s: State)
    requires Queued(s) && s.heard.frames <= s.told.frames
    ensures (s.heard.frames != [] && s.heard.frames[|s.heard.frames| - 1] == Error) <==> s.errorIn && AllHeard(s)
  {
    DatasHaveNoError(s.enqueued);
    var said := s.heard.frames;
    if said != [] {
      assert said[|said| - 1] == s.told.frames[|said| - 1];
      if |said| <= |s.enqueued| {
        assert said[|said| - 1] == Data(s.enqueued[|said| - 1]);
      }
    }
  }

  lemma CompleteIffAll(s: State)
    requires Queued(s) && Verdict(s) && s.heard.frames <= s.told.frames
    ensures s.eof && s.heard.frames == Datas(s.rx) <==> s.eof && s.rx == s.enqueued && AllHeard(s)
  {
    if s.eof {
      assert s.told.frames == Datas(s.enqueued) + [] == Datas(s.enqueued);
      if s.heard.frames == Datas(s.rx) {
        assert |s.rx| <= |s.enqueued|;
        assert s.enqueued == s.rx[..|s.enqueued|] == s.rx;
      }
    }
  }

  /** In every reachable state, whatever ended the stream: the client has the whole answer or an error frame at
      its end exactly when the end was queued for it and nothing queued for it is missing. */
  lemma HonestExactlyWhen(c: Config, s: State)
    requires Reachable(c, s)
    ensures !Silent(s) <==> AllHeard(s) && EndTold(s)
  {
    ReachableInv(c, s);
    ReachableVerdict(c, s);
    assert s.sent[..|s.client|] == s.client;
    ContentPrefix(s.sent, |s.client|);
    ErrorIsLast(s);
    CompleteIffAll(s);
  }

  /** The producer is past its last frame, and its error frame, if it had one, found room. */
  ghost predicate EndReached(s: State)
  {
    (s.producer.Closing? || s.producer.Finished? || s.producerCancel) && !s.errorDropped
  }

  lemma EndToldIffReached(s: State)
    requires Phase(s) && Listening(s)
    ensures EndTold(s) <==> EndReached(s)
  {
  }

  /** What `b` says behind `a`, if `a` did not close. */
  lemma {:induction false} ContentSplits(a: seq<Frame>, b: seq<Frame>)
    requires !Content(a).closed
    ensures Content(a + b).frames == Content(a).frames + Content(b).frames
    ensures Content(a + b).closed == Content(b).closed
    decreases |b|
  {
    if b == [] {
      assert a + b == a;
    } else {
      var n := |b| - 1;
      ContentSplits(a, b[..n]);
      assert (a + b)[..|a + b| - 1] == a + b[..n];
    }
  }

  /** Nothing but heartbeats up to the first DONE. */
  ghost predicate SaysNothing(fs: seq<Frame>)
  {
    Content(fs).frames == []
  }

  /** What the cut keeps from the client: the frames behind it, and the one in hand if it did not get through. */
  function Withheld(s: State, a: Action): seq<Frame>
  {
    if a.Write? && s.consumer.Writing? && !Reaches(a.result) then [s.consumer.item] + s.queue else s.queue
  }

  /** The consumer gives up: the total lifetime is over, or a write timed out, failed or was reset. */
  predicate IsCut(s: State, a: Action)
  {
    || (a.Take? && a.expired && s.queue != [] && !s.queue[0].Done?)
    || (a.Write? && !a.result.Completes?)
  }

  /** A cut changes what the client has by the frame in hand at most, and no record of the producer's. */
  ghost predicate CutLeaves(s: State, t: State, withheld: seq<Frame>)
  {
    && t.told == s.told && t.errorIn == s.errorIn && t.eof == s.eof && t.rx == s.rx && t.enqueued == s.enqueued
    && !t.heard.closed && s.sent == t.client + withheld && t.sent == s.sent
  }

  lemma TakeCut(s: State)
    requires Pipeline(s) && s.consumer.Getting? && !s.consumerCancel && s.queue != [] && !s.queue[0].Done?
    ensures CutLeaves(s, AfterTake(s, true), s.queue)
  {
    assert s.sent == s.client + [] + s.queue == s.client + s.queue;
  }

  lemma WriteCut(s: State, result: WriteOutcome)
    requires Pipeline(s) && s.consumer.Writing? && !s.consumerCancel
    ensures CutLeaves(s, AfterWrite(s, s.consumer.item, result),
              if Reaches(result) then s.queue else [s.consumer.item] + s.queue)
  {
    assert s.sent == s.client + [s.consumer.item] + s.queue == s.client + ([s.consumer.item] + s.queue);
  }

  lemma CutKeepsRecords(c: Config, s: State, a: Action)
    requires Pipeline(s) && Enabled(c, s, a) && IsCut(s, a)
    ensures CutLeaves(s, After(c, s, a), Withheld(s, a))
  {
    if a.Take? {
      TakeCut(s);
    } else {
      WriteCut(s, a.result);
    }
  }

  /** A cut is silent exactly when it withholds a chunk or an error frame, or the producer had not reached its end,
      or the error frame had been dropped. */
  lemma CutIsSilentExactlyWhen(c: Config, s: State, a: Action)
    requires Reachable(c, s) && Enabled(c, s, a) && IsCut(s, a)
    ensures Silent(After(c, s, a)) <==> !SaysNothing(Withheld(s, a)) || !EndReached(s)
  {
    ReachableInv(c, s);
    var t := After(c, s, a);
    ReachNext(c, s, a);
    ReachableInv(c, t);
    HonestExactlyWhen(c, t);
    CutKeepsRecords(c, s, a);
    EndToldIffReached(s);
    ContentSplits(t.client, Withheld(s, a));
  }
}

/** What the engine answered and what became of it, over the actions of a run: only an answer 200 is relayed, failing
    attempts are repeated while attempts are left, and without a fault there is no error frame. */
module GatewayAnswers {
  import opened Options
  import opened GatewayStream
  import opened GatewayDelivery

  /** The last answer of the engine, or to the attempt to read the body of one that was refused, in the first `n`
      actions. */
  function LastAnswer(run: seq<Action>, n: nat): Option<Action>
    requires n <= |run|
  {
    if n == 0 then None
    else if run[n - 1].Connect? || run[n - 1].RejectBody? then Some(run[n - 1])
    else LastAnswer(run, n - 1)
  }

  /** How often a connection was attempted. */
  function Tries(run: seq<Action>, n: nat): nat
    requires n <= |run|
  {
    if n == 0 then 0 else Tries(run, n - 1) + if run[n - 1].Connect? then 1 else 0
  }

  /** The chunks that were read, in order. */
  function Said(run: seq<Action>, n: nat): seq<Chunk>
    requires n <= |run|
  {
    if n == 0 then []
    else Said(run, n - 1) + if run[n - 1].Read? && run[n - 1].outcome.Bytes? then [run[n - 1].outcome.chunk] else []
  }

  /** Some of the first `n` actions is of the kind `p`. */
  predicate Saw(run: seq<Action>, n: nat, p: Action -> bool)
    requires n <= |run|
  {
    n > 0 && (p(run[n - 1]) || Saw(run, n - 1, p))
  }

  predicate IsEnd(a: Action)
  {
    a.Read? && a.outcome.EndOfStream?
  }

  predicate IsCancel(a: Action)
  {
    a.ProducerCancelled?
  }

  /** A connection that fails or is answered otherwise than with 200, a read that fails or times out, the first-token
      budget running out, a write that breaks. */
  predicate IsFault(a: Action)
  {
    match a
    case Connect(status) => status != Some(200)
    case RejectBody(_) => true
    case Read(outcome) => outcome.TimesOut? || outcome.Fails?
    case FirstTokenTimeout => true
    case Write(result) => result.Breaks?
    case _ => false
  }

  predicate Accepted(last: Option<Action>)
  {
    last == Some(Connect(Some(200)))
  }

  /** The attempt failed, or the engine failed to serve it: another one may help. */
  predicate MayRetry(last: Option<Action>)
  {
    && last.Some?
    && match last.value
       case Connect(status) => status.None? || status.value >= 500
       case RejectBody(raises) => raises
       case _ => false
  }

  /** An answer that is neither 200 nor, while attempts are left, a failure of the engine. */
  predicate IsRefusal(last: Option<Action>, final: bool)
  {
    && last.Some? && last.value.Connect? && last.value.status.Some?
    && last.value.status.value != 200 && (last.value.status.value >= 500 ==> final)
  }

  /** What the producer's place and records say of the answers so far. */
  ghost predicate Told(c: Config, p: ProducerPc, rx: seq<Chunk>, eof: bool, last: Option<Action>, tries: nat, cancelled: bool)
  {
    && tries <= c.retries + 1
    && (rx != [] || eof ==> Accepted(last) && !BeforeFirst(p))
    && match p
       case Connecting(a) => tries == a <= c.retries && (if a == 0 then last.None? else MayRetry(last))
       case Backoff(a) => tries == a + 1 && a < c.retries && MayRetry(last)
       case Rejecting(a) => tries == a + 1 && IsRefusal(last, a == c.retries)
       case Closing => MayRetry(last) && !cancelled ==> tries == c.retries + 1
       case Finished => MayRetry(last) && !cancelled ==> tries == c.retries + 1
       case _ => Accepted(last)
  }

  ghost predicate Traced(c: Config, s: State, last: Option<Action>, tries: nat, cancelled: bool)
  {
    Told(c, s.producer, s.rx, s.eof, last, tries, cancelled)
  }

  /** Where the producer goes after an attempt that may be repeated. */
  function Again(c: Config, attempt: nat): ProducerPc
  {
    if attempt < c.retries then Backoff(attempt) else Closing
  }

  /** The records of the producer that an action of another task leaves alone. */
  ghost predicate SameRecords(s: State, t: State)
  {
    t.producer == s.producer && t.rx == s.rx && t.eof == s.eof
  }

  lemma PutFrameRecords(s: State, f: Frame)
    ensures SameRecords(s, PutFrame(s, f))
  {
  }

  lemma EnqueueRecords(s: State, f: Frame)
    ensures SameRecords(s, Enqueue(s, f))
  {
  }

  /** A step of the producer to `p` that reads nothing. */
  ghost predicate MovesTo(s: State, t: State, p: ProducerPc)
  {
    t.producer == p && t.rx == s.rx && t.eof == s.eof
  }

  lemma FailRecords(s: State)
    ensures MovesTo(s, FailWith(s), Closing)
  {
    PutFrameRecords(s, Error);
  }

  lemma RetryRecords(c: Config, s: State, attempt: nat)
    ensures MovesTo(s, Retry(c, s, attempt), Again(c, attempt))
  {
    FailRecords(s);
  }

  lemma ConnectRecords(c: Config, s: State, attempt: nat, status: Option<nat>)
    ensures MovesTo(s, AfterConnect(c, s, attempt, status),
              if status.None? then Again(c, attempt) else AfterStatus(c, attempt, status.value))
  {
    if status.None? {
      RetryRecords(c, s, attempt);
    }
  }

  lemma PutRecords(s: State)
    ensures MovesTo(s, AfterPut(s), if s.producer.Putting? then Reading else Finished)
  {
    EnqueueRecords(s, if s.producer.Putting? then Data(s.producer.chunk) else Done);
  }

  lemma ReadRecords(s: State, outcome: ReadOutcome)
    ensures AfterRead(s, outcome).rx == s.rx + if outcome.Bytes? then [outcome.chunk] else []
    ensures AfterRead(s, outcome).eof == (s.eof || outcome.EndOfStream?)
    ensures AfterRead(s, outcome).producer == if outcome.Bytes? then Putting(outcome.chunk) else Closing
  {
    if outcome.TimesOut? || outcome.Fails? {
      FailRecords(s);
      assert AfterRead(s, outcome) == FailWith(s);
    }
  }

  /** Every step of the producer but a read. */
  lemma ProducerRecords(c: Config, s: State, a: Action)
    requires Enabled(c, s, a) && OfProducer(a) && !a.Read?
    ensures MovesTo(s, After(c, s, a),
              match a
              case Connect(status) =>
                if status.None? then Again(c, s.producer.attempt) else AfterStatus(c, s.producer.attempt, status.value)
              case Wake => Connecting(s.producer.attempt + 1)
              case RejectBody(raises) => if raises then Again(c, s.producer.attempt) else Closing
              case Put => if s.producer.Putting? then Reading else Finished
              case _ => if s.producer.Closing? then Finished else Closing)
  {
    match a
    case Connect(status) => ConnectRecords(c, s, s.producer.attempt, status);
    case RejectBody(raises) => if raises { RetryRecords(c, s, s.producer.attempt); } else { FailRecords(s); }
    case Put => PutRecords(s);
    case _ =>
  }

  lemma TwoFramesRecords(s: State)
    ensures SameRecords(s, PutFrame(PutFrame(s, Error), Done))
  {
    PutFrameRecords(s, Error);
    PutFrameRecords(PutFrame(s, Error), Done);
  }

  lemma MonitorRecords(s: State)
    ensures SameRecords(s, AfterMonitor(s))
  {
    TwoFramesRecords(s.(producerCancel := true));
  }

  lemma CrashRecords(s: State)
    ensures SameRecords(s, AfterCrashed(s))
  {
    TwoFramesRecords(s);
  }

  lemma BeatRecords(c: Config, s: State)
    requires s.beating
    ensures SameRecords(s, After(c, s, Beat))
  {
    EnqueueRecords(s, Heartbeat);
  }

  lemma ConsumerRecords(c: Config, s: State, a: Action)
    requires Enabled(c, s, a) && OfConsumer(a)
    ensures SameRecords(s, After(c, s, a))
  {
    if a.Beat? {
      BeatRecords(c, s);
    }
  }

  lemma OthersKeepRecords(c: Config, s: State, a: Action)
    requires Enabled(c, s, a) && !OfProducer(a)
    ensures SameRecords(s, After(c, s, a))
  {
    if OfConsumer(a) {
      ConsumerRecords(c, s, a);
    } else if a.FirstTokenTimeout? {
      MonitorRecords(s);
    } else if a.SeeConsumer? {
      CrashRecords(s);
    }
  }

  /** What `run` says of the producer, one action later. */
  lemma TracedKept(c: Config, s: State, a: Action, last: Option<Action>, tries: nat, cancelled: bool)
    requires Traced(c, s, last, tries, cancelled) && Enabled(c, s, a)
    ensures Traced(c, After(c, s, a), if a.Connect? || a.RejectBody? then Some(a) else last,
                   tries + if a.Connect? then 1 else 0, cancelled || IsCancel(a))
  {
    if a.Read? {
      ReadRecords(s, a.outcome);
    } else if OfProducer(a) {
      ProducerRecords(c, s, a);
    } else {
      OthersKeepRecords(c, s, a);
    }
  }

  lemma {:induction false} RunTraced(c: Config, states: seq<State>, run: seq<Action>, n: nat)
    requires IsRun(c, states, run) && n <= |run|
    ensures Traced(c, states[n], LastAnswer(run, n), Tries(run, n), Saw(run, n, IsCancel))
  {
    if n > 0 {
      RunTraced(c, states, run, n - 1);
      TracedKept(c, states[n - 1], run[n - 1], LastAnswer(run, n - 1), Tries(run, n - 1), Saw(run, n - 1, IsCancel));
    }
  }

  /** Nothing is relayed but an answer 200: while the producer reads or hands over a chunk, and once anything was read
      or the engine's clean end was seen, the engine's last answer was 200. */
  lemma OnlyAcceptedIsRelayed(c: Config, states: seq<State>, run: seq<Action>, n: nat)
    requires IsRun(c, states, run) && n <= |run|
    ensures var s := states[n];
            s.rx != [] || s.eof || s.producer.FirstRead? || s.producer.Putting? || s.producer.Reading?
            ==> Accepted(LastAnswer(run, n))
  {
    RunTraced(c, states, run, n);
  }

  /** A connection is attempted at most RETRY_CONNECT + 1 times, and after an attempt that failed, or that the engine
      failed to serve, the producer gives up only when all of them are used or it is cancelled. */
  lemma GivesUpAfterAllTries(c: Config, states: seq<State>, run: seq<Action>, n: nat)
    requires IsRun(c, states, run) && n <= |run|
    ensures Tries(run, n) <= c.retries + 1
    ensures var p := states[n].producer;
            (p.Closing? || p.Finished?) && MayRetry(LastAnswer(run, n)) && !Saw(run, n, IsCancel) ==>
              Tries(run, n) == c.retries + 1
    ensures var p := states[n].producer;
            p.Backoff? || (p.Connecting? && Tries(run, n) > 0) ==> MayRetry(LastAnswer(run, n)) && Tries(run, n) <= c.retries
  {
    RunTraced(c, states, run, n);
  }

  /** A refused request ends as one: if the engine's last answer was not 200, a stream that ends at DONE with no drop
      told the client the error frame and nothing else. */
  lemma RefusedIsAnError(c: Config, states: seq<State>, run: seq<Action>, n: nat)
    requires IsRun(c, states, run) && n <= |run| && !Accepted(LastAnswer(run, n))
    requires states[n].consumer == Stopped(SawDone) && states[n].drops == 0
    ensures Content(states[n].client).frames == [Error]
  {
    var s := states[n];
    RunTraced(c, states, run, n);
    assert Reachable(c, s) by {
      assert IsRun(c, states[..n + 1], run[..n]);
      assert states[..n + 1][|run[..n]|] == s;
    }
    DoneWithoutDropIsHonest(c, s);
    var k := ClientSeesPrefix(c, s);
    assert Datas(s.rx[..k]) == [];
  }

  /** `rx` and `eof` are what was read from the engine: every chunk, in order, and its clean end. */
  lemma {:induction false} RecordsAreWhatWasRead(c: Config, states: seq<State>, run: seq<Action>, n: nat)
    requires IsRun(c, states, run) && n <= |run|
    ensures states[n].rx == Said(run, n) && states[n].eof == Saw(run, n, IsEnd)
  {
    if n > 0 {
      var s, a := states[n - 1], run[n - 1];
      RecordsAreWhatWasRead(c, states, run, n - 1);
      if a.Read? {
        ReadRecords(s, a.outcome);
      } else if OfProducer(a) {
        ProducerRecords(c, s, a);
      } else {
        OthersKeepRecords(c, s, a);
      }
    }
  }

  /** What holds until something goes wrong. */
  ghost predicate Faultless(s: State)
  {
    && !s.errorTried && !s.producer.Backoff? && !s.producer.Rejecting? && s.consumer != Stopped(Crash)
  }

  lemma FaultlessProducer(c: Config, s: State, a: Action)
    requires Faultless(s) && Enabled(c, s, a) && !IsFault(a) && OfProducer(a)
    ensures Faultless(After(c, s, a))
  {
    if a.Connect? {
      assert AfterConnect(c, s, s.producer.attempt, a.status) == s.(producer := FirstRead);
    }
  }

  lemma FaultlessKept(c: Config, s: State, a: Action)
    requires Faultless(s) && Enabled(c, s, a) && !IsFault(a)
    ensures Faultless(After(c, s, a))
  {
    if OfProducer(a) {
      FaultlessProducer(c, s, a);
    }
  }

  /** Without a fault in the run no error frame is even tried. */
  lemma {:induction false} NoFaultNoError(c: Config, states: seq<State>, run: seq<Action>, n: nat)
    requires IsRun(c, states, run) && n <= |run| && !Saw(run, n, IsFault)
    ensures Faultless(states[n])
  {
    if n > 0 {
      NoFaultNoError(c, states, run, n - 1);
      FaultlessKept(c, states[n - 1], run[n - 1]);
    }
  }
}

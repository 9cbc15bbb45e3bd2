/** Where the failure contract of the gateway stops: runs, within reach of ordinary settings, that end early
    without the error frame that its documentation promises on every failure path. */
module GatewayLimits {
  import opened Options
  import opened GatewayStream
  import opened GatewayDelivery
  import opened GatewayExits

  lemma Reach(c: Config, s: State, a: Action) returns (t: State)
    requires Reachable(c, s) && Enabled(c, s, a)
    ensures Reachable(c, t) && t == After(c, s, a)
  {
    ReachNext(c, s, a);
    t := After(c, s, a);
  }

  /** The engine still streams, and no error was seen. */
  ghost predicate Streaming(s: State)
  {
    && s.producer.Reading? && !s.producerCancel && !s.errorTried && !s.errorIn && !s.errorDropped && s.drops == 0
    && !s.consumerCancel && !s.eof && s.firstSeen && s.main.AwaitFirst?
  }

  /** The first chunk is being written and nothing else has happened yet. */
  lemma FirstWrite(c: Config, chunk: Chunk) returns (s: State)
    ensures Reachable(c, s) && Streaming(s) && s.consumer == Writing(Data(chunk)) && s.queue == []
    ensures s.rx == [chunk] && s.client == [] && s.heard == Said([], false)
  {
    ReachStart(c);
    s := Start();
    s := Reach(c, s, Connect(Some(200)));
    s := Reach(c, s, Read(Bytes(chunk)));
    s := Reach(c, s, Put);
    s := Reach(c, s, Take(false));
  }

  /** The engine answers and the client reads the first chunk; `more` waits in the queue. */
  lemma FirstChunkRead(c: Config, chunk: Chunk, more: Chunk) returns (s: State)
    ensures Reachable(c, s) && s.consumer.Getting? && !s.consumerCancel && s.queue == [Data(more)]
    ensures s.rx == [chunk, more] && s.client == [Data(chunk)] && s.heard == Said([Data(chunk)], false)
    ensures s.eof && s.drops == 0 && !s.errorTried
  {
    s := FirstWrite(c, chunk);
    s := Reach(c, s, Write(Completes));
    s := Reach(c, s, Read(Bytes(more)));
    s := Reach(c, s, Put);
    s := Reach(c, s, Read(EndOfStream));
  }

  /** The total-lifetime cut drops the chunk it takes and tells the client nothing: the engine had answered
      completely, nothing was counted as dropped, and the client has part of the answer and no error frame. */
  lemma TotalTimeoutIsSilent(c: Config, chunk: Chunk, more: Chunk) returns (s: State)
    ensures Reachable(c, s) && s.consumer == Stopped(TotalTimeout)
    ensures s.eof && s.rx == [chunk, more] && s.drops == 0 && s.client == [Data(chunk)]
    ensures Silent(s)
  {
    s := FirstChunkRead(c, chunk, more);
    s := Reach(c, s, Take(true));
    ReachableInv(c, s);
    assert |Datas(s.rx)| == 2 && s.heard.frames == [Data(chunk)];
  }

  /** So does a write that a slow client lets time out. */
  lemma WriteTimeoutIsSilent(c: Config, chunk: Chunk, more: Chunk) returns (s: State)
    ensures Reachable(c, s) && s.consumer == Stopped(WriteTimeout)
    ensures s.eof && s.rx == [chunk, more] && s.drops == 0 && s.client == [Data(chunk)]
    ensures Silent(s)
  {
    s := FirstChunkRead(c, chunk, more);
    s := Reach(c, s, Take(false));
    s := Reach(c, s, Write(SlowClient(false)));
    ReachableInv(c, s);
    assert |Datas(s.rx)| == 2 && s.heard.frames == [Data(chunk)];
  }

  function Repeated(chunk: Chunk, n: nat): (fs: seq<Frame>)
    ensures |fs| == n && forall i :: 0 <= i < n ==> fs[i] == Data(chunk)
  {
    seq(n, _ => Data(chunk))
  }

  /** While one write is under way the engine fills the queue. */
  lemma {:induction false} FillQueue(c: Config, s: State, chunk: Chunk, n: nat) returns (t: State)
    requires Reachable(c, s) && Streaming(s) && |s.queue| + n <= QUEUE_MAX
    ensures Reachable(c, t) && Streaming(t) && t.consumer == s.consumer && t.client == s.client
    ensures t.queue == s.queue + Repeated(chunk, n) && |t.rx| == |s.rx| + n
    decreases n
  {
    if n == 0 {
      t := s;
    } else {
      t := Reach(c, s, Read(Bytes(chunk)));
      t := Reach(c, t, Put);
      t := FillQueue(c, t, chunk, n - 1);
      assert Repeated(chunk, n) == [Data(chunk)] + Repeated(chunk, n - 1);
    }
  }

  /** What the consumer's steps leave alone. */
  ghost predicate SameProducer(s: State, t: State)
  {
    && t.producer == s.producer && t.producerCancel == s.producerCancel && t.rx == s.rx && t.eof == s.eof
    && t.errorTried == s.errorTried && t.errorIn == s.errorIn && t.errorDropped == s.errorDropped
    && t.consumerCancel == s.consumerCancel && t.drops == s.drops
  }

  /** A client that reads on empties a queue of chunks. */
  lemma {:induction false} DrainQueue(c: Config, s: State) returns (t: State)
    requires Reachable(c, s) && s.consumer.Getting? && !s.consumerCancel
    requires forall i :: 0 <= i < |s.queue| ==> s.queue[i].Data?
    ensures Reachable(c, t) && SameProducer(s, t) && t.consumer.Getting? && t.queue == []
    ensures t.client == s.client + s.queue
    decreases |s.queue|
  {
    if s.queue == [] {
      t := s;
    } else {
      t := Reach(c, s, Take(false));
      t := Reach(c, t, Write(Completes));
      t := DrainQueue(c, t);
      assert s.queue == [s.queue[0]] + s.queue[1..];
    }
  }

  /** A stream that ends at DONE without an error frame delivered every frame it said. */
  lemma AllDelivered(c: Config, s: State)
    requires Reachable(c, s) && s.consumer == Stopped(SawDone) && !s.errorIn
    ensures Content(s.client).frames == Datas(s.rx)
  {
    ReachableInv(c, s);
    assert s.told.frames == Datas(s.enqueued) + [] == Datas(s.enqueued);
  }

  /** The engine's failure meets a full queue. */
  lemma FailAtFullQueue(c: Config, s: State) returns (t: State)
    requires Reachable(c, s) && Streaming(s) && s.consumer.Writing? && |s.queue| == QUEUE_MAX
    ensures Reachable(c, t) && t.errorDropped && !t.errorIn && !t.eof && t.rx == s.rx && t.queue == s.queue
    ensures t.producer.Closing? && !t.producerCancel && t.consumer.Getting? && !t.consumerCancel
  {
    t := Reach(c, s, Read(Fails));
    t := Reach(c, t, Write(Completes));
  }

  /** With its queue drained the producer queues DONE and the consumer takes it. */
  lemma CloseStream(c: Config, s: State) returns (t: State)
    requires Reachable(c, s) && s.producer.Closing? && !s.producerCancel && s.queue == []
    requires s.consumer.Getting? && !s.consumerCancel
    ensures Reachable(c, t) && t.consumer == Stopped(SawDone) && t.rx == s.rx && t.eof == s.eof
    ensures t.errorDropped == s.errorDropped && t.errorIn == s.errorIn
  {
    t := Reach(c, s, Put);
    t := Reach(c, t, Take(false));
  }

  /** The engine fails in mid-answer while the queue is full behind one slow write: the error frame is dropped and
      counted, and the client receives what there was of the answer and a clean DONE. */
  lemma ErrorFrameCanBeDropped(c: Config, chunk: Chunk) returns (s: State)
    ensures Reachable(c, s) && s.consumer == Stopped(SawDone) && s.errorDropped
    ensures !s.eof && |s.rx| == 1 + QUEUE_MAX && Content(s.client).frames == Datas(s.rx)
    ensures Silent(s)
  {
    s := FirstWrite(c, chunk);
    s := FillQueue(c, s, chunk, QUEUE_MAX);
    s := FailAtFullQueue(c, s);
    s := DrainQueue(c, s);
    s := CloseStream(c, s);
    SilentOnlyIfErrorDropped(c, s);
    AllDelivered(c, s);
  }
}

/** Admission slots, duplicate suppression and gauges of the gateway, for any number of concurrent
    requests. Every stretch of code between two awaits of one request is one step. */
module GatewayAdmission {
  import opened Options
  import opened Totals

  type Key = seq<int>

  datatype Config = Config(maxConcurrency: nat, dedup: bool)

  /** Where a request stands; `key` is the body's dedup key. */
  datatype Request =
    | Waiting                 // for an admission slot
    | Reading                 // admitted, reading the body
    | Relaying                // non-streaming relay
    | Preparing(key: Key)     // placed, opening the client stream
    | Streaming(key: Key)     // producer and consumer at work
    | Ending                  // cleaned up, closing the response, slot still held
    | Gone(answer: Answer)

  datatype Answer = Served | QueueFull | Duplicate | Failed

  datatype State = State(free: int, inflight: set<Key>, requests: seq<Request>,
                         active: int, queued: int, rejectedQueue: nat, rejectedDuplicate: nat, total: nat)

  datatype Action =
    | Arrive
    | Admit(i: nat)
    | GiveUp(i: nat)             // queue timeout: 429
    | CancelWait(i: nat)
    | AbortBody(i: nat)          // body read fails or the client leaves
    | Plain(i: nat)
    | PlainEnds(i: nat)
    | Place(i: nat, key: Key)    // dedup check and placement, without an await between
    | PrepareFails(i: nat)
    | PrepareDone(i: nat)
    | StreamEnds(i: nat)         // the synchronous part of the handler's finally
    | Closed(i: nat)

  function Start(c: Config): State
  {
    State(c.maxConcurrency, {}, [], 0, 0, 0, 0, 0)
  }

  predicate Enabled(s: State, a: Action)
  {
    match a
    case Arrive => true
    case Admit(i) => i < |s.requests| && s.requests[i].Waiting? && s.free > 0
    case GiveUp(i) => i < |s.requests| && s.requests[i].Waiting?
    case CancelWait(i) => i < |s.requests| && s.requests[i].Waiting?
    case AbortBody(i) => i < |s.requests| && s.requests[i].Reading?
    case Plain(i) => i < |s.requests| && s.requests[i].Reading?
    case PlainEnds(i) => i < |s.requests| && s.requests[i].Relaying?
    case Place(i, _) => i < |s.requests| && s.requests[i].Reading?
    case PrepareFails(i) => i < |s.requests| && s.requests[i].Preparing?
    case PrepareDone(i) => i < |s.requests| && s.requests[i].Preparing?
    case StreamEnds(i) => i < |s.requests| && s.requests[i].Streaming?
    case Closed(i) => i < |s.requests| && s.requests[i].Ending?
  }

  function Move(s: State, i: nat, r: Request): State
    requires i < |s.requests|
  {
    s.(requests := s.requests[i := r])
  }

  /** `INFLIGHT.pop(key, None)` if the request was registered. */
  function Unregister(c: Config, s: State, key: Key): State
  {
    s.(inflight := if c.dedup then s.inflight - {key} else s.inflight)
  }

  function After(c: Config, s: State, a: Action): State
    requires Enabled(s, a)
  {
    match a
    case Arrive => s.(requests := s.requests + [Waiting], queued := s.queued + 1, total := s.total + 1)
    case Admit(i) => Move(s, i, Reading).(free := s.free - 1, queued := s.queued - 1)
    case GiveUp(i) => Move(s, i, Gone(QueueFull)).(queued := s.queued - 1, rejectedQueue := s.rejectedQueue + 1)
    case CancelWait(i) => Move(s, i, Gone(Failed)).(queued := s.queued - 1)
    case AbortBody(i) => Move(s, i, Gone(Failed)).(free := s.free + 1)
    case Plain(i) => Move(s, i, Relaying)
    case PlainEnds(i) => Move(s, i, Gone(Served)).(free := s.free + 1)
    case Place(i, key) =>
      if c.dedup && key in s.inflight
      then Move(s, i, Gone(Duplicate)).(free := s.free + 1, rejectedDuplicate := s.rejectedDuplicate + 1)
      else Move(s, i, Preparing(key)).(inflight := if c.dedup then s.inflight + {key} else s.inflight)
    case PrepareFails(i) => Move(Unregister(c, s, s.requests[i].key), i, Gone(Failed)).(free := s.free + 1)
    case PrepareDone(i) => Move(s, i, Streaming(s.requests[i].key)).(active := s.active + 1)
    case StreamEnds(i) => Move(Unregister(c, s, s.requests[i].key), i, Ending).(active := s.active - 1)
    case Closed(i) => Move(s, i, Gone(Served)).(free := s.free + 1)
  }

  ghost function Holds(r: Request, unit: ()): nat
  {
    if r.Waiting? || r.Gone? then 0 else 1
  }

  ghost function Waits(r: Request, unit: ()): nat
  {
    if r.Waiting? then 1 else 0
  }

  ghost function Streams(r: Request, unit: ()): nat
  {
    if r.Streaming? then 1 else 0
  }

  ghost function Answered(r: Request, answer: Answer): nat
  {
    if r == Gone(answer) then 1 else 0
  }

  /** The dedup key a live stream has placed. */
  function PlacedKey(r: Request): Option<Key>
  {
    match r
    case Preparing(key) => Some(key)
    case Streaming(key) => Some(key)
    case _ => None
  }

  ghost predicate Counts(c: Config, s: State)
  {
    && s.free >= 0 && s.free + Total(s.requests, (), Holds) == c.maxConcurrency
    && s.queued == Total(s.requests, (), Waits)
    && s.active == Total(s.requests, (), Streams)
    && s.rejectedQueue == Total(s.requests, QueueFull, Answered)
    && s.rejectedDuplicate == Total(s.requests, Duplicate, Answered)
    && s.total == |s.requests|
  }

  ghost predicate Placed(s: State, key: Key)
  {
    exists i :: 0 <= i < |s.requests| && PlacedKey(s.requests[i]) == Some(key)
  }

  /** The placeholder table is exactly the keys of live streams, each placed by one stream. */
  ghost predicate Keys(c: Config, s: State)
  {
    && (!c.dedup ==> s.inflight == {})
    && (c.dedup ==>
          && (forall key :: key in s.inflight <==> Placed(s, key))
          && forall i, j :: 0 <= i < j < |s.requests| && PlacedKey(s.requests[i]).Some?
                            ==> PlacedKey(s.requests[i]) != PlacedKey(s.requests[j]))
  }

  ghost predicate Inv(c: Config, s: State)
  {
    Counts(c, s) && Keys(c, s)
  }

  /** A request moves, and every counter changes by what the move weighs. */
  lemma Moved(c: Config, s: State, i: nat, r: Request, s': State)
    requires Counts(c, s) && i < |s.requests| && s'.requests == s.requests[i := r] && s'.total == s.total
    requires s'.free >= 0 && s'.free == s.free + Holds(s.requests[i], ()) - Holds(r, ())
    requires s'.queued == s.queued - Waits(s.requests[i], ()) + Waits(r, ())
    requires s'.active == s.active - Streams(s.requests[i], ()) + Streams(r, ())
    requires s'.rejectedQueue == s.rejectedQueue - Answered(s.requests[i], QueueFull) + Answered(r, QueueFull)
    requires s'.rejectedDuplicate == s.rejectedDuplicate - Answered(s.requests[i], Duplicate) + Answered(r, Duplicate)
    ensures Counts(c, s')
  {
    TotalUpdate(s.requests, (), Holds, i, r);
    TotalUpdate(s.requests, (), Waits, i, r);
    TotalUpdate(s.requests, (), Streams, i, r);
    TotalUpdate(s.requests, QueueFull, Answered, i, r);
    TotalUpdate(s.requests, Duplicate, Answered, i, r);
  }

  lemma {:induction false} TotalAppend<E>(s: seq<Request>, e: E, f: (Request, E) -> nat, r: Request)
    ensures Total(s + [r], e, f) == Total(s, e, f) + f(r, e)
  {
    if s == [] {
      assert [] + [r] == [r];
      assert [r][1..] == [];
    } else {
      assert (s + [r])[1..] == s[1..] + [r];
      TotalAppend(s[1..], e, f, r);
    }
  }

  lemma Arrived(c: Config, s: State)
    requires Counts(c, s)
    ensures Counts(c, After(c, s, Arrive))
  {
    TotalAppend(s.requests, (), Holds, Waiting);
    TotalAppend(s.requests, (), Waits, Waiting);
    TotalAppend(s.requests, (), Streams, Waiting);
    TotalAppend(s.requests, QueueFull, Answered, Waiting);
    TotalAppend(s.requests, Duplicate, Answered, Waiting);
  }

  lemma CountsKept(c: Config, s: State, a: Action)
    requires Counts(c, s) && Enabled(s, a)
    ensures Counts(c, After(c, s, a))
  {
    if a.Arrive? {
      Arrived(c, s);
    } else {
      var s' := After(c, s, a);
      Moved(c, s, a.i, s'.requests[a.i], s');
    }
  }

  /** A request that keeps its key, or has none before and after, leaves the table right. */
  lemma SameKeys(c: Config, s: State, s': State)
    requires Keys(c, s) && s'.inflight == s.inflight && |s'.requests| >= |s.requests|
    requires forall i :: 0 <= i < |s.requests| ==> PlacedKey(s'.requests[i]) == PlacedKey(s.requests[i])
    requires forall i :: |s.requests| <= i < |s'.requests| ==> PlacedKey(s'.requests[i]).None?
    ensures Keys(c, s')
  {
    forall key
      ensures Placed(s, key) <==> Placed(s', key)
    {
      if Placed(s, key) {
        var i :| 0 <= i < |s.requests| && PlacedKey(s.requests[i]) == Some(key);
        assert PlacedKey(s'.requests[i]) == Some(key);
      }
      if Placed(s', key) {
        var i :| 0 <= i < |s'.requests| && PlacedKey(s'.requests[i]) == Some(key);
        assert PlacedKey(s.requests[i]) == Some(key);
      }
    }
  }

  /** Placing a fresh key. */
  lemma NewKey(c: Config, s: State, i: nat, key: Key)
    requires Keys(c, s) && i < |s.requests| && PlacedKey(s.requests[i]).None? && (c.dedup ==> key !in s.inflight)
    ensures Keys(c, Move(s, i, Preparing(key)).(inflight := if c.dedup then s.inflight + {key} else s.inflight))
  {
    var s' := Move(s, i, Preparing(key)).(inflight := if c.dedup then s.inflight + {key} else s.inflight);
    if c.dedup {
      assert PlacedKey(s'.requests[i]) == Some(key);
      forall k
        ensures k in s'.inflight <==> Placed(s', k)
      {
        if k in s.inflight {
          var j :| 0 <= j < |s.requests| && PlacedKey(s.requests[j]) == Some(k);
          assert PlacedKey(s'.requests[j]) == Some(k);
        }
        if Placed(s', k) && k != key {
          var j :| 0 <= j < |s'.requests| && PlacedKey(s'.requests[j]) == Some(k);
          assert PlacedKey(s.requests[j]) == Some(k);
        }
      }
      assert !Placed(s, key);
    }
  }

  /** A registered stream that ends gives its key back, and only its key. */
  lemma OldKey(c: Config, s: State, i: nat, key: Key, r: Request)
    requires Keys(c, s) && i < |s.requests| && PlacedKey(s.requests[i]) == Some(key) && PlacedKey(r).None?
    ensures Keys(c, Move(Unregister(c, s, key), i, r))
  {
    var s' := Move(Unregister(c, s, key), i, r);
    if c.dedup {
      forall k
        ensures k in s'.inflight <==> Placed(s', k)
      {
        if k in s.inflight && k != key {
          var j :| 0 <= j < |s.requests| && PlacedKey(s.requests[j]) == Some(k);
          assert PlacedKey(s'.requests[j]) == Some(k);
        }
        if Placed(s', k) {
          var j :| 0 <= j < |s'.requests| && PlacedKey(s'.requests[j]) == Some(k);
          assert PlacedKey(s.requests[j]) == Some(k) && j != i;
        }
      }
    }
  }

  lemma KeysKept(c: Config, s: State, a: Action)
    requires Keys(c, s) && Enabled(s, a)
    ensures Keys(c, After(c, s, a))
  {
    match a
    case Place(i, key) =>
      if c.dedup && key in s.inflight {
        SameKeys(c, s, After(c, s, a));
      } else {
        NewKey(c, s, i, key);
      }
    case PrepareFails(i) => OldKey(c, s, i, s.requests[i].key, Gone(Failed));
    case StreamEnds(i) => OldKey(c, s, i, s.requests[i].key, Ending);
    case _ => SameKeys(c, s, After(c, s, a));
  }

  ghost predicate IsRun(c: Config, states: seq<State>, run: seq<Action>)
  {
    && |states| == |run| + 1 && states[0] == Start(c)
    && forall n :: 0 <= n < |run| ==> Enabled(states[n], run[n]) && states[n + 1] == After(c, states[n], run[n])
  }

  ghost predicate Reachable(c: Config, s: State)
  {
    exists states, run :: IsRun(c, states, run) && states[|run|] == s
  }

  lemma {:induction false} RunInv(c: Config, states: seq<State>, run: seq<Action>, n: nat)
    requires IsRun(c, states, run) && n <= |run|
    ensures Inv(c, states[n])
  {
    if n > 0 {
      RunInv(c, states, run, n - 1);
      CountsKept(c, states[n - 1], run[n - 1]);
      KeysKept(c, states[n - 1], run[n - 1]);
    }
  }

  /** In every reachable state, on every exit path: slots are conserved, the gauges are the live and
      waiting counts, and the refusal counters count the refused requests. */
  lemma SlotsAndGaugesAreConserved(c: Config, s: State)
    requires Reachable(c, s)
    ensures s.free >= 0 && s.free + Total(s.requests, (), Holds) == c.maxConcurrency
    ensures s.active == Total(s.requests, (), Streams) && s.queued == Total(s.requests, (), Waits)
    ensures s.rejectedQueue == Total(s.requests, QueueFull, Answered)
    ensures s.rejectedDuplicate == Total(s.requests, Duplicate, Answered)
  {
    var states, run :| IsRun(c, states, run) && states[|run|] == s;
    RunInv(c, states, run, |run|);
  }

  /** In every reachable state the placeholders are exactly the keys of live streams, and no two live
      streams share a key. */
  lemma PlaceholdersAreLiveStreams(c: Config, s: State)
    requires Reachable(c, s) && c.dedup
    ensures forall key :: key in s.inflight <==> Placed(s, key)
    ensures forall i, j :: 0 <= i < j < |s.requests| && PlacedKey(s.requests[i]).Some?
                           ==> PlacedKey(s.requests[i]) != PlacedKey(s.requests[j])
  {
    var states, run :| IsRun(c, states, run) && states[|run|] == s;
    RunInv(c, states, run, |run|);
  }

  /** A streaming request is refused as a duplicate exactly when another live stream has its key. */
  lemma RefusedIffInFlight(c: Config, s: State, i: nat, key: Key)
    requires Reachable(c, s) && Enabled(s, Place(i, key))
    ensures After(c, s, Place(i, key)).requests[i] == Gone(Duplicate) <==> c.dedup && Placed(s, key)
  {
    if c.dedup {
      PlaceholdersAreLiveStreams(c, s);
    }
  }

  lemma {:induction false} AllGone(requests: seq<Request>)
    requires forall i :: 0 <= i < |requests| ==> requests[i].Gone?
    ensures Total(requests, (), Holds) == Total(requests, (), Streams) == Total(requests, (), Waits) == 0
  {
    if requests != [] {
      AllGone(requests[1..]);
    }
  }

  /** Nothing leaks: once every request has been answered, all slots are free, no key is left behind,
      and the gauges read zero. */
  lemma NothingLeaks(c: Config, s: State)
    requires Reachable(c, s) && forall i :: 0 <= i < |s.requests| ==> s.requests[i].Gone?
    ensures s.free == c.maxConcurrency && s.inflight == {} && s.active == 0 && s.queued == 0
  {
    var states, run :| IsRun(c, states, run) && states[|run|] == s;
    RunInv(c, states, run, |run|);
    AllGone(s.requests);
    assert forall key :: key in s.inflight ==> c.dedup && Placed(s, key);
  }
}

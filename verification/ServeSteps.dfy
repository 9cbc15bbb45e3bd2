/** Serving one position of a lookup, one shared-memory access at a time. Any number of threads
    interleave these steps; sections under a set's lock are single steps, and the read of a missed
    row, the counters and the bitmap are outside every lock. */
module ServeSteps {
  import opened Rows
  import opened CacheModel
  import opened Residency
  import opened SeenBits

  /** What the threads share; `log` is the history of fills, `met` the rows that were marked in the bitmap and `missed`
      the rows whose miss was counted. These three are kept only to speak about them. */
  datatype Store = Store(cache: Cache, log: seq<Fill>, seen: seq<BitByte>,
                         hits: nat, misses: nat, evictions: nat, unique: nat, met: set<int>, missed: set<int>)

  /** Where a thread stands inside `serve` for one position. */
  datatype ServePc =
    | Start                               // bounds and ownership
    | Look                                // first locked section
    | Read                                // outside the lock: the backing row
    | Tally(row: Row)                     // the miss counter
    | Load(row: Row)                      // plain load of the bitmap byte
    | Swap(row: Row, expected: BitByte)   // compare-and-swap loop
    | Won(row: Row)                       // this thread's swap set the bit
    | Put(row: Row)                       // second locked section
    | Emit(row: Row)                      // copy the row to the output

  function Opened(c: Config): Store
    requires ValidConfig(c)
  {
    Store(EmptyCache(c), [], if c.tracked then seq((c.hi - c.lo + 7) / 8, _ => {}) else [], 0, 0, 0, 0, {}, {})
  }

  function Local(c: Config, id: int): nat
    requires Owned(c, id)
  {
    id - c.lo
  }

  /** The bit of a row: byte (id - lo) / 8, position (id - lo) % 8. */
  predicate BitOf(c: Config, seen: seq<BitByte>, id: int)
    requires Owned(c, id) && (id - c.lo) / 8 < |seen|
  {
    (id - c.lo) % 8 in seen[(id - c.lo) / 8]
  }

  /** The set bits are those of the marked rows, one for each; rows were marked only when missed. */
  ghost predicate BitsAreRows(c: Config, seen: seq<BitByte>, met: set<int>, missed: set<int>)
  {
    && c.hi - c.lo <= 8 * |seen|
    && (forall id: int {:trigger BitOf(c, seen, id)} :: Owned(c, id) ==> (BitOf(c, seen, id) <==> id in met))
    && (forall id :: id in met ==> Owned(c, id) && id in missed)
    && SetBits(seen) == |met|
  }

  /** Of a row: its bit is in the map, and set if and only if the row is marked. */
  lemma OneBit(c: Config, seen: seq<BitByte>, met: set<int>, missed: set<int>, id: int)
    requires BitsAreRows(c, seen, met, missed) && c.lo <= id < c.hi
    ensures 0 <= (id - c.lo) / 8 < |seen| && ((id - c.lo) % 8 in seen[(id - c.lo) / 8] <==> id in met)
  {
    assert BitOf(c, seen, id) <==> id in met;
  }

  lemma AllBits(c: Config, seen: seq<BitByte>, met: set<int>, missed: set<int>)
    requires BitsAreRows(c, seen, met, missed)
    ensures c.hi - c.lo <= 8 * |seen| && met <= missed
    ensures forall id: int {:trigger id in met} :: c.lo <= id < c.hi ==> ((id - c.lo) % 8 in seen[(id - c.lo) / 8] <==> id in met)
  {
    forall id: int | c.lo <= id < c.hi
      ensures (id - c.lo) % 8 in seen[(id - c.lo) / 8] <==> id in met
    {
      OneBit(c, seen, met, missed, id);
    }
  }

  ghost predicate StoreInv(c: Config, s: Store)
    requires ValidConfig(c)
  {
    && ExactFills(c, s.log) && s.cache == Replay(c, s.log)
    && (c.tracked ==> BitsAreRows(c, s.seen, s.met, s.missed))
  }

  /** A miss is counted. */
  function Missed(s: Store, id: int): Store
  {
    s.(misses := s.misses + 1, missed := s.missed + {id})
  }

  /** What is known of a thread that serves `id` and stands at `p`. */
  ghost predicate PcInv(c: Config, s: Store, id: int, p: ServePc)
    requires ValidConfig(c)
  {
    match p
    case Start => true
    case Look => InTable(c, id) && Owned(c, id)
    case Read => InTable(c, id) && Owned(c, id)
    case Emit(row) => InTable(c, id) && row == Wanted(c, id)
    case Swap(row, expected) =>
      && InTable(c, id) && Owned(c, id) && row == c.table[id] && c.tracked && id in s.missed
      && Local(c, id) / 8 < |s.seen|
      && Local(c, id) % 8 !in expected && expected <= s.seen[Local(c, id) / 8]
    case Tally(row) => InTable(c, id) && Owned(c, id) && row == c.table[id]
    case Load(row) => InTable(c, id) && Owned(c, id) && row == c.table[id] && c.tracked && id in s.missed
    case Won(row) => InTable(c, id) && Owned(c, id) && row == c.table[id] && c.tracked && id in s.met
    case Put(row) => InTable(c, id) && Owned(c, id) && row == c.table[id] && (c.tracked ==> id in s.met)
  }

  /** One step of one thread; `Start` on an id outside the table aborts the process instead. */
  function ServeStep(c: Config, s: Store, id: int, p: ServePc): (Store, ServePc)
    requires ValidConfig(c) && StoreInv(c, s) && PcInv(c, s, id, p) && !p.Emit?
    requires p.Start? ==> InTable(c, id)
  {
    match p
    case Start => if Owned(c, id) then (s, Look) else (s, Emit(ZeroRow()))
    case Look =>
      var found := Probe(c, s.cache, id);
      if found.Some? then (s.(hits := s.hits + 1), Emit(found.value)) else (s, Read)
    case Read => (s, Tally(c.table[id]))   // a short read is the pool action `ShortRead`
    case Tally(row) => (Missed(s, id), if c.tracked then Load(row) else Put(row))
    case Load(row) =>
      var byte := s.seen[Local(c, id) / 8];
      if Local(c, id) % 8 in byte then (s, Put(row)) else (s, Swap(row, byte))
    case Swap(row, expected) =>
      var byte := s.seen[Local(c, id) / 8];
      if byte == expected then (s.(seen := Mark(s.seen, Local(c, id)), met := s.met + {id}), Won(row))
      else if Local(c, id) % 8 in byte then (s, Put(row))
      else (s, Swap(row, byte))
    case Won(row) => (s.(unique := s.unique + 1), Put(row))
    case Put(row) =>
      if c.sets == 0 then (s, Emit(row))
      else
        var gone := if Evicts(s.cache[id % c.sets]) then 1 else 0;
        (s.(cache := Insert(c, s.cache, id, row), log := s.log + [Fill(id, row)], evictions := s.evictions + gone),
         Emit(row))
  }

  lemma OpenedInv(c: Config)
    requires ValidConfig(c)
    ensures StoreInv(c, Opened(c))
    ensures Occupied(Opened(c).cache) == 0 && SetBits(Opened(c).seen) == 0
  {
    EmptyIsCoherent(c);
    NoBits(Opened(c).seen);
  }

  lemma {:induction false} NoBits(seen: seq<BitByte>)
    requires forall k :: 0 <= k < |seen| ==> seen[k] == {}
    ensures SetBits(seen) == 0
  {
    if seen != [] {
      NoBits(seen[1..]);
    }
  }

  /** Marking a row whose bit is clear sets its bit and no other row's. */
  lemma MarkKeepsBits(c: Config, seen: seq<BitByte>, met: set<int>, missed: set<int>, id: int)
    requires BitsAreRows(c, seen, met, missed) && Owned(c, id) && id in missed && !Marked(seen, Local(c, id))
    ensures BitsAreRows(c, Mark(seen, Local(c, id)), met + {id}, missed)
  {
    MarkOne(seen, Local(c, id));
    var after := Mark(seen, Local(c, id));
    forall other: int | Owned(c, other)
      ensures BitOf(c, after, other) <==> other in met + {id}
    {
      assert BitOf(c, seen, other) == Marked(seen, Local(c, other));
      assert BitOf(c, after, other) == Marked(after, Local(c, other));
      assert BitOf(c, seen, other) <==> other in met;
    }
    assert BitOf(c, seen, id) <==> id in met;
  }

  /** A step keeps the store coherent and leaves its thread with exact bytes in hand. */
  lemma StepKeepsInv(c: Config, s: Store, id: int, p: ServePc)
    requires ValidConfig(c) && StoreInv(c, s) && PcInv(c, s, id, p) && !p.Emit?
    requires p.Start? ==> InTable(c, id)
    ensures var (s', p') := ServeStep(c, s, id, p);
            StoreInv(c, s') && PcInv(c, s', id, p')
  {
    match p
    case Look => HitIsExact(c, s.cache, id);
    case Load(row) => assert BitOf(c, s.seen, id) <==> id in s.met;
    case Swap(row, expected) => SwapKeepsInv(c, s, id, row, expected);
    case Put(row) => PutKeepsInv(c, s, id, row);
    case _ =>
  }

  lemma SwapKeepsInv(c: Config, s: Store, id: int, row: Row, expected: BitByte)
    requires ValidConfig(c) && StoreInv(c, s) && PcInv(c, s, id, Swap(row, expected))
    ensures var (s', p') := ServeStep(c, s, id, Swap(row, expected));
            StoreInv(c, s') && PcInv(c, s', id, p')
  {
    assert BitOf(c, s.seen, id) <==> id in s.met;
    if s.seen[Local(c, id) / 8] == expected {
      MarkKeepsBits(c, s.seen, s.met, s.missed, id);
    }
  }

  lemma PutKeepsInv(c: Config, s: Store, id: int, row: Row)
    requires ValidConfig(c) && StoreInv(c, s) && PcInv(c, s, id, Put(row))
    ensures var (s', p') := ServeStep(c, s, id, Put(row));
            StoreInv(c, s') && PcInv(c, s', id, p')
  {
    if c.sets > 0 {
      var log' := s.log + [Fill(id, row)];
      assert log'[..|log'| - 1] == s.log;
      assert Replay(c, log') == Insert(c, s.cache, id, row);
    }
  }

  /** A step of one thread does not invalidate what any other thread knows. */
  lemma StepKeepsOthers(c: Config, s: Store, id: int, p: ServePc, id2: int, p2: ServePc)
    requires ValidConfig(c) && StoreInv(c, s) && PcInv(c, s, id, p) && !p.Emit?
    requires p.Start? ==> InTable(c, id)
    requires PcInv(c, s, id2, p2)
    ensures PcInv(c, ServeStep(c, s, id, p).0, id2, p2)
  {
  }

  /** A miss that was counted but whose row is not inserted yet. */
  function Pending(p: ServePc): nat
  {
    if p.Load? || p.Swap? || p.Won? || p.Put? then 1 else 0
  }

  /** A bit that was set but is not counted yet. */
  function Uncounted(p: ServePc): nat
  {
    if p.Won? then 1 else 0
  }

  /** Book-keeping of one step: misses against evictions, live slots and pending insertions;
      the unique counter against the bitmap. */
  lemma StepConserves(c: Config, s: Store, id: int, p: ServePc)
    requires ValidConfig(c) && StoreInv(c, s) && PcInv(c, s, id, p) && !p.Emit?
    requires p.Start? ==> InTable(c, id)
    ensures var (s', p') := ServeStep(c, s, id, p);
            && (c.sets > 0 ==>
                  s'.misses + s.evictions + Occupied(s.cache) + Pending(p)
                  == s.misses + s'.evictions + Occupied(s'.cache) + Pending(p'))
            && s'.unique + Uncounted(p') + SetBits(s.seen) == s.unique + Uncounted(p) + SetBits(s'.seen)
  {
    match p
    case Swap(row, expected) =>
      if s.seen[Local(c, id) / 8] == expected {
        MarkOne(s.seen, Local(c, id));
      }
    case Put(row) =>
      if c.sets > 0 {
        InsertOccupies(c, s.cache, id, row);
      }
    case _ =>
  }

  /** An owned position that is still to be counted as a hit or as a miss. */
  function Owes(c: Config, id: int, p: ServePc): nat
  {
    if (p.Start? && Owned(c, id)) || p.Look? || p.Read? || p.Tally? then 1 else 0
  }

  /** Every owned position is counted once, as a hit or as a miss. */
  lemma StepCounts(c: Config, s: Store, id: int, p: ServePc)
    requires ValidConfig(c) && StoreInv(c, s) && PcInv(c, s, id, p) && !p.Emit?
    requires p.Start? ==> InTable(c, id)
    ensures var (s', p') := ServeStep(c, s, id, p);
            s'.hits + s'.misses + Owes(c, id, p') == s.hits + s.misses + Owes(c, id, p)
  {
  }

  /** Steps left for one position; a failed swap leaves fewer clear bits to race for. */
  function ServeRank(p: ServePc): nat
  {
    match p
    case Start => 17
    case Look => 16
    case Read => 15
    case Tally(_) => 14
    case Load(_) => 13
    case Swap(_, expected) => if |expected| <= 8 then 12 - |expected| else 4
    case Won(_) => 3
    case Put(_) => 2
    case Emit(_) => 1
  }

  /** Every step, a failed swap included, is progress. */
  lemma StepProgresses(c: Config, s: Store, id: int, p: ServePc)
    requires ValidConfig(c) && StoreInv(c, s) && PcInv(c, s, id, p) && !p.Emit?
    requires p.Start? ==> InTable(c, id)
    ensures ServeRank(ServeStep(c, s, id, p).1) < ServeRank(p)
  {
    match p
    case Load(row) => ByteSize(s.seen[Local(c, id) / 8]);
    case Swap(row, expected) => SwapProgresses(c, s, id, row, expected);
    case _ =>
  }

  lemma SwapProgresses(c: Config, s: Store, id: int, row: Row, expected: BitByte)
    requires ValidConfig(c) && StoreInv(c, s) && PcInv(c, s, id, Swap(row, expected))
    ensures ServeRank(ServeStep(c, s, id, Swap(row, expected)).1) < ServeRank(Swap(row, expected))
  {
    var byte := s.seen[Local(c, id) / 8];
    ByteSize(byte);
    ByteSize(expected);
    SubsetSize(expected, byte);
  }
}

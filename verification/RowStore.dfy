/** The row store as an object: flat arrays for keys, rows and replacement cursors, the bitmap, the
    counters, and the three places a missed row may come from. */
module RowStores {
  import opened Options
  import opened Rows
  import opened CacheModel
  import opened Residency
  import opened SeenBits
  import opened ServeSteps
  import opened ServeAlone
  import opened ServeTrail
  import opened Backing
  import opened Packing
  import opened MissPaths
  import opened SlotLayout

  /** What has happened to a store: its fills, and the rows marked and missed since the bitmap was allocated. */
  datatype Past = Past(log: seq<Fill>, met: set<int>, missed: set<int>)

  class RowStore {
    const shard: Shard
    const ram: bool
    const sets: nat
    const ways: nat
    var lo: nat
    var hi: nat
    var scales: Option<seq<Byte>>   // pinned scale rows of [lo, hi)
    var packed: Option<seq<Byte>>   // attached repacked shard
    const keys: array<nat>
    const cache: array<Byte>
    const victim: array<nat>
    var seen: array<BitByte>
    var tracked: bool
    var hits: nat
    var misses: nat
    var reads_: nat
    var evictions: nat
    var unique: nat
    ghost var past: Past

    ghost predicate Shape()
      reads this, keys, cache, victim
    {
      && ValidExtent(shard) && 1 <= ways <= 16
      && Fits(keys[..], cache[..], victim[..], sets, ways) && keys != victim
    }

    ghost function Arrays(): set<object>
      reads this
    {
      {keys, cache, victim, seen}
    }

    /** The abstract cache that the arrays hold. */
    ghost function Resident(): (c: Cache)
      reads this, keys, cache, victim
      requires Shape()
      ensures |c| == sets
      ensures forall k :: 0 <= k < sets ==> |c[k].keys| == |c[k].rows| == ways && c[k].victim == victim[k]
    {
      CacheOf(keys[..], cache[..], victim[..], sets, ways)
    }

    ghost function Settings(): Config
      reads this
      requires ValidExtent(shard)
    {
      Config(Table(shard), lo, hi, sets, ways, tracked)
    }

    ghost function View(): Store
      reads this, keys, cache, victim, seen
      requires Shape()
    {
      Store(Resident(), past.log, seen[..], hits, misses, evictions, unique, past.met, past.missed)
    }

    /** Pinned scales and packed rows agree with the checkpoint. */
    ghost predicate Faithful()
      reads this
    {
      && lo <= hi <= shard.rows && Covers(shard, shard.rows)
      && FaithfulScales(shard, lo, hi, scales) && FaithfulPack(shard, lo, hi, packed)
    }

    ghost predicate Valid()
      reads this, keys, cache, victim, seen
    {
      && Shape() && Faithful() && ValidConfig(Settings()) && StoreInv(Settings(), View())
    }

    lemma OpenedIsValid()
      requires Shape() && Faithful() && ValidConfig(Settings()) && View() == Opened(Settings())
      ensures Valid()
    {
      OpenedInv(Settings());
    }

    /** `row_store_open`: geometry from the budget, everything zero, the whole table owned. */
    constructor Open(f: Shard, ram: bool, budget: nat, wantedWays: nat)
      requires ValidExtent(f)
      ensures shard == f && this.ram == ram && (ram ==> sets == 0)
      ensures 1 <= ways <= 16 && (wantedWays <= ways || ways == 16) && (ways <= wantedWays || ways == 1)
      ensures Pays(if ram then 0 else budget, sets, PerSet(ways))
      ensures var used := 8 * keys.Length + cache.Length + victim.Length;   // keys of eight bytes, and the rest bytes
              used <= (if ram then 0 else budget) < used + 8 * ways + ROW_BYTES * ways + 1
      ensures fresh(keys) && fresh(cache) && fresh(victim) && fresh(seen)
      ensures Valid() && View() == Opened(Settings())
      ensures lo == 0 && hi == f.rows && scales.None? && packed.None?
    {
      var sets_, ways_ := Geometry(if ram then 0 else budget, wantedWays);
      shard, this.ram, ways, sets := f, ram, ways_, sets_;
      keys := new nat[sets_ * ways_](_ => 0);
      cache := new Byte[sets_ * ways_ * ROW_BYTES](_ => 0);
      victim := new nat[sets_](_ => 0);
      seen := new BitByte[0];
      BytesOfSets(sets_, ways_);
      tracked, lo, hi, scales, packed := false, 0, f.rows, None, None;
      hits, misses, reads_, evictions, unique, past := 0, 0, 0, 0, 0, Past([], {}, {});
      new;
      ExtentCovers(f);
      assert Shape();
      ZeroedCache(Settings(), keys[..], cache[..], victim[..]);
      assert Resident() == EmptyCache(Settings()) && seen[..] == [];
      assert ValidConfig(Settings());
      OpenedIsValid();
    }

    /** Where a miss is read from. */
    ghost function Sources(): Paths
      reads this
    {
      Paths(shard, ram, lo, packed.Some?, scales.Some?)
    }

    /** `row_store_range`: fix the owned range, allocate a clear bitmap for it, pin the scales. `bitmap` says whether
        that allocation succeeds and `pin` whether pinning is enabled. A range may be set again: the store stays
        good exactly when every row it has cached is still owned and an attached shard still starts at the range. */
    method Range(newLo: nat, newHi: nat, bitmap: bool, pin: bool, disk: Disk) returns (ok: bool)
      requires Valid()
      modifies this`lo, this`hi, this`tracked, this`seen, this`scales, this`past
      ensures ok <==> newLo <= newHi <= shard.rows && (old(scales).Some? ==> newLo == old(lo) && newHi == old(hi))
      ensures ok ==> lo == newLo && hi == newHi && tracked == (bitmap && newLo < newHi) && fresh(seen)
      ensures ok ==> Shape() && ValidConfig(Settings()) && View() == Cleared(old(View()), Settings())
      ensures ok ==> (scales.Some? <==> old(scales).Some? || (pin && Pinnable(shard, newLo, newHi, ram, disk)))
      ensures ok ==> (Valid() <==> AllOwned(past.log, newLo, newHi) && FaithfulPack(shard, newLo, newHi, packed))
      ensures !ok ==> lo == old(lo) && hi == old(hi) && seen == old(seen) && scales == old(scales)
      ensures !ok ==> tracked == old(tracked) && past == old(past)
    {
      if newLo > newHi || newHi > shard.rows {
        return false;
      }
      if scales.Some? && (newLo != lo || newHi != hi) {
        return false;
      }
      ghost var c, was := Settings(), View();
      SetRange(newLo, newHi, bitmap, c, was);
      PinOwned(pin, disk);
      GoodExactlyWhen(c, was);
      return true;
    }

    /** Set the range and allocate a clear bitmap for it. */
    method SetRange(newLo: nat, newHi: nat, bitmap: bool, ghost c: Config, ghost was: Store)
      requires Shape() && Settings() == c && ValidConfig(c) && View() == was && newLo <= newHi <= shard.rows
      modifies this`lo, this`hi, this`tracked, this`seen, this`past
      ensures lo == newLo && hi == newHi && tracked == (bitmap && newLo < newHi) && fresh(seen)
      ensures Shape() && ValidConfig(Settings()) && View() == Cleared(was, Settings())
    {
      lo, hi := newLo, newHi;
      tracked := bitmap && newLo < newHi;
      seen := new BitByte[if tracked then (newHi - newLo + 7) / 8 else 0](_ => {});
      past := past.(met := {}, missed := {});
      assert ValidConfig(Settings());
      ClearBitmap(Settings(), seen[..]);
      assert Shape() && Resident() == was.cache;
    }

    /** Pin the owned scale rows unless that is disabled, already done, or pointless; a failure is not fatal. */
    method PinOwned(pin: bool, disk: Disk)
      requires ValidExtent(shard) && lo <= hi <= shard.rows && FaithfulScales(shard, lo, hi, scales)
      modifies this`scales
      ensures FaithfulScales(shard, lo, hi, scales) && (old(scales).Some? ==> scales == old(scales))
      ensures scales.Some? <==> old(scales).Some? || (pin && Pinnable(shard, lo, hi, ram, disk))
    {
      if scales.None? && lo < hi && pin {
        scales := PinScales(shard, lo, hi, ram, disk);
        ExtentCovers(shard);
      }
    }

    /** A store whose range was set anew is good exactly when its cached rows and its shard fit the new range. */
    lemma GoodExactlyWhen(c: Config, was: Store)
      requires Shape() && ValidConfig(c) && StoreInv(c, was)
      requires c.table == Table(shard) && c.sets == sets && c.ways == ways
      requires lo <= hi <= shard.rows && Covers(shard, shard.rows) && FaithfulScales(shard, lo, hi, scales)
      requires ValidConfig(Settings()) && View() == Cleared(was, Settings())
      ensures Valid() <==> AllOwned(past.log, lo, hi) && FaithfulPack(shard, lo, hi, packed)
    {
      SameHistory(c, Settings(), past.log);
      ClearBits(Settings());
    }

    /** `row_store_attach_packed`. Only the header and the size are checked, so the store stays good exactly when
        the records of an accepted shard are the checkpoint's. */
    method Attach(layer: nat, file: Option<seq<Byte>>, got: int) returns (result: Packing.Attach)
      requires Valid() && (file.Some? ==> got <= |file.value|)
      modifies this`packed
      ensures result == AttachPacked(file, got, layer, lo, hi, shard.rows) && (result == Packing.Absent <==> file.None?)
      ensures packed == if result == Attached then file else old(packed)
      ensures Shape() && View() == old(View()) && Settings() == old(Settings())
      ensures Valid() <==> result == Attached ==> FaithfulPack(shard, lo, hi, file)
    {
      result := AttachPacked(file, got, layer, lo, hi, shard.rows);
      if result == Attached {
        packed := file;
      }
    }

    /** The hit section. */
    method Look(id: nat) returns (found: Option<Row>)
      requires Shape() && ValidConfig(Settings()) && Coherent(Settings(), View().cache)
      ensures found == Probe(Settings(), View().cache, id)
    {
      if sets == 0 {
        return None;
      }
      var k := id % sets;
      var w := FindSlot(keys, sets, ways, k, id + 1);
      if w < ways {
        SlotInRange(sets, ways, k, w);
        var j := Slot(ways, k, w);
        found := Some(cache[j * ROW_BYTES..(j + 1) * ROW_BYTES]);
        assert found.value == SlotRow(cache[..], j);
      } else {
        found := None;
      }
      assert View().cache[k] == SetOf(keys[..], cache[..], victim[..], sets, ways, k);
    }

    /** The bitmap: set the row's bit and count it the first time. */
    method MarkSeen(id: nat)
      requires Shape() && lo <= id < hi && (tracked ==> hi - lo <= 8 * seen.Length)
      modifies this`unique, this`past, seen
      ensures View() == old(MarkedAlone(Settings(), View(), id))
    {
      if tracked {
        var local := id - lo;
        var byte := seen[local / 8];
        if local % 8 !in byte {
          seen[local / 8] := byte + {local % 8};
          unique := unique + 1;
          past := past.(met := past.met + {id});
        }
      }
    }

    /** The fill section: overwrite the victim slot, advance the set's cursor, count an eviction. */
    method Put(id: nat, row: Row)
      requires Shape() && ValidConfig(Settings()) && StoreInv(Settings(), View()) && |row| == ROW_BYTES
      modifies this`evictions, this`past, keys, cache, victim
      ensures Shape() && View() == old(FilledAlone(Settings(), View(), id, row))
    {
      if sets == 0 {
        return;
      }
      var k := id % sets;
      PutInSet(this, k, id, row, Resident());
      past := past.(log := past.log + [Fill(id, row)]);
    }

    /** `fetch_row`: one owned row, from the cache or from the backing files. It succeeds unless it misses and a
        read comes up short; the store is then where the steps of one undisturbed thread lead
        (`ServeAlone.AloneIsFetch`). */
    method FetchRow(id: nat, disk: Disk, ghost c: Config, ghost p: Paths, ghost here: Point)
      returns (ok: bool, row: Row)
      requires Valid() && Settings() == c && Sources() == p && Here(this) == here && Owned(c, id)
      modifies this`hits, this`misses, this`reads_, this`evictions, this`unique, this`past, keys, cache, victim, seen
      ensures Shape() && Settings() == c && Sources() == p
      ensures ok <==> Hits(c, here.store, id) || MissSucceeds(p, id, disk, here.count)
      ensures ok ==> Valid() && row == c.table[id] && Here(this) == ServedPoint(c, p, id, here)
    {
      var found := Look(id);
      if found.Some? {
        row := found.value;
        ok := true;
        CountHit(id, c, p, here);
      } else {
        ok, row := FetchMissed(id, disk, c, p, here);
      }
    }

    /** A hit only counts itself. */
    method CountHit(id: nat, ghost c: Config, ghost p: Paths, ghost here: Point)
      requires Valid() && Settings() == c && Sources() == p && Here(this) == here && Owned(c, id) && Hits(c, here.store, id)
      modifies this`hits
      ensures Valid() && Settings() == c && Sources() == p && Here(this) == ServedPoint(c, p, id, here)
      ensures Probe(c, here.store.cache, id).value == c.table[id]
    {
      FetchHit(c, here.store, id);
      hits := hits + 1;
      assert View() == here.store.(hits := here.store.hits + 1);
    }

    /** A miss reads the row, unless the read comes up short, and records it. */
    method FetchMissed(id: nat, disk: Disk, ghost c: Config, ghost p: Paths, ghost here: Point)
      returns (ok: bool, row: Row)
      requires Valid() && Settings() == c && Sources() == p && Here(this) == here && Owned(c, id) && !Hits(c, here.store, id)
      modifies this`misses, this`reads_, this`evictions, this`unique, this`past, keys, cache, victim, seen
      ensures Shape() && Settings() == c && Sources() == p
      ensures ok <==> MissSucceeds(p, id, disk, here.count)
      ensures ok ==> Valid() && row == c.table[id] && Here(this) == ServedPoint(c, p, id, here)
    {
      ok, row := ReadBacking(id, disk);
      if ok {
        RecordMiss(id, row, c, here.store);
        assert View() == FetchAlone(c, here.store, id);
      }
    }

    /** The unlocked read of a missed row. */
    method ReadBacking(id: nat, disk: Disk) returns (ok: bool, row: Row)
      requires Valid() && lo <= id < hi
      modifies this`reads_
      ensures Valid() && View() == old(View()) && Settings() == old(Settings())
      ensures ok <==> old(MissSucceeds(Sources(), id, disk, reads_))
      ensures ok ==> row == Settings().table[id] && reads_ == old(reads_) + MissReads(Sources())
    {
      var counted;
      ok, row, counted := ReadMissed(shard, ram, lo, hi, packed, scales, id, disk, reads_);
      reads_ := reads_ + counted;
      assert ok ==> row == TableRow(shard, id) == Table(shard)[id];
    }

    /** The bookkeeping of a miss: counter, bitmap, fill. */
    method RecordMiss(id: nat, row: Row, ghost c: Config, ghost before: Store)
      requires Valid() && Settings() == c && View() == before && Owned(c, id)
      requires Probe(c, before.cache, id).None? && row == c.table[id]
      modifies this`misses, this`evictions, this`unique, this`past, keys, cache, victim, seen
      ensures Valid() && Settings() == c && View() == FetchAlone(c, before, id)
    {
      FetchMiss(c, before, id);
      FetchKeepsInv(c, before, id);
      CountAndFill(id, row, c, before, MarkedAlone(c, Missed(before, id), id));
    }

    method CountAndFill(id: nat, row: Row, ghost c: Config, ghost before: Store, ghost marked: Store)
      requires Shape() && ValidConfig(c) && Settings() == c && View() == before && StoreInv(c, before)
      requires Owned(c, id) && |row| == ROW_BYTES
      requires marked == MarkedAlone(c, Missed(before, id), id) && StoreInv(c, marked)
      modifies this`misses, this`evictions, this`unique, this`past, keys, cache, victim, seen
      ensures Shape() && View() == FilledAlone(c, marked, id, row)
    {
      misses := misses + 1;
      past := past.(missed := past.missed + {id});
      assert Settings() == c && View() == Missed(before, id);
      MarkSeen(id);
      assert Settings() == c && View() == marked;
      Put(id, row);
    }
  }

  /** A shard of the whole table, with its header. */
  ghost predicate IsShard(f: Shard, layer: nat, file: seq<Byte>)
    requires ValidExtent(f)
  {
    && FaithfulPack(f, 0, f.rows, Some(file)) && HEADER_BYTES <= |file|
    && AttachPacked(Some(file), HEADER_BYTES, layer, 0, f.rows, f.rows) == Attached
  }

  /** A store of the whole table with its shard attached. */
  method OpenPacked(f: Shard, layer: nat, file: seq<Byte>) returns (store: RowStore)
    requires ValidExtent(f) && IsShard(f, layer, file)
    ensures fresh(store) && fresh(store.Arrays()) && store.Valid() && store.shard == f && store.scales.None?
    ensures store.packed == Some(file)
  {
    store := new RowStore.Open(f, false, 0, 4);
    var result := store.Attach(layer, Some(file), HEADER_BYTES);
  }

  /** Nothing stops the range from moving under an attached shard: a run after which the record of row 0 answers for
      row 1. */
  method MoveUnderShard(f: Shard, layer: nat, file: seq<Byte>, disk: Disk) returns (store: RowStore, moved: bool)
    requires ValidExtent(f) && IsShard(f, layer, file) && f.rows >= 2 && TableRow(f, 0) != TableRow(f, 1)
    ensures fresh(store) && store.shard == f && moved && store.lo == 1 && store.packed == Some(file) && !store.Valid()
    ensures HEADER_BYTES + ROW_BYTES <= |file| && PackedRow(file, store.lo, 1) == TableRow(f, 0)
  {
    ExtentCovers(f);
    MovedRangeFitsIff(f, file, 0, f.rows, 1, f.rows);
    assert PackedRow(file, 1, 1) == PackedRow(file, 0, 0);
    store := OpenPacked(f, layer, file);
    moved := store.Range(1, f.rows, false, false, disk);
  }

  /** Ways are clamped to 1 .. 16. */
  function Clamped(ways: nat): nat
  {
    if ways > 16 then 16 else if ways < 1 then 1 else ways
  }

  /** Bytes of one set: rows and keys, and one byte of cursor. */
  function PerSet(ways: nat): (bytes: nat)
    ensures bytes > 0
  {
    (ROW_BYTES + 8) * ways + 1
  }

  /** `sets` sets of `perSet` bytes fit the budget, and one more would not. */
  ghost predicate Pays(budget: nat, sets: nat, perSet: nat)
  {
    sets * perSet <= budget < sets * perSet + perSet
  }

  /** The arrays of `sets` sets hold the bytes that the budget is charged for. */
  lemma {:induction false} BytesOfSets(sets: nat, ways: nat)
    ensures 8 * (sets * ways) + sets * ways * ROW_BYTES + sets == sets * PerSet(ways)
  {
    if sets > 0 {
      BytesOfSets(sets - 1, ways);
      assert sets * ways == (sets - 1) * ways + ways;
      assert sets * PerSet(ways) == (sets - 1) * PerSet(ways) + PerSet(ways);
    }
  }

  lemma Quotient(n: nat, m: nat) returns (q: nat)
    requires m > 0
    ensures q == n / m && Pays(n, q, m) && (n == 0 ==> q == 0)
  {
    q := n / m;
    assert n == q * m + n % m;
  }

  /** The most sets of `perSet` bytes that the budget pays for. */
  method SetsFor(budget: nat, perSet: nat) returns (sets: nat)
    requires perSet > 0
    ensures Pays(budget, sets, perSet) && (budget == 0 ==> sets == 0)
  {
    ghost var most := Quotient(budget, perSet);
    sets := budget / perSet;
  }

  /** Number of sets and ways that a byte budget pays for: rows, keys and one cursor byte per set. */
  method Geometry(budget: nat, wantedWays: nat) returns (sets: nat, ways: nat)
    ensures 1 <= ways <= 16 && (wantedWays <= ways || ways == 16) && (ways <= wantedWays || ways == 1)
    ensures Pays(budget, sets, PerSet(ways))
    ensures budget == 0 ==> sets == 0
  {
    ways := Clamped(wantedWays);
    sets := SetsFor(budget, PerSet(ways));
  }

  /** Position `i` of the two output buffers shows `row`. */
  ghost predicate Shows(weights: seq<Byte>, scales: seq<Byte>, i: nat, row: Row)
  {
    && |row| == ROW_BYTES && (i + 1) * WEIGHT_BYTES <= |weights| && (i + 1) * SCALE_BYTES <= |scales|
    && weights[i * WEIGHT_BYTES..(i + 1) * WEIGHT_BYTES] == row[..WEIGHT_BYTES]
    && scales[i * SCALE_BYTES..(i + 1) * SCALE_BYTES] == row[WEIGHT_BYTES..]
  }

  /** Write one output position and no other. */
  method EmitRow(weights: array<Byte>, scales: array<Byte>, i: nat, row: Row)
    requires weights != scales && |row| == ROW_BYTES
    requires (i + 1) * WEIGHT_BYTES <= weights.Length && (i + 1) * SCALE_BYTES <= scales.Length
    modifies weights, scales
    ensures Shows(weights[..], scales[..], i, row)
    ensures weights[..i * WEIGHT_BYTES] == old(weights[..i * WEIGHT_BYTES])
    ensures scales[..i * SCALE_BYTES] == old(scales[..i * SCALE_BYTES])
    ensures weights[(i + 1) * WEIGHT_BYTES..] == old(weights[(i + 1) * WEIGHT_BYTES..])
    ensures scales[(i + 1) * SCALE_BYTES..] == old(scales[(i + 1) * SCALE_BYTES..])
  {
    CopyIn(weights, i * WEIGHT_BYTES, row[..WEIGHT_BYTES]);
    CopyIn(scales, i * SCALE_BYTES, row[WEIGHT_BYTES..]);
  }

  lemma StillShows(weights: seq<Byte>, scales: seq<Byte>, weights': seq<Byte>, scales': seq<Byte>, i: nat, j: nat, row: Row)
    requires Shows(weights, scales, j, row) && j < i
    requires |weights'| == |weights| && |scales'| == |scales|
    requires i * WEIGHT_BYTES <= |weights| && i * SCALE_BYTES <= |scales|
    requires weights'[..i * WEIGHT_BYTES] == weights[..i * WEIGHT_BYTES]
    requires scales'[..i * SCALE_BYTES] == scales[..i * SCALE_BYTES]
    ensures Shows(weights', scales', j, row)
  {
    assert weights[j * WEIGHT_BYTES..(j + 1) * WEIGHT_BYTES]
        == weights[..i * WEIGHT_BYTES][j * WEIGHT_BYTES..(j + 1) * WEIGHT_BYTES];
    assert weights'[j * WEIGHT_BYTES..(j + 1) * WEIGHT_BYTES]
        == weights'[..i * WEIGHT_BYTES][j * WEIGHT_BYTES..(j + 1) * WEIGHT_BYTES];
    assert scales[j * SCALE_BYTES..(j + 1) * SCALE_BYTES]
        == scales[..i * SCALE_BYTES][j * SCALE_BYTES..(j + 1) * SCALE_BYTES];
    assert scales'[j * SCALE_BYTES..(j + 1) * SCALE_BYTES]
        == scales'[..i * SCALE_BYTES][j * SCALE_BYTES..(j + 1) * SCALE_BYTES];
  }

  /** Positions [begin, i) show the rows of their ids, which are in the table. */
  ghost predicate Answers(c: Config, ids: seq<int>, weights: seq<Byte>, scales: seq<Byte>, begin: nat, i: nat)
    requires ValidConfig(c)
  {
    && i <= |ids|
    && forall j :: begin <= j < i ==> InTable(c, ids[j]) && Shows(weights, scales, j, Wanted(c, ids[j]))
  }

  /** Where a store stands. */
  ghost function Here(store: RowStore): Point
    reads store, store.keys, store.cache, store.victim, store.seen
    requires store.Shape()
  {
    Point(store.View(), store.reads_)
  }

  /** Nothing was written outside positions [begin, end). */
  ghost predicate SameOutside(weights: seq<Byte>, scales: seq<Byte>, weights': seq<Byte>, scales': seq<Byte>,
                              begin: nat, end: nat)
  {
    && |weights'| == |weights| && |scales'| == |scales|
    && begin <= end && end * WEIGHT_BYTES <= |weights| && end * SCALE_BYTES <= |scales|
    && weights'[..begin * WEIGHT_BYTES] == weights[..begin * WEIGHT_BYTES]
    && scales'[..begin * SCALE_BYTES] == scales[..begin * SCALE_BYTES]
    && weights'[end * WEIGHT_BYTES..] == weights[end * WEIGHT_BYTES..]
    && scales'[end * SCALE_BYTES..] == scales[end * SCALE_BYTES..]
  }

  /** `serve`, run by one thread over [begin, end): position by position it serves what can be served, until one
      cannot. `trail` are the points passed through (`ServeTrail.TrailPoint`). When every position was served, each
      shows the row of its id if it is owned and zeros otherwise; nothing else is written. */
  method Serve(store: RowStore, ids: seq<int>, weights: array<Byte>, scales: array<Byte>, begin: nat, end: nat,
               disk: Disk, ghost c: Config, ghost p: Paths) returns (ok: bool, ghost trail: seq<Point>)
    requires store.Valid() && store.Settings() == c && store.Sources() == p && begin <= end <= |ids|
    requires weights.Length == |ids| * WEIGHT_BYTES && scales.Length == |ids| * SCALE_BYTES
    requires weights != scales && weights !in store.Arrays() && scales !in store.Arrays()
    modifies store`hits, store`misses, store`reads_, store`evictions, store`unique, store`past
    modifies store.keys, store.cache, store.victim, store.seen, weights, scales
    ensures store.Shape() && store.Settings() == c && (ok ==> store.Valid())
    ensures IsTrail(c, p, disk, ids, begin, trail) && trail[0] == old(Here(store))
    ensures ok ==> Ends(trail, Here(store), begin, end)
    ensures !ok ==> |trail| <= end - begin && Stuck(c, p, disk, ids, begin, trail)
    ensures ok ==> Answers(c, ids, weights[..], scales[..], begin, end)
    ensures SameOutside(old(weights[..]), old(scales[..]), weights[..], scales[..], begin, end)
  {
    ghost var w, sc := weights[..], scales[..];
    var i := begin;
    ok := true;
    trail := [Here(store)];
    while i < end
      invariant begin <= i <= end && ok
      invariant store.Valid() && store.Settings() == c && store.Sources() == p
      invariant IsTrail(c, p, disk, ids, begin, trail) && trail[0] == old(Here(store))
      invariant Ends(trail, Here(store), begin, i)
      invariant Answers(c, ids, weights[..], scales[..], begin, i)
      invariant SameOutside(w, sc, weights[..], scales[..], begin, end)
    {
      ok, trail := ServeAt(store, ids, weights, scales, begin, i, end, disk, c, p, trail);
      if !ok {
        return;
      }
      i := i + 1;
    }
  }

  /** Serve position `i` after [begin, i) has been served. */
  method ServeAt(store: RowStore, ids: seq<int>, weights: array<Byte>, scales: array<Byte>,
                 begin: nat, i: nat, end: nat, disk: Disk, ghost c: Config, ghost p: Paths, ghost trail: seq<Point>)
    returns (ok: bool, ghost longer: seq<Point>)
    requires store.Valid() && store.Settings() == c && store.Sources() == p && begin <= i < end <= |ids|
    requires IsTrail(c, p, disk, ids, begin, trail) && Ends(trail, Here(store), begin, i)
    requires weights.Length == |ids| * WEIGHT_BYTES && scales.Length == |ids| * SCALE_BYTES
    requires weights != scales && weights !in store.Arrays() && scales !in store.Arrays()
    requires Answers(c, ids, weights[..], scales[..], begin, i)
    modifies store`hits, store`misses, store`reads_, store`evictions, store`unique, store`past
    modifies store.keys, store.cache, store.victim, store.seen, weights, scales
    ensures store.Shape() && store.Settings() == c && store.Sources() == p && (ok ==> store.Valid())
    ensures IsTrail(c, p, disk, ids, begin, longer) && longer[0] == trail[0]
    ensures ok ==> Ends(longer, Here(store), begin, i + 1)
    ensures !ok ==> longer == trail && Stuck(c, p, disk, ids, begin, trail)
    ensures ok ==> Answers(c, ids, weights[..], scales[..], begin, i + 1)
    ensures SameOutside(old(weights[..]), old(scales[..]), weights[..], scales[..], begin, end)
  {
    var row;
    ghost var here := Here(store);
    ok, row := ServeOne(store, ids[i], disk, c, p, here);
    longer := trail;
    if ok {
      ghost var there := Here(store);
      longer := trail + [there];
      TrailGrows(c, p, disk, ids, begin, i, trail, here, there);
      EmitNext(c, ids, weights, scales, begin, i, end, row);
      assert Here(store) == there;
    } else {
      StuckAt(c, p, disk, ids, begin, i, trail, here);
    }
  }

  /** Emit position `i` after [begin, i) has been emitted. */
  method EmitNext(ghost c: Config, ids: seq<int>, weights: array<Byte>, scales: array<Byte>, begin: nat, i: nat, end: nat,
                  row: Row)
    requires ValidConfig(c) && begin <= i < end <= |ids| && InTable(c, ids[i]) && row == Wanted(c, ids[i])
    requires weights != scales
    requires weights.Length == |ids| * WEIGHT_BYTES && scales.Length == |ids| * SCALE_BYTES
    requires Answers(c, ids, weights[..], scales[..], begin, i)
    modifies weights, scales
    ensures Answers(c, ids, weights[..], scales[..], begin, i + 1)
    ensures SameOutside(old(weights[..]), old(scales[..]), weights[..], scales[..], begin, end)
  {
    ghost var w, s := weights[..], scales[..];
    EmitRow(weights, scales, i, row);
    forall j | begin <= j < i
      ensures Shows(weights[..], scales[..], j, Wanted(c, ids[j]))
    {
      StillShows(w, s, weights[..], scales[..], i, j, Wanted(c, ids[j]));
    }
    assert weights[..begin * WEIGHT_BYTES] == weights[..i * WEIGHT_BYTES][..begin * WEIGHT_BYTES];
    assert scales[..begin * SCALE_BYTES] == scales[..i * SCALE_BYTES][..begin * SCALE_BYTES];
    ghost var d := end - i - 1;
    assert weights[end * WEIGHT_BYTES..] == weights[(i + 1) * WEIGHT_BYTES..][d * WEIGHT_BYTES..];
    assert w[end * WEIGHT_BYTES..] == w[(i + 1) * WEIGHT_BYTES..][d * WEIGHT_BYTES..];
    assert scales[end * SCALE_BYTES..] == scales[(i + 1) * SCALE_BYTES..][d * SCALE_BYTES..];
    assert s[end * SCALE_BYTES..] == s[(i + 1) * SCALE_BYTES..][d * SCALE_BYTES..];
  }

  /** The row of one id, before it is copied out. */
  method ServeOne(store: RowStore, id: int, disk: Disk, ghost c: Config, ghost p: Paths, ghost here: Point)
    returns (ok: bool, row: Row)
    requires store.Valid() && store.Settings() == c && store.Sources() == p && Here(store) == here
    modifies store`hits, store`misses, store`reads_, store`evictions, store`unique, store`past
    modifies store.keys, store.cache, store.victim, store.seen
    ensures store.Shape() && store.Settings() == c && store.Sources() == p
    ensures ok <==> Servable(c, p, disk, id, here)
    ensures ok ==> store.Valid() && InTable(c, id) && row == Wanted(c, id) && Here(store) == ServedPoint(c, p, id, here)
  {
    if id < 0 || id >= store.shard.rows {
      return false, [];
    }
    if id < store.lo || id >= store.hi {
      return true, ZeroRow();
    }
    ok, row := store.FetchRow(id, disk, c, p, here);
  }

  /** Every cached row is in the range. */
  ghost predicate AllOwned(log: seq<Fill>, lo: nat, hi: nat)
  {
    forall i :: 0 <= i < |log| ==> lo <= log[i].id < hi
  }

  /** The cache depends on the history and the geometry alone, not on the owned range. */
  lemma {:induction false} SameReplay(c: Config, c': Config, log: seq<Fill>)
    requires ValidConfig(c) && ValidConfig(c') && c.sets == c'.sets && c.ways == c'.ways
    requires ExactFills(c, log) && ExactFills(c', log)
    ensures Replay(c', log) == Replay(c, log)
  {
    if log == [] {
      SameGeometry(c, c');
    } else {
      SameReplay(c, c', log[..|log| - 1]);
    }
  }

  lemma SameHistory(c: Config, c': Config, log: seq<Fill>)
    requires ValidConfig(c) && ValidConfig(c') && c.table == c'.table && c.sets == c'.sets && c.ways == c'.ways
    requires ExactFills(c, log)
    ensures ExactFills(c', log) <==> AllOwned(log, c'.lo, c'.hi)
    ensures ExactFills(c', log) ==> Replay(c', log) == Replay(c, log)
  {
    if ExactFills(c', log) {
      SameReplay(c, c', log);
    }
  }

  lemma SameGeometry(c: Config, c': Config)
    requires ValidConfig(c) && ValidConfig(c') && c.sets == c'.sets && c.ways == c'.ways
    ensures Opened(c).cache == Opened(c').cache
  {
    assert EmptySet(c) == EmptySet(c');
  }

  /** A store whose bitmap was allocated anew. */
  ghost function Cleared(s: Store, c: Config): Store
    requires ValidConfig(c)
  {
    s.(seen := Opened(c).seen, met := {}, missed := {})
  }

  lemma ClearBits(c: Config)
    requires ValidConfig(c)
    ensures c.tracked ==> BitsAreRows(c, Opened(c).seen, {}, {})
  {
    OpenedInv(c);
  }

  lemma ClearBitmap(c: Config, seen: seq<BitByte>)
    requires ValidConfig(c) && |seen| == (if c.tracked then (c.hi - c.lo + 7) / 8 else 0)
    requires forall i :: 0 <= i < |seen| ==> seen[i] == {}
    ensures Opened(c).seen == seen
  {
  }

  lemma ZeroedCache(c: Config, keys: seq<nat>, bytes: seq<Byte>, victim: seq<nat>)
    requires c.ways > 0 && Fits(keys, bytes, victim, c.sets, c.ways)
    requires forall i :: 0 <= i < |keys| ==> keys[i] == 0
    requires forall i :: 0 <= i < |bytes| ==> bytes[i] == 0
    requires forall i :: 0 <= i < |victim| ==> victim[i] == 0
    ensures CacheOf(keys, bytes, victim, c.sets, c.ways) == EmptyCache(c)
  {
    var cache := CacheOf(keys, bytes, victim, c.sets, c.ways);
    forall k | 0 <= k < c.sets
      ensures cache[k] == EmptySet(c)
    {
      var s := SetOf(keys, bytes, victim, c.sets, c.ways, k);
      assert s.keys == EmptySet(c).keys;
      forall w | 0 <= w < c.ways
        ensures s.rows[w] == ZeroRow()
      {
        SlotInRange(c.sets, c.ways, k, w);
        assert s.rows[w] == SlotRow(bytes, Slot(c.ways, k, w));
      }
      assert s.rows == EmptySet(c).rows;
    }
    assert cache == EmptyCache(c);
  }

  /** The fill of one set, on the arrays. */
  method PutInSet(store: RowStore, k: nat, id: nat, row: Row, ghost was: Cache)
    requires store.Shape() && store.Resident() == was && k < store.sets && |row| == ROW_BYTES
    modifies store`evictions, store.keys, store.cache, store.victim
    ensures store.Shape() && |was[k].keys| == |was[k].rows| > 0
    ensures store.Resident() == was[k := InsertSet(was[k], id, row)]
    ensures store.evictions == old(store.evictions) + if Evicts(was[k]) then 1 else 0
  {
    var v := store.victim[k];
    InsertIsOneWrite(was[k], id, row);
    var live := SlotLive(store, k, v % store.ways);
    if live {
      store.evictions := store.evictions + 1;
    }
    assert store.Resident() == was;
    Overwrite(store, k, v % store.ways, id + 1, row, (v + 1) % store.ways, was);
  }

  lemma InsertIsOneWrite(s: CacheSet, id: nat, row: Row)
    requires |s.keys| == |s.rows| > 0
    ensures InsertSet(s, id, row)
            == CacheSet(s.keys[s.victim % |s.keys| := id + 1], s.rows[s.victim % |s.keys| := row], (s.victim + 1) % |s.keys|)
  {
  }

  /** Whether a way holds a live row; keys hold id + 1. */
  method SlotLive(store: RowStore, k: nat, w: nat) returns (live: bool)
    requires store.Shape() && k < store.sets && w < store.ways
    ensures live == (store.Resident()[k].keys[w] != 0)
  {
    SlotInRange(store.sets, store.ways, k, w);
    live := store.keys[Slot(store.ways, k, w)] != 0;
  }

  /** Write one slot and one cursor; the abstract cache changes in exactly that set and way. */
  method Overwrite(store: RowStore, k: nat, w: nat, key: nat, row: Row, next: nat, ghost was: Cache)
    requires store.Shape() && store.Resident() == was
    requires k < store.sets && w < store.ways && |row| == ROW_BYTES
    modifies store.keys, store.cache, store.victim
    ensures store.Shape()
    ensures store.Resident() == was[k := CacheSet(was[k].keys[w := key], was[k].rows[w := row], next)]
  {
    ghost var keys, bytes, victim := store.keys[..], store.cache[..], store.victim[..];
    SlotInRange(store.sets, store.ways, k, w);
    var j := Slot(store.ways, k, w);
    store.victim[k] := next;
    CopyIn(store.cache, j * ROW_BYTES, row);
    store.keys[j] := key;
    assert store.keys[..] == keys[j := key];
    assert store.victim[..] == victim[k := next];
    CacheAfterWrite(keys, bytes, store.cache[..], victim, store.sets, store.ways, k, w, key, row, next);
  }

  /** The scan over the ways of one set. */
  method FindSlot(keys: array<nat>, sets: nat, ways: nat, k: nat, key: nat) returns (w: nat)
    requires k < sets && ways > 0 && keys.Length == sets * ways
    ensures w == FindWay(KeysOf(keys[..], sets, ways, k), key, 0)
  {
    SlotInRange(sets, ways, k, 0);
    var base := k * ways;
    ghost var mine := KeysOf(keys[..], sets, ways, k);
    w := 0;
    while w < ways
      invariant 0 <= w <= ways == |mine| && base + ways <= keys.Length
      invariant FindWay(mine, key, 0) == FindWay(mine, key, w)
    {
      assert mine[w] == keys[base + w];
      if keys[base + w] == key {
        return;
      }
      w := w + 1;
    }
  }
}

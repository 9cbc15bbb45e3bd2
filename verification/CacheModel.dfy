/** The set-associative row cache: what one locked section does to one set, and what every
    sequence of such sections keeps. Keys hold id + 1; zero is an empty slot. */
module CacheModel {
  import opened Options
  import opened Rows
  import opened Totals

  /** One set: `ways` keys, `ways` rows and the round-robin replacement cursor. */
  datatype CacheSet = CacheSet(keys: seq<nat>, rows: seq<Row>, victim: nat)

  type Cache = seq<CacheSet>

  ghost predicate ValidSet(c: Config, s: CacheSet)
  {
    |s.keys| == |s.rows| == c.ways && s.victim < c.ways
  }

  /** Non-zero keys of set `k` name owned rows that belong to set `k`, with their exact bytes. */
  ghost predicate CoherentSet(c: Config, k: nat, s: CacheSet)
    requires ValidConfig(c) && ValidSet(c, s)
  {
    forall w :: 0 <= w < c.ways && s.keys[w] != 0 ==>
                  && Owned(c, s.keys[w] - 1)
                  && c.sets > 0 && (s.keys[w] - 1) % c.sets == k
                  && s.rows[w] == c.table[s.keys[w] - 1]
  }

  ghost predicate Coherent(c: Config, cache: Cache)
    requires ValidConfig(c)
  {
    && |cache| == c.sets
    && forall k :: 0 <= k < c.sets ==> ValidSet(c, cache[k]) && CoherentSet(c, k, cache[k])
  }

  function EmptySet(c: Config): CacheSet
  {
    CacheSet(seq(c.ways, _ => 0), seq(c.ways, _ => ZeroRow()), 0)
  }

  function EmptyCache(c: Config): Cache
  {
    seq(c.sets, _ => EmptySet(c))
  }

  /** The first way from `w` on that holds `key`, or the number of ways. */
  function FindWay(keys: seq<nat>, key: nat, w: nat): (r: nat)
    requires w <= |keys|
    ensures w <= r <= |keys|
    ensures r < |keys| ==> keys[r] == key
    ensures forall j :: w <= j < r ==> keys[j] != key
    decreases |keys| - w
  {
    if w == |keys| || keys[w] == key then w else FindWay(keys, key, w + 1)
  }

  /** The hit section: the cached bytes of `id`, if resident. */
  function ProbeSet(s: CacheSet, id: nat): Option<Row>
    requires |s.keys| == |s.rows|
  {
    var w := FindWay(s.keys, id + 1, 0);
    if w < |s.keys| then Some(s.rows[w]) else None
  }

  /** The fill section: overwrite the victim way and advance the cursor. */
  function InsertSet(s: CacheSet, id: nat, row: Row): CacheSet
    requires |s.keys| == |s.rows| > 0
  {
    var w := s.victim % |s.keys|;
    CacheSet(s.keys[w := id + 1], s.rows[w := row], (s.victim + 1) % |s.keys|)
  }

  predicate Evicts(s: CacheSet)
    requires |s.keys| > 0
  {
    s.keys[s.victim % |s.keys|] != 0
  }

  function Probe(c: Config, cache: Cache, id: nat): Option<Row>
    requires ValidConfig(c) && Coherent(c, cache)
  {
    if c.sets == 0 then None else ProbeSet(cache[id % c.sets], id)
  }

  function Insert(c: Config, cache: Cache, id: nat, row: Row): Cache
    requires ValidConfig(c) && Coherent(c, cache)
  {
    if c.sets == 0 then cache else cache[id % c.sets := InsertSet(cache[id % c.sets], id, row)]
  }

  /** A hit returns exactly the backing row, whatever was inserted and evicted before. */
  lemma HitIsExact(c: Config, cache: Cache, id: nat)
    requires ValidConfig(c) && Coherent(c, cache)
    ensures Probe(c, cache, id).Some? ==> Owned(c, id) && Probe(c, cache, id).value == c.table[id]
  {
    if c.sets > 0 {
      var s := cache[id % c.sets];
      var w := FindWay(s.keys, id + 1, 0);
      assert ValidSet(c, s) && CoherentSet(c, id % c.sets, s);
      assert w < c.ways ==> s.keys[w] == id + 1;
    }
  }

  lemma InsertKeepsCoherence(c: Config, cache: Cache, id: nat)
    requires ValidConfig(c) && Coherent(c, cache) && Owned(c, id)
    ensures Coherent(c, Insert(c, cache, id, c.table[id]))
  {
    if c.sets > 0 {
      var k := id % c.sets;
      assert ValidSet(c, cache[k]) && CoherentSet(c, k, cache[k]);
      var s := InsertSet(cache[k], id, c.table[id]);
      assert CoherentSet(c, k, s);
    }
  }

  lemma EmptyIsCoherent(c: Config)
    requires ValidConfig(c)
    ensures Coherent(c, EmptyCache(c))
    ensures Occupied(EmptyCache(c)) == 0
  {
    EmptyOccupied(EmptyCache(c), c);
  }

  ghost function NonZero(key: nat, unit: ()): nat
  {
    if key != 0 then 1 else 0
  }

  ghost function SetOccupied(s: CacheSet, unit: ()): nat
  {
    Total<nat, ()>(s.keys, (), NonZero)
  }

  /** Number of live slots. */
  ghost function Occupied(cache: Cache): nat
  {
    Total(cache, (), SetOccupied)
  }

  lemma {:induction false} ZeroKeys(keys: seq<nat>)
    requires forall j :: 0 <= j < |keys| ==> keys[j] == 0
    ensures Total<nat, ()>(keys, (), NonZero) == 0
  {
    if keys != [] {
      ZeroKeys(keys[1..]);
    }
  }

  lemma {:induction false} EmptyOccupied(cache: Cache, c: Config)
    requires forall k :: 0 <= k < |cache| ==> cache[k] == EmptySet(c)
    ensures Occupied(cache) == 0
  {
    if cache != [] {
      ZeroKeys(cache[0].keys);
      EmptyOccupied(cache[1..], c);
    }
  }

  /** An insertion either evicts a live row or occupies one more slot, never both. */
  lemma InsertOccupies(c: Config, cache: Cache, id: nat, row: Row)
    requires ValidConfig(c) && Coherent(c, cache) && c.sets > 0
    ensures Occupied(Insert(c, cache, id, row)) + (if Evicts(cache[id % c.sets]) then 1 else 0)
            == Occupied(cache) + 1
  {
    var k := id % c.sets;
    var s := cache[k];
    assert ValidSet(c, s);
    TotalUpdate<nat, ()>(s.keys, (), NonZero, s.victim % |s.keys|, id + 1);
    TotalUpdate(cache, (), SetOccupied, k, InsertSet(s, id, row));
  }
}

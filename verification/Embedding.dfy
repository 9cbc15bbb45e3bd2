/** The embedding layer around a row store: pinned staging buffers by power-of-two capacity, and one work
    descriptor per index count, which keeps the addresses it was made with. */
module Embedding {
  import opened Options
  import opened Arith
  import opened Rows
  import opened Backing
  import opened MissPaths
  import opened ServeSteps
  import opened ServeTrail
  import opened RowStores

  function BitLength(n: nat): nat
  {
    if n == 0 then 0 else 1 + BitLength(n / 2)
  }

  /** `1 << (count - 1).bit_length()`. */
  function Capacity(count: nat): nat
    requires count > 0
  {
    Pow2(BitLength(count - 1))
  }

  lemma {:induction false} BitLengthBounds(n: nat)
    ensures n < Pow2(BitLength(n))
    ensures n > 0 ==> Pow2(BitLength(n)) <= 2 * n
  {
    if n > 0 {
      BitLengthBounds(n / 2);
    }
  }

  /** The staging holds the count, and is less than twice as large. */
  lemma CapacityHolds(count: nat)
    requires count > 0
    ensures count <= Capacity(count) && (count > 1 ==> Capacity(count) < 2 * count)
  {
    BitLengthBounds(count - 1);
  }

  /** `n` indices belong to size class `k`: up to 2^k of them, and more than the class below holds. */
  predicate InClass(n: nat, k: nat)
  {
    n > 0 && n <= Pow2(k) && (k > 0 ==> Pow2(k - 1) < n)
  }

  /** The staging for `count` indices has exactly the power of two of their size class. */
  lemma CapacityIff(count: nat, k: nat)
    requires count > 0
    ensures InClass(count, BitLength(count - 1)) && Capacity(count) == Pow2(BitLength(count - 1))
    ensures Capacity(count) == Pow2(k) <==> InClass(count, k)
  {
    var b := BitLength(count - 1);
    BitLengthBounds(count - 1);
    if k < b {
      Pow2Grows(k, b - 1);
    } else if b < k {
      Pow2Grows(b, k - 1);
    }
  }

  /** Two numbers of indices share their staging: some size class has both. */
  ghost predicate SameClass(n: nat, m: nat)
  {
    exists k: nat :: InClass(n, k) && InClass(m, k)
  }

  lemma SameCapacityIff(n: nat, m: nat)
    requires n > 0 && m > 0
    ensures Capacity(n) == Capacity(m) <==> SameClass(n, m)
  {
    CapacityIff(n, BitLength(m - 1));
    CapacityIff(m, BitLength(m - 1));
    if k: nat :| InClass(n, k) && InClass(m, k) {
      CapacityIff(n, k);
      CapacityIff(m, k);
    }
  }

  /** A call of `Owned`: how many indices, and whether during graph capture. */
  datatype Call = Call(count: nat, capturing: bool)

  /** Some call outside capture had indices of the size class of `m`. */
  ghost predicate Warmed(calls: seq<Call>, m: nat)
  {
    exists i :: 0 <= i < |calls| && !calls[i].capturing && SameClass(calls[i].count, m)
  }

  lemma WarmedGrows(calls: seq<Call>, call: Call, m: nat)
    requires m > 0
    ensures Warmed(calls + [call], m) <==>
        Warmed(calls, m) || (!call.capturing && call.count > 0 && Capacity(call.count) == Capacity(m))
  {
    var more := calls + [call];
    if call.count > 0 {
      SameCapacityIff(call.count, m);
    }
    if i :| 0 <= i < |calls| && !calls[i].capturing && SameClass(calls[i].count, m) {
      assert more[i] == calls[i];
    }
    assert more[|calls|] == call;
  }

  /** Host buffers for up to `capacity` ids and rows. */
  datatype Staging = Staging(ids: array<int>, weights: array<Byte>, scales: array<Byte>)

  datatype Work = Work(staging: Staging, count: nat)

  datatype Outcome = NotWarmed | Aborted | Gathered(rows: seq<Row>)

  /** Row `i` as the gather reads it: weight bytes and scale bytes from the two buffers. */
  function RowAt(weights: seq<Byte>, scales: seq<Byte>, i: nat): Row
    requires (i + 1) * WEIGHT_BYTES <= |weights| && (i + 1) * SCALE_BYTES <= |scales|
  {
    weights[i * WEIGHT_BYTES..(i + 1) * WEIGHT_BYTES] + scales[i * SCALE_BYTES..(i + 1) * SCALE_BYTES]
  }

  lemma ShownRow(weights: seq<Byte>, scales: seq<Byte>, i: nat, row: Row)
    requires Shows(weights, scales, i, row)
    ensures RowAt(weights, scales, i) == row
  {
    assert row == row[..WEIGHT_BYTES] + row[WEIGHT_BYTES..];
  }

  /** The gather over the first `count` positions. */
  function Gather(weights: seq<Byte>, scales: seq<Byte>, count: nat): (r: seq<Row>)
    requires count * WEIGHT_BYTES <= |weights| && count * SCALE_BYTES <= |scales|
    ensures |r| == count
    ensures forall i :: 0 <= i < count ==> r[i] == RowAt(weights, scales, i)
  {
    seq(count, i requires 0 <= i < count => RowAt(weights, scales, i))
  }

  /** The capacities with staging are those of the size classes that were warmed. */
  ghost predicate Known(capacities: set<nat>, calls: seq<Call>)
  {
    forall m: nat {:trigger Warmed(calls, m)} :: m > 0 ==> (Capacity(m) in capacities <==> Warmed(calls, m))
  }

  /** A call outside capture makes its capacity known, and any other call changes nothing. */
  lemma KnownGrows(before: set<nat>, after: set<nat>, calls: seq<Call>, call: Call)
    requires Known(before, calls)
    requires after == before + if call.capturing || call.count == 0 then {} else {Capacity(call.count)}
    ensures Known(after, calls + [call])
  {
    forall m: nat | m > 0
      ensures Capacity(m) in after <==> Warmed(calls + [call], m)
    {
      WarmedGrows(calls, call, m);
    }
  }

  class EngramEmbedding {
    const store: RowStore
    var staging: map<nat, Staging>
    var works: map<nat, Work>
    ghost var calls: seq<Call>

    ghost predicate Sized(capacity: nat, s: Staging)
    {
      && s.ids.Length == capacity
      && s.weights.Length == capacity * WEIGHT_BYTES && s.scales.Length == capacity * SCALE_BYTES
      && s.weights != s.scales
    }

    ghost predicate Apart(s: Staging)
      reads store
    {
      s.weights !in store.Arrays() && s.scales !in store.Arrays()
    }

    /** Every descriptor still points into the staging of its count's capacity. */
    ghost predicate Wired()
      reads this, store
    {
      && (forall c :: c in staging ==> Sized(c, staging[c]) && Apart(staging[c]))
      && (forall n :: n in works ==>
          n > 0 && Capacity(n) in staging && works[n] == Work(staging[Capacity(n)], n))
      && Known(staging.Keys, calls)
    }

    constructor (store: RowStore)
      ensures this.store == store && staging == map[] && works == map[] && calls == [] && Wired()
    {
      this.store := store;
      staging, works, calls := map[], map[], [];
    }

    /** New buffers for a capacity. */
    method Allocate(capacity: nat)
      modifies this`staging
      ensures capacity in staging && staging == old(staging)[capacity := staging[capacity]]
      ensures Sized(capacity, staging[capacity]) && Apart(staging[capacity])
      ensures fresh(staging[capacity].ids) && fresh(staging[capacity].weights) && fresh(staging[capacity].scales)
    {
      var ids := new int[capacity];
      var weights := new Byte[capacity * WEIGHT_BYTES];
      var scales := new Byte[capacity * SCALE_BYTES];
      staging := staging[capacity := Staging(ids, weights, scales)];
    }

    /** A call without indices. */
    method NoIndices(capturing: bool)
      requires Wired()
      modifies this`calls
      ensures Wired() && calls == old(calls) + [Call(0, capturing)]
    {
      KnownGrows(staging.Keys, staging.Keys, calls, Call(0, capturing));
      calls := calls + [Call(0, capturing)];
    }

    /** The staging for `count` indices, allocated on first use, which must not be during graph capture. A call is refused
        exactly during capture when no earlier call outside it had indices of the same size class. */
    method StagingFor(count: nat, capturing: bool) returns (work: Option<Work>)
      requires Wired() && count > 0
      modifies this
      ensures Wired()
      ensures calls == old(calls) + [Call(count, capturing)]
      ensures work.None? <==> capturing && !Warmed(old(calls), count)
      ensures work.Some? <==> Capacity(count) in old(staging) || !capturing
      ensures work.None? ==> staging == old(staging) && works == old(works)
      ensures work.Some? ==> count in works && work.value == works[count] && works == old(works)[count := work.value]
      ensures Capacity(count) in old(staging) ==> staging == old(staging)
      ensures work.Some? && Capacity(count) !in old(staging) ==>
          fresh(work.value.staging.ids) && fresh(work.value.staging.weights) && fresh(work.value.staging.scales)
    {
      ghost var known, capacities := calls, staging.Keys;
      calls := calls + [Call(count, capturing)];
      var capacity := Capacity(count);
      assert capacity in capacities <==> Warmed(known, count);
      KnownGrows(capacities, capacities + if capturing then {} else {capacity}, known, Call(count, capturing));
      if capacity !in staging {
        if capturing {
          return None;
        }
        Allocate(capacity);
      }
      if count !in works {
        works := works[count := Work(staging[capacity], count)];
      }
      work := Some(works[count]);
    }

    /** A lookup through the staging: the row of every index, zeros where this rank does not own it, whatever
        earlier lookups of any size left in the buffers. It is refused exactly during graph capture when no earlier
        call outside it had indices of the same size class, and aborts exactly when some position cannot be served. */
    method Owned(indices: seq<int>, capturing: bool, disk: Disk) returns (r: Outcome)
      requires Wired() && store.Valid()
      modifies this, store`hits, store`misses, store`reads_, store`evictions, store`unique, store`past
      modifies store.keys, store.cache, store.victim, store.seen
      modifies (set c | c in staging :: staging[c].ids)
      modifies (set c | c in staging :: staging[c].weights), set c | c in staging :: staging[c].scales
      ensures Wired() && store.Shape() && store.Settings() == old(store.Settings())
      ensures !r.Aborted? ==> store.Valid()
      ensures calls == old(calls) + [Call(|indices|, capturing)]
      ensures r.NotWarmed? <==> indices != [] && capturing && !Warmed(old(calls), |indices|)
      ensures r.NotWarmed? ==> store.View() == old(store.View()) && staging == old(staging) && works == old(works)
      ensures !r.NotWarmed? ==>
          (r.Gathered? <==> old(AllServable(store.Settings(), store.Sources(), disk, Here(store), indices, 0, |indices|)))
      ensures r.Gathered? ==>
          Here(store) == old(PointAt(store.Settings(), store.Sources(), Here(store), indices, 0, |indices|))
      ensures r.Gathered? ==> |r.rows| == |indices| && forall i :: 0 <= i < |indices| ==>
          InTable(store.Settings(), indices[i]) && r.rows[i] == Wanted(store.Settings(), indices[i])
    {
      ghost var c, p, before := store.Settings(), store.Sources(), Here(store);
      var count := |indices|;
      if count == 0 {
        NoIndices(capturing);
        return Gathered([]);
      }
      var found := StagingFor(count, capturing);
      if found.None? {
        return NotWarmed;
      }
      var work := found.value;
      CapacityHolds(count);
      r := StoreAndLookup(work, indices, disk, c, p, before);
    }

    /** The copy of the indices, and the lookup behind it. */
    method StoreAndLookup(work: Work, indices: seq<int>, disk: Disk, ghost c: Config, ghost p: Paths, ghost before: Point)
      returns (r: Outcome)
      requires store.Valid() && store.Settings() == c && store.Sources() == p && Here(store) == before && Wired()
      requires Sized(work.staging.ids.Length, work.staging) && Apart(work.staging)
      requires work.count == |indices| <= work.staging.ids.Length
      modifies store`hits, store`misses, store`reads_, store`evictions, store`unique, store`past
      modifies store.keys, store.cache, store.victim, store.seen, work.staging.ids, work.staging.weights, work.staging.scales
      ensures Wired() && store.Shape() && store.Settings() == c && !r.NotWarmed?
      ensures !r.Aborted? ==> store.Valid()
      ensures r.Gathered? <==> AllServable(c, p, disk, before, indices, 0, |indices|)
      ensures r.Gathered? ==> Here(store) == PointAt(c, p, before, indices, 0, |indices|)
      ensures r.Gathered? ==> |r.rows| == |indices| && forall i :: 0 <= i < |indices| ==>
          InTable(c, indices[i]) && r.rows[i] == Wanted(c, indices[i])
    {
      StoreIds(work.staging.ids, indices);
      r := LookupAndGather(work, indices, disk, c, p, before);
    }

    /** The host callback and the gather behind it. */
    method LookupAndGather(work: Work, indices: seq<int>, disk: Disk, ghost c: Config, ghost p: Paths, ghost before: Point)
      returns (r: Outcome)
      requires store.Valid() && store.Settings() == c && store.Sources() == p && Here(store) == before && Wired()
      requires Sized(work.staging.ids.Length, work.staging) && Apart(work.staging)
      requires work.count == |indices| <= work.staging.ids.Length && work.staging.ids[..work.count] == indices
      modifies store`hits, store`misses, store`reads_, store`evictions, store`unique, store`past
      modifies store.keys, store.cache, store.victim, store.seen, work.staging.weights, work.staging.scales
      ensures Wired() && store.Shape() && store.Settings() == c && !r.NotWarmed?
      ensures !r.Aborted? ==> store.Valid()
      ensures r.Gathered? <==> AllServable(c, p, disk, before, indices, 0, |indices|)
      ensures r.Gathered? ==> Here(store) == PointAt(c, p, before, indices, 0, |indices|)
      ensures r.Gathered? ==> |r.rows| == |indices| && forall i :: 0 <= i < |indices| ==>
          InTable(c, indices[i]) && r.rows[i] == Wanted(c, indices[i])
    {
      var st := work.staging;
      var ids := st.ids[..];
      var ok;
      ghost var trail;
      ok, trail := Serve(store, ids, st.weights, st.scales, 0, work.count, disk, c, p);
      assert ids[..work.count] == indices == indices[..work.count];
      PassOutcome(c, p, disk, before, indices, ids, trail, Here(store), work.count, ok);
      if !ok {
        return Aborted;
      }
      var rows := Gather(st.weights[..work.count * WEIGHT_BYTES], st.scales[..work.count * SCALE_BYTES], work.count);
      forall i | 0 <= i < work.count
        ensures InTable(c, indices[i]) && rows[i] == Wanted(c, indices[i])
      {
        assert ids[i] == indices[i];
        ShownPrefix(st.weights[..], st.scales[..], work.count, i, Wanted(c, ids[i]));
      }
      r := Gathered(rows);
    }
  }

  /** What the trail of a pass over the staging says about the indices in its front. */
  lemma PassOutcome(c: Config, p: Paths, disk: Disk, before: Point, indices: seq<int>, ids: seq<int>,
                    trail: seq<Point>, after: Point, count: nat, ok: bool)
    requires ValidConfig(c) && p.lo == c.lo && StoreInv(c, before.store)
    requires count == |indices| <= |ids| && ids[..count] == indices[..count]
    requires IsTrail(c, p, disk, ids, 0, trail) && trail[0] == before
    requires ok ==> Ends(trail, after, 0, count)
    requires !ok ==> |trail| <= count && Stuck(c, p, disk, ids, 0, trail)
    ensures ok <==> AllServable(c, p, disk, before, indices, 0, count)
    ensures ok ==> after == PointAt(c, p, before, indices, 0, count)
  {
    TrailPoint(c, p, disk, ids, 0, trail, |trail| - 1);
    SameServable(c, p, disk, before, indices, ids, count);
    if ok {
      SamePoint(c, p, before, indices, ids, count);
    }
  }

  lemma ShownPrefix(weights: seq<Byte>, scales: seq<Byte>, count: nat, i: nat, row: Row)
    requires i < count && count * WEIGHT_BYTES <= |weights| && count * SCALE_BYTES <= |scales|
    requires Shows(weights, scales, i, row)
    ensures RowAt(weights[..count * WEIGHT_BYTES], scales[..count * SCALE_BYTES], i) == row
  {
    ShownRow(weights, scales, i, row);
    assert weights[..count * WEIGHT_BYTES][i * WEIGHT_BYTES..(i + 1) * WEIGHT_BYTES]
        == weights[i * WEIGHT_BYTES..(i + 1) * WEIGHT_BYTES];
    assert scales[..count * SCALE_BYTES][i * SCALE_BYTES..(i + 1) * SCALE_BYTES]
        == scales[i * SCALE_BYTES..(i + 1) * SCALE_BYTES];
  }

  /** `ids[:count].copy_(indices)`. */
  method StoreIds(ids: array<int>, indices: seq<int>)
    requires |indices| <= ids.Length
    modifies ids
    ensures ids[..|indices|] == indices
  {
    forall i | 0 <= i < |indices| {
      ids[i] := indices[i];
    }
  }
}

/** A serial pass over a list of ids, position by position: the store and the number of reads before each position,
    and the first position, if any, that cannot be served. */
module ServeTrail {
  import opened Rows
  import opened CacheModel
  import opened ServeSteps
  import opened ServeAlone
  import opened Backing
  import opened MissPaths

  /** The store and how many reads it has counted. */
  datatype Point = Point(store: Store, count: nat)

  /** The lookup of `id` by a store in state `s` hits. */
  ghost predicate Hits(c: Config, s: Store, id: int)
    requires ValidConfig(c) && StoreInv(c, s)
  {
    id >= 0 && Probe(c, s.cache, id).Some?
  }

  /** Position with id `id` can be served at point `a`: the id is in the table, and if this rank owns it and it is
      not resident, its reads are answered in full. */
  ghost predicate Servable(c: Config, p: Paths, disk: Disk, id: int, a: Point)
    requires ValidConfig(c) && StoreInv(c, a.store) && p.lo == c.lo
  {
    InTable(c, id) && (Owned(c, id) ==> Hits(c, a.store, id) || MissSucceeds(p, id, disk, a.count))
  }

  /** What serving `id` leads to. */
  ghost function ServedPoint(c: Config, p: Paths, id: int, a: Point): (b: Point)
    requires ValidConfig(c) && StoreInv(c, a.store)
    ensures StoreInv(c, b.store)
  {
    if Owned(c, id) then
      FetchKeepsInv(c, a.store, id);
      Point(FetchAlone(c, a.store, id), a.count + if Hits(c, a.store, id) then 0 else MissReads(p))
    else a
  }

  /** The point before position `i` when [begin, i) has been served. */
  ghost function PointAt(c: Config, p: Paths, before: Point, ids: seq<int>, begin: nat, i: nat): (a: Point)
    requires ValidConfig(c) && StoreInv(c, before.store) && begin <= i <= |ids|
    ensures StoreInv(c, a.store)
    decreases i
  {
    if i == begin then before else ServedPoint(c, p, ids[i - 1], PointAt(c, p, before, ids, begin, i - 1))
  }

  /** Every position of [begin, end) can be served in its turn. */
  ghost predicate AllServable(c: Config, p: Paths, disk: Disk, before: Point, ids: seq<int>, begin: nat, end: nat)
    requires ValidConfig(c) && StoreInv(c, before.store) && begin <= end <= |ids| && p.lo == c.lo
  {
    forall k :: begin <= k < end ==> Servable(c, p, disk, ids[k], PointAt(c, p, before, ids, begin, k))
  }

  /** Only the ids that are served matter. */
  lemma {:induction false} SamePoint(c: Config, p: Paths, before: Point, ids: seq<int>, more: seq<int>, end: nat)
    requires ValidConfig(c) && StoreInv(c, before.store) && end <= |ids| && end <= |more| && more[..end] == ids[..end]
    ensures PointAt(c, p, before, more, 0, end) == PointAt(c, p, before, ids, 0, end)
  {
    if end > 0 {
      assert more[..end - 1] == more[..end][..end - 1] && ids[..end - 1] == ids[..end][..end - 1];
      assert more[end - 1] == more[..end][end - 1] && ids[end - 1] == ids[..end][end - 1];
      SamePoint(c, p, before, ids, more, end - 1);
    }
  }

  lemma SameServable(c: Config, p: Paths, disk: Disk, before: Point, ids: seq<int>, more: seq<int>, end: nat)
    requires ValidConfig(c) && StoreInv(c, before.store) && end <= |ids| && end <= |more| && more[..end] == ids[..end]
    requires p.lo == c.lo
    ensures AllServable(c, p, disk, before, more, 0, end) == AllServable(c, p, disk, before, ids, 0, end)
  {
    forall k | 0 <= k < end
      ensures more[k] == ids[k] && PointAt(c, p, before, more, 0, k) == PointAt(c, p, before, ids, 0, k)
    {
      assert more[..k] == more[..end][..k] && ids[..k] == ids[..end][..k];
      assert more[k] == more[..end][k] && ids[k] == ids[..end][k];
      SamePoint(c, p, before, ids, more, k);
    }
  }

  /** Step `k` of a trail serves position `begin + k`. */
  ghost predicate StepAt(c: Config, p: Paths, disk: Disk, ids: seq<int>, begin: nat, trail: seq<Point>, k: nat)
    requires ValidConfig(c) && p.lo == c.lo
  {
    && k + 1 < |trail| && begin + k < |ids| && StoreInv(c, trail[k].store)
    && Servable(c, p, disk, ids[begin + k], trail[k]) && trail[k + 1] == ServedPoint(c, p, ids[begin + k], trail[k])
  }

  /** The points passed through by a pass that starts at `begin`. */
  ghost predicate IsTrail(c: Config, p: Paths, disk: Disk, ids: seq<int>, begin: nat, trail: seq<Point>)
    requires ValidConfig(c) && p.lo == c.lo
  {
    trail != [] && forall k :: 0 <= k < |trail| - 1 ==> StepAt(c, p, disk, ids, begin, trail, k)
  }

  /** `a` is the last point of a trail that has served [begin, i). */
  ghost predicate Ends(trail: seq<Point>, a: Point, begin: nat, i: nat)
  {
    trail != [] && begin + |trail| - 1 == i && trail[|trail| - 1] == a
  }

  lemma TrailGrows(c: Config, p: Paths, disk: Disk, ids: seq<int>, begin: nat, i: nat, trail: seq<Point>, a: Point, b: Point)
    requires ValidConfig(c) && p.lo == c.lo && IsTrail(c, p, disk, ids, begin, trail) && Ends(trail, a, begin, i)
    requires i < |ids| && StoreInv(c, a.store) && Servable(c, p, disk, ids[i], a) && b == ServedPoint(c, p, ids[i], a)
    ensures IsTrail(c, p, disk, ids, begin, trail + [b]) && Ends(trail + [b], b, begin, i + 1)
  {
    var longer := trail + [b];
    forall k | 0 <= k < |longer| - 1
      ensures StepAt(c, p, disk, ids, begin, longer, k)
    {
      if k < |trail| - 1 {
        assert StepAt(c, p, disk, ids, begin, trail, k);
        assert longer[k] == trail[k] && longer[k + 1] == trail[k + 1];
      }
    }
  }

  /** The position behind the trail cannot be served. */
  ghost predicate Stuck(c: Config, p: Paths, disk: Disk, ids: seq<int>, begin: nat, trail: seq<Point>)
    requires ValidConfig(c) && p.lo == c.lo
  {
    && trail != [] && begin + |trail| - 1 < |ids| && StoreInv(c, trail[|trail| - 1].store)
    && !Servable(c, p, disk, ids[begin + |trail| - 1], trail[|trail| - 1])
  }

  lemma StuckAt(c: Config, p: Paths, disk: Disk, ids: seq<int>, begin: nat, i: nat, trail: seq<Point>, a: Point)
    requires ValidConfig(c) && p.lo == c.lo && Ends(trail, a, begin, i) && i < |ids|
    requires StoreInv(c, a.store) && !Servable(c, p, disk, ids[i], a)
    ensures Stuck(c, p, disk, ids, begin, trail)
  {
  }

  lemma OneMoreServable(c: Config, p: Paths, disk: Disk, before: Point, ids: seq<int>, begin: nat, i: nat)
    requires ValidConfig(c) && StoreInv(c, before.store) && begin <= i < |ids| && p.lo == c.lo
    requires AllServable(c, p, disk, before, ids, begin, i)
    requires Servable(c, p, disk, ids[i], PointAt(c, p, before, ids, begin, i))
    ensures AllServable(c, p, disk, before, ids, begin, i + 1)
  {
  }

  /** A trail passes through the points of the pass, all of whose positions it served. */
  lemma {:induction false} TrailPoint(c: Config, p: Paths, disk: Disk, ids: seq<int>, begin: nat, trail: seq<Point>, k: nat)
    requires ValidConfig(c) && p.lo == c.lo && IsTrail(c, p, disk, ids, begin, trail) && StoreInv(c, trail[0].store)
    requires k < |trail| && begin + k <= |ids|
    ensures trail[k] == PointAt(c, p, trail[0], ids, begin, begin + k)
    ensures AllServable(c, p, disk, trail[0], ids, begin, begin + k)
  {
    if k > 0 {
      TrailPoint(c, p, disk, ids, begin, trail, k - 1);
      assert StepAt(c, p, disk, ids, begin, trail, k - 1);
      OneMoreServable(c, p, disk, trail[0], ids, begin, begin + k - 1);
    }
  }

  /** What a store has counted: every missed row is marked, and each of them once. */
  ghost predicate CountedOnce(c: Config, s: Store)
  {
    c.tracked ==> s.met == s.missed && s.unique == |s.missed|
  }

  lemma ServedCounts(c: Config, p: Paths, id: int, a: Point)
    requires ValidConfig(c) && StoreInv(c, a.store) && CountedOnce(c, a.store)
    ensures var b := ServedPoint(c, p, id, a);
            && CountedOnce(c, b.store)
            && b.store.hits + b.store.misses == a.store.hits + a.store.misses + if Owned(c, id) then 1 else 0
  {
    if Owned(c, id) {
      FetchCounts(c, a.store, id);
    }
  }

  /** A serial pass counts every owned position once, and every distinct row that was missed once. */
  lemma {:induction false} PassCounts(c: Config, p: Paths, before: Point, ids: seq<int>, begin: nat, i: nat)
    requires ValidConfig(c) && StoreInv(c, before.store) && CountedOnce(c, before.store) && begin <= i <= |ids|
    ensures var s, t := before.store, PointAt(c, p, before, ids, begin, i).store;
            && t.hits + t.misses + OwnedIn(c, ids, begin) == s.hits + s.misses + OwnedIn(c, ids, i)
            && CountedOnce(c, t)
    decreases i
  {
    if i > begin {
      PassCounts(c, p, before, ids, begin, i - 1);
      ServedCounts(c, p, ids[i - 1], PointAt(c, p, before, ids, begin, i - 1));
    }
  }

  /** Of such a store: the bit of an owned row is set if and only if the row was missed. */
  lemma MissedBit(c: Config, s: Store, id: int)
    requires ValidConfig(c) && StoreInv(c, s) && CountedOnce(c, s) && c.tracked && c.lo <= id < c.hi
    ensures 0 <= (id - c.lo) / 8 < |s.seen| && ((id - c.lo) % 8 in s.seen[(id - c.lo) / 8] <==> id in s.missed)
  {
    OneBit(c, s.seen, s.met, s.missed, id);
  }
}

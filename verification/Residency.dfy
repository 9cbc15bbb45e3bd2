/** What is resident after any history of fills: round-robin replacement is first-in-first-out,
    so a set holds exactly its last `ways` fills. */
module Residency {
  import opened Options
  import opened Rows
  import opened CacheModel

  datatype Fill = Fill(id: nat, row: Row)

  /** The fills of a history that go to set `k`, in order. */
  function Into(c: Config, log: seq<Fill>, k: nat): seq<Fill>
    requires c.sets > 0
  {
    if log == [] then []
    else
      var rest := Into(c, log[..|log| - 1], k);
      var last := log[|log| - 1];
      if last.id % c.sets == k then rest + [last] else rest
  }

  /** Every fill of the history stores the exact bytes of an owned row. */
  ghost predicate ExactFills(c: Config, log: seq<Fill>)
    requires ValidConfig(c)
  {
    forall i :: 0 <= i < |log| ==> Owned(c, log[i].id) && log[i].row == c.table[log[i].id]
  }

  /** The cache after a history of fills. */
  function Replay(c: Config, log: seq<Fill>): (cache: Cache)
    requires ValidConfig(c) && ExactFills(c, log)
    ensures Coherent(c, cache)
  {
    if log == [] then
      EmptyIsCoherent(c);
      EmptyCache(c)
    else
      var last := log[|log| - 1];
      var before := Replay(c, log[..|log| - 1]);
      InsertKeepsCoherence(c, before, last.id);
      Insert(c, before, last.id, last.row)
  }

  function ReplaySet(c: Config, xs: seq<Fill>): (s: CacheSet)
    requires ValidConfig(c)
    ensures ValidSet(c, s)
  {
    if xs == [] then EmptySet(c)
    else InsertSet(ReplaySet(c, xs[..|xs| - 1]), xs[|xs| - 1].id, xs[|xs| - 1].row)
  }

  /** Sets do not interfere: set `k` only depends on the fills that go to it. */
  lemma {:induction false} SetsAreIndependent(c: Config, log: seq<Fill>, k: nat)
    requires ValidConfig(c) && ExactFills(c, log) && k < c.sets
    ensures Replay(c, log)[k] == ReplaySet(c, Into(c, log, k))
  {
    if log != [] {
      var rest := log[..|log| - 1];
      SetsAreIndependent(c, rest, k);
      var last := log[|log| - 1];
      if last.id % c.sets == k {
        var xs := Into(c, log, k);
        assert xs[..|xs| - 1] == Into(c, rest, k);
      }
    }
  }

  /** Way `w` holds the fill with index `j`. */
  ghost predicate Holds(s: CacheSet, w: nat, xs: seq<Fill>, j: nat)
    requires w < |s.keys| == |s.rows| && j < |xs|
  {
    s.keys[w] == xs[j].id + 1 && s.rows[w] == xs[j].row
  }

  ghost predicate InWindow(c: Config, xs: seq<Fill>, j: nat)
  {
    |xs| - c.ways <= j < |xs|
  }

  /** The way that fill number `j` of a set overwrites: the cursor steps round the ways. */
  ghost function WayOf(m: nat, j: nat): (w: nat)
    requires m > 0
    ensures w < m
  {
    if j == 0 then 0 else Next(m, WayOf(m, j - 1))
  }

  function Next(m: nat, w: nat): nat
  {
    if w + 1 == m then 0 else w + 1
  }

  lemma {:induction false} WayAfter(m: nat, j: nat, d: nat)
    requires m > 0 && d <= m
    ensures WayOf(m, j + d) == if WayOf(m, j) + d < m then WayOf(m, j) + d else WayOf(m, j) + d - m
  {
    if d > 0 {
      WayAfter(m, j, d - 1);
    }
  }

  lemma InsertAtCursor(c: Config, t: CacheSet, f: Fill)
    requires ValidConfig(c) && ValidSet(c, t)
    ensures InsertSet(t, f.id, f.row)
            == CacheSet(t.keys[t.victim := f.id + 1], t.rows[t.victim := f.row], Next(c.ways, t.victim))
  {
    SmallRemainder(t.victim, c.ways);
  }

  lemma SmallRemainder(a: nat, m: nat)
    requires a < m
    ensures a % m == a && m % m == 0
    ensures (a + 1) % m == Next(m, a)
  {
    if a + 1 < m {
      assert (a + 1) / m == 0;
    }
  }

  /** The invariant of one set: cursor position, each fill of the window sits in the way of its
      residue, and each live way holds a fill of the window. */
  ghost predicate SetInvariant(c: Config, xs: seq<Fill>, s: CacheSet)
    requires ValidConfig(c) && ValidSet(c, s)
  {
    && s.victim == WayOf(c.ways, |xs|)
    && (forall j :: 0 <= j < |xs| && InWindow(c, xs, j) ==> Holds(s, WayOf(c.ways, j), xs, j))
    && (forall w :: 0 <= w < c.ways && s.keys[w] != 0 ==>
                      exists j :: 0 <= j < |xs| && InWindow(c, xs, j) && WayOf(c.ways, j) == w && Holds(s, w, xs, j))
  }

  lemma {:induction false} SetHoldsItsWindow(c: Config, xs: seq<Fill>)
    requires ValidConfig(c)
    ensures SetInvariant(c, xs, ReplaySet(c, xs))
  {
    if xs != [] {
      var n := |xs| - 1;
      var t := ReplaySet(c, xs[..n]);
      SetHoldsItsWindow(c, xs[..n]);
      assert xs == xs[..n] + [xs[n]];
      InsertAtCursor(c, t, xs[n]);
      FillLands(c, xs[..n], t, xs[n], ReplaySet(c, xs));
    }
  }

  lemma FillLands(c: Config, ys: seq<Fill>, t: CacheSet, f: Fill, s: CacheSet)
    requires ValidConfig(c) && ValidSet(c, t) && SetInvariant(c, ys, t)
    requires s == CacheSet(t.keys[t.victim := f.id + 1], t.rows[t.victim := f.row], Next(c.ways, t.victim))
    ensures ValidSet(c, s) && SetInvariant(c, ys + [f], s)
  {
    var n, xs, v := |ys|, ys + [f], t.victim;
    assert WayOf(c.ways, n + 1) == Next(c.ways, v);
    WindowIsHeld(c, ys, t, f, s);
    HeldIsWindow(c, ys, t, f, s);
  }

  lemma WindowIsHeld(c: Config, ys: seq<Fill>, t: CacheSet, f: Fill, s: CacheSet)
    requires ValidConfig(c) && ValidSet(c, t) && SetInvariant(c, ys, t)
    requires s == CacheSet(t.keys[t.victim := f.id + 1], t.rows[t.victim := f.row], Next(c.ways, t.victim))
    ensures ValidSet(c, s)
    ensures forall j :: 0 <= j < |ys + [f]| && InWindow(c, ys + [f], j) ==> Holds(s, WayOf(c.ways, j), ys + [f], j)
  {
    var n, xs, v := |ys|, ys + [f], t.victim;
    forall j | 0 <= j < |xs| && InWindow(c, xs, j)
      ensures Holds(s, WayOf(c.ways, j), xs, j)
    {
      if j < n {
        WayAfter(c.ways, j, n - j);
        assert InWindow(c, ys, j) && Holds(t, WayOf(c.ways, j), ys, j);
      }
    }
  }

  lemma HeldIsWindow(c: Config, ys: seq<Fill>, t: CacheSet, f: Fill, s: CacheSet)
    requires ValidConfig(c) && ValidSet(c, t) && SetInvariant(c, ys, t)
    requires s == CacheSet(t.keys[t.victim := f.id + 1], t.rows[t.victim := f.row], Next(c.ways, t.victim))
    ensures ValidSet(c, s)
    ensures forall w :: 0 <= w < c.ways && s.keys[w] != 0 ==>
                          exists j :: 0 <= j < |ys + [f]| && InWindow(c, ys + [f], j) && WayOf(c.ways, j) == w
                                      && Holds(s, w, ys + [f], j)
  {
    var n, xs, v := |ys|, ys + [f], t.victim;
    forall w | 0 <= w < c.ways && s.keys[w] != 0
      ensures exists j :: 0 <= j < |xs| && InWindow(c, xs, j) && WayOf(c.ways, j) == w && Holds(s, w, xs, j)
    {
      if w == v {
        assert InWindow(c, xs, n) && Holds(s, w, xs, n);
      } else {
        assert t.keys[w] != 0;
        var j :| 0 <= j < |ys| && InWindow(c, ys, j) && WayOf(c.ways, j) == w && Holds(t, w, ys, j);
        WayAfter(c.ways, j, n - j);
        assert InWindow(c, xs, j) && Holds(s, w, xs, j);
      }
    }
  }

  /** Exactly the last `ways` fills of its set decide whether a row is resident. */
  lemma ResidentIffRecentlyFilled(c: Config, log: seq<Fill>, id: nat)
    requires ValidConfig(c) && ExactFills(c, log) && c.sets > 0
    ensures var xs := Into(c, log, id % c.sets);
            Probe(c, Replay(c, log), id).Some?
            <==> exists j :: 0 <= j < |xs| && InWindow(c, xs, j) && xs[j].id == id
  {
    var k := id % c.sets;
    var xs := Into(c, log, k);
    SetsAreIndependent(c, log, k);
    SetHoldsItsWindow(c, xs);
    var s := ReplaySet(c, xs);
    var w := FindWay(s.keys, id + 1, 0);
    if w < c.ways {
      var j :| 0 <= j < |xs| && InWindow(c, xs, j) && WayOf(c.ways, j) == w && Holds(s, w, xs, j);
      assert xs[j].id == id;
    }
    if j :| 0 <= j < |xs| && InWindow(c, xs, j) && xs[j].id == id {
      assert Holds(s, WayOf(c.ways, j), xs, j);
    }
  }

  /** A filled row stays resident, with its exact bytes, until `ways` later fills of its set. */
  lemma FilledRowStays(c: Config, log: seq<Fill>, i: nat)
    requires ValidConfig(c) && ExactFills(c, log) && i < |log| && c.sets > 0
    requires |Into(c, log, log[i].id % c.sets)| - |Into(c, log[..i + 1], log[i].id % c.sets)| < c.ways
    ensures Probe(c, Replay(c, log), log[i].id) == Some(c.table[log[i].id])
  {
    var id := log[i].id;
    var k := id % c.sets;
    var xs := Into(c, log, k);
    var m := |Into(c, log[..i + 1], k)| - 1;
    assert log[..i + 1][..i] == log[..i];
    IntoGrows(c, log, i + 1, k);
    assert InWindow(c, xs, m) && xs[m].id == id;
    ResidentIffRecentlyFilled(c, log, id);
    HitIsExact(c, Replay(c, log), id);
  }

  lemma {:induction false} IntoGrows(c: Config, log: seq<Fill>, i: nat, k: nat)
    requires c.sets > 0 && i <= |log|
    ensures Into(c, log[..i], k) <= Into(c, log, k)
  {
    if i < |log| {
      IntoGrows(c, log[..|log| - 1], i, k);
      assert log[..|log| - 1][..i] == log[..i];
    } else {
      assert log[..i] == log;
    }
  }
}

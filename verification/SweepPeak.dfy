/** The client layer of one benchmark wave: how far its dispatches are spread and the largest number of its
    streams in flight at once, the latter by one sweep over the sorted ends of the streams' intervals. */
module SweepPeak {
  import opened Options
  import opened Sorting

  /** A stream is in flight from `t0` up to, and not including, `end`. */
  datatype Span = Span(t0: real, end: real)

  /** A retained stream record; a time that is zero counts as missing, as an absent one does. */
  datatype Record = Record(t0: real, tEnd: real, tLast: real)

  function SpanOf(r: Record): Span
  {
    Span(r.t0, if r.tEnd != 0.0 then r.tEnd else if r.tLast != 0.0 then r.tLast else r.t0)
  }

  /** The intervals of the first `k` records that have a start. */
  function SpansOf(recs: seq<Record>, k: nat): seq<Span>
    requires k <= |recs|
  {
    if k == 0 then []
    else SpansOf(recs, k - 1) + if recs[k - 1].t0 != 0.0 then [SpanOf(recs[k - 1])] else []
  }

  /** Record `r` is in flight at time `t`: it has started, and ends later; without a time of its end it ends with its
      last byte, and without that it never was in flight. */
  predicate Streaming(r: Record, t: real)
  {
    && r.t0 != 0.0 && r.t0 <= t
    && (if r.tEnd != 0.0 then t < r.tEnd else r.tLast != 0.0 && t < r.tLast)
  }

  /** How many of the first `k` records are in flight at time `t`. */
  function StreamsAt(recs: seq<Record>, t: real, k: nat): nat
    requires k <= |recs|
  {
    if k == 0 then 0 else StreamsAt(recs, t, k - 1) + if Streaming(recs[k - 1], t) then 1 else 0
  }

  /** One end of an interval: +1 where a stream starts, -1 where it ends. */
  datatype Edge = Edge(at: real, delta: int)

  /** Pairs compare by time, then by delta: at one instant ends come before starts. */
  predicate EdgeLe(a: Edge, b: Edge)
  {
    a.at < b.at || (a.at == b.at && a.delta <= b.delta)
  }

  /** The ends of the first `k` intervals. */
  function Edges(spans: seq<Span>, k: nat): (r: seq<Edge>)
    requires k <= |spans|
    ensures forall i :: 0 <= i < |r| ==> r[i].delta == 1 || r[i].delta == -1
  {
    if k == 0 then []
    else Edges(spans, k - 1) + [Edge(spans[k - 1].t0, 1), Edge(spans[k - 1].end, -1)]
  }

  predicate Live(s: Span, t: real)
  {
    s.t0 <= t < s.end
  }

  /** How many of the first `k` streams are in flight at time `t`. */
  function InFlight(spans: seq<Span>, t: real, k: nat): nat
    requires k <= |spans|
  {
    if k == 0 then 0 else InFlight(spans, t, k - 1) + if Live(spans[k - 1], t) then 1 else 0
  }

  lemma {:induction false} InFlightOfPrefix(spans: seq<Span>, more: seq<Span>, t: real, k: nat)
    requires k <= |spans|
    ensures InFlight(spans + more, t, k) == InFlight(spans, t, k)
  {
    if k > 0 {
      InFlightOfPrefix(spans, more, t, k - 1);
    }
  }

  /** The intervals are those of the records: at any time as many are open as records are in flight. */
  lemma {:induction false} SpansAreStreams(recs: seq<Record>, t: real, k: nat)
    requires k <= |recs|
    ensures InFlight(SpansOf(recs, k), t, |SpansOf(recs, k)|) == StreamsAt(recs, t, k)
  {
    if k > 0 {
      var before := SpansOf(recs, k - 1);
      SpansAreStreams(recs, t, k - 1);
      if recs[k - 1].t0 != 0.0 {
        InFlightOfPrefix(before, [SpanOf(recs[k - 1])], t, |before|);
      } else {
        assert SpansOf(recs, k) == before;
      }
    }
  }

  /** A stream that ended before it started is open, backwards, at time `t`. */
  predicate Backward(s: Span, t: real)
  {
    s.end <= t < s.t0
  }

  /** How many of the first `k` streams are open backwards at time `t`. */
  function Over(spans: seq<Span>, t: real, k: nat): nat
    requires k <= |spans|
  {
    if k == 0 then 0 else Over(spans, t, k - 1) + if Backward(spans[k - 1], t) then 1 else 0
  }

  /** What an edge contributes to the count at time `t`. */
  function Weight(e: Edge, t: real): int
  {
    if e.at <= t then e.delta else 0
  }

  /** Starts less ends at or before time `t`, among the first `k` edges. */
  function Balance(edges: seq<Edge>, t: real, k: nat): int
    requires k <= |edges|
  {
    if k == 0 then 0 else Balance(edges, t, k - 1) + Weight(edges[k - 1], t)
  }

  /** The sum of the first `k` deltas. */
  function Active(edges: seq<Edge>, k: nat): int
    requires k <= |edges|
  {
    if k == 0 then 0 else Active(edges, k - 1) + edges[k - 1].delta
  }

  lemma {:induction false} BalanceOfPrefix(a: seq<Edge>, b: seq<Edge>, t: real, k: nat)
    requires k <= |a| && k <= |b| && a[..k] == b[..k]
    ensures Balance(a, t, k) == Balance(b, t, k)
  {
    if k > 0 {
      assert a[k - 1] == a[..k][k - 1] == b[..k][k - 1] == b[k - 1];
      assert a[..k - 1] == a[..k][..k - 1] == b[..k][..k - 1] == b[..k - 1];
      BalanceOfPrefix(a, b, t, k - 1);
    }
  }

  /** Starts less ends are the streams in flight less those open backwards, for any intervals. */
  lemma {:induction false} BalanceIsNet(spans: seq<Span>, t: real, k: nat)
    requires k <= |spans|
    ensures Balance(Edges(spans, k), t, |Edges(spans, k)|) == InFlight(spans, t, k) - Over(spans, t, k)
  {
    if k > 0 {
      BalanceIsNet(spans, t, k - 1);
      var before, all := Edges(spans, k - 1), Edges(spans, k);
      BalanceOfPrefix(all, before, t, |before|);
      assert all[|before|] == Edge(spans[k - 1].t0, 1) && all[|before| + 1] == Edge(spans[k - 1].end, -1);
      assert Balance(all, t, |all|) == Balance(all, t, |before|) + Weight(all[|before|], t) + Weight(all[|before| + 1], t);
    }
  }

  /** Every interval ends no earlier than it starts. */
  ghost predicate Proper(spans: seq<Span>)
  {
    forall i :: 0 <= i < |spans| ==> spans[i].t0 <= spans[i].end
  }

  lemma {:induction false} ProperNeverBackward(spans: seq<Span>, t: real, k: nat)
    requires Proper(spans) && k <= |spans|
    ensures Over(spans, t, k) == 0
  {
    if k > 0 {
      ProperNeverBackward(spans, t, k - 1);
    }
  }

  lemma {:induction false} BalanceOfCons(x: Edge, s: seq<Edge>, t: real, k: nat)
    requires k <= |s|
    ensures Balance([x] + s, t, k + 1) == Weight(x, t) + Balance(s, t, k)
  {
    if k > 0 {
      BalanceOfCons(x, s, t, k - 1);
      assert ([x] + s)[k] == s[k - 1];
    }
  }

  lemma {:induction false} BalanceOfInsert(x: Edge, s: seq<Edge>, t: real)
    ensures |Insert(x, s, EdgeLe)| == |s| + 1
    ensures Balance(Insert(x, s, EdgeLe), t, |s| + 1) == Weight(x, t) + Balance(s, t, |s|)
  {
    if s == [] {
      BalanceOfCons(x, s, t, 0);
    } else if EdgeLe(x, s[0]) {
      BalanceOfCons(x, s, t, |s|);
    } else {
      BalanceOfInsert(x, s[1..], t);
      BalanceOfCons(s[0], Insert(x, s[1..], EdgeLe), t, |s|);
      BalanceOfCons(s[0], s[1..], t, |s| - 1);
      assert [s[0]] + s[1..] == s;
    }
  }

  /** Sorting does not change the balance at any time. */
  lemma {:induction false} BalanceOfSort(s: seq<Edge>, t: real)
    ensures |Sort(s, EdgeLe)| == |s|
    ensures Balance(Sort(s, EdgeLe), t, |s|) == Balance(s, t, |s|)
  {
    if s != [] {
      BalanceOfSort(s[1..], t);
      BalanceOfInsert(s[0], Sort(s[1..], EdgeLe), t);
      BalanceOfCons(s[0], s[1..], t, |s| - 1);
      assert [s[0]] + s[1..] == s;
    }
  }

  /** On sorted edges the balance at `t` is the running sum once every edge at or before `t` is counted. */
  lemma {:induction false} BalanceIsActive(edges: seq<Edge>, t: real, k: nat, n: nat)
    requires IsSorted(edges, EdgeLe) && k <= n <= |edges|
    requires forall i :: 0 <= i < |edges| ==> (edges[i].at <= t <==> i < k)
    ensures Balance(edges, t, n) == Active(edges, k)
    decreases n
  {
    if n > k {
      BalanceIsActive(edges, t, k, n - 1);
    } else if k > 0 {
      BalanceOfAll(edges, t, k);
    }
  }

  lemma {:induction false} BalanceOfAll(edges: seq<Edge>, t: real, k: nat)
    requires k <= |edges| && forall i :: 0 <= i < k ==> edges[i].at <= t
    ensures Balance(edges, t, k) == Active(edges, k)
  {
    if k > 0 {
      BalanceOfAll(edges, t, k - 1);
    }
  }

  /** How many sorted edges lie at or before `t`. */
  lemma {:induction false} Reached(edges: seq<Edge>, t: real, n: nat) returns (k: nat)
    requires IsSorted(edges, EdgeLe) && n <= |edges|
    requires forall i :: n <= i < |edges| ==> edges[i].at > t
    ensures k <= n && forall i :: 0 <= i < |edges| ==> (edges[i].at <= t <==> i < k)
    decreases n
  {
    if n == 0 {
      k := 0;
    } else if edges[n - 1].at <= t {
      k := n;
      forall i | 0 <= i < n - 1
        ensures edges[i].at <= t
      {
        assert EdgeLe(edges[i], edges[n - 1]);
      }
    } else {
      k := Reached(edges, t, n - 1);
    }
  }

  lemma EdgeOrder()
    ensures IsTotalPreorder(EdgeLe)
  {
  }

  lemma RealOrder()
    ensures IsTotalPreorder((a: real, b: real) => a <= b)
  {
  }

  /** `peak` is the largest of the running sums. */
  ghost predicate LargestActive(edges: seq<Edge>, peak: int)
  {
    && (forall k: nat :: k <= |edges| ==> Active(edges, k) <= peak)
    && (exists k: nat :: k <= |edges| && Active(edges, k) == peak)
  }

  /** The sweep itself. */
  method Sweep(edges: seq<Edge>) returns (peak: int)
    ensures LargestActive(edges, peak)
  {
    var active := 0;
    peak := 0;
    ghost var at: nat := 0;
    for k := 0 to |edges|
      invariant active == Active(edges, k)
      invariant forall j: nat :: j <= k ==> Active(edges, j) <= peak
      invariant at <= k && Active(edges, at) == peak
    {
      active := active + edges[k].delta;
      if active > peak {
        at := k + 1;
      }
      peak := if active > peak then active else peak;
    }
  }

  /** Every instant's balance is bounded by the largest running sum. */
  lemma PeakBounds(edges: seq<Edge>, peak: int, t: real)
    requires IsSorted(edges, EdgeLe) && LargestActive(edges, peak)
    ensures Balance(edges, t, |edges|) <= peak
  {
    var k := Reached(edges, t, |edges|);
    BalanceIsActive(edges, t, k, |edges|);
  }

  /** Over the rest of an instant at which a stream starts, the running sum does not fall. */
  lemma {:induction false} RisesWithin(edges: seq<Edge>, k: nat, n: nat)
    requires IsSorted(edges, EdgeLe) && 0 < k <= n <= |edges|
    requires edges[k - 1].delta == 1 && edges[n - 1].at <= edges[k - 1].at
    ensures Active(edges, k) <= Active(edges, n)
    decreases n
  {
    if k < n {
      assert EdgeLe(edges[k - 1], edges[n - 1]);
      if k < n - 1 {
        assert EdgeLe(edges[n - 2], edges[n - 1]);
      }
      RisesWithin(edges, k, n - 1);
    }
  }

  /** The largest running sum is the balance at the instant of some edge, unless nothing is ever in flight. */
  lemma PeakIsAttained(edges: seq<Edge>, peak: int) returns (t: real)
    requires IsSorted(edges, EdgeLe) && LargestActive(edges, peak) && peak > 0
    requires forall i :: 0 <= i < |edges| ==> edges[i].delta == 1 || edges[i].delta == -1
    ensures Balance(edges, t, |edges|) == peak
  {
    var k: nat :| k <= |edges| && Active(edges, k) == peak;
    assert Active(edges, k - 1) <= peak;
    t := edges[k - 1].at;
    var n := Reached(edges, t, |edges|);
    assert edges[k - 1].at <= t;
    RisesWithin(edges, k, n);
    BalanceIsActive(edges, t, n, |edges|);
  }

  /** `peak` is the maximum over all instants of the number of streams in flight. */
  ghost predicate IsPeak(spans: seq<Span>, peak: int)
  {
    && (forall t :: InFlight(spans, t, |spans|) <= peak)
    && (peak == 0 || exists t :: InFlight(spans, t, |spans|) == peak)
  }

  /** `peak` is the largest balance of starts over ends at any instant. */
  ghost predicate IsPeakBalance(spans: seq<Span>, peak: int)
  {
    var all := Edges(spans, |spans|);
    && peak >= 0
    && (forall t :: Balance(all, t, |all|) <= peak)
    && (peak == 0 || exists t :: Balance(all, t, |all|) == peak)
  }

  lemma {:induction false} SweepFindsBalance(spans: seq<Span>, edges: seq<Edge>, peak: int)
    requires edges == Sort(Edges(spans, |spans|), EdgeLe) && LargestActive(edges, peak)
    ensures IsPeakBalance(spans, peak)
  {
    var all := Edges(spans, |spans|);
    EdgeOrder();
    SortIsSorted(all, EdgeLe);
    forall t
      ensures Balance(all, t, |all|) == Balance(edges, t, |edges|) <= peak
    {
      BalanceOfSort(all, t);
      PeakBounds(edges, peak, t);
    }
    assert Active(edges, 0) <= peak;
    if peak > 0 {
      forall i | 0 <= i < |edges|
        ensures edges[i].delta == 1 || edges[i].delta == -1
      {
        assert edges[i] in multiset(edges);
        assert edges[i] in all;
      }
      var t := PeakIsAttained(edges, peak);
      assert Balance(all, t, |all|) == peak;
    }
  }

  ghost predicate NeverInFlight(spans: seq<Span>)
  {
    forall t :: InFlight(spans, t, |spans|) == 0
  }

  /** At `t` as many streams are in flight as ever. */
  ghost predicate Busiest(spans: seq<Span>, t: real)
  {
    forall u :: InFlight(spans, u, |spans|) <= InFlight(spans, t, |spans|)
  }

  /** No stream is ever in flight, or at some busiest instant none is open backwards. */
  ghost predicate SweepIsRight(spans: seq<Span>)
  {
    NeverInFlight(spans) || exists t :: Busiest(spans, t) && Over(spans, t, |spans|) == 0
  }

  /** The sweep yields the largest number of streams in flight exactly when that number is reached at an instant
      at which no stream is open backwards. */
  lemma {:induction false} SweepFindsPeakIff(spans: seq<Span>, peak: int)
    requires IsPeakBalance(spans, peak)
    ensures IsPeak(spans, peak) <==> SweepIsRight(spans)
  {
    var all := Edges(spans, |spans|);
    forall t
      ensures Balance(all, t, |all|) == InFlight(spans, t, |spans|) - Over(spans, t, |spans|)
    {
      BalanceIsNet(spans, t, |spans|);
    }
    if IsPeak(spans, peak) && peak > 0 {
      var t :| Balance(all, t, |all|) == peak;
      assert InFlight(spans, t, |spans|) <= peak;
      assert Busiest(spans, t);
    }
    if t :| Busiest(spans, t) && Over(spans, t, |spans|) == 0 {
      assert Balance(all, t, |all|) == InFlight(spans, t, |spans|);
    }
  }

  /** In particular when every interval ends no earlier than it starts. */
  lemma {:induction false} SweepFindsPeak(spans: seq<Span>, peak: int)
    requires Proper(spans) && IsPeakBalance(spans, peak)
    ensures IsPeak(spans, peak)
  {
    var all := Edges(spans, |spans|);
    forall t
      ensures InFlight(spans, t, |spans|) == Balance(all, t, |all|)
    {
      BalanceIsNet(spans, t, |spans|);
      ProperNeverBackward(spans, t, |spans|);
    }
    if peak != 0 {
      var t :| Balance(all, t, |all|) == peak;
      assert InFlight(spans, t, |spans|) == peak;
    }
  }

  /** An interval that ends before it starts can hide another stream. */
  lemma BackwardSpanHidesAStream()
    ensures var spans := [Span(4.0, 1.0), Span(2.0, 3.0)];
            IsPeakBalance(spans, 0) && !IsPeak(spans, 0)
  {
    var spans := [Span(4.0, 1.0), Span(2.0, 3.0)];
    var all := Edges(spans, 2);
    assert Edges(spans, 0) == [];
    assert Edges(spans, 1) == [Edge(4.0, 1), Edge(1.0, -1)];
    assert all == [Edge(4.0, 1), Edge(1.0, -1), Edge(2.0, 1), Edge(3.0, -1)];
    forall t
      ensures Balance(all, t, |all|) <= 0
    {
      assert Balance(all, t, 1) == Weight(all[0], t);
      assert Balance(all, t, 2) == Balance(all, t, 1) + Weight(all[1], t);
      assert Balance(all, t, 3) == Balance(all, t, 2) + Weight(all[2], t);
      assert Balance(all, t, 4) == Balance(all, t, 3) + Weight(all[3], t);
    }
    assert InFlight(spans, 2.0, 1) == 0;
    assert InFlight(spans, 2.0, 2) == 1;
  }

  function Distance(x: real, y: real): real
  {
    if x < y then y - x else x - y
  }

  /** The nearest integer, and the even one of two equally near. */
  function Nearest(x: real): int
  {
    var n := x.Floor;
    var rest := x - n as real;
    if rest > 0.5 || (rest == 0.5 && n % 2 == 1) then n + 1 else n
  }

  /** `round(x, 1)` */
  function Round1(x: real): real
  {
    Nearest(x * 10.0) as real / 10.0
  }

  /** No integer is nearer than the rounded value, and one that is as near is odd where the rounded value is even. */
  lemma NearestIsNearest(x: real, m: int)
    requires m != Nearest(x)
    ensures Distance(x, Nearest(x) as real) <= Distance(x, m as real)
    ensures Distance(x, Nearest(x) as real) == Distance(x, m as real) ==> Nearest(x) % 2 == 0 && m % 2 == 1
  {
    var n := x.Floor;
    assert n as real <= x < (n + 1) as real;
    assert m <= n - 1 ==> m as real <= (n - 1) as real;
    assert m >= n + 2 ==> m as real >= (n + 2) as real;
  }

  /** Rounding to one decimal yields the nearest of all tenths. */
  lemma TenthIsNearest(x: real, m: int) returns (n: int)
    ensures Round1(x) == n as real / 10.0
    ensures Distance(x, Round1(x)) <= Distance(x, m as real / 10.0)
  {
    n := Nearest(x * 10.0);
    if m != n {
      NearestIsNearest(x * 10.0, m);
    }
  }

  /** `peak` is the maximum over all instants of the number of records in flight. */
  ghost predicate IsPeakOf(recs: seq<Record>, peak: int)
  {
    && (forall t :: StreamsAt(recs, t, |recs|) <= peak)
    && (peak == 0 || exists t :: StreamsAt(recs, t, |recs|) == peak)
  }

  lemma PeaksAgree(recs: seq<Record>, peak: int)
    ensures IsPeakOf(recs, peak) <==> IsPeak(SpansOf(recs, |recs|), peak)
  {
    forall t
      ensures InFlight(SpansOf(recs, |recs|), t, |SpansOf(recs, |recs|)|) == StreamsAt(recs, t, |recs|)
    {
      SpansAreStreams(recs, t, |recs|);
    }
  }

  /** How many of the first `k` records have a start. */
  function StartedIn(recs: seq<Record>, k: nat): nat
    requires k <= |recs|
  {
    if k == 0 then 0 else StartedIn(recs, k - 1) + if recs[k - 1].t0 != 0.0 then 1 else 0
  }

  lemma {:induction false} SpansAreStarted(recs: seq<Record>, k: nat)
    requires k <= |recs|
    ensures |SpansOf(recs, k)| == StartedIn(recs, k)
    ensures StartedIn(recs, k) == 0 <==> forall j :: 0 <= j < k ==> recs[j].t0 == 0.0
  {
    if k > 0 {
      SpansAreStarted(recs, k - 1);
    }
  }

  datatype ClientLayer = ClientLayer(spreadMs: real, peak: int, streams: nat)

  /** `lo` and `hi` are the earliest and the latest start. */
  ghost predicate Bracket(spans: seq<Span>, lo: real, hi: real)
  {
    && (forall i :: 0 <= i < |spans| ==> lo <= spans[i].t0 <= hi)
    && (exists i :: 0 <= i < |spans| && spans[i].t0 == lo)
    && (exists i :: 0 <= i < |spans| && spans[i].t0 == hi)
  }

  function Starts(spans: seq<Span>): (r: seq<real>)
    ensures |r| == |spans| && forall i :: 0 <= i < |r| ==> r[i] == spans[i].t0
  {
    seq(|spans|, i requires 0 <= i < |spans| => spans[i].t0)
  }

  lemma EndsOfSorted(spans: seq<Span>, sorted: seq<real>)
    requires spans != [] && |sorted| == |spans| && multiset(sorted) == multiset(Starts(spans))
    requires IsSorted(sorted, (a: real, b: real) => a <= b)
    ensures Bracket(spans, sorted[0], sorted[|sorted| - 1])
  {
    var starts := Starts(spans);
    forall i | 0 <= i < |spans|
      ensures sorted[0] <= spans[i].t0 <= sorted[|sorted| - 1]
    {
      assert starts[i] in multiset(sorted);
      var j :| 0 <= j < |sorted| && sorted[j] == starts[i];
      assert j > 0 ==> sorted[0] <= sorted[j];
      assert j < |sorted| - 1 ==> sorted[j] <= sorted[|sorted| - 1];
    }
    assert sorted[0] in multiset(starts) && sorted[|sorted| - 1] in multiset(starts);
    var i :| 0 <= i < |starts| && starts[i] == sorted[0];
    var j :| 0 <= j < |starts| && starts[j] == sorted[|sorted| - 1];
    assert spans[i].t0 == sorted[0] && spans[j].t0 == sorted[|sorted| - 1];
  }

  /** The wave's client layer: nothing without a started stream; else the spread of the starts in
      milliseconds, the largest number of streams in flight at once, and how many streams started. */
  method PrCellClientLayer(recs: seq<Record>) returns (r: Option<ClientLayer>)
    ensures r.None? <==> forall k :: 0 <= k < |recs| ==> recs[k].t0 == 0.0
    ensures r.Some? ==> r.value.streams == StartedIn(recs, |recs|)
    ensures r.Some? ==> IsPeakBalance(SpansOf(recs, |recs|), r.value.peak)
    ensures r.Some? ==> (IsPeakOf(recs, r.value.peak) <==> SweepIsRight(SpansOf(recs, |recs|)))
    ensures r.Some? ==> exists lo, hi ::
        Bracket(SpansOf(recs, |recs|), lo, hi) && r.value.spreadMs == Round1((hi - lo) * 1000.0)
  {
    var spans, edges := [], [];
    SpansAreStarted(recs, |recs|);
    for k := 0 to |recs|
      invariant spans == SpansOf(recs, k) && edges == Edges(spans, |spans|)
    {
      if recs[k].t0 != 0.0 {
        var s := SpanOf(recs[k]);
        EdgesOfPrefix(spans, s, |spans|);
        spans := spans + [s];
        edges := edges + [Edge(s.t0, 1), Edge(s.end, -1)];
      }
    }
    if spans == [] {
      return None;
    }
    var t0 := Sort(Starts(spans), (a: real, b: real) => a <= b);
    RealOrder();
    SortIsSorted(Starts(spans), (a: real, b: real) => a <= b);
    SortLength(spans, t0);
    EndsOfSorted(spans, t0);
    var sorted := Sort(edges, EdgeLe);
    var peak := Sweep(sorted);
    SweepFindsBalance(spans, sorted, peak);
    SweepFindsPeakIff(spans, peak);
    PeaksAgree(recs, peak);
    r := Some(ClientLayer(Round1((t0[|t0| - 1] - t0[0]) * 1000.0), peak, |t0|));
  }

  lemma SortLength(spans: seq<Span>, sorted: seq<real>)
    requires multiset(sorted) == multiset(Starts(spans))
    ensures |sorted| == |spans|
  {
    assert |multiset(sorted)| == |multiset(Starts(spans))|;
  }

  lemma {:induction false} EdgesOfPrefix(spans: seq<Span>, s: Span, k: nat)
    requires k <= |spans|
    ensures Edges(spans + [s], k) == Edges(spans, k)
  {
    if k > 0 {
      EdgesOfPrefix(spans, s, k - 1);
    }
  }
}

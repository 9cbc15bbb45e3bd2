/** The two-stage row-wise argmax: every row is cut into parts, every part is scanned in tiles of masked
    lanes, and a final reduction picks among the parts. Index arithmetic is the kernels' own: 32 bits,
    wrapping around. */
module Argmax {
  import opened Arith

  const SPLITS: nat := 64
  const BLOCK: nat := 2048
  const NO_INDEX: nat := 0x7FFF_FFFF

  /** A NaN-free 32-bit float, up to the value it stands for. */
  datatype Float = NegInf | Finite(value: real) | PosInf

  predicate Le(a: Float, b: Float)
  {
    || a.NegInf?
    || b.PosInf?
    || (a.Finite? && b.Finite? && a.value <= b.value)
  }

  predicate Lt(a: Float, b: Float)
  {
    Le(a, b) && a != b
  }

  /** Addition of two 32-bit integers wraps around. */
  function Add32(a: int, b: int): int
  {
    Wrap32(a + b)
  }

  /** Integer division in the kernels rounds toward zero. */
  function TruncDiv(a: int, b: nat): int
    requires b > 0
  {
    if a >= 0 then a / b else -(-a / b)
  }

  lemma Negated(q: int, b: int)
    ensures (-q) * b == -(q * b) && (q + 1) * b == q * b + b
  {
  }

  /** That is: the multiple of `b` next to `a` on the side of zero. */
  lemma TruncDivRounds(a: int, b: nat)
    requires b > 0
    ensures a >= 0 ==> TruncDiv(a, b) * b <= a < TruncDiv(a, b) * b + b
    ensures a <= 0 ==> TruncDiv(a, b) * b - b < a <= TruncDiv(a, b) * b
  {
    if a >= 0 {
      DivBounds(a, b);
      Negated(a / b, b);
    } else {
      DivBounds(-a, b);
      Negated(-a / b, b);
    }
  }

  function Min(a: int, b: int): int
  {
    if a <= b then a else b
  }

  /** `i` is the lowest index of [lo, hi) at which `x` attains its maximum over [lo, hi). */
  ghost predicate IsArgmax(x: seq<Float>, lo: int, hi: int, i: int)
  {
    && 0 <= lo <= i < hi <= |x|
    && (forall j :: lo <= j < hi ==> Le(x[j], x[i]))
    && (forall j :: lo <= j < i ==> x[j] != x[i])
  }

  lemma ArgmaxIsUnique(x: seq<Float>, lo: int, hi: int, i: int, j: int)
    requires IsArgmax(x, lo, hi, i) && IsArgmax(x, lo, hi, j)
    ensures i == j
  {
    assert Le(x[i], x[j]) && Le(x[j], x[i]);
  }

  /** The argmax of a whole row in plain terms: the first plus infinity if there is one; else the first of the largest
      reals, if there is one; else index 0 of a row of minus infinities. */
  ghost predicate IsRowArgmax(x: seq<Float>, i: int)
  {
    && 0 <= i < |x|
    && match x[i]
       case PosInf => PosInf !in x[..i]
       case Finite(v) =>
         && PosInf !in x
         && (forall j :: 0 <= j < |x| && x[j].Finite? ==> x[j].value <= v)
         && (forall j :: 0 <= j < i && x[j].Finite? ==> x[j].value < v)
       case NegInf => i == 0 && forall j :: 0 <= j < |x| ==> x[j] == NegInf
  }

  lemma RowArgmax(x: seq<Float>, i: int)
    ensures IsRowArgmax(x, i) <==> IsArgmax(x, 0, |x|, i)
  {
    if 0 < i < |x| {
      assert x[..i][0] == x[0];
    }
  }

  /** What a part has found: nothing yet, or the argmax of what it scanned. */
  ghost predicate Best(x: seq<Float>, lo: int, hi: int, v: Float, i: int)
  {
    if lo >= hi then v == NegInf && i == |x| else IsArgmax(x, lo, hi, i) && v == x[i]
  }

  /** The reduction of a tile to its largest value. */
  function MaxOf(v: seq<Float>): (m: Float)
    requires v != []
    ensures m in v && forall k :: 0 <= k < |v| ==> Le(v[k], m)
  {
    if |v| == 1 then v[0]
    else
      var m := MaxOf(v[1..]);
      if Le(v[0], m) then m else v[0]
  }

  /** The reduction of a tile to its smallest index. */
  function MinOf(v: seq<int>): (m: int)
    requires v != []
    ensures m in v && forall k :: 0 <= k < |v| ==> m <= v[k]
  {
    if |v| == 1 then v[0]
    else
      var m := MinOf(v[1..]);
      if v[0] <= m then v[0] else m
  }

  /** The values of one tile: lanes at or past `stop` are masked and read as minus infinity. */
  function TileValues(x: seq<Float>, off: int, stop: int): (v: seq<Float>)
    requires 0 <= off <= stop <= |x| && off + BLOCK <= INT32_END
    ensures |v| == BLOCK
    ensures forall k :: 0 <= k < BLOCK ==> v[k] == if off + k < stop then x[off + k] else NegInf
  {
    seq(BLOCK, k requires 0 <= k < BLOCK => if Add32(off, k) < stop then x[Add32(off, k)] else NegInf)
  }

  /** The lane indices of one tile that attain `v`; `n` for the other lanes. */
  function TileIndices(values: seq<Float>, v: Float, off: int, n: nat): (r: seq<int>)
    requires |values| == BLOCK && 0 <= off && off + BLOCK <= INT32_END
    ensures |r| == BLOCK
    ensures forall k :: 0 <= k < BLOCK ==> r[k] == if values[k] == v then off + k else n
  {
    seq(BLOCK, k requires 0 <= k < BLOCK => if values[k] == v then Add32(off, k) else n)
  }

  /** `values` are the lanes of a tile, `v` their maximum, and `i` the smallest of `lanes`, which holds the
      index of every lane that attains `v`. */
  ghost predicate IsTile(
      x: seq<Float>, off: int, stop: int, values: seq<Float>, v: Float, lanes: seq<int>, i: int)
  {
    && 0 <= off < stop <= |x|
    && |values| == |lanes| == BLOCK
    && (forall k :: 0 <= k < BLOCK ==> values[k] == if off + k < stop then x[off + k] else NegInf)
    && (forall k :: 0 <= k < BLOCK ==> lanes[k] == if values[k] == v then off + k else |x|)
    && v in values && (forall k :: 0 <= k < BLOCK ==> Le(values[k], v))
    && i in lanes && (forall k :: 0 <= k < BLOCK ==> i <= lanes[k])
  }

  /** The maximum of a tile is attained below `stop`. */
  lemma TileMaximum(
      x: seq<Float>, off: int, stop: int, values: seq<Float>, v: Float, lanes: seq<int>, i: int) returns (low: nat)
    requires IsTile(x, off, stop, values, v, lanes, i)
    ensures low < BLOCK && off + low < stop && values[low] == v && lanes[low] == off + low
  {
    low :| low < BLOCK && values[low] == v;
    if off + low >= stop {
      assert Le(values[0], v);
      low := 0;
    }
  }

  /** The maximum of a tile and its lowest lane are the argmax of the part of the row it covers. */
  lemma TileIsArgmax(
      x: seq<Float>, off: int, stop: int, values: seq<Float>, v: Float, lanes: seq<int>, i: int)
    requires IsTile(x, off, stop, values, v, lanes, i)
    ensures IsArgmax(x, off, Min(off + BLOCK, stop), i) && v == x[i]
  {
    var low := TileMaximum(x, off, stop, values, v, lanes, i);
    var at :| 0 <= at < BLOCK && lanes[at] == i;
    forall j | off <= j < Min(off + BLOCK, stop)
      ensures Le(x[j], v) && (j < i ==> x[j] != v)
    {
      assert values[j - off] == x[j];
      assert lanes[j - off] >= i;
    }
  }

  /** Taking the better of what was found so far and the next tile. */
  lemma TakeBetter(x: seq<Float>, lo: int, off: int, hi: int, v: Float, i: int, curV: Float, curI: int)
    requires 0 <= lo <= off < hi <= |x|
    requires Best(x, lo, off, v, i) && IsArgmax(x, off, hi, curI) && curV == x[curI]
    ensures var take := Lt(v, curV) || (curV == v && curI < i);
            Best(x, lo, hi, if take then curV else v, if take then curI else i)
  {
  }

  function Per(n: nat): int
  {
    TruncDiv(Add32(n, SPLITS - 1), SPLITS)
  }

  /** The parts cover the row exactly when rounding up to a multiple of the split count stays in 32 bits;
      otherwise no part scans anything. */
  lemma PartSize(n: nat)
    requires n < INT32_END
    ensures n + SPLITS <= INT32_END ==> 0 <= Per(n) && n <= SPLITS * Per(n) < n + SPLITS
    ensures n + SPLITS > INT32_END ==> Per(n) < 0
  {
  }

  const TILES: nat := 16384

  /** No product or tile leaves 32 bits when the part size did not. */
  lemma PartFits(n: nat, part: nat)
    requires n < INT32_END && part < SPLITS
    ensures n + SPLITS <= INT32_END ==> 0 <= part * Per(n) && Per(n) <= TILES * BLOCK
    ensures n + SPLITS <= INT32_END ==> part * Per(n) + TILES * BLOCK < INT32_END
    ensures n + SPLITS > INT32_END ==> 0 - INT32_END <= part * Per(n) + Per(n) < part * Per(n) <= 0
  {
    PartSize(n);
    var per := Per(n);
    if per >= 0 {
      MulMono(part, SPLITS - 1, per);
    } else {
      MulMono(part, SPLITS - 1, -per);
      assert part * per == -(part * -per);
    }
  }

  /** One tile of the scan. */
  method ScanTile(x: seq<Float>, off: int, stop: int) returns (curV: Float, curI: int)
    requires 0 <= off < stop <= |x| && off + BLOCK <= INT32_END
    ensures IsArgmax(x, off, Min(off + BLOCK, stop), curI) && curV == x[curI]
  {
    var values := TileValues(x, off, stop);
    curV := MaxOf(values);
    var lanes := TileIndices(values, curV, off, |x|);
    curI := MinOf(lanes);
    TileIsArgmax(x, off, stop, values, curV, lanes, curI);
  }

  /** The tile loop over [start, stop). */
  method Scan(x: seq<Float>, start: int, stop: int) returns (bestV: Float, bestI: int)
    requires stop <= |x|
    requires start < stop ==> 0 <= start && start + TILES * BLOCK < INT32_END && stop <= start + TILES * BLOCK
    ensures Best(x, start, stop, bestV, bestI)
  {
    bestV, bestI := NegInf, |x|;
    var off := start;
    ghost var tiles := 0;
    while off < stop
      invariant off == start + BLOCK * tiles && tiles <= TILES
      invariant off > start || off == start
      invariant Best(x, start, Min(off, stop), bestV, bestI)
      decreases TILES - tiles
    {
      var curV, curI := ScanTile(x, off, stop);
      TakeBetter(x, start, off, Min(off + BLOCK, stop), bestV, bestI, curV, curI);
      var take := Lt(bestV, curV) || (curV == bestV && curI < bestI);
      bestI := if take then curI else bestI;
      bestV := if take then curV else bestV;
      off := Add32(off, BLOCK);
      tiles := tiles + 1;
    }
  }

  /** What the first kernel stores for one part of a row. */
  ghost predicate PartDone(x: seq<Float>, part: nat, v: Float, i: int)
  {
    if |x| + SPLITS <= INT32_END then
      Best(x, part * Per(|x|), Min(part * Per(|x|) + Per(|x|), |x|), v, i)
    else
      v == NegInf && i == |x|
  }

  /** One program of the first kernel: the best value of part `part` of the row and its lowest index. */
  method ArgmaxPartial(x: seq<Float>, part: nat) returns (bestV: Float, bestI: int)
    requires |x| < INT32_END && part < SPLITS
    ensures PartDone(x, part, bestV, bestI)
  {
    var n := |x|;
    var per := Per(n);
    PartFits(n, part);
    var start := part * per;
    bestV, bestI := Scan(x, start, Min(Add32(start, per), n));
  }

  ghost predicate PartsDone(x: seq<Float>, values: seq<Float>, indices: seq<int>)
  {
    && |values| == |indices| == SPLITS
    && forall part :: 0 <= part < SPLITS ==> PartDone(x, part, values[part], indices[part])
  }

  /** The indices of the parts that attain `v`. */
  function FinalLanes(values: seq<Float>, indices: seq<int>, v: Float): (r: seq<int>)
    requires |values| == |indices| == SPLITS
    ensures |r| == SPLITS
    ensures forall o :: 0 <= o < SPLITS ==> r[o] == if values[o] == v then indices[o] else NO_INDEX
  {
    seq(SPLITS, o requires 0 <= o < SPLITS => if values[o] == v then indices[o] else NO_INDEX)
  }

  /** The part that holds a given index. */
  lemma PartOf(n: nat, j: nat) returns (part: nat)
    requires j < n && n + SPLITS <= INT32_END
    ensures part < SPLITS && part * Per(n) <= j < Min(part * Per(n) + Per(n), n)
  {
    PartSize(n);
    part := j / Per(n);
    DivBounds(j, Per(n));
    if part >= SPLITS {
      MulMono(SPLITS, part, Per(n));
    }
  }

  /** The best part's value bounds the whole row, and no earlier index attains it. */
  lemma FinalIsArgmax(x: seq<Float>, values: seq<Float>, indices: seq<int>, v: Float, lanes: seq<int>, i: int)
    requires 0 < |x| && |x| + SPLITS <= INT32_END && PartsDone(x, values, indices)
    requires v in values && forall o :: 0 <= o < SPLITS ==> Le(values[o], v)
    requires lanes == FinalLanes(values, indices, v)
    requires i in lanes && forall o :: 0 <= o < SPLITS ==> i <= lanes[o]
    ensures IsArgmax(x, 0, |x|, i)
  {
    forall j | 0 <= j < |x|
      ensures Le(x[j], v) && (x[j] == v ==> i <= j)
    {
      var part := PartOf(|x|, j);
      assert PartDone(x, part, values[part], indices[part]);
      assert Le(x[j], values[part]) && Le(values[part], v);
      if x[j] == v {
        assert lanes[part] == indices[part] <= j;
      }
    }
    AttainedBelow(x, values, indices, v, lanes, i);
  }

  /** Some part attains the maximum at an index of the row, and the smallest such index is the answer. */
  lemma AttainedBelow(x: seq<Float>, values: seq<Float>, indices: seq<int>, v: Float, lanes: seq<int>, i: int)
    requires 0 < |x| && |x| + SPLITS <= INT32_END && PartsDone(x, values, indices)
    requires v in values && forall o :: 0 <= o < SPLITS ==> Le(values[o], v)
    requires lanes == FinalLanes(values, indices, v)
    requires i in lanes && forall o :: 0 <= o < SPLITS ==> i <= lanes[o]
    ensures 0 <= i < |x| && x[i] == v
  {
    var first := PartOf(|x|, 0);
    assert PartDone(x, first, values[first], indices[first]);
    var top :| 0 <= top < SPLITS && values[top] == v;
    assert PartDone(x, top, values[top], indices[top]);
    var low := if indices[top] < |x| then top else first;
    assert values[low] == v;
    assert lanes[low] == indices[low] < |x|;
    var at :| 0 <= at < SPLITS && lanes[at] == i;
    assert PartDone(x, at, values[at], indices[at]);
  }

  function RowOf<T>(a: array2<T>, row: nat): (r: seq<T>)
    requires row < a.Length0
    reads a
    ensures |r| == a.Length1 && forall o :: 0 <= o < |r| ==> r[o] == a[row, o]
  {
    seq(a.Length1, o requires 0 <= o < a.Length1 reads a => a[row, o])
  }

  /** The widths at which the kernels scan the row at all. */
  predicate Scannable(n: nat)
  {
    0 < n && n + SPLITS <= INT32_END
  }

  /** One program of the second kernel: the reduction over the parts of a row. */
  method ArgmaxFinal(x: seq<Float>, values: seq<Float>, indices: seq<int>) returns (bestI: int)
    requires |x| < INT32_END && PartsDone(x, values, indices)
    ensures if Scannable(|x|) then IsArgmax(x, 0, |x|, bestI) else bestI == |x|
  {
    var bestV := MaxOf(values);
    var lanes := FinalLanes(values, indices, bestV);
    bestI := MinOf(lanes);
    if Scannable(|x|) {
      FinalIsArgmax(x, values, indices, bestV, lanes, bestI);
    } else {
      NothingFound(x, values, indices);
    }
  }

  /** When nothing is scanned every part reports the row's width. */
  lemma NothingFound(x: seq<Float>, values: seq<Float>, indices: seq<int>)
    requires |x| < INT32_END && PartsDone(x, values, indices) && !Scannable(|x|)
    ensures forall part :: 0 <= part < SPLITS ==> values[part] == NegInf && indices[part] == |x|
  {
    forall part | 0 <= part < SPLITS
      ensures values[part] == NegInf && indices[part] == |x|
    {
      assert PartDone(x, part, values[part], indices[part]);
    }
  }

  /** Row-wise argmax of a matrix of width `n`: the lowest index of the maximum when 1 <= n <= 2^31 - 64, and
      the width itself, which is no index of the row, otherwise. */
  method FastRowArgmax(x: seq<seq<Float>>, n: nat) returns (out: array<int>)
    requires n < INT32_END && forall row :: 0 <= row < |x| ==> |x[row]| == n
    ensures out.Length == |x|
    ensures forall row :: 0 <= row < |x| ==>
        if Scannable(n) then IsRowArgmax(x[row], out[row]) else out[row] == n
  {
    var rows := |x|;
    out := new int[rows];
    var pv := new Float[rows, SPLITS];
    var pi := new int[rows, SPLITS];
    for row := 0 to rows
      invariant forall r, p :: 0 <= r < row && 0 <= p < SPLITS ==> PartDone(x[r], p, pv[r, p], pi[r, p])
    {
      for part := 0 to SPLITS
        invariant forall r, p :: 0 <= r < row && 0 <= p < SPLITS ==> PartDone(x[r], p, pv[r, p], pi[r, p])
        invariant forall p :: 0 <= p < part ==> PartDone(x[row], p, pv[row, p], pi[row, p])
      {
        var v, i := ArgmaxPartial(x[row], part);
        pv[row, part], pi[row, part] := v, i;
      }
    }
    for row := 0 to rows
      invariant forall r :: 0 <= r < row ==> if Scannable(n) then IsRowArgmax(x[r], out[r]) else out[r] == n
      invariant forall r, p :: 0 <= r < rows && 0 <= p < SPLITS ==> PartDone(x[r], p, pv[r, p], pi[r, p])
    {
      var i := ArgmaxFinal(x[row], RowOf(pv, row), RowOf(pi, row));
      RowArgmax(x[row], i);
      out[row] := i;
    }
  }
}

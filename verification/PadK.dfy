/** Padding the shared expert's contraction dimension from 576 to 640: the weights once, when the layer is
    prepared; the inputs at every call, through buffers whose extra columns are zeroed once and never written. */
module PadK {
  import opened Options
  import opened Arith
  import opened PaddedProduct

  const HID: nat := 5120
  const SCALE_ROWS: nat := 160

  type Matrix<T> = seq<seq<T>>

  predicate Shape<T>(m: Matrix<T>, rows: nat, cols: nat)
  {
    |m| == rows && forall i :: 0 <= i < |m| ==> |m[i]| == cols
  }

  /** A positive power of two, or infinity: sign and fraction bits clear, exponent bits not all clear. */
  predicate Encodable(s: Scale)
  {
    !s.negative && s.fraction == 0 && s.exponent > 0
  }

  /** The absolute value of a scale in units of 2^-149; exponent 255 is for infinity and for what is no number. */
  function Magnitude(s: Scale): nat
    requires s.exponent < 255
  {
    if s.exponent == 0 then s.fraction else (Pow2(23) + s.fraction) * Pow2(s.exponent - 1)
  }

  /** The scale of the added columns is 1.0. */
  lemma OneIsOne(n: nat)
    requires n == 149
    ensures !ONE.negative && Magnitude(ONE) == Pow2(n)
  {
    Pow2Sum(23, n - 23);
  }

  /** Only infinity and the powers of two 2^-126 .. 2^127 are accepted: no smaller power of two is. */
  lemma EncodableIff(s: Scale)
    requires s.exponent <= 255 && s.fraction < Pow2(23)
    ensures s.exponent < 255 ==>
        (Encodable(s) <==> !s.negative && exists k: nat :: 23 <= k <= 276 && Magnitude(s) == Pow2(k))
    ensures s.exponent == 255 ==> (Encodable(s) <==> !s.negative && s.fraction == 0)
  {
    if s.exponent == 0 {
      forall k: nat | k >= 23
        ensures Magnitude(s) != Pow2(k)
      {
        Pow2Grows(23, k);
      }
    } else if s.exponent < 255 {
      NormalIsPower(s);
    }
  }

  lemma NormalIsPower(s: Scale)
    requires 1 <= s.exponent < 255 && s.fraction < Pow2(23)
    ensures s.fraction == 0 <==> exists k: nat :: 23 <= k <= 276 && Magnitude(s) == Pow2(k)
  {
    var e := s.exponent - 1;
    NormalRange(s, e);
    if k: nat :| 23 <= k <= 276 && Magnitude(s) == Pow2(k) {
      if k < 23 + e {
        Pow2Grows(k + 1, 23 + e);
      } else if k > 23 + e {
        Pow2Grows(24 + e, k);
      }
    }
  }

  /** A normal number lies between its leading power of two and the next. */
  lemma NormalRange(s: Scale, e: nat)
    requires s.exponent == e + 1 && s.exponent < 255 && s.fraction < Pow2(23)
    ensures Pow2(23 + e) <= Magnitude(s) < Pow2(24 + e)
    ensures s.fraction == 0 <==> Magnitude(s) == Pow2(23 + e)
  {
    Pow2Sum(23, e);
    Pow2Sum(24, e);
    MulMono(Pow2(23) + s.fraction, Pow2(24), Pow2(e));
    MulMono(Pow2(23), Pow2(23) + s.fraction, Pow2(e));
  }

  predicate AllEncodable(m: Matrix<Scale>)
  {
    forall i, j :: 0 <= i < |m| && 0 <= j < |m[i]| ==> Encodable(m[i][j])
  }

  function ZeroTail(row: seq<real>): seq<real>
  {
    row + seq(TGT_K - SRC_K, _ => 0.0)
  }

  function OneTail(row: seq<Scale>): seq<Scale>
  {
    row + seq(TGT_BLOCKS - SRC_BLOCKS, _ => ONE)
  }

  /** `w` and `s` carry `w0` and `s0` in their first columns and weights of zero and scales of one after them. */
  ghost predicate Pads(w: Matrix<real>, s: Matrix<Scale>, w0: Matrix<real>, s0: Matrix<Scale>)
  {
    && Shape(w0, HID, SRC_K) && Shape(s0, SCALE_ROWS, SRC_BLOCKS)
    && Shape(w, HID, TGT_K) && Shape(s, SCALE_ROWS, TGT_BLOCKS)
    && (forall n :: 0 <= n < HID ==> w[n][..SRC_K] == w0[n] && Zeros(w[n][SRC_K..]))
    && (forall i :: 0 <= i < SCALE_ROWS ==> s[i][..SRC_BLOCKS] == s0[i] && s[i][SRC_BLOCKS..] == [ONE, ONE])
  }

  datatype Preparation = Unchanged | Padded | Refused(why: Refusal)

  datatype Refusal = UnexpectedShape | NoScales | WrongScaleShape | WrongScaleType | NotPowersOfTwo

  datatype ElementType = Float8E4M3 | Float32 | OtherType

  class Layer {
    var weight: Matrix<real>
    var scales: Option<Matrix<Scale>>
    var padded: bool
    const weightType: ElementType
    const scaleType: ElementType

    constructor (weight: Matrix<real>, weightType: ElementType, scales: Option<Matrix<Scale>>, scaleType: ElementType)
      ensures this.weight == weight && this.scales == scales && !padded
      ensures this.weightType == weightType && this.scaleType == scaleType
    {
      this.weight, this.scales, padded := weight, scales, false;
      this.weightType, this.scaleType := weightType, scaleType;
    }

    predicate LooksLikeSharedDown()
      reads this
    {
      Shape(weight, HID, SRC_K) && weightType.Float8E4M3?
    }

    /** Widens the weights with zeros and the scales with ones, or refuses and changes nothing. */
    method PadWeight() returns (r: Preparation)
      requires LooksLikeSharedDown()
      modifies this
      ensures r.Padded? || r.Refused?
      ensures r.Refused? ==> weight == old(weight) && scales == old(scales) && padded == old(padded)
      ensures r.Padded? <==>
          old(scales).Some? && Shape(old(scales).value, SCALE_ROWS, SRC_BLOCKS)
          && scaleType.Float32? && AllEncodable(old(scales).value)
      ensures r == Refused(NoScales) <==> old(scales).None?
      ensures r == Refused(WrongScaleShape) <==> old(scales).Some? && !Shape(old(scales).value, SCALE_ROWS, SRC_BLOCKS)
      ensures r == Refused(WrongScaleType) <==>
          old(scales).Some? && Shape(old(scales).value, SCALE_ROWS, SRC_BLOCKS) && !scaleType.Float32?
      ensures r != Refused(UnexpectedShape)
      ensures r.Padded? ==> padded && scales.Some? && AllEncodable(scales.value)
      ensures r.Padded? ==> Pads(weight, scales.value, old(weight), old(scales).value)
    {
      if scales.None? {
        return Refused(NoScales);
      }
      var s := scales.value;
      if !Shape(s, SCALE_ROWS, SRC_BLOCKS) {
        return Refused(WrongScaleShape);
      }
      if !scaleType.Float32? {
        return Refused(WrongScaleType);
      }
      if !AllEncodable(s) {
        return Refused(NotPowersOfTwo);
      }
      var w := weight;
      weight := seq(HID, n requires 0 <= n < |w| => ZeroTail(w[n]));
      scales := Some(seq(SCALE_ROWS, i requires 0 <= i < |s| => OneTail(s[i])));
      padded := true;
      r := Padded;
    }

    /** The hook that runs before a layer's scales are prepared. A layer named like the shared expert's
        down projection must have the expected shape; a padded one no longer does. */
    method Prepare(namedSharedDown: bool) returns (r: Preparation)
      modifies this
      ensures !r.Padded? ==> weight == old(weight) && scales == old(scales) && padded == old(padded)
      ensures (namedSharedDown && !old(LooksLikeSharedDown())) <==> r == Refused(UnexpectedShape)
      ensures r.Padded? ==> !old(padded) && old(LooksLikeSharedDown()) && old(scales).Some?
      ensures r.Padded? ==> padded && scales.Some? && Pads(weight, scales.value, old(weight), old(scales).value)
      ensures old(LooksLikeSharedDown()) && !old(padded) ==> !r.Unchanged?
    {
      if namedSharedDown && !LooksLikeSharedDown() {
        return Refused(UnexpectedShape);
      }
      if LooksLikeSharedDown() && !padded {
        r := PadWeight();
      } else {
        r := Unchanged;
      }
    }
  }

  /** What `PadInput` must return in its first rows: the input, then zeros. */
  ghost predicate PaddedRows(out: array2<real>, x: Matrix<real>)
    reads out
  {
    && |x| <= out.Length0 && out.Length1 == TGT_K
    && (forall m, k :: 0 <= m < |x| && 0 <= k < SRC_K && |x[m]| == SRC_K ==> out[m, k] == x[m][k])
    && (forall m, k :: 0 <= m < |x| && SRC_K <= k < TGT_K ==> out[m, k] == 0.0)
  }

  /** The persistent input buffers, one per weight tensor, type and device. */
  class InputBuffers {
    var bufs: map<nat, array2<real>>

    /** No call has ever written the tail of a buffer. */
    ghost predicate Valid()
      reads this, set key | key in bufs :: bufs[key]
    {
      && (forall key :: key in bufs ==> bufs[key].Length1 == TGT_K)
      && (forall key, other :: key in bufs && other in bufs && key != other ==> bufs[key] != bufs[other])
      && (forall key, m, k :: key in bufs && 0 <= m < bufs[key].Length0 && SRC_K <= k < TGT_K ==> bufs[key][m, k] == 0.0)
    }

    constructor ()
      ensures Valid() && bufs == map[]
    {
      bufs := map[];
    }

    /** Pads an input, in the kept buffer when it is large enough, in a new one of `cap` rows when that is, and
        in a matrix of its own otherwise. `cap` may differ from call to call. */
    method PadInput(x: Matrix<real>, key: nat, cap: nat) returns (out: array2<real>)
      requires Valid() && Shape(x, |x|, SRC_K)
      modifies this, set k | k in bufs :: bufs[k]
      ensures Valid()
      ensures PaddedRows(out, x)
      ensures key in old(bufs) && |x| <= old(bufs)[key].Length0 ==> bufs == old(bufs) && out == bufs[key]
      ensures (key !in old(bufs) || |x| > old(bufs)[key].Length0) && |x| <= cap ==>
          bufs == old(bufs)[key := out] && out.Length0 == cap && fresh(out)
      ensures (key !in old(bufs) || |x| > old(bufs)[key].Length0) && |x| > cap ==>
          bufs == old(bufs) && out.Length0 == |x| && fresh(out)
      ensures forall other, m, k :: other in old(bufs) && other != key && 0 <= m < old(bufs)[other].Length0 && 0 <= k < TGT_K ==>
          old(bufs)[other][m, k] == old(bufs[other][m, k])
    {
      var rows := |x|;
      if key in bufs && rows <= bufs[key].Length0 {
        out := bufs[key];
      } else if rows > cap {
        out := new real[rows, TGT_K]((m, k) => 0.0);
      } else {
        out := new real[cap, TGT_K]((m, k) => 0.0);
        bufs := bufs[key := out];
      }
      forall m, k | 0 <= m < rows && 0 <= k < SRC_K {
        out[m, k] := x[m][k];
      }
    }

    /** The padded linear layer computes what the unpadded one would have: the product over 576 of the original
        weights. An input that is already quantized is refused. */
    method Linear(q: Numerics, layer: Layer, x: Matrix<real>, quantized: bool, key: nat, cap: nat,
                  ghost w0: Matrix<real>, ghost s0: Matrix<Scale>) returns (r: Option<Matrix<real>>)
      requires Valid() && Shape(x, |x|, SRC_K)
      requires layer.scales.Some? && Pads(layer.weight, layer.scales.value, w0, s0)
      modifies this, set k | k in bufs :: bufs[k]
      ensures Valid()
      ensures r.None? <==> quantized
      ensures r.None? ==> bufs == old(bufs)
      ensures r.Some? ==> Shape(r.value, |x|, HID)
      ensures r.Some? ==> forall m, n :: 0 <= m < |x| && 0 <= n < HID ==>
          r.value[m][n] == Product(q, x[m], w0[n], s0[n / BLOCK], SRC_BLOCKS)
    {
      if quantized {
        return None;
      }
      var padded := PadInput(x, key, cap);
      var rows := FirstRows(padded, |x|);
      forall m | 0 <= m < |x|
        ensures rows[m][..SRC_K] == x[m]
      {
      }
      PaddedLinearIsExact(q, x, rows, w0, s0, layer.weight, layer.scales.value);
      r := Some(BlockScaledLinear(q, rows, layer.weight, layer.scales.value));
    }
  }

  /** The first rows of a buffer, as the caller sees them. */
  function FirstRows(a: array2<real>, rows: nat): (r: Matrix<real>)
    requires rows <= a.Length0
    reads a
    ensures Shape(r, rows, a.Length1)
    ensures forall m, k :: 0 <= m < rows && 0 <= k < a.Length1 ==> r[m][k] == a[m, k]
  {
    seq(rows, m requires 0 <= m < rows reads a => seq(a.Length1, k requires 0 <= k < a.Length1 reads a => a[m, k]))
  }

  /** The kernel: one product per row of the input and row of the weights, over all 640 columns. */
  function BlockScaledLinear(q: Numerics, x: Matrix<real>, w: Matrix<real>, s: Matrix<Scale>): (r: Matrix<real>)
    requires Shape(x, |x|, TGT_K) && Shape(w, HID, TGT_K) && Shape(s, SCALE_ROWS, TGT_BLOCKS)
    ensures Shape(r, |x|, HID)
    ensures forall m, n :: 0 <= m < |x| && 0 <= n < HID ==>
        r[m][n] == Product(q, x[m], w[n], s[n / BLOCK], TGT_BLOCKS)
  {
    seq(|x|, m requires 0 <= m < |x| =>
      seq(HID, n requires 0 <= n < HID => Product(q, x[m], w[n], s[n / BLOCK], TGT_BLOCKS)))
  }

  lemma PaddedLinearIsExact(q: Numerics, x: Matrix<real>, rows: Matrix<real>, w0: Matrix<real>, s0: Matrix<Scale>,
                            w: Matrix<real>, s: Matrix<Scale>)
    requires Shape(x, |x|, SRC_K) && Shape(rows, |x|, TGT_K) && Pads(w, s, w0, s0)
    requires forall m :: 0 <= m < |x| ==> rows[m][..SRC_K] == x[m]
    ensures forall m, n :: 0 <= m < |x| && 0 <= n < HID ==>
        Product(q, rows[m], w[n], s[n / BLOCK], TGT_BLOCKS) == Product(q, x[m], w0[n], s0[n / BLOCK], SRC_BLOCKS)
  {
    forall m, n | 0 <= m < |x| && 0 <= n < HID
      ensures Product(q, rows[m], w[n], s[n / BLOCK], TGT_BLOCKS) == Product(q, x[m], w0[n], s0[n / BLOCK], SRC_BLOCKS)
    {
      PaddingIsExact(q, x[m], w0[n], s0[n / BLOCK], rows[m], w[n], s[n / BLOCK]);
    }
  }
}

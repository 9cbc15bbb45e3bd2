/** The block-scaled product of a row of activations and a row of weights, and why widening both does not
    change it. The numeric formats are left open: an activation block is quantized by any function of the block. */
module PaddedProduct {
  import opened Sums

  const SRC_K: nat := 576
  const TGT_K: nat := 640
  const BLOCK: nat := 32
  const SRC_BLOCKS: nat := 18
  const TGT_BLOCKS: nat := 20

  /** The fields of a 32-bit float weight scale. */
  datatype Scale = Scale(negative: bool, exponent: nat, fraction: nat)

  const ONE: Scale := Scale(false, 127, 0)

  /** How a block of activations becomes a scale and codes, and what a weight scale stands for. */
  datatype Numerics = Numerics(
    actScale: seq<real> -> real,
    codes: seq<real> -> seq<real>,
    weightScale: Scale -> real)

  function Dot(a: seq<real>, b: seq<real>): real
  {
    if a == [] || b == [] then 0.0 else a[0] * b[0] + Dot(a[1..], b[1..])
  }

  function Block(s: seq<real>, b: nat): seq<real>
    requires (b + 1) * BLOCK <= |s|
  {
    s[b * BLOCK..(b + 1) * BLOCK]
  }

  predicate Fits(x: seq<real>, w: seq<real>, scales: seq<Scale>, blocks: nat)
  {
    blocks * BLOCK <= |x| && blocks * BLOCK <= |w| && blocks <= |scales|
  }

  function Term(q: Numerics, x: seq<real>, w: seq<real>, scales: seq<Scale>, b: nat): real
    requires Fits(x, w, scales, b + 1)
  {
    q.actScale(Block(x, b)) * q.weightScale(scales[b]) * Dot(q.codes(Block(x, b)), Block(w, b))
  }

  /** The product over the first `blocks` blocks. */
  function Product(q: Numerics, x: seq<real>, w: seq<real>, scales: seq<Scale>, blocks: nat): real
    requires Fits(x, w, scales, blocks)
  {
    if blocks == 0 then 0.0
    else Product(q, x, w, scales, blocks - 1) + Term(q, x, w, scales, blocks - 1)
  }

  /** The terms of a plain inner product. */
  function Pairs(a: seq<real>, b: seq<real>): nat -> real
  {
    (k: nat) => if k < |a| && k < |b| then a[k] * b[k] else 0.0
  }

  lemma {:induction false} DotIsSum(a: seq<real>, b: seq<real>)
    requires |a| == |b|
    ensures Dot(a, b) == Sum(Pairs(a, b), |a|)
  {
    if a != [] {
      DotIsSum(a[1..], b[1..]);
      SumJoins(Pairs(a[..1], b[..1]), Pairs(a[1..], b[1..]), Pairs(a, b), 1, |a| - 1);
      assert Sum(Pairs(a[..1], b[..1]), 1) == Sum(Pairs(a[..1], b[..1]), 0) + Pairs(a[..1], b[..1])(0);
    }
  }

  /** Quantizing keeps a block's length. */
  ghost predicate Codes(q: Numerics)
  {
    forall s :: |q.codes(s)| == |s|
  }

  /** What block `b` contributes: the inner product of its codes and its weights, under its two scales. */
  ghost function Blocks(q: Numerics, x: seq<real>, w: seq<real>, scales: seq<Scale>): nat -> real
  {
    (b: nat) =>
      if Fits(x, w, scales, b + 1)
      then q.actScale(Block(x, b)) * q.weightScale(scales[b]) * Sum(Pairs(q.codes(Block(x, b)), Block(w, b)), |Block(w, b)|)
      else 0.0
  }

  lemma TermIsSum(q: Numerics, x: seq<real>, w: seq<real>, scales: seq<Scale>, b: nat)
    requires Fits(x, w, scales, b + 1) && Codes(q)
    ensures Blocks(q, x, w, scales)(b) == Term(q, x, w, scales, b)
  {
    DotIsSum(q.codes(Block(x, b)), Block(w, b));
  }

  /** The block-scaled product is the sum over its blocks of the sums over their columns. */
  lemma {:induction false} ProductIsSum(q: Numerics, x: seq<real>, w: seq<real>, scales: seq<Scale>, blocks: nat)
    requires Fits(x, w, scales, blocks) && Codes(q)
    ensures Product(q, x, w, scales, blocks) == Sum(Blocks(q, x, w, scales), blocks)
  {
    if blocks > 0 {
      ProductIsSum(q, x, w, scales, blocks - 1);
      TermIsSum(q, x, w, scales, blocks - 1);
    }
  }

  ghost predicate Zeros(s: seq<real>)
  {
    forall k :: 0 <= k < |s| ==> s[k] == 0.0
  }

  lemma {:induction false} DotWithZeros(a: seq<real>, b: seq<real>)
    requires Zeros(b)
    ensures Dot(a, b) == 0.0
  {
    if a != [] && b != [] {
      DotWithZeros(a[1..], b[1..]);
    }
  }

  /** The product over some blocks depends on nothing past them. */
  lemma {:induction false} PrefixDecides(q: Numerics, x: seq<real>, w: seq<real>, scales: seq<Scale>,
                                         x': seq<real>, w': seq<real>, scales': seq<Scale>, blocks: nat)
    requires Fits(x, w, scales, blocks) && Fits(x', w', scales', blocks)
    requires x'[..blocks * BLOCK] == x[..blocks * BLOCK] && w'[..blocks * BLOCK] == w[..blocks * BLOCK]
    requires scales'[..blocks] == scales[..blocks]
    ensures Product(q, x', w', scales', blocks) == Product(q, x, w, scales, blocks)
  {
    if blocks > 0 {
      var n, b := (blocks - 1) * BLOCK, blocks - 1;
      assert x'[..n] == x'[..blocks * BLOCK][..n] && x[..n] == x[..blocks * BLOCK][..n];
      assert w'[..n] == w'[..blocks * BLOCK][..n] && w[..n] == w[..blocks * BLOCK][..n];
      assert scales'[..b] == scales'[..blocks][..b] && scales[..b] == scales[..blocks][..b];
      PrefixDecides(q, x, w, scales, x', w', scales', b);
      assert Block(x', b) == x'[..blocks * BLOCK][n..] && Block(x, b) == x[..blocks * BLOCK][n..];
      assert Block(w', b) == w'[..blocks * BLOCK][n..] && Block(w, b) == w[..blocks * BLOCK][n..];
      assert scales'[..blocks][b] == scales'[b] && scales[..blocks][b] == scales[b];
    }
  }

  /** Further blocks of zero weights add nothing, whatever activations and scales they meet. */
  lemma {:induction false} ZeroWeightsAddNothing(
      q: Numerics, x: seq<real>, w: seq<real>, scales: seq<Scale>, blocks: nat, more: nat)
    requires Fits(x, w, scales, blocks + more) && Zeros(w[blocks * BLOCK..])
    ensures Product(q, x, w, scales, blocks + more) == Product(q, x, w, scales, blocks)
    decreases more
  {
    if more > 0 {
      var b := blocks + more - 1;
      ZeroWeightsAddNothing(q, x, w, scales, blocks, more - 1);
      forall k | 0 <= k < BLOCK
        ensures Block(w, b)[k] == 0.0
      {
        assert Block(w, b)[k] == w[blocks * BLOCK..][(more - 1) * BLOCK + k];
      }
      DotWithZeros(q.codes(Block(x, b)), Block(w, b));
    }
  }

  /** The product over 640 with padded weights is the product over 576, for any scales of the two extra blocks
      and any activations in the extra columns. */
  lemma PaddingIsExact(q: Numerics, x: seq<real>, w: seq<real>, scales: seq<Scale>,
                       x': seq<real>, w': seq<real>, scales': seq<Scale>)
    requires |x| == |w| == SRC_K && |scales| == SRC_BLOCKS
    requires |x'| == |w'| == TGT_K && |scales'| == TGT_BLOCKS
    requires x'[..SRC_K] == x && w'[..SRC_K] == w && scales'[..SRC_BLOCKS] == scales
    requires Zeros(w'[SRC_K..])
    ensures Product(q, x', w', scales', TGT_BLOCKS) == Product(q, x, w, scales, SRC_BLOCKS)
  {
    assert x[..SRC_BLOCKS * BLOCK] == x && w[..SRC_BLOCKS * BLOCK] == w && scales[..SRC_BLOCKS] == scales;
    PrefixDecides(q, x, w, scales, x', w', scales', SRC_BLOCKS);
    ZeroWeightsAddNothing(q, x', w', scales', SRC_BLOCKS, 2);
  }
}

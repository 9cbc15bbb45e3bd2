/** Expert parallelism: every rank sees the global expert ids of every token, keeps its own block of
    experts, and contributes a partial output that the all-reduce adds up. */
module ExpertParallel {
  import opened Arith
  import opened Sums

  /** Batches up to this size get a plan of exactly their size. */
  const EXACT_MAX: nat := 96

  datatype Capacity = TooLarge | Capacity(cap: nat)

  /** The plan capacity for `m` tokens: `m` itself when small, else the first rung that holds it. */
  function CapFor(m: nat, ladder: seq<nat>): (r: Capacity)
    ensures r.Capacity? ==> m <= r.cap
    ensures m <= EXACT_MAX ==> r == Capacity(m)
    ensures r.TooLarge? ==> m > EXACT_MAX && forall i :: 0 <= i < |ladder| ==> ladder[i] < m
    ensures m > EXACT_MAX && r.Capacity? ==> r.cap in ladder
  {
    if m <= EXACT_MAX then Capacity(m)
    else if ladder == [] then TooLarge
    else if m <= ladder[0] then Capacity(ladder[0])
    else CapFor(m, ladder[1..])
  }

  /** On a sorted ladder no smaller rung would do. */
  lemma {:induction false} CapIsSmallest(m: nat, ladder: seq<nat>, cap: nat)
    requires forall i, j :: 0 <= i < j < |ladder| ==> ladder[i] < ladder[j]
    requires m > EXACT_MAX && cap in ladder && m <= cap
    ensures CapFor(m, ladder).Capacity? && CapFor(m, ladder).cap <= cap
  {
    if m > ladder[0] {
      CapIsSmallest(m, ladder[1..], cap);
    }
  }

  /** `expert(e, x, c)` is component `c` of expert `e` applied to activation `x`. */
  type Experts<!A> = (int, A, nat) -> real

  /** One component of the weighted sum of a token's experts. */
  function Mix<A>(expert: Experts<A>, ids: seq<int>, weights: seq<real>, x: A, c: nat): real
    requires |ids| == |weights|
  {
    if ids == [] then 0.0
    else weights[0] * expert(ids[0], x, c) + Mix(expert, ids[1..], weights[1..], x, c)
  }

  /** What slot `j` contributes. */
  function Slots<A>(expert: Experts<A>, ids: seq<int>, weights: seq<real>, x: A, c: nat): nat -> real
    requires |ids| == |weights|
  {
    (j: nat) => if j < |ids| then weights[j] * expert(ids[j], x, c) else 0.0
  }

  /** The mixture is the sum over the slots. */
  lemma {:induction false} MixIsSum<A>(expert: Experts<A>, ids: seq<int>, weights: seq<real>, x: A, c: nat)
    requires |ids| == |weights|
    ensures Mix(expert, ids, weights, x, c) == Sum(Slots(expert, ids, weights, x, c), |ids|)
  {
    if ids != [] {
      MixIsSum(expert, ids[1..], weights[1..], x, c);
      var first := Slots(expert, ids[..1], weights[..1], x, c);
      SumJoins(first, Slots(expert, ids[1..], weights[1..], x, c), Slots(expert, ids, weights, x, c), 1, |ids| - 1);
      assert Sum(first, 1) == Sum(first, 0) + first(0);
    }
  }

  predicate Local(id: int, lo: int, eLocal: nat)
  {
    lo <= id < lo + eLocal
  }

  /** Ids of other ranks' experts become 0 ... */
  function LocalIds(ids: seq<int>, lo: int, eLocal: nat): (r: seq<int>)
    ensures |r| == |ids|
    ensures eLocal > 0 ==> forall j :: 0 <= j < |r| ==> 0 <= r[j] < eLocal
  {
    seq(|ids|, j requires 0 <= j < |ids| => if Local(ids[j], lo, eLocal) then ids[j] - lo else 0)
  }

  /** ... and weigh nothing. */
  function LocalWeights(ids: seq<int>, weights: seq<real>, lo: int, eLocal: nat): (r: seq<real>)
    requires |ids| == |weights|
    ensures |r| == |ids|
  {
    seq(|ids|, j requires 0 <= j < |ids| => if Local(ids[j], lo, eLocal) then weights[j] else 0.0)
  }

  /** What the kernel of one rank computes for one token. */
  function Partial<A>(local: Experts<A>, ids: seq<int>, weights: seq<real>, lo: int, eLocal: nat, x: A, c: nat): real
    requires |ids| == |weights|
  {
    Mix(local, LocalIds(ids, lo, eLocal), LocalWeights(ids, weights, lo, eLocal), x, c)
  }

  /** Rank `rank` holds the experts of its block of the global numbering. */
  function OnRank<A>(global: Experts<A>, rank: nat, eLocal: nat): Experts<A>
  {
    (e: int, x: A, c: nat) => global(rank * eLocal + e, x, c)
  }

  function PartialOf<A>(
      global: Experts<A>, eLocal: nat, ids: seq<int>, weights: seq<real>, x: A, c: nat, rank: nat): real
    requires |ids| == |weights|
  {
    Partial(OnRank(global, rank, eLocal), ids, weights, rank * eLocal, eLocal, x, c)
  }

  /** The first slot's share of a rank's partial sum. */
  function FirstShare<A>(global: Experts<A>, eLocal: nat, id: int, weight: real, x: A, c: nat, rank: nat): real
  {
    if Local(id, rank * eLocal, eLocal) then weight * global(id, x, c) else 0.0
  }

  /** The partial outputs by rank. */
  function Partials<A>(
      global: Experts<A>, eLocal: nat, ids: seq<int>, weights: seq<real>, x: A, c: nat): nat -> real
    requires |ids| == |weights|
  {
    (rank: nat) => PartialOf(global, eLocal, ids, weights, x, c, rank)
  }

  function FirstShares<A>(global: Experts<A>, eLocal: nat, id: int, weight: real, x: A, c: nat): nat -> real
  {
    (rank: nat) => FirstShare(global, eLocal, id, weight, x, c, rank)
  }

  predicate GlobalIds(ids: seq<int>, eGlobal: nat)
  {
    forall j :: 0 <= j < |ids| ==> 0 <= ids[j] < eGlobal
  }

  lemma PartialSplits<A>(
      global: Experts<A>, eLocal: nat, ids: seq<int>, weights: seq<real>, x: A, c: nat, rank: nat)
    requires |ids| == |weights| > 0
    ensures PartialOf(global, eLocal, ids, weights, x, c, rank)
         == FirstShare(global, eLocal, ids[0], weights[0], x, c, rank)
          + PartialOf(global, eLocal, ids[1..], weights[1..], x, c, rank)
  {
    var lo := rank * eLocal;
    assert LocalIds(ids, lo, eLocal)[1..] == LocalIds(ids[1..], lo, eLocal);
    assert LocalWeights(ids, weights, lo, eLocal)[1..] == LocalWeights(ids[1..], weights[1..], lo, eLocal);
  }

  /** A global id lies in the block of rank `id / eLocal`, and of no other rank. */
  lemma BlockOf(id: nat, eLocal: nat, rank: nat)
    requires eLocal > 0
    ensures Local(id, rank * eLocal, eLocal) <==> rank == id / eLocal
  {
    if Local(id, rank * eLocal, eLocal) {
      DivMod(id, rank, id - rank * eLocal, eLocal);
    } else {
      DivBounds(id, eLocal);
      assert (id / eLocal + 1) * eLocal == (id / eLocal) * eLocal + eLocal;
    }
  }

  /** The ranks' shares of one slot add up to the slot: the rank that holds its expert computes it. */
  lemma SlotIsComputedOnce<A>(
      global: Experts<A>, eLocal: nat, ranks: nat, id: nat, weight: real, x: A, c: nat)
    requires 0 < eLocal && id < ranks * eLocal
    ensures Sum(FirstShares(global, eLocal, id, weight, x, c), ranks) == weight * global(id, x, c)
  {
    var owner := id / eLocal;
    DivBounds(id, eLocal);
    if ranks <= owner {
      MulMono(ranks, owner, eLocal);
    }
    forall r: nat | r < ranks
      ensures FirstShares(global, eLocal, id, weight, x, c)(r) == if r == owner then weight * global(id, x, c) else 0.0
    {
      BlockOf(id, eLocal, r);
    }
    SumOfOne(FirstShares(global, eLocal, id, weight, x, c), ranks, owner);
  }

  lemma SumSplits<A>(
      global: Experts<A>, eLocal: nat, ranks: nat, ids: seq<int>, weights: seq<real>, x: A, c: nat)
    requires |ids| == |weights| > 0
    ensures Sum(Partials(global, eLocal, ids, weights, x, c), ranks)
         == Sum(FirstShares(global, eLocal, ids[0], weights[0], x, c), ranks)
          + Sum(Partials(global, eLocal, ids[1..], weights[1..], x, c), ranks)
  {
    forall r: nat | r < ranks
      ensures Partials(global, eLocal, ids, weights, x, c)(r)
           == FirstShares(global, eLocal, ids[0], weights[0], x, c)(r)
            + Partials(global, eLocal, ids[1..], weights[1..], x, c)(r)
    {
      PartialSplits(global, eLocal, ids, weights, x, c, r);
    }
    SumAdds(FirstShares(global, eLocal, ids[0], weights[0], x, c),
      Partials(global, eLocal, ids[1..], weights[1..], x, c),
      Partials(global, eLocal, ids, weights, x, c), ranks);
  }

  lemma FirstSlot<A>(
      global: Experts<A>, eLocal: nat, ranks: nat, ids: seq<int>, weights: seq<real>, x: A, c: nat,
      slot: real, rest: real)
    requires |ids| == |weights| > 0
    requires Sum(FirstShares(global, eLocal, ids[0], weights[0], x, c), ranks) == slot
    requires Sum(Partials(global, eLocal, ids[1..], weights[1..], x, c), ranks) == rest
    ensures Sum(Partials(global, eLocal, ids, weights, x, c), ranks) == slot + rest
  {
    SumSplits(global, eLocal, ranks, ids, weights, x, c);
  }

  /** Adding up the partial outputs of all ranks gives the whole mixture, for any number of slots, any
      block size and any number of ranks, as long as the ids are global expert ids. */
  lemma {:induction false} PartialsAddUp<A>(
      global: Experts<A>, eLocal: nat, ranks: nat, ids: seq<int>, weights: seq<real>, x: A, c: nat)
    requires |ids| == |weights| && 0 < eLocal && GlobalIds(ids, ranks * eLocal)
    ensures Sum(Partials(global, eLocal, ids, weights, x, c), ranks) == Mix(global, ids, weights, x, c)
    decreases |ids|
  {
    if ids == [] {
      forall r: nat | r < ranks
        ensures Partials(global, eLocal, ids, weights, x, c)(r) == 0.0
      {
        NoSlots(global, eLocal, ids, weights, x, c, r);
      }
      SumOfZeros(Partials(global, eLocal, ids, weights, x, c), ranks);
    } else {
      SlotIsComputedOnce(global, eLocal, ranks, ids[0], weights[0], x, c);
      PartialsAddUp(global, eLocal, ranks, ids[1..], weights[1..], x, c);
      FirstSlot(global, eLocal, ranks, ids, weights, x, c,
        weights[0] * global(ids[0], x, c), Mix(global, ids[1..], weights[1..], x, c));
    }
  }

  lemma NoSlots<A>(global: Experts<A>, eLocal: nat, ids: seq<int>, weights: seq<real>, x: A, c: nat, rank: nat)
    requires |ids| == |weights| == 0
    ensures PartialOf(global, eLocal, ids, weights, x, c, rank) == 0.0
  {
  }

  /** What a run leaves in its output for one token. */
  function PartialRow<A>(
      local: Experts<A>, ids: seq<int>, weights: seq<real>, lo: int, eLocal: nat, x: A, k: nat): seq<real>
    requires |ids| == |weights|
  {
    seq(k, (c: nat) => Partial(local, ids, weights, lo, eLocal, x, c))
  }

  datatype Outcome = BatchTooLarge(m: nat) | Ready(out: array<seq<real>>)

  /** One layer on one rank: its block of experts and one output buffer per capacity, kept between runs. */
  class LayerState<!A> {
    const local: Experts<A>
    const eLocal: nat
    const rank: nat
    const k: nat
    const ladder: seq<nat>
    var outs: map<nat, array<seq<real>>>

    ghost predicate Valid()
      reads this
    {
      forall cap :: cap in outs ==> outs[cap].Length == cap
    }

    constructor (local: Experts<A>, eLocal: nat, rank: nat, k: nat, ladder: seq<nat>)
      ensures Valid() && outs == map[]
      ensures this.local == local && this.eLocal == eLocal && this.rank == rank
      ensures this.k == k && this.ladder == ladder
    {
      this.local, this.eLocal, this.rank, this.k, this.ladder := local, eLocal, rank, k, ladder;
      outs := map[];
    }

    /** The first `m` rows of the buffer of `m`'s capacity hold this rank's partial outputs; a batch above
        the ladder changes nothing; no buffer of another capacity is touched. */
    method Run(x: seq<A>, ids: seq<seq<int>>, weights: seq<seq<real>>) returns (r: Outcome)
      requires Valid() && |ids| == |weights| == |x|
      requires forall t :: 0 <= t < |x| ==> |ids[t]| == |weights[t]|
      modifies this, set cap | cap in outs :: outs[cap]
      ensures Valid()
      ensures r.BatchTooLarge? <==> CapFor(|x|, ladder).TooLarge?
      ensures r.BatchTooLarge? ==> outs == old(outs) && forall cap :: cap in outs ==> outs[cap][..] == old(outs[cap][..])
      ensures r.Ready? ==> |x| <= r.out.Length == CapFor(|x|, ladder).cap
      ensures r.Ready? ==> outs == old(outs)[r.out.Length := r.out]
      ensures r.Ready? ==> forall t :: 0 <= t < |x| ==>
          r.out[t] == PartialRow(local, ids[t], weights[t], rank * eLocal, eLocal, x[t], k)
      ensures r.Ready? ==> forall cap :: cap in old(outs) && cap != r.out.Length ==>
          old(outs)[cap][..] == old(outs[cap][..])
      ensures r.Ready? && r.out.Length in old(outs) ==>
          r.out == old(outs)[r.out.Length] && r.out[|x|..] == old(outs[CapFor(|x|, ladder).cap][|x|..])
    {
      var m := |x|;
      var capacity := CapFor(m, ladder);
      if capacity.TooLarge? {
        return BatchTooLarge(m);
      }
      var cap := capacity.cap;
      var out: array<seq<real>>;
      if cap in outs {
        out := outs[cap];
      } else {
        out := new seq<real>[cap];
        outs := outs[cap := out];
      }
      ghost var tail := out[m..];
      var lo := rank * eLocal;
      for t := 0 to m
        invariant outs == old(outs)[cap := out] && out[m..] == tail
        invariant forall u :: 0 <= u < t ==>
          out[u] == PartialRow(local, ids[u], weights[u], lo, eLocal, x[u], k)
        invariant forall other :: other in old(outs) && other != cap ==>
          old(outs)[other][..] == old(outs[other][..])
      {
        out[t] := PartialRow(local, ids[t], weights[t], lo, eLocal, x[t], k);
      }
      r := Ready(out);
    }
  }

  /** Component `c` of token `t` by rank. */
  function Component(outs: seq<seq<seq<real>>>, t: nat, c: nat): nat -> real
  {
    (r: nat) => if r < |outs| && t < |outs[r]| && c < |outs[r][t]| then outs[r][t][c] else 0.0
  }

  /** The all-reduce over ranks that each ran the same batch, each with its own block of the same experts,
      yields the full top-k mixture for every token and component. */
  lemma AllReduceIsMixture<A>(
      global: Experts<A>, eLocal: nat, ranks: nat, k: nat, x: seq<A>, ids: seq<seq<int>>,
      weights: seq<seq<real>>, outs: seq<seq<seq<real>>>, t: nat, c: nat)
    requires 0 < eLocal && |outs| == ranks && t < |x| == |ids| == |weights| && c < k
    requires forall u :: 0 <= u < |x| ==> |ids[u]| == |weights[u]| && GlobalIds(ids[u], ranks * eLocal)
    requires forall r :: 0 <= r < ranks ==>
        && |outs[r]| >= |x|
        && outs[r][t] == PartialRow(OnRank(global, r, eLocal), ids[t], weights[t], r * eLocal, eLocal, x[t], k)
    ensures Sum(Component(outs, t, c), ranks) == Mix(global, ids[t], weights[t], x[t], c)
  {
    var partials := Partials(global, eLocal, ids[t], weights[t], x[t], c);
    forall r: nat | r < ranks
      ensures Component(outs, t, c)(r) == partials(r)
    {
      assert outs[r][t][c] == PartialOf(global, eLocal, ids[t], weights[t], x[t], c, r);
    }
    SumSame(Component(outs, t, c), partials, ranks);
    PartialsAddUp(global, eLocal, ranks, ids[t], weights[t], x[t], c);
  }
}

/** What the all-reduce adds up: one value per rank. */
module RankSums {
  import opened Rows
  import opened Ownership
  import opened Sums

  lemma RangeInTable(num: nat, rank: nat, tp: nat)
    requires rank < tp
    ensures Lo(num, rank, tp) <= Lo(num, rank + 1, tp) <= num
  {
    LoIsMonotone(num, rank, rank + 1, tp);
    LoIsMonotone(num, rank + 1, tp, tp);
    LoAtEnds(num, tp);
  }

  /** The store that rank `rank` of `tp` opens over a table: its range and nothing else differs by rank. */
  function OnRank(c: Config, rank: nat, tp: nat): (r: Config)
    requires rank < tp
    ensures ValidConfig(c) ==> ValidConfig(r)
  {
    RangeInTable(|c.table|, rank, tp);
    c.(lo := Lo(|c.table|, rank, tp), hi := Lo(|c.table|, rank + 1, tp))
  }

  /** The contribution of each rank that served row `served[r]`. */
  function Decoded(served: seq<Row>, decode: Row -> real): nat -> real
  {
    (r: nat) => if r < |served| then decode(served[r]) else 0.0
  }

  /** Ranks that do not own a row serve zeros for it. */
  lemma OnlyTheOwnerServes(c: Config, tp: nat, id: nat, owner: nat, rank: nat)
    requires ValidConfig(c) && tp > 0 && id < |c.table| && rank < tp
    requires owner < tp && forall q :: 0 <= q < tp && Owns(|c.table|, q, tp, id) ==> q == owner
    requires Owns(|c.table|, owner, tp, id)
    ensures Wanted(OnRank(c, rank, tp), id) == if rank == owner then c.table[id] else ZeroRow()
  {
    assert Owned(OnRank(c, rank, tp), id) <==> Owns(|c.table|, rank, tp, id);
  }

  /** Every rank looks the same id up in its own range; adding up what they served gives the row of the
      whole table, under any decoding that reads the zero row as zero, for any row and rank count. */
  lemma GatherAcrossRanks(c: Config, tp: nat, id: nat, served: seq<Row>, decode: Row -> real)
    requires ValidConfig(c) && id < |c.table| && |served| == tp > 0
    requires forall r :: 0 <= r < tp ==> served[r] == Wanted(OnRank(c, r, tp), id)
    requires decode(ZeroRow()) == 0.0
    ensures Sum(Decoded(served, decode), tp) == decode(c.table[id])
  {
    var owner := RangesPartition(|c.table|, tp, id);
    forall r: nat | r < tp
      ensures Decoded(served, decode)(r) == if r == owner then decode(c.table[id]) else 0.0
    {
      OnlyTheOwnerServes(c, tp, id, owner, r);
    }
    SumOfOne(Decoded(served, decode), tp, owner);
  }
}

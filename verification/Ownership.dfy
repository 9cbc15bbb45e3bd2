/** Which rank owns which row: the range [num * r / tp, num * (r + 1) / tp) of rank r, computed the
    same way by the packer and by the loader. */
module Ownership {
  import opened Arith

  function Lo(num: nat, rank: nat, tp: nat): nat
    requires tp > 0
  {
    num * rank / tp
  }

  /** The boundary of a rank is its exact share of the rows, rounded down. */
  lemma LoIsShare(num: nat, rank: nat, tp: nat)
    requires tp > 0
    ensures tp * Lo(num, rank, tp) <= num * rank < tp * (Lo(num, rank, tp) + 1)
  {
    DivBounds(num * rank, tp);
    assert tp * Lo(num, rank, tp) == Lo(num, rank, tp) * tp;
    assert tp * (Lo(num, rank, tp) + 1) == (Lo(num, rank, tp) + 1) * tp;
  }

  /** The ranges are as even as they can be: every rank owns `num / tp` rows or one more. */
  lemma SharesAreEven(num: nat, rank: nat, tp: nat)
    requires tp > 0
    ensures num / tp <= Lo(num, rank + 1, tp) - Lo(num, rank, tp) <= num / tp + 1
    ensures num % tp == 0 ==> Lo(num, rank + 1, tp) - Lo(num, rank, tp) == num / tp
  {
    LoIsShare(num, rank, tp);
    NextShare(num, rank, tp);
    var q, r := Divided(num, tp);
    Gap(num * rank, q, r, tp, Lo(num, rank, tp), Lo(num, rank + 1, tp));
  }

  lemma NextShare(num: nat, rank: nat, tp: nat)
    requires tp > 0
    ensures tp * Lo(num, rank + 1, tp) <= num * rank + num < tp * (Lo(num, rank + 1, tp) + 1)
  {
    LoIsShare(num, rank + 1, tp);
    assert num * (rank + 1) == num * rank + num;
  }

  lemma Divided(num: nat, tp: nat) returns (q: nat, r: nat)
    requires tp > 0
    ensures q == num / tp && r == num % tp && r < tp && num == q * tp + r
  {
    q, r := num / tp, num % tp;
  }

  /** Two boundaries, rounded down, of shares that differ by `q * tp + r`. */
  lemma Gap(x: nat, q: nat, r: nat, tp: nat, a: nat, b: nat)
    requires r < tp
    requires tp * a <= x < tp * (a + 1) && tp * b <= x + (q * tp + r) < tp * (b + 1)
    ensures q <= b - a <= q + 1 && (r == 0 ==> b - a == q)
  {
    assert tp * (a + 1) == tp * a + tp && tp * (b + 1) == tp * b + tp;
    assert tp * (b - a - q) == tp * b - tp * a - q * tp;
    Narrow(b - a - q, r, tp);
  }

  /** A multiple of `tp` within less than `tp` of a remainder is 0 or `tp`, and 0 if the remainder is. */
  lemma Narrow(k: int, r: nat, tp: nat)
    requires r < tp && r - tp < tp * k < r + tp
    ensures 0 <= k <= 1 && (r == 0 ==> k == 0)
  {
    if k < 0 {
      MulMono(k, -1, tp);
    } else if k > 1 {
      MulMono(2, k, tp);
    } else if k == 1 {
      assert tp * k == tp;
    }
  }

  predicate Owns(num: nat, rank: nat, tp: nat, id: int)
    requires tp > 0
  {
    Lo(num, rank, tp) <= id < Lo(num, rank + 1, tp)
  }

  lemma LoIsMonotone(num: nat, a: nat, b: nat, tp: nat)
    requires a <= b && tp > 0
    ensures Lo(num, a, tp) <= Lo(num, b, tp)
  {
    MulMono(a, b, num);
    assert num * a == a * num && num * b == b * num;
    DivMonotone(num * a, num * b, tp);
  }

  lemma LoAtEnds(num: nat, tp: nat)
    requires tp > 0
    ensures Lo(num, 0, tp) == 0 && Lo(num, tp, tp) == num
  {
    DivMod(num * tp, num, 0, tp);
    DivMod(num * 0, 0, 0, tp);
  }

  /** Every row has an owner among the first `ranks` ranks, if it lies below their ranges' end. */
  lemma {:induction false} OwnerBelow(num: nat, tp: nat, id: nat, ranks: nat) returns (r: nat)
    requires tp > 0 && ranks <= tp && id < Lo(num, ranks, tp)
    ensures r < ranks && Owns(num, r, tp, id)
    decreases ranks
  {
    LoAtEnds(num, tp);
    if Lo(num, ranks - 1, tp) <= id {
      r := ranks - 1;
    } else {
      r := OwnerBelow(num, tp, id, ranks - 1);
    }
  }

  /** The ranges partition the table, evenly: every row has exactly one owner, for any size and rank count. */
  lemma RangesPartition(num: nat, tp: nat, id: nat) returns (r: nat)
    requires tp > 0 && id < num
    ensures r < tp && Owns(num, r, tp, id)
    ensures forall q :: 0 <= q < tp && Owns(num, q, tp, id) ==> q == r
    ensures num / tp <= Lo(num, r + 1, tp) - Lo(num, r, tp) <= num / tp + 1
  {
    LoAtEnds(num, tp);
    r := OwnerBelow(num, tp, id, tp);
    SharesAreEven(num, r, tp);
    forall q | 0 <= q < tp && Owns(num, q, tp, id)
      ensures q == r
    {
      if q < r {
        LoIsMonotone(num, q + 1, r, tp);
      } else if r < q {
        LoIsMonotone(num, r + 1, q, tp);
      }
    }
  }
}

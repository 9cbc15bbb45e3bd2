/** How the cache lies in memory: way `w` of set `k` is slot `k * ways + w` of the flat key array and
    264 bytes of the flat row array. */
module SlotLayout {
  import opened Arith
  import opened Rows
  import opened CacheModel

  function Slot(ways: nat, k: nat, w: nat): nat
  {
    k * ways + w
  }

  lemma SlotInRange(sets: nat, ways: nat, k: nat, w: nat)
    requires k < sets && w < ways
    ensures Slot(ways, k, w) < sets * ways && (Slot(ways, k, w) + 1) * ROW_BYTES <= sets * ways * ROW_BYTES
    ensures Slot(ways, k, 0) + ways <= sets * ways
  {
    MulMono(k, sets, ways);
  }

  lemma SlotsAreDistinct(ways: nat, k: nat, w: nat, k': nat, w': nat)
    requires w < ways && w' < ways && (k, w) != (k', w')
    ensures Slot(ways, k, w) != Slot(ways, k', w')
  {
    if k < k' {
      MulMono(k, k', ways);
    } else if k' < k {
      MulMono(k', k, ways);
    }
  }

  ghost predicate Fits(keys: seq<nat>, bytes: seq<Byte>, victim: seq<nat>, sets: nat, ways: nat)
  {
    |keys| == sets * ways && |bytes| == sets * ways * ROW_BYTES && |victim| == sets
  }

  function SlotRow(bytes: seq<Byte>, j: nat): Row
    requires (j + 1) * ROW_BYTES <= |bytes|
  {
    bytes[j * ROW_BYTES..(j + 1) * ROW_BYTES]
  }

  function KeysOf(keys: seq<nat>, sets: nat, ways: nat, k: nat): (r: seq<nat>)
    requires k < sets && |keys| == sets * ways && ways > 0
    ensures |r| == ways
    ensures forall w :: 0 <= w < ways ==> Slot(ways, k, w) < |keys| && r[w] == keys[Slot(ways, k, w)]
  {
    SlotInRange(sets, ways, k, 0);
    keys[Slot(ways, k, 0)..Slot(ways, k, 0) + ways]
  }

  function RowsOf(bytes: seq<Byte>, sets: nat, ways: nat, k: nat, n: nat): (r: seq<Row>)
    requires k < sets && |bytes| == sets * ways * ROW_BYTES && n <= ways
    ensures |r| == n
    ensures forall w :: 0 <= w < n ==> (Slot(ways, k, w) + 1) * ROW_BYTES <= |bytes| && r[w] == SlotRow(bytes, Slot(ways, k, w))
  {
    if n == 0 then []
    else
      SlotInRange(sets, ways, k, n - 1);
      RowsOf(bytes, sets, ways, k, n - 1) + [SlotRow(bytes, Slot(ways, k, n - 1))]
  }

  /** The abstract set number `k` that the flat arrays hold. */
  function SetOf(keys: seq<nat>, bytes: seq<Byte>, victim: seq<nat>, sets: nat, ways: nat, k: nat): CacheSet
    requires Fits(keys, bytes, victim, sets, ways) && k < sets && ways > 0
  {
    CacheSet(KeysOf(keys, sets, ways, k), RowsOf(bytes, sets, ways, k, ways), victim[k])
  }

  function CacheOf(keys: seq<nat>, bytes: seq<Byte>, victim: seq<nat>, sets: nat, ways: nat): (c: Cache)
    requires Fits(keys, bytes, victim, sets, ways) && ways > 0
    ensures |c| == sets && forall k :: 0 <= k < sets ==> c[k] == SetOf(keys, bytes, victim, sets, ways, k)
  {
    seq(sets, k requires 0 <= k < sets => SetOf(keys, bytes, victim, sets, ways, k))
  }

  /** `bytes'` is `bytes` with slot `j` overwritten. */
  ghost predicate Overwrites(bytes: seq<Byte>, bytes': seq<Byte>, j: nat, row: Row)
  {
    && |bytes'| == |bytes| && (j + 1) * ROW_BYTES <= |bytes| && |row| == ROW_BYTES
    && bytes'[..j * ROW_BYTES] == bytes[..j * ROW_BYTES]
    && bytes'[j * ROW_BYTES..(j + 1) * ROW_BYTES] == row
    && bytes'[(j + 1) * ROW_BYTES..] == bytes[(j + 1) * ROW_BYTES..]
  }

  lemma OtherSlot(bytes: seq<Byte>, bytes': seq<Byte>, j: nat, row: Row, i: nat)
    requires Overwrites(bytes, bytes', j, row) && (i + 1) * ROW_BYTES <= |bytes|
    ensures SlotRow(bytes', i) == if i == j then row else SlotRow(bytes, i)
  {
    if i < j {
      assert SlotRow(bytes', i) == bytes'[..j * ROW_BYTES][i * ROW_BYTES..(i + 1) * ROW_BYTES];
      assert SlotRow(bytes, i) == bytes[..j * ROW_BYTES][i * ROW_BYTES..(i + 1) * ROW_BYTES];
    } else if i > j {
      var d := (j + 1) * ROW_BYTES;
      assert SlotRow(bytes', i) == bytes'[d..][i * ROW_BYTES - d..(i + 1) * ROW_BYTES - d];
      assert SlotRow(bytes, i) == bytes[d..][i * ROW_BYTES - d..(i + 1) * ROW_BYTES - d];
    }
  }

  lemma SetAfterWrite(keys: seq<nat>, bytes: seq<Byte>, bytes': seq<Byte>, victim: seq<nat>, sets: nat, ways: nat,
                      k: nat, w: nat, key: nat, row: Row, next: nat, i: nat)
    requires Fits(keys, bytes, victim, sets, ways) && k < sets && w < ways && i < sets
    requires Slot(ways, k, w) < |keys| && Overwrites(bytes, bytes', Slot(ways, k, w), row)
    ensures var before := SetOf(keys, bytes, victim, sets, ways, i);
            SetOf(keys[Slot(ways, k, w) := key], bytes', victim[k := next], sets, ways, i)
            == if i == k then CacheSet(before.keys[w := key], before.rows[w := row], next) else before
  {
    var j := Slot(ways, k, w);
    var before := SetOf(keys, bytes, victim, sets, ways, i);
    var after := SetOf(keys[j := key], bytes', victim[k := next], sets, ways, i);
    forall v | 0 <= v < ways
      ensures after.keys[v] == if i == k && v == w then key else before.keys[v]
      ensures after.rows[v] == if i == k && v == w then row else before.rows[v]
    {
      SlotInRange(sets, ways, i, v);
      if (i, v) != (k, w) {
        SlotsAreDistinct(ways, i, v, k, w);
      }
      OtherSlot(bytes, bytes', j, row, Slot(ways, i, v));
    }
    if i == k {
      assert after.keys == before.keys[w := key];
      assert after.rows == before.rows[w := row];
    } else {
      assert after.keys == before.keys && after.rows == before.rows;
    }
  }

  /** Overwriting one slot and one cursor is exactly one set update of the abstract cache. */
  lemma CacheAfterWrite(keys: seq<nat>, bytes: seq<Byte>, bytes': seq<Byte>, victim: seq<nat>, sets: nat, ways: nat,
                        k: nat, w: nat, key: nat, row: Row, next: nat)
    requires Fits(keys, bytes, victim, sets, ways) && k < sets && w < ways
    requires Slot(ways, k, w) < |keys| && Overwrites(bytes, bytes', Slot(ways, k, w), row)
    ensures var before := CacheOf(keys, bytes, victim, sets, ways);
            CacheOf(keys[Slot(ways, k, w) := key], bytes', victim[k := next], sets, ways)
            == before[k := CacheSet(before[k].keys[w := key], before[k].rows[w := row], next)]
  {
    var before := CacheOf(keys, bytes, victim, sets, ways);
    var after := CacheOf(keys[Slot(ways, k, w) := key], bytes', victim[k := next], sets, ways);
    var expected := before[k := CacheSet(before[k].keys[w := key], before[k].rows[w := row], next)];
    forall i | 0 <= i < sets
      ensures after[i] == expected[i]
    {
      SetAfterWrite(keys, bytes, bytes', victim, sets, ways, k, w, key, row, next, i);
    }
    assert after == expected;
  }
}

/** Rows of one Engram table and the slice of it that a rank owns. */
module Rows {
  const WEIGHT_BYTES: nat := 256
  const SCALE_BYTES: nat := 8
  const ROW_BYTES: nat := 264

  type Byte = b: int | 0 <= b < 256

  /** The 256 weight bytes of a row followed by its 8 scale bytes. */
  type Row = seq<Byte>

  /** What is fixed once a store is open: the backing rows, the owned range [lo, hi),
      the cache geometry, and whether the bitmap of fetched rows was allocated. */
  datatype Config = Config(table: seq<Row>, lo: nat, hi: nat, sets: nat, ways: nat, tracked: bool)

  ghost predicate ValidConfig(c: Config)
  {
    && c.lo <= c.hi <= |c.table|
    && 1 <= c.ways <= 16
    && forall id :: 0 <= id < |c.table| ==> |c.table[id]| == ROW_BYTES
  }

  predicate InTable(c: Config, id: int)
  {
    0 <= id < |c.table|
  }

  predicate Owned(c: Config, id: int)
  {
    c.lo <= id < c.hi
  }

  function ZeroRow(): Row
  {
    seq(ROW_BYTES, _ => 0)
  }

  /** What a lookup of `id` must produce on this rank. */
  function Wanted(c: Config, id: int): Row
    requires ValidConfig(c) && InTable(c, id)
  {
    if Owned(c, id) then c.table[id] else ZeroRow()
  }

  /** Owned ids among the first `n`. */
  function OwnedIn(config: Config, ids: seq<int>, n: nat): nat
    requires n <= |ids|
  {
    if n == 0 then 0 else OwnedIn(config, ids, n - 1) + if Owned(config, ids[n - 1]) then 1 else 0
  }
}

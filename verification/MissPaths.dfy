/** The three ways a missed row is read, and why they all give the same 264 bytes. */
module MissPaths {
  import opened Options
  import opened Rows
  import opened Backing
  import opened Packing

  /** The pinned scales are the checkpoint's scale rows of [lo, hi). */
  ghost predicate FaithfulScales(f: Shard, lo: nat, hi: nat, scales: Option<seq<Byte>>)
  {
    scales.Some? ==>
      && lo <= hi && f.scaleOffset + hi * 8 <= |f.bytes|
      && scales.value == f.bytes[f.scaleOffset + lo * 8..f.scaleOffset + hi * 8]
  }

  /** The attached shard holds the checkpoint's rows of [lo, hi). */
  ghost predicate FaithfulPack(f: Shard, lo: nat, hi: nat, packed: Option<seq<Byte>>)
  {
    packed.Some? ==>
      && lo <= hi && (lo < hi ==> Covers(f, hi)) && HEADER_BYTES + (hi - lo) * ROW_BYTES <= |packed.value|
      && forall id :: lo <= id < hi ==> PackedRow(packed.value, lo, id) == TableRow(f, id)
  }

  /** What the packer writes for a range is a faithful shard of that range: attaching it keeps every miss
      path on the checkpoint's bytes. */
  lemma PackerIsFaithful(f: Shard, layer: nat, lo: nat, hi: nat)
    requires lo <= hi <= f.rows < WORD && Covers(f, hi) && layer < WORD
    ensures FaithfulPack(f, lo, hi, Some(PackedFile(f, layer, lo, hi)))
    ensures AttachPacked(Some(PackedFile(f, layer, lo, hi)), HEADER_BYTES, layer, lo, hi, f.rows) == Attached
  {
    PackedShardIsAccepted(f, layer, lo, hi);
  }

  /** A shard of the range [lo, hi) serves another one that is no longer exactly when every row of it equals the row
      that was packed in its place. */
  lemma MovedRangeFitsIff(f: Shard, file: seq<Byte>, lo: nat, hi: nat, newLo: nat, newHi: nat)
    requires Covers(f, f.rows) && lo <= hi <= f.rows && newLo <= newHi <= f.rows && newHi - newLo <= hi - lo
    requires FaithfulPack(f, lo, hi, Some(file))
    ensures FaithfulPack(f, newLo, newHi, Some(file)) <==>
        forall id :: newLo <= id < newHi ==> TableRow(f, id) == TableRow(f, lo + (id - newLo))
  {
    forall id | newLo <= id < newHi
      ensures PackedRow(file, newLo, id) == TableRow(f, lo + (id - newLo))
    {
      assert PackedRow(file, newLo, id) == PackedRow(file, lo, lo + (id - newLo));
    }
  }

  /** One read of the repacked record. */
  method ReadPacked(f: Shard, lo: nat, hi: nat, packed: seq<Byte>, id: nat, answer: int)
    returns (ok: bool, row: Row, counted: nat)
    requires lo <= id < hi && FaithfulPack(f, lo, hi, Some(packed))
    ensures ok <==> Enough(answer, HEADER_BYTES + (id - lo) * ROW_BYTES, ROW_BYTES)
    ensures ok ==> Covers(f, id + 1) && row == TableRow(f, id)
    ensures counted == if ok then 1 else 0
  {
    ok, row, counted := ReadFrom(packed, false, HEADER_BYTES + (id - lo) * ROW_BYTES, ROW_BYTES, answer);
    assert ok ==> row == PackedRow(packed, lo, id);
  }

  /** The scale bytes of a row out of the pinned copy. */
  lemma PinnedScale(f: Shard, lo: nat, hi: nat, scales: seq<Byte>, id: nat)
    requires lo <= id < hi && Covers(f, hi) && FaithfulScales(f, lo, hi, Some(scales))
    ensures |scales| == (hi - lo) * 8
    ensures scales[(id - lo) * 8..(id - lo) * 8 + 8] == ScaleBytes(f, id)
  {
    SubSlice(f.bytes, f.scaleOffset + lo * 8, (hi - lo) * 8, (id - lo) * 8, (id - lo) * 8 + 8);
    Piece(f.bytes, f.scaleOffset + id * 8, 8);
  }

  /** Where a store reads a missed row from. */
  datatype Paths = Paths(shard: Shard, resident: bool, lo: nat, packed: bool, pinned: bool)

  /** How many reads a miss costs. */
  function MissReads(p: Paths): nat
  {
    if p.packed then 1 else if p.resident then 0 else if p.pinned then 1 else 2
  }

  /** The reads of a miss, of which the first is the store's `n`-th, are all answered in full. */
  predicate MissSucceeds(p: Paths, id: nat, disk: Disk, n: nat)
    requires p.lo <= id
  {
    if p.packed then Enough(disk(n), HEADER_BYTES + (id - p.lo) * ROW_BYTES, ROW_BYTES)
    else
      && (p.resident || Enough(disk(n), p.shard.weightOffset + id * WEIGHT_BYTES, WEIGHT_BYTES))
      && (p.pinned || p.resident || Enough(disk(n + 1), p.shard.scaleOffset + id * SCALE_BYTES, SCALE_BYTES))
  }

  /** The miss of `fetch_row`: packed record, or weight plus pinned scale, or two reads. It yields the row of the
      table unless a read comes up short; not `ok` is the abort. */
  method ReadMissed(f: Shard, resident: bool, lo: nat, hi: nat, packed: Option<seq<Byte>>,
                    scales: Option<seq<Byte>>, id: nat, disk: Disk, n: nat)
    returns (ok: bool, row: Row, counted: nat)
    requires lo <= id < hi && Covers(f, hi)
    requires FaithfulPack(f, lo, hi, packed) && FaithfulScales(f, lo, hi, scales)
    ensures ok <==> MissSucceeds(Paths(f, resident, lo, packed.Some?, scales.Some?), id, disk, n)
    ensures ok ==> row == TableRow(f, id)
    ensures ok ==> counted == MissReads(Paths(f, resident, lo, packed.Some?, scales.Some?))
  {
    if packed.Some? {
      ok, row, counted := ReadPacked(f, lo, hi, packed.value, id, disk(n));
      return;
    }
    var weight;
    ok, weight, counted := ReadFrom(f.bytes, resident, f.weightOffset + id * WEIGHT_BYTES, WEIGHT_BYTES, disk(n));
    if !ok {
      return false, [], counted;
    }
    if scales.Some? {
      PinnedScale(f, lo, hi, scales.value, id);
      row := weight + scales.value[(id - lo) * SCALE_BYTES..(id - lo) * SCALE_BYTES + SCALE_BYTES];
    } else {
      var scale, more;
      ok, scale, more := ReadFrom(f.bytes, resident, f.scaleOffset + id * SCALE_BYTES, SCALE_BYTES, disk(n + 1));
      row := weight + scale;
      counted := counted + more;
    }
  }
}

/** The repacked shard: a 4 KiB header and the owned rows as adjacent 264-byte records, as written
    by the packer and as checked and read by the row store. */
module Packing {
  import opened Options
  import opened Rows
  import opened Backing
  import opened Ownership

  const MAGIC: nat := 0x31344E4531565344
  const HEADER_BYTES: nat := 4096
  const WORD: nat := 0x1_0000_0000_0000_0000

  /** Little-endian bytes of the low `n` bytes of `x`. */
  function ToBytes(x: nat, n: nat): (b: seq<Byte>)
    ensures |b| == n
    decreases n
  {
    if n == 0 then [] else [x % 256] + ToBytes(x / 256, n - 1)
  }

  function FromBytes(b: seq<Byte>): nat
  {
    if b == [] then 0 else b[0] + 256 * FromBytes(b[1..])
  }

  function Pow256(n: nat): nat
  {
    if n == 0 then 1 else 256 * Pow256(n - 1)
  }

  lemma {:induction false} BytesRoundTrip(x: nat, n: nat)
    requires x < Pow256(n)
    ensures FromBytes(ToBytes(x, n)) == x
  {
    if n > 0 {
      BytesRoundTrip(x / 256, n - 1);
      assert ToBytes(x, n)[1..] == ToBytes(x / 256, n - 1);
    }
  }

  lemma {:induction false} RoundTripOfBytes(b: seq<Byte>)
    ensures ToBytes(FromBytes(b), |b|) == b && FromBytes(b) < Pow256(|b|)
  {
    if b != [] {
      RoundTripOfBytes(b[1..]);
      ByteAndRest(b[0], FromBytes(b[1..]), Pow256(|b| - 1));
      assert b == [b[0]] + b[1..];
    }
  }

  lemma ByteAndRest(d: Byte, rest: nat, bound: nat)
    requires rest < bound
    ensures (d + 256 * rest) % 256 == d && (d + 256 * rest) / 256 == rest && d + 256 * rest < 256 * bound
  {
  }

  lemma WordIsEightBytes()
    ensures Pow256(8) == WORD
  {
    assert Pow256(4) == 0x1_0000_0000;
    assert Pow256(5) == 0x100_0000_0000;
    assert Pow256(6) == 0x1_0000_0000_0000;
  }

  /** `struct.pack_into('<6Q', ...)` into a zeroed header. */
  function Header(layer: nat, lo: nat, hi: nat, rows: nat): (h: seq<Byte>)
    ensures |h| == HEADER_BYTES
  {
    ToBytes(MAGIC, 8) + ToBytes(layer, 8) + ToBytes(lo, 8) + ToBytes(hi, 8) + ToBytes(rows, 8)
    + ToBytes(ROW_BYTES, 8) + seq(HEADER_BYTES - 48, _ => 0)
  }

  /** The word at byte `at` of a file. */
  function WordAt(file: seq<Byte>, at: nat): nat
    requires at + 8 <= |file|
  {
    FromBytes(file[at..at + 8])
  }

  datatype Attach = Absent | Failed | Attached

  /** `row_store_attach_packed`: a missing shard is fine, a present but wrong one is fatal. `got` is
      what the header read returned. */
  function AttachPacked(shard: Option<seq<Byte>>, got: int, layer: nat, lo: nat, hi: nat, rows: nat): Attach
    requires lo <= hi
    requires shard.Some? ==> got <= |shard.value|
  {
    if shard.None? then Absent
    else
      var file := shard.value;
      if got < HEADER_BYTES then Failed
      else if WordAt(file, 0) != MAGIC || WordAt(file, 8) != layer || WordAt(file, 16) != lo
              || WordAt(file, 24) != hi || WordAt(file, 32) != rows || WordAt(file, 40) != ROW_BYTES then Failed
      else if |file| < HEADER_BYTES + (hi - lo) * ROW_BYTES then Failed
      else Attached
  }

  /** Record `id` of a packed shard that starts at row `lo`, as `fetch_row` addresses it. */
  function PackedRow(file: seq<Byte>, lo: nat, id: nat): Row
    requires lo <= id && HEADER_BYTES + (id - lo + 1) * ROW_BYTES <= |file|
  {
    file[HEADER_BYTES + (id - lo) * ROW_BYTES..][..ROW_BYTES]
  }

  /** The records of the rows [from, upto), back to back. */
  function Records(f: Shard, from: nat, upto: nat): (r: seq<Byte>)
    requires Covers(f, upto) && from <= upto
    ensures |r| == (upto - from) * ROW_BYTES
    decreases upto - from
  {
    if from == upto then [] else Records(f, from, upto - 1) + TableRow(f, upto - 1)
  }

  lemma {:induction false} RecordAt(f: Shard, from: nat, upto: nat, id: nat)
    requires Covers(f, upto) && from <= id < upto
    ensures (id - from + 1) * ROW_BYTES <= |Records(f, from, upto)|
    ensures Records(f, from, upto)[(id - from) * ROW_BYTES..(id - from + 1) * ROW_BYTES] == TableRow(f, id)
    decreases upto
  {
    if id < upto - 1 {
      RecordAt(f, from, upto - 1, id);
    }
  }

  lemma {:induction false} RecordsJoin(f: Shard, a: nat, b: nat, c: nat)
    requires Covers(f, c) && a <= b <= c
    ensures Records(f, a, c) == Records(f, a, b) + Records(f, b, c)
    decreases c
  {
    if b < c {
      RecordsJoin(f, a, b, c - 1);
    } else {
      assert Records(f, a, b) + [] == Records(f, a, b);
    }
  }

  /** `seek` and an unbuffered `read` of `n` bytes: as many as the system hands over and the file holds. */
  method ReadAt(file: seq<Byte>, at: nat, n: nat, answer: nat) returns (got: seq<Byte>)
    ensures got != [] ==> at + |got| <= |file| && got == file[at..at + |got|]
    ensures n > 0 ==> (|got| == n <==> answer >= n && at + n <= |file|)
  {
    var left := if at < |file| then |file| - at else 0;
    var k := if answer <= n then answer else n;
    k := if k <= left then k else left;
    got := if k > 0 then file[at..at + k] else [];
  }

  /** Row `k` of the `(n, 264)` block: 256 weight bytes and then 8 scale bytes. */
  function BlockRow(weights: seq<Byte>, scales: seq<Byte>, k: nat): seq<Byte>
    requires (k + 1) * 256 <= |weights| && (k + 1) * 8 <= |scales|
  {
    weights[k * 256..k * 256 + 256] + scales[k * 8..k * 8 + 8]
  }

  function Interleave(weights: seq<Byte>, scales: seq<Byte>, n: nat): seq<Byte>
    requires n * 256 <= |weights| && n * 8 <= |scales|
  {
    if n == 0 then [] else Interleave(weights, scales, n - 1) + BlockRow(weights, scales, n - 1)
  }

  lemma RowFromBlock(f: Shard, start: nat, n: nat, weights: seq<Byte>, scales: seq<Byte>, k: nat)
    requires Covers(f, start + n) && k < n && |weights| == n * 256 && |scales| == n * 8
    requires weights == f.bytes[f.weightOffset + start * 256..f.weightOffset + start * 256 + n * 256]
    requires scales == f.bytes[f.scaleOffset + start * 8..f.scaleOffset + start * 8 + n * 8]
    ensures BlockRow(weights, scales, k) == TableRow(f, start + k)
  {
    PartOfBlock(f.bytes, f.weightOffset + start * 256, n * 256, k * 256, 256);
    PartOfBlock(f.bytes, f.scaleOffset + start * 8, n * 8, k * 8, 8);
    assert (start + k) * 256 == start * 256 + k * 256 && (start + k) * 8 == start * 8 + k * 8;
  }

  lemma PartOfBlock(file: seq<Byte>, base: nat, n: nat, at: nat, length: nat)
    requires base + n <= |file| && at + length <= n
    ensures file[base..base + n][at..at + length] == file[base + at..][..length]
  {
    SubSlice(file, base, n, at, at + length);
    Piece(file, base + at, length);
  }

  lemma {:induction false} InterleaveIsRecords(f: Shard, start: nat, weights: seq<Byte>, scales: seq<Byte>, k: nat)
    requires Covers(f, start + k) && k * 256 <= |weights| && k * 8 <= |scales|
    requires forall j :: 0 <= j < k ==> BlockRow(weights, scales, j) == TableRow(f, start + j)
    ensures Interleave(weights, scales, k) == Records(f, start, start + k)
    decreases k
  {
    if k > 0 {
      InterleaveIsRecords(f, start, weights, scales, k - 1);
      assert start + k - 1 == start + (k - 1);
    }
  }

  lemma BlockIsRecords(f: Shard, start: nat, n: nat, weights: seq<Byte>, scales: seq<Byte>)
    requires Covers(f, start + n) && |weights| == n * 256 && |scales| == n * 8
    requires weights == f.bytes[f.weightOffset + start * 256..f.weightOffset + start * 256 + n * 256]
    requires scales == f.bytes[f.scaleOffset + start * 8..f.scaleOffset + start * 8 + n * 8]
    ensures Interleave(weights, scales, n) == Records(f, start, start + n)
  {
    forall j | 0 <= j < n
      ensures BlockRow(weights, scales, j) == TableRow(f, start + j)
    {
      RowFromBlock(f, start, n, weights, scales, j);
    }
    InterleaveIsRecords(f, start, weights, scales, n);
  }

  /** The records of [lo, hi), which may be empty. */
  function Body(f: Shard, lo: nat, hi: nat): (r: seq<Byte>)
    requires lo <= hi && (lo < hi ==> Covers(f, hi))
    ensures |r| == (hi - lo) * ROW_BYTES
  {
    if lo < hi then Records(f, lo, hi) else []
  }

  /** The records of the range [lo, hi) behind their header. */
  function PackedFile(f: Shard, layer: nat, lo: nat, hi: nat): (file: seq<Byte>)
    requires lo <= hi && (lo < hi ==> Covers(f, hi))
    ensures |file| == HEADER_BYTES + (hi - lo) * ROW_BYTES
  {
    Header(layer, lo, hi, f.rows) + Body(f, lo, hi)
  }

  /** One chunk: read both tensors' pieces and interleave them, unless a read comes up short. */
  method ReadBlock(f: Shard, start: nat, stop: nat, weightAnswer: nat, scaleAnswer: nat) returns (block: Option<seq<Byte>>)
    requires start < stop
    ensures block.Some? <==>
        Covers(f, stop) && weightAnswer >= (stop - start) * WEIGHT_BYTES && scaleAnswer >= (stop - start) * SCALE_BYTES
    ensures block.Some? ==> block.value == Records(f, start, stop)
  {
    var n := stop - start;
    var weights := ReadAt(f.bytes, f.weightOffset + start * WEIGHT_BYTES, n * WEIGHT_BYTES, weightAnswer);
    var scales := ReadAt(f.bytes, f.scaleOffset + start * SCALE_BYTES, n * SCALE_BYTES, scaleAnswer);
    if |weights| != n * WEIGHT_BYTES || |scales| != n * SCALE_BYTES {
      return None;
    }
    BlockIsRecords(f, start, n, weights, scales);
    return Some(Interleave(weights, scales, n));
  }

  lemma BodyGrows(f: Shard, lo: nat, start: nat, stop: nat)
    requires lo <= start < stop && Covers(f, stop)
    ensures Body(f, lo, stop) == Body(f, lo, start) + Records(f, start, stop)
  {
    if lo < start {
      RecordsJoin(f, lo, start, stop);
    }
  }

  /** The end of the chunk that starts at `start`. */
  function ChunkEnd(start: nat, hi: nat, chunkRows: nat): (end: nat)
    ensures end <= start + chunkRows && (start <= hi ==> end <= hi)
    ensures end == hi || end == start + chunkRows
  {
    if start + chunkRows < hi then start + chunkRows else hi
  }

  /** What the operating system answers to the n-th write: how many bytes it takes, or a negative number for an error. */
  type Sink = nat -> int

  /** An unbuffered `write` appends as many bytes as are taken, which may be fewer than were offered; an error raises. */
  method Append(file: seq<Byte>, block: seq<Byte>, answer: int) returns (longer: Option<seq<Byte>>)
    ensures longer.Some? <==> answer >= 0
    ensures longer.Some? ==> file <= longer.value
    ensures longer.Some? ==> longer.value == file + block[..if answer < |block| then answer else |block|]
  {
    if answer < 0 {
      return None;
    }
    return Some(file + block[..if answer < |block| then answer else |block|]);
  }

  /** From `start` on every chunk's two reads, of which the next is the packer's `n`-th, are answered in full, and no
      write, of which the next is the `w`-th, raises. */
  predicate ChunksPass(answers: nat -> nat, n: nat, sink: Sink, w: nat, start: nat, hi: nat, chunkRows: nat)
    requires chunkRows > 0
    decreases hi - start
  {
    start < hi ==>
      var rows := ChunkEnd(start, hi, chunkRows) - start;
      && answers(n) >= rows * WEIGHT_BYTES && answers(n + 1) >= rows * SCALE_BYTES && sink(w) >= 0
      && ChunksPass(answers, n + 2, sink, w + 1, start + rows, hi, chunkRows)
  }

  /** From `start` on every chunk's write, of which the next is the `w`-th, takes the whole chunk. */
  predicate ChunksTaken(sink: Sink, w: nat, start: nat, hi: nat, chunkRows: nat)
    requires chunkRows > 0
    decreases hi - start
  {
    start < hi ==>
      var rows := ChunkEnd(start, hi, chunkRows) - start;
      sink(w) >= rows * ROW_BYTES && ChunksTaken(sink, w + 1, start + rows, hi, chunkRows)
  }

  /** The packer goes through to the end. */
  predicate Passes(f: Shard, lo: nat, hi: nat, chunkRows: nat, answers: nat -> nat, sink: Sink)
    requires chunkRows > 0
  {
    (lo < hi ==> Covers(f, hi)) && sink(0) >= 0 && ChunksPass(answers, 0, sink, 1, lo, hi, chunkRows)
  }

  /** Every write takes all that it is offered, the header first. */
  predicate AllTaken(lo: nat, hi: nat, chunkRows: nat, sink: Sink)
    requires chunkRows > 0
  {
    sink(0) >= HEADER_BYTES && ChunksTaken(sink, 1, lo, hi, chunkRows)
  }

  /** The file so far: `whole` if every write up to now was complete, and something shorter if one was not. */
  ghost predicate SoFar(dst: seq<Byte>, whole: seq<Byte>, complete: bool)
  {
    if complete then dst == whole else |dst| < |whole|
  }

  lemma Behind(head: seq<Byte>, body: seq<Byte>, block: seq<Byte>)
    ensures head + (body + block) == head + body + block
  {
  }

  /** One chunk behind what is there. */
  lemma SoFarGrows(dst: seq<Byte>, whole: seq<Byte>, complete: bool, block: seq<Byte>, taken: nat)
    requires SoFar(dst, whole, complete) && taken <= |block|
    ensures SoFar(dst + block[..taken], whole + block, complete && taken == |block|)
  {
  }

  /** One chunk: its two reads, and the write behind what is there. */
  method NextChunk(f: Shard, ghost head: seq<Byte>, dst: seq<Byte>, ghost lo: nat, start: nat, stop: nat, weightAnswer: nat,
                   scaleAnswer: nat, sinkAnswer: int, ghost complete: bool) returns (longer: Option<seq<Byte>>)
    requires lo <= start < stop && (lo < start ==> Covers(f, start)) && SoFar(dst, head + Body(f, lo, start), complete)
    ensures longer.Some? <==>
        && Covers(f, stop) && weightAnswer >= (stop - start) * WEIGHT_BYTES && scaleAnswer >= (stop - start) * SCALE_BYTES
        && sinkAnswer >= 0
    ensures longer.Some? ==>
        SoFar(longer.value, head + Body(f, lo, stop), complete && sinkAnswer >= (stop - start) * ROW_BYTES)
  {
    var block := ReadBlock(f, start, stop, weightAnswer, scaleAnswer);
    if block.None? {
      return None;
    }
    longer := Append(dst, block.value, sinkAnswer);
    if longer.Some? {
      BodyGrows(f, lo, start, stop);
      SoFarGrows(dst, head + Body(f, lo, start), complete, block.value, |longer.value| - |dst|);
      Behind(head, Body(f, lo, start), block.value);
    }
  }

  /** The header and the chunk loop of `pack_layer`. It gives up exactly when a read comes up short, the checkpoint ends
      early or a write raises. The count that a write returns is ignored: the file is header and records, whatever the
      chunk size, if every write was complete, and shorter if one was not. */
  method WriteShard(f: Shard, head: seq<Byte>, lo: nat, hi: nat, chunkRows: nat, answers: nat -> nat, sink: Sink)
    returns (target: Option<seq<Byte>>)
    requires lo <= hi && chunkRows > 0 && |head| == HEADER_BYTES
    ensures target.Some? <==> Passes(f, lo, hi, chunkRows, answers, sink)
    ensures target.Some? ==> SoFar(target.value, head + Body(f, lo, hi), AllTaken(lo, hi, chunkRows, sink))
  {
    var file := Append([], head, sink(0));
    if file.None? {
      return None;
    }
    var dst := file.value;
    var start, n, w := lo, 0, 1;
    ghost var complete := sink(0) >= HEADER_BYTES;
    assert head == [] + head == head + Body(f, lo, lo);
    while start < hi
      invariant lo <= start <= hi
      invariant lo < start ==> Covers(f, start)
      invariant SoFar(dst, head + Body(f, lo, start), complete)
      invariant ChunksPass(answers, 0, sink, 1, lo, hi, chunkRows) == ChunksPass(answers, n, sink, w, start, hi, chunkRows)
      invariant AllTaken(lo, hi, chunkRows, sink) == (complete && ChunksTaken(sink, w, start, hi, chunkRows))
      decreases hi - start
    {
      var stop := ChunkEnd(start, hi, chunkRows);
      file := NextChunk(f, head, dst, lo, start, stop, answers(n), answers(n + 1), sink(w), complete);
      if file.None? {
        return None;
      }
      complete := complete && sink(w) >= (stop - start) * ROW_BYTES;
      dst := file.value;
      start, n, w := stop, n + 2, w + 1;
    }
    return Some(dst);
  }

  /** `pack_layer`, for the rows from a rank's share of the table, rounded down, to the next rank's: keep a target that has
      the expected size, else write this rank's shard. What it leaves is the shard
      if every write was complete, and shorter than the expected size if one was not. */
  method PackLayer(f: Shard, layer: nat, rank: nat, tp: nat, chunkRows: nat, existing: Option<seq<Byte>>,
                   answers: nat -> nat, sink: Sink) returns (target: Option<seq<Byte>>)
    requires rank < tp && chunkRows > 0
    ensures var lo, hi := Lo(f.rows, rank, tp), Lo(f.rows, rank + 1, tp);
            && lo <= hi
            && tp * lo <= f.rows * rank < tp * (lo + 1) && tp * hi <= f.rows * (rank + 1) < tp * (hi + 1)
            && if existing.Some? && |existing.value| == HEADER_BYTES + (hi - lo) * ROW_BYTES
               then target == existing
               else && (target.Some? <==> Passes(f, lo, hi, chunkRows, answers, sink))
                    && (target.Some? ==>
                          SoFar(target.value, PackedFile(f, layer, lo, hi), AllTaken(lo, hi, chunkRows, sink)))
  {
    var lo, hi := Lo(f.rows, rank, tp), Lo(f.rows, rank + 1, tp);
    LoIsMonotone(f.rows, rank, rank + 1, tp);
    LoIsShare(f.rows, rank, tp);
    LoIsShare(f.rows, rank + 1, tp);
    if existing.Some? && |existing.value| == HEADER_BYTES + (hi - lo) * ROW_BYTES {
      return existing;
    }
    target := WriteShard(f, Header(layer, lo, hi, f.rows), lo, hi, chunkRows, answers, sink);
  }

  /** What an incomplete write leaves behind, the loader refuses: the shard that it accepts is the whole one. */
  lemma OnlyWholeShardsAreAccepted(f: Shard, layer: nat, lo: nat, hi: nat, file: seq<Byte>, complete: bool, got: int)
    requires lo <= hi <= f.rows < WORD && Covers(f, hi) && layer < WORD && got <= |file|
    requires SoFar(file, PackedFile(f, layer, lo, hi), complete)
    ensures AttachPacked(Some(file), got, layer, lo, hi, f.rows) == Attached <==> complete && got >= HEADER_BYTES
    ensures AttachPacked(Some(file), got, layer, lo, hi, f.rows) == Attached ==>
        forall id :: lo <= id < hi ==> PackedRow(file, lo, id) == TableRow(f, id)
  {
    PackedShardIsAccepted(f, layer, lo, hi);
  }

  /** The loader checks the header and the size and no record: a shard with the right header and any records of the
      right size is accepted. */
  lemma RecordsAreNotChecked(layer: nat, lo: nat, hi: nat, rows: nat, body: seq<Byte>)
    requires lo <= hi <= rows < WORD && layer < WORD && |body| == (hi - lo) * ROW_BYTES
    ensures AttachPacked(Some(Header(layer, lo, hi, rows) + body), HEADER_BYTES, layer, lo, hi, rows) == Attached
  {
    HeaderWords(layer, lo, hi, rows, Header(layer, lo, hi, rows) + body);
  }

  /** What the packer writes for a range and layer, the loader of the same range and layer accepts,
      and each record it then reads is the row of the checkpoint. */
  lemma PackedShardIsAccepted(f: Shard, layer: nat, lo: nat, hi: nat)
    requires lo <= hi <= f.rows < WORD && Covers(f, hi) && layer < WORD
    ensures var file := PackedFile(f, layer, lo, hi);
            && AttachPacked(Some(file), HEADER_BYTES, layer, lo, hi, f.rows) == Attached
            && forall id :: lo <= id < hi ==> PackedRow(file, lo, id) == TableRow(f, id)
  {
    var file := PackedFile(f, layer, lo, hi);
    HeaderWords(layer, lo, hi, f.rows, file);
    forall id | lo <= id < hi
      ensures PackedRow(file, lo, id) == TableRow(f, id)
    {
      RecordAt(f, lo, hi, id);
      RecordInFile(file, Header(layer, lo, hi, f.rows), Records(f, lo, hi), (id - lo) * ROW_BYTES);
    }
  }

  lemma RecordInFile(file: seq<Byte>, head: seq<Byte>, records: seq<Byte>, at: nat)
    requires |head| == HEADER_BYTES && file == head + records && at + ROW_BYTES <= |records|
    ensures file[HEADER_BYTES + at..][..ROW_BYTES] == records[at..at + ROW_BYTES]
  {
  }

  /** Packer and loader compute the same range from rank and rank count, so the shard of every rank
      is accepted by the same rank. */
  lemma EveryRankAcceptsItsShard(f: Shard, layer: nat, rank: nat, tp: nat)
    requires rank < tp && Covers(f, f.rows) && f.rows < WORD && layer < WORD
    ensures var lo, hi := Lo(f.rows, rank, tp), Lo(f.rows, rank + 1, tp);
            lo <= hi <= f.rows
            && AttachPacked(Some(PackedFile(f, layer, lo, hi)), HEADER_BYTES, layer, lo, hi, f.rows) == Attached
  {
    LoIsMonotone(f.rows, rank, rank + 1, tp);
    LoIsMonotone(f.rows, rank + 1, tp, tp);
    LoAtEnds(f.rows, tp);
    PackedShardIsAccepted(f, layer, Lo(f.rows, rank, tp), Lo(f.rows, rank + 1, tp));
  }

  lemma HeaderWords(layer: nat, lo: nat, hi: nat, rows: nat, file: seq<Byte>)
    requires layer < WORD && lo < WORD && hi < WORD && rows < WORD && Header(layer, lo, hi, rows) <= file
    ensures |file| >= HEADER_BYTES
    ensures WordAt(file, 0) == MAGIC && WordAt(file, 8) == layer && WordAt(file, 16) == lo
    ensures WordAt(file, 24) == hi && WordAt(file, 32) == rows && WordAt(file, 40) == ROW_BYTES
  {
    WordIsEightBytes();
    SixWords(ToBytes(MAGIC, 8), ToBytes(layer, 8), ToBytes(lo, 8), ToBytes(hi, 8), ToBytes(rows, 8),
             ToBytes(ROW_BYTES, 8), seq(HEADER_BYTES - 48, _ => 0), file);
    BytesRoundTrip(MAGIC, 8);
    BytesRoundTrip(layer, 8);
    BytesRoundTrip(lo, 8);
    BytesRoundTrip(hi, 8);
    BytesRoundTrip(rows, 8);
    BytesRoundTrip(ROW_BYTES, 8);
  }

  lemma SixWords(a: seq<Byte>, b: seq<Byte>, c: seq<Byte>, d: seq<Byte>, e: seq<Byte>, w: seq<Byte>, z: seq<Byte>,
                 file: seq<Byte>)
    requires |a| == |b| == |c| == |d| == |e| == |w| == 8 && a + b + c + d + e + w + z <= file
    ensures |file| >= 48 + |z|
    ensures file[0..8] == a && file[8..16] == b && file[16..24] == c
    ensures file[24..32] == d && file[32..40] == e && file[40..48] == w
  {
  }

  /** A shard of another layer, range or table is refused. */
  lemma WrongShardIsRefused(f: Shard, layer: nat, lo: nat, hi: nat, layer': nat, lo': nat, hi': nat, rows': nat)
    requires lo <= hi <= f.rows < WORD && Covers(f, hi) && layer < WORD && lo' <= hi'
    requires (layer, lo, hi, f.rows) != (layer', lo', hi', rows')
    ensures AttachPacked(Some(PackedFile(f, layer, lo, hi)), HEADER_BYTES, layer', lo', hi', rows') == Failed
  {
    HeaderWords(layer, lo, hi, f.rows, PackedFile(f, layer, lo, hi));
  }

  /** Equal words have equal bytes. */
  lemma WordsAreBytes(a: seq<Byte>, b: seq<Byte>)
    requires |a| == |b|
    ensures FromBytes(a) == FromBytes(b) <==> a == b
  {
    RoundTripOfBytes(a);
    RoundTripOfBytes(b);
  }

  lemma SixPieces<T>(s: seq<T>, t: seq<T>)
    requires |s| == |t| == 48
    ensures s == t <==>
        && s[0..8] == t[0..8] && s[8..16] == t[8..16] && s[16..24] == t[16..24]
        && s[24..32] == t[24..32] && s[32..40] == t[32..40] && s[40..48] == t[40..48]
  {
    assert s == s[0..8] + s[8..16] + s[16..24] + s[24..32] + s[32..40] + s[40..48];
    assert t == t[0..8] + t[8..16] + t[16..24] + t[24..32] + t[32..40] + t[40..48];
  }

  /** The first six words of two files. */
  lemma SameSixWords(file: seq<Byte>, head: seq<Byte>)
    requires |file| >= 48 && |head| >= 48
    ensures file[..48] == head[..48] <==>
        && WordAt(file, 0) == WordAt(head, 0) && WordAt(file, 8) == WordAt(head, 8) && WordAt(file, 16) == WordAt(head, 16)
        && WordAt(file, 24) == WordAt(head, 24) && WordAt(file, 32) == WordAt(head, 32) && WordAt(file, 40) == WordAt(head, 40)
  {
    SixPieces(file[..48], head[..48]);
    OneWord(file, head, 0);
    OneWord(file, head, 8);
    OneWord(file, head, 16);
    OneWord(file, head, 24);
    OneWord(file, head, 32);
    OneWord(file, head, 40);
  }

  lemma OneWord(file: seq<Byte>, head: seq<Byte>, at: nat)
    requires |file| >= 48 && |head| >= 48 && at <= 40
    ensures WordAt(file, at) == WordAt(head, at) <==> file[..48][at..at + 8] == head[..48][at..at + 8]
  {
    assert file[..48][at..at + 8] == file[at..at + 8] && head[..48][at..at + 8] == head[at..at + 8];
    WordsAreBytes(file[at..at + 8], head[at..at + 8]);
  }

  /** What the loader accepts, among all files: those that begin with the six words that the packer writes for this
      layer, range and table, are read that far, and are long enough for the rows. */
  lemma AcceptedExactlyWhen(file: seq<Byte>, got: int, layer: nat, lo: nat, hi: nat, rows: nat)
    requires lo <= hi < WORD && rows < WORD && layer < WORD && got <= |file|
    ensures AttachPacked(Some(file), got, layer, lo, hi, rows) == Attached <==>
        && got >= HEADER_BYTES && |file| >= HEADER_BYTES + (hi - lo) * ROW_BYTES
        && file[..48] == Header(layer, lo, hi, rows)[..48]
  {
    var head := Header(layer, lo, hi, rows);
    HeaderWords(layer, lo, hi, rows, head);
    if got >= HEADER_BYTES {
      SameSixWords(file, head);
    }
  }
}

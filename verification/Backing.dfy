/** The files behind a store: the checkpoint shard with its two tensors, page-aligned reads of it,
    and the pinned copy of the owned scale rows. */
module Backing {
  import opened Options
  import opened Rows

  const PAGE: nat := 4096
  const PAGE_BUFFER: nat := 8192
  const PIN_SPAN: nat := 0x80_0000

  /** A checkpoint shard: its bytes, the number of rows and where the two tensors start. */
  datatype Shard = Shard(bytes: seq<Byte>, rows: nat, weightOffset: nat, scaleOffset: nat)

  /** The extent check of `row_store_open`, with its integer divisions. */
  predicate ValidExtent(f: Shard)
  {
    && f.weightOffset <= |f.bytes| && f.scaleOffset <= |f.bytes|
    && f.rows <= (|f.bytes| - f.weightOffset) / 256
    && f.rows <= (|f.bytes| - f.scaleOffset) / 8
  }

  /** The shard holds both parts of its first `n` rows. */
  predicate Covers(f: Shard, n: nat)
  {
    f.weightOffset + n * 256 <= |f.bytes| && f.scaleOffset + n * 8 <= |f.bytes|
  }

  lemma ExtentCovers(f: Shard)
    ensures ValidExtent(f) <==> Covers(f, f.rows)
  {
  }

  function WeightBytes(f: Shard, id: nat): seq<Byte>
    requires Covers(f, id + 1)
  {
    f.bytes[f.weightOffset + id * 256..][..256]
  }

  function ScaleBytes(f: Shard, id: nat): seq<Byte>
    requires Covers(f, id + 1)
  {
    f.bytes[f.scaleOffset + id * 8..][..8]
  }

  /** Row `id` of the table: its weight bytes, then its scale bytes. */
  function TableRow(f: Shard, id: nat): (r: Row)
    requires Covers(f, id + 1)
    ensures |r| == ROW_BYTES
  {
    WeightBytes(f, id) + ScaleBytes(f, id)
  }

  function Table(f: Shard): (t: seq<Row>)
    requires ValidExtent(f)
    ensures |t| == f.rows && Covers(f, f.rows)
    ensures forall id :: 0 <= id < f.rows ==> t[id] == TableRow(f, id)
  {
    ExtentCovers(f);
    seq(f.rows, id requires 0 <= id < f.rows => TableRow(f, id))
  }

  /** The start of the page that holds `offset`. */
  function PageBase(offset: nat): nat
  {
    offset - offset % PAGE
  }

  /** `length` rounded up to whole pages. */
  function WholePages(length: nat): nat
  {
    ((length + PAGE - 1) / PAGE) * PAGE
  }

  /** A row, wherever it starts, is covered by an aligned read that fits the two-page buffer. */
  lemma AlignedReadFits(offset: nat, length: nat)
    requires length <= ROW_BYTES
    ensures PageBase(offset) % PAGE == 0 && PageBase(offset) <= offset
    ensures var requested := WholePages(offset - PageBase(offset) + length);
            requested % PAGE == 0 && offset - PageBase(offset) + length <= requested <= PAGE_BUFFER
  {
    var delta := offset - PageBase(offset);
    assert delta == offset % 4096;
    assert delta + length + 4095 < 3 * 4096;
    assert (delta + length + 4095) / 4096 <= 2;
  }

  /** What the operating system answers to the n-th read: how many bytes it would hand over, or a negative
      number for an error. Nothing is assumed of it. */
  type Disk = nat -> int

  /** A read returns no more than was asked for and no more than the file still holds. */
  function Got(answer: int, requested: nat, base: nat, size: nat): (got: int)
    ensures got <= requested && (got > 0 ==> got <= answer && base + got <= size)
  {
    var left := if base < size then size - base else 0;
    if answer < 0 then -1
    else if answer <= requested && answer <= left then answer
    else if requested <= left then requested
    else left
  }

  /** `pread` with the given answer: so many bytes are copied to the front of the buffer. */
  method Pread(file: seq<Byte>, buffer: array<Byte>, requested: nat, base: nat, answer: int) returns (got: int)
    requires requested <= buffer.Length
    modifies buffer
    ensures got == Got(answer, requested, base, |file|)
    ensures got > 0 ==> buffer[..got] == file[base..base + got]
    ensures got <= 0 ==> buffer[..] == old(buffer[..])
  {
    got := Got(answer, requested, base, |file|);
    if got > 0 {
      CopyIn(buffer, 0, file[base..base + got]);
    }
  }

  /** `memcpy` into an array. */
  method CopyIn(dst: array<Byte>, at: nat, src: seq<Byte>)
    requires at + |src| <= dst.Length
    modifies dst
    ensures dst[at..at + |src|] == src
    ensures dst[..at] == old(dst[..at]) && dst[at + |src|..] == old(dst[at + |src|..])
  {
    var i := 0;
    while i < |src|
      invariant 0 <= i <= |src|
      invariant dst[at..at + i] == src[..i]
      invariant dst[..at] == old(dst[..at]) && dst[at + |src|..] == old(dst[at + |src|..])
    {
      dst[at + i] := src[i];
      i := i + 1;
    }
  }

  lemma SubSlice(file: seq<Byte>, base: nat, n: nat, a: nat, b: nat)
    requires base + n <= |file| && a <= b <= n
    ensures file[base..base + n][a..b] == file[base + a..base + b]
  {
    var page := file[base..base + n];
    assert forall k :: 0 <= k < b - a ==> page[a..b][k] == page[a + k] == file[base + (a + k)];
  }

  lemma Piece(s: seq<Byte>, at: nat, n: nat)
    requires at + n <= |s|
    ensures s[at..][..n] == s[at..at + n]
  {
  }

  /** The answer reaches the last byte wanted, counted from the page's start. */
  predicate Enough(answer: int, offset: nat, length: nat)
  {
    answer >= offset % PAGE + length
  }

  /** That is: what the answer gives from the start of the offset's own page includes the last byte wanted. */
  lemma EnoughIff(answer: int, offset: nat, length: nat)
    ensures PageBase(offset) <= offset < PageBase(offset) + PAGE && PageBase(offset) % PAGE == 0
    ensures Enough(answer, offset, length) <==> PageBase(offset) + answer >= offset + length
  {
  }

  /** Read `length` bytes at `offset`, through the resident mapping or one aligned page read. It succeeds, with
      the exact bytes, unless the page read comes up short; not `ok` is the abort. */
  method ReadFrom(file: seq<Byte>, resident: bool, offset: nat, length: nat, answer: int)
    returns (ok: bool, bytes: seq<Byte>, counted: nat)
    requires offset + length <= |file| && length <= ROW_BYTES
    ensures ok <==> resident || Enough(answer, offset, length)
    ensures ok ==> bytes == file[offset..][..length]
    ensures counted == (if ok && !resident then 1 else 0)
  {
    if resident {
      return true, file[offset..offset + length], 0;
    }
    AlignedReadFits(offset, length);
    var page := new Byte[PAGE_BUFFER];
    var base := PageBase(offset);
    var delta := offset - base;
    var requested := WholePages(delta + length);
    var got := Pread(file, page, requested, base, answer);
    if got < 0 || got < delta + length {
      return false, [], 0;
    }
    var front := page[..got];
    bytes := front[delta..delta + length];
    if got > 0 {
      SubSlice(file, base, got, delta, delta + length);
    }
    Piece(file, offset, length);
    return true, bytes, 1;
  }

  /** How much one read of the pin loop asks for. */
  function PinWant(offset: nat, end: nat): (want: nat)
    requires offset < end
    ensures 0 < want <= PIN_SPAN && want % PAGE == 0
    ensures want < PIN_SPAN ==> end - offset <= want < end - offset + PAGE
    ensures end - offset <= PIN_SPAN ==> end - offset <= want
  {
    if WholePages(end - offset) < PIN_SPAN then WholePages(end - offset) else PIN_SPAN
  }

  /** From `offset` on every read that the pin loop makes, of which the next is the `n`-th, makes progress. */
  predicate PinReads(disk: Disk, n: nat, offset: nat, end: nat, size: nat)
    decreases end - offset
  {
    offset < end ==>
      var got := Got(disk(n), PinWant(offset, end), offset, size);
      got > 0 && PinReads(disk, n + 1, offset + got, end, size)
  }

  /** When every read is answered in full, or to the end of the file, all of them make progress. */
  lemma {:induction false} FullAnswersPin(disk: Disk, n: nat, offset: nat, end: nat, size: nat)
    requires end <= size && forall k: nat :: disk(k) >= PIN_SPAN
    ensures PinReads(disk, n, offset, end, size)
    decreases end - offset
  {
    if offset < end {
      FullAnswersPin(disk, n + 1, offset + Got(disk(n), PinWant(offset, end), offset, size), end, size);
    }
  }

  /** The scales of a range can be pinned: there are some, and no read that is made for them fails. */
  predicate Pinnable(f: Shard, lo: nat, hi: nat, resident: bool, disk: Disk)
  {
    && lo < hi
    && (resident || PinReads(disk, 0, PageBase(f.scaleOffset + lo * SCALE_BYTES), f.scaleOffset + hi * SCALE_BYTES, |f.bytes|))
  }

  /** Copy the owned scale rows into memory. Short reads are continued; a failed or empty read gives up, and
      nothing else does. A copy that is returned is exactly the byte range of the owned scale rows. */
  method PinScales(f: Shard, lo: nat, hi: nat, resident: bool, disk: Disk) returns (scales: Option<seq<Byte>>)
    requires ValidExtent(f) && lo <= hi <= f.rows
    ensures scales.Some? <==> Pinnable(f, lo, hi, resident, disk)
    ensures scales.Some? ==> scales.value == f.bytes[f.scaleOffset + lo * 8..f.scaleOffset + hi * 8]
  {
    var count := hi - lo;
    if count == 0 {
      return None;
    }
    var bytes := count * SCALE_BYTES;
    var start := f.scaleOffset + lo * SCALE_BYTES;
    var end := start + bytes;
    if resident {
      return Some(f.bytes[start..end]);
    }
    scales := PinLoop(f.bytes, start, end, disk);
  }

  /** The read loop of `pin_scales`: the bytes [start, end) of the file, unless a read fails. */
  method PinLoop(file: seq<Byte>, start: nat, end: nat, disk: Disk) returns (copy: Option<seq<Byte>>)
    requires start < end <= |file|
    ensures copy.Some? <==> PinReads(disk, 0, PageBase(start), end, |file|)
    ensures copy.Some? ==> copy.value == file[start..end]
  {
    var out := new Byte[end - start];
    var buffer := new Byte[PIN_SPAN];
    var offset := PageBase(start);
    var turn: nat := 0;
    while offset < end
      invariant out[..Filled(offset, start, end)] == file[start..start + Filled(offset, start, end)]
      invariant PinReads(disk, 0, PageBase(start), end, |file|) == PinReads(disk, turn, offset, end, |file|)
      decreases end - offset
    {
      var got := PinChunk(file, out, buffer, start, end, offset, disk(turn));
      if got <= 0 {
        return None;
      }
      turn := turn + 1;
      offset := offset + got;
    }
    assert out[..] == out[..Filled(offset, start, end)];
    return Some(out[..]);
  }

  /** How much of [start, end) the reads up to `offset` have covered. */
  function Filled(offset: nat, start: nat, end: nat): nat
    requires start <= end
  {
    if offset <= start then 0 else if offset < end then offset - start else end - start
  }

  /** One read of the pin loop and the copy of what belongs to [start, end). */
  method PinChunk(file: seq<Byte>, out: array<Byte>, buffer: array<Byte>, start: nat, end: nat, offset: nat, answer: int)
    returns (got: int)
    requires out != buffer && buffer.Length == PIN_SPAN
    requires start < end <= |file| && end - start == out.Length && offset < end
    requires out[..Filled(offset, start, end)] == file[start..start + Filled(offset, start, end)]
    modifies out, buffer
    ensures got == Got(answer, PinWant(offset, end), offset, |file|)
    ensures got > 0 ==> out[..Filled(offset + got, start, end)] == file[start..start + Filled(offset + got, start, end)]
  {
    got := Pread(file, buffer, PinWant(offset, end), offset, answer);
    if got <= 0 {
      return;
    }
    var from := if offset < start then start else offset;
    var upto := if offset + got < end then offset + got else end;
    if upto > from {
      Place(file, out, buffer, start, offset, got, from, upto);
    }
  }

  /** Append the part of one read that belongs to the range [start, end) to the copy. */
  method Place(file: seq<Byte>, out: array<Byte>, buffer: array<Byte>,
               start: nat, offset: nat, got: nat, from: nat, upto: nat)
    requires out != buffer && got <= buffer.Length && offset + got <= |file|
    requires buffer[..got] == file[offset..offset + got]
    requires start <= from < upto <= start + out.Length && offset <= from && upto <= offset + got
    requires out[..from - start] == file[start..from]
    modifies out
    ensures out[..upto - start] == file[start..upto]
  {
    var piece := buffer[from - offset..upto - offset];
    assert piece == buffer[..got][from - offset..upto - offset];
    SubSlice(file, offset, got, from - offset, upto - offset);
    ghost var before := out[..from - start];
    CopyIn(out, from - start, piece);
    assert out[..upto - start] == before + piece;
    assert file[start..upto] == file[start..from] + file[from..upto];
  }
}

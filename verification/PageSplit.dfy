/** Splitting KV pages into 64-token pages: a kernel that marks the source pages in use, a kernel that copies
    the marked pages, and the persistent buffers, one per tag, that the copies go to. */
module PageSplit {
  import opened Options
  import opened Arith
  import opened PageLayout

  const BLOCK_SIZE: nat := 1024
  const MARK_BLOCK: nat := 1024

  const PRIMARY: string := "primary"
  const EXTRA: string := "extra"

  /** One copy loop of a program: `count` lanes in tiles of masked lanes. */
  method CopyLanes(src: seq<Lane>, from: nat, dst: array<Lane>, to: nat, count: nat)
    requires from + count <= |src| && to + count <= dst.Length
    modifies dst
    ensures dst[..] == old(dst[..to]) + src[from..from + count] + old(dst[to + count..])
  {
    var start := 0;
    while start < count
      invariant start >= 0
      invariant forall i :: 0 <= i < dst.Length ==>
          dst[i] == if to <= i < to + count && i < to + start then src[from + (i - to)] else old(dst[i])
      decreases count - start
    {
      forall k | 0 <= k < BLOCK_SIZE && start + k < count {
        dst[to + (start + k)] := src[from + (start + k)];
      }
      start := start + BLOCK_SIZE;
    }
  }

  predicate Selected(s: Source, mask: seq<int>, hasMask: bool, pid: nat)
    requires s.ratio > 0 && |mask| >= s.pages
  {
    pid / s.ratio < s.pages && (hasMask ==> mask[pid / s.ratio] != 0)
  }

  /** The page bases as a program computes them: products of 32-bit integers. */
  function SourceBase(s: Source, pid: nat): int
    requires s.ratio > 0
  {
    Wrap32(PageStart(s, pid))
  }

  function PageBase(pid: nat): int
  {
    Wrap32(pid * DST_STRIDE)
  }

  /** The program's accesses stay inside the pool and inside a buffer of `n` lanes. */
  predicate Lands(s: Source, pid: nat, n: nat)
    requires s.ratio > 0
  {
    InSource(s, SourceBase(s, pid), pid) && 0 <= PageBase(pid) && PageBase(pid) + USED <= n
  }

  /** Both bases are the ones that the layouts ask for. */
  predicate Addressed(s: Source, pid: nat)
    requires s.ratio > 0
  {
    PageStart(s, pid) < INT32_END && pid * DST_STRIDE < INT32_END
  }

  /** The buffer after the program `pid`. */
  function AfterProgram(s: Source, mask: seq<int>, hasMask: bool, pid: nat, buf: seq<Lane>): (r: seq<Lane>)
    requires s.ratio > 0 && |mask| >= s.pages
    requires Selected(s, mask, hasMask, pid) ==> Lands(s, pid, |buf|)
    ensures |r| == |buf|
  {
    if Selected(s, mask, hasMask, pid)
    then buf[..PageBase(pid)] + Gathered(s, SourceBase(s, pid), pid) + buf[PageBase(pid) + USED..]
    else buf
  }

  lemma TwoCopies(before: seq<Lane>, mid: seq<Lane>, after: seq<Lane>, a: seq<Lane>, b: seq<Lane>, to: nat)
    requires to + |a| + |b| <= |before|
    requires mid == before[..to] + a + before[to + |a|..]
    requires after == mid[..to + |a|] + b + mid[to + |a| + |b|..]
    ensures after == before[..to] + (a + b) + before[to + (|a| + |b|)..]
  {
    assert mid[..to + |a|] == before[..to] + a;
    assert mid[to + |a| + |b|..] == before[to + (|a| + |b|)..];
  }

  /** One program of the split kernel: if the source page is selected it copies the 64 tokens, from where and to where
      its 32-bit products say, and writes no other lane. It fails when an access would leave the pool or the buffer. */
  method SplitProgram(s: Source, dst: array<Lane>, pid: nat, mask: seq<int>, hasMask: bool) returns (ok: bool)
    requires s.ratio > 0 && |mask| >= s.pages
    modifies dst
    ensures ok <==> (Selected(s, mask, hasMask, pid) ==> Lands(s, pid, dst.Length))
    ensures ok ==> dst[..] == AfterProgram(s, mask, hasMask, pid, old(dst[..]))
  {
    var page := pid / s.ratio;
    if page >= s.pages {
      return true;
    }
    if hasMask && mask[page] == 0 {
      return true;
    }
    if !Lands(s, pid, dst.Length) {
      return false;
    }
    var from, to := SourceBase(s, pid), PageBase(pid);
    ghost var before := dst[..];
    CopyLanes(s.lanes, DataFrom(s, from, pid), dst, to, DATA_PER_SUB);
    ghost var mid := dst[..];
    CopyLanes(s.lanes, ScalesFrom(s, from, pid), dst, to + DATA_PER_SUB, PBS_DST);
    TwoCopies(before, mid, dst[..], s.lanes[DataFrom(s, from, pid)..DataFrom(s, from, pid) + DATA_PER_SUB],
      s.lanes[ScalesFrom(s, from, pid)..ScalesFrom(s, from, pid) + PBS_DST], to);
    ok := true;
  }

  /** What page `q` of the buffer holds after the program of that page ran. */
  function SlotAfter(s: Source, before: seq<Lane>, q: nat): seq<Lane>
    requires ValidSource(s) && q / s.ratio < s.pages && (q + 1) * DST_STRIDE <= |before|
  {
    Image(s, q) + Slot(before, q)[USED..]
  }

  /** Programs write disjoint lanes: filling one page leaves every other page alone. */
  lemma OtherSlotsStay(before: seq<Lane>, after: seq<Lane>, image: seq<Lane>, p: nat, q: nat)
    requires |image| == USED && (p + 1) * DST_STRIDE <= |before| && (q + 1) * DST_STRIDE <= |before|
    requires after == before[..p * DST_STRIDE] + image + before[p * DST_STRIDE + USED..]
    ensures |after| == |before|
    ensures Slot(after, q) == if q == p then image + Slot(before, q)[USED..] else Slot(before, q)
  {
    forall i | 0 <= i < DST_STRIDE
      ensures Slot(after, q)[i] == if q == p && i < USED then image[i] else Slot(before, q)[i]
    {
      assert after[q * DST_STRIDE + i] ==
        if q == p && i < USED then image[i] else before[q * DST_STRIDE + i];
    }
  }

  /** The buffer after the programs in `done` ran, in whatever order. */
  ghost predicate SplitSoFar(
      s: Source, before: seq<Lane>, after: seq<Lane>, mask: seq<int>, hasMask: bool, done: seq<nat>)
    requires ValidSource(s) && |mask| >= s.pages && Slots(s) * DST_STRIDE <= |before|
  {
    && |after| == |before|
    && (forall q :: 0 <= q < Slots(s) ==>
        Slot(after, q) == if q in done && Selected(s, mask, hasMask, q) then SlotAfter(s, before, q) else Slot(before, q))
    && (forall i :: Slots(s) * DST_STRIDE <= i < |before| ==> after[i] == before[i])
  }

  lemma SlotFits(s: Source, q: nat, n: nat)
    requires s.ratio > 0 && q < Slots(s) && Slots(s) * DST_STRIDE <= n
    ensures (q + 1) * DST_STRIDE <= n && q / s.ratio < s.pages
  {
    DivBounds(q, s.ratio);
    if s.pages <= q / s.ratio {
      MulMono(s.pages, q / s.ratio, s.ratio);
    }
  }

  /** One more program keeps the account. */
  lemma OneMoreProgram(s: Source, before: seq<Lane>, now: seq<Lane>, next: seq<Lane>, mask: seq<int>,
                       hasMask: bool, done: seq<nat>, pid: nat)
    requires ValidSource(s) && |mask| >= s.pages && Slots(s) * DST_STRIDE <= |before| && pid < Slots(s)
    requires SplitSoFar(s, before, now, mask, hasMask, done)
    requires (pid + 1) * DST_STRIDE <= |now|
    requires if Selected(s, mask, hasMask, pid)
             then next == now[..pid * DST_STRIDE] + Image(s, pid) + now[pid * DST_STRIDE + USED..]
             else next == now
    ensures SplitSoFar(s, before, next, mask, hasMask, done + [pid])
  {
    SlotFits(s, pid, |before|);
    forall q | 0 <= q < Slots(s)
      ensures Slot(next, q) == if q in done + [pid] && Selected(s, mask, hasMask, q)
                               then SlotAfter(s, before, q) else Slot(before, q)
    {
      SlotFits(s, q, |before|);
      if Selected(s, mask, hasMask, pid) {
        OtherSlotsStay(now, next, Image(s, pid), pid, q);
      }
    }
  }

  /** Every program in `order` that copies stays inside the pool and the buffer. */
  ghost predicate AllLand(s: Source, mask: seq<int>, hasMask: bool, order: seq<nat>, n: nat)
    requires s.ratio > 0 && |mask| >= s.pages
  {
    forall k :: 0 <= k < |order| && Selected(s, mask, hasMask, order[k]) ==> Lands(s, order[k], n)
  }

  /** The buffer after the programs of `order`, one after the other. */
  ghost function AfterGrid(s: Source, mask: seq<int>, hasMask: bool, order: seq<nat>, buf: seq<Lane>): (r: seq<Lane>)
    requires s.ratio > 0 && |mask| >= s.pages && AllLand(s, mask, hasMask, order, |buf|)
    ensures |r| == |buf|
  {
    if order == [] then buf
    else
      var last := |order| - 1;
      assert AllLand(s, mask, hasMask, order[..last], |buf|);
      AfterProgram(s, mask, hasMask, order[last], AfterGrid(s, mask, hasMask, order[..last], buf))
  }

  /** The whole grid, its programs run in any order. */
  method SplitGrid(s: Source, dst: array<Lane>, order: seq<nat>, mask: seq<int>, hasMask: bool) returns (ok: bool)
    requires s.ratio > 0 && |mask| >= s.pages
    modifies dst
    ensures ok <==> AllLand(s, mask, hasMask, order, dst.Length)
    ensures ok ==> dst[..] == AfterGrid(s, mask, hasMask, order, old(dst[..]))
  {
    ghost var before := dst[..];
    for k := 0 to |order|
      invariant AllLand(s, mask, hasMask, order[..k], dst.Length)
      invariant dst[..] == AfterGrid(s, mask, hasMask, order[..k], before)
    {
      ok := SplitProgram(s, dst, order[k], mask, hasMask);
      if !ok {
        return;
      }
      assert order[..k + 1][..k] == order[..k];
    }
    assert order[..|order|] == order;
    ok := true;
  }

  /** A program with the right bases fills its own page with its image. */
  lemma AddressedProgram(s: Source, mask: seq<int>, hasMask: bool, pid: nat, buf: seq<Lane>)
    requires ValidSource(s) && |mask| >= s.pages && pid < Slots(s) && Slots(s) * DST_STRIDE <= |buf|
    requires Selected(s, mask, hasMask, pid) && Addressed(s, pid)
    ensures Lands(s, pid, |buf|)
    ensures AfterProgram(s, mask, hasMask, pid, buf)
            == buf[..pid * DST_STRIDE] + Image(s, pid) + buf[pid * DST_STRIDE + USED..]
  {
    SlotFits(s, pid, |buf|);
    StartInSource(s, pid);
  }

  /** One more program with the right bases keeps the account. */
  lemma GridStep(s: Source, before: seq<Lane>, now: seq<Lane>, mask: seq<int>, hasMask: bool, rest: seq<nat>, pid: nat)
    requires ValidSource(s) && |mask| >= s.pages && Slots(s) * DST_STRIDE <= |before| && pid < Slots(s)
    requires SplitSoFar(s, before, now, mask, hasMask, rest)
    requires Selected(s, mask, hasMask, pid) ==> Addressed(s, pid)
    ensures Selected(s, mask, hasMask, pid) ==> Lands(s, pid, |now|)
    ensures SplitSoFar(s, before, AfterProgram(s, mask, hasMask, pid, now), mask, hasMask, rest + [pid])
  {
    SlotFits(s, pid, |now|);
    if Selected(s, mask, hasMask, pid) {
      AddressedProgram(s, mask, hasMask, pid, now);
    }
    OneMoreProgram(s, before, now, AfterProgram(s, mask, hasMask, pid, now), mask, hasMask, rest, pid);
  }

  /** A grid whose copying programs all have the right bases fills exactly the pages of those programs. */
  lemma {:induction false} GridIsExact(s: Source, before: seq<Lane>, mask: seq<int>, hasMask: bool, order: seq<nat>)
    requires ValidSource(s) && |mask| >= s.pages && Slots(s) * DST_STRIDE <= |before|
    requires forall k :: 0 <= k < |order| ==> order[k] < Slots(s)
    requires forall k :: 0 <= k < |order| && Selected(s, mask, hasMask, order[k]) ==> Addressed(s, order[k])
    ensures AllLand(s, mask, hasMask, order, |before|)
    ensures SplitSoFar(s, before, AfterGrid(s, mask, hasMask, order, before), mask, hasMask, order)
  {
    if order != [] {
      var last := |order| - 1;
      var rest, pid := order[..last], order[last];
      GridIsExact(s, before, mask, hasMask, rest);
      GridStep(s, before, AfterGrid(s, mask, hasMask, rest, before), mask, hasMask, rest, pid);
      assert order == rest + [pid];
    }
  }

  /** The bases of the last page are 32-bit integers. */
  predicate FitsInt32(s: Source)
  {
    s.pages > 0 && s.ratio > 0 ==>
      (s.pages - 1) * s.stride < INT32_END && (Slots(s) - 1) * DST_STRIDE < INT32_END
  }

  lemma FitsAddresses(s: Source, pid: nat)
    requires ValidSource(s) && FitsInt32(s) && pid < Slots(s)
    ensures Addressed(s, pid)
  {
    SlotFits(s, pid, Slots(s) * DST_STRIDE);
    MulMono(pid / s.ratio, s.pages - 1, s.stride);
  }

  /** In a pool of up to 32 GiB a program stays inside exactly when it has the right bases: a wrapped one is negative. */
  lemma LandsIffAddressed(s: Source, pid: nat, n: nat)
    requires ValidSource(s) && pid < Slots(s) && Slots(s) * DST_STRIDE <= n
    requires s.pages * s.stride <= 2 * INT32_END && Slots(s) * DST_STRIDE <= 2 * INT32_END
    ensures Lands(s, pid, n) <==> Addressed(s, pid)
  {
    SlotFits(s, pid, n);
    StartInSource(s, pid);
    MulMono(pid / s.ratio + 1, s.pages, s.stride);
    MulMono(pid + 1, Slots(s), DST_STRIDE);
    SubFits(s, pid);
  }

  lemma SubFits(s: Source, pid: nat)
    requires ValidSource(s)
    ensures pid % s.ratio * DATA_PER_SUB < s.stride
  {
    MulMono(pid % s.ratio + 1, s.ratio, DATA_PER_SUB);
  }

  /** The first of the multiples of `m` from 2^31 on is below 2^32. */
  lemma FirstPast(m: nat, last: nat) returns (k: nat)
    requires 0 < m < INT32_END && last * m >= INT32_END
    ensures 0 < k <= last && INT32_END <= k * m < 2 * INT32_END
  {
    k := (INT32_END - 1) / m + 1;
    DivBounds(INT32_END - 1, m);
    assert (k - 1) * m + m == k * m;
    if last < k {
      MulMono(last, k - 1, m);
    }
  }

  /** A page whose source base is past 32 bits is read from in front of the pool. */
  lemma SourceStrays(s: Source, page: nat, n: nat)
    requires ValidSource(s) && page < s.pages && INT32_END <= page * s.stride < 2 * INT32_END
    ensures page * s.ratio < Slots(s) && !Lands(s, page * s.ratio, n)
  {
    DivMod(page * s.ratio, page, 0, s.ratio);
    MulMono(page, s.pages, s.ratio);
  }

  /** A conversion of the whole pool stays inside the pool and the buffer if and only if the bases of the last page are
      32-bit integers. */
  lemma WholePoolIff(s: Source, n: nat)
    requires ValidSource(s) && s.stride < INT32_END && Slots(s) * DST_STRIDE <= n
    ensures (forall pid: nat :: pid < Slots(s) ==> Lands(s, pid, n)) <==> FitsInt32(s)
  {
    if FitsInt32(s) {
      forall pid: nat | pid < Slots(s)
        ensures Lands(s, pid, n)
      {
        FitsAddresses(s, pid);
        SlotFits(s, pid, n);
        StartInSource(s, pid);
      }
    } else if (s.pages - 1) * s.stride >= INT32_END {
      var page := FirstPast(s.stride, s.pages - 1);
      SourceStrays(s, page, n);
    } else {
      var pid := FirstPast(DST_STRIDE, Slots(s) - 1);
      assert PageBase(pid) < 0 && !Lands(s, pid, n);
    }
  }

  /** A pool of 114718 pages of 256 tokens, 18720 lanes apart, whose token indices are far from the end of 32 bits. */
  function LargePool(): (s: Source)
    ensures ValidSource(s) && s.pages * Tokens(s) < INT32_END
  {
    Source(seq(114718 * 18720, _ => 0), 114718, 4, 18720)
  }

  /** Its conversion does not stay inside: the last page's base is past 2^31. */
  lemma LargePoolStrays(n: nat)
    requires Slots(LargePool()) * DST_STRIDE <= n
    ensures exists pid: nat :: pid < Slots(LargePool()) && !Lands(LargePool(), pid, n)
  {
    WholePoolIff(LargePool(), n);
  }

  /** An index marks the page of its token; negative indices are invalid and mark nothing. */
  predicate Marks(index: int, pbs: nat, page: int)
    requires pbs > 0
  {
    index >= 0 && index / pbs == page
  }

  ghost predicate Touched(indices: seq<int>, pbs: nat, page: int)
    requires pbs > 0
  {
    exists i :: 0 <= i < |indices| && Marks(indices[i], pbs, page)
  }

  /** The mark kernel: afterwards the flags of exactly the touched pages are set. */
  method MarkPages(indices: seq<int>, mask: array<int>, pages: nat, pbs: nat)
    requires pbs > 0 && pages <= mask.Length
    requires forall i :: 0 <= i < |indices| ==> indices[i] < pages * pbs
    requires forall p :: 0 <= p < pages ==> mask[p] == 0
    modifies mask
    ensures forall p :: 0 <= p < pages ==> (mask[p] != 0 <==> Touched(indices, pbs, p))
    ensures forall p :: pages <= p < mask.Length ==> mask[p] == old(mask[p])
  {
    var base := 0;
    while base < |indices|
      invariant 0 <= base
      invariant forall p :: 0 <= p < pages ==>
          (mask[p] != 0 <==> Touched(indices[..if base < |indices| then base else |indices|], pbs, p))
      invariant forall p :: pages <= p < mask.Length ==> mask[p] == old(mask[p])
      decreases |indices| - base
    {
      for k := 0 to MARK_BLOCK
        invariant forall p :: 0 <= p < pages ==>
            (mask[p] != 0 <==> Touched(indices[..if base + k < |indices| then base + k else |indices|], pbs, p))
        invariant forall p :: pages <= p < mask.Length ==> mask[p] == old(mask[p])
      {
        if base + k < |indices| {
          var token := indices[base + k];
          TouchedStep(indices, pbs, base + k);
          if token >= 0 {
            PageInPool(token, pages, pbs);
            mask[token / pbs] := 1;
          }
        }
      }
      base := base + MARK_BLOCK;
    }
    assert indices[..|indices|] == indices;
  }

  lemma TouchedStep(indices: seq<int>, pbs: nat, k: nat)
    requires pbs > 0 && k < |indices|
    ensures forall p :: Touched(indices[..k + 1], pbs, p) <==>
        Touched(indices[..k], pbs, p) || Marks(indices[k], pbs, p)
  {
    forall p
      ensures Touched(indices[..k + 1], pbs, p) <==> Touched(indices[..k], pbs, p) || Marks(indices[k], pbs, p)
    {
      if i :| 0 <= i < k && Marks(indices[..k][i], pbs, p) {
        assert indices[..k + 1][i] == indices[..k][i];
      }
      var longer := indices[..k + 1];
      if i :| 0 <= i < |longer| && Marks(longer[i], pbs, p) {
        if i < k {
          assert indices[..k][i] == longer[i];
        }
      }
      assert longer[k] == indices[k];
    }
  }

  lemma PageInPool(token: nat, pages: nat, pbs: nat)
    requires pbs > 0 && token < pages * pbs
    ensures token / pbs < pages
  {
    DivBounds(token, pbs);
    if pages <= token / pbs {
      MulMono(pages, token / pbs, pbs);
    }
  }

  /** The pool itself when its pages already have 64 tokens, else the buffer that was filled. */
  datatype Layout = AsIs | Split(buf: array<Lane>)

  /** Without indices every page is copied; with them, the pages they touch. */
  predicate UsesMask(touched: Option<seq<int>>)
  {
    touched.Some? && touched.value != []
  }

  ghost predicate Copies(s: Source, touched: Option<seq<int>>, pid: nat)
    requires s.ratio > 0
  {
    touched.Some? && touched.value != [] ==> Touched(touched.value, Tokens(s), pid / s.ratio)
  }

  /** A token that the caller may read afterwards. */
  predicate Referenced(s: Source, touched: Option<seq<int>>, token: nat)
  {
    token < s.pages * Tokens(s) && (touched.Some? && touched.value != [] ==> token in touched.value)
  }

  /** The page of a referenced token is copied. */
  lemma ReferencedIsCopied(s: Source, touched: Option<seq<int>>, token: nat)
    requires ValidSource(s) && Referenced(s, touched, token)
    ensures token / PBS_DST < Slots(s) && Copies(s, touched, token / PBS_DST)
  {
    SubPage(token, s.ratio);
    PageInPool(token, s.pages, Tokens(s));
    PageInPool(token, Slots(s), PBS_DST);
    if UsesMask(touched) {
      var i :| 0 <= i < |touched.value| && touched.value[i] == token;
      assert Marks(touched.value[i], Tokens(s), token / Tokens(s));
    }
  }

  /** Every page that is copied has the right bases. */
  ghost predicate AddressedCopies(s: Source, touched: Option<seq<int>>)
    requires s.ratio > 0
  {
    forall pid: nat :: pid < Slots(s) && Copies(s, touched, pid) ==> Addressed(s, pid)
  }

  /** Copying stays inside the pool and a buffer of `n` lanes. */
  ghost predicate CopiesLand(s: Source, touched: Option<seq<int>>, n: nat)
    requires s.ratio > 0
  {
    forall pid: nat :: pid < Slots(s) && Copies(s, touched, pid) ==> Lands(s, pid, n)
  }

  /** Every referenced token can be read from the layout that was returned. */
  ghost predicate Readable(s: Source, touched: Option<seq<int>>, layout: Layout)
    requires s.ratio > 0
    reads if layout.Split? then {layout.buf} else {}
  {
    layout.AsIs? || forall token: nat :: Referenced(s, touched, token) ==> ReadsSame(layout.buf[..], s, token)
  }

  /** What the flags say about each page. */
  ghost predicate FlagsFit(s: Source, flags: seq<int>, touched: Option<seq<int>>)
    requires s.ratio > 0
  {
    && |flags| == s.pages
    && (UsesMask(touched) ==>
        forall p :: 0 <= p < s.pages ==> (flags[p] != 0 <==> Touched(touched.value, Tokens(s), p)))
  }

  /** The persistent buffers of one device, by tag: split pages and page flags. */
  class SplitBuffers {
    var bufs: map<string, array<Lane>>
    var masks: map<string, array<int>>

    ghost predicate Valid()
      reads this
    {
      && (forall t :: t in bufs ==> bufs[t].Length % DST_STRIDE == 0)
      && (forall t, u :: t in bufs && u in bufs && t != u ==> bufs[t] != bufs[u])
      && (forall t, u :: t in masks && u in masks && t != u ==> masks[t] != masks[u])
    }

    constructor ()
      ensures Valid() && bufs == map[] && masks == map[]
    {
      bufs, masks := map[], map[];
    }

    /** The buffer of a tag with room for `slots` pages: grown, never shrunk. */
    method BufferFor(tag: string, slots: nat) returns (buf: array<Lane>)
      requires Valid()
      modifies this`bufs
      ensures Valid()
      ensures tag in old(bufs) && old(bufs)[tag].Length / DST_STRIDE >= slots ==> bufs == old(bufs)
      ensures tag in bufs && buf == bufs[tag] && slots * DST_STRIDE <= buf.Length
      ensures bufs == old(bufs)[tag := buf]
      ensures buf in old(bufs).Values || fresh(buf)
    {
      if tag !in bufs || bufs[tag].Length / DST_STRIDE < slots {
        buf := new Lane[slots * DST_STRIDE];
        bufs := bufs[tag := buf];
      } else {
        buf := bufs[tag];
      }
    }

    /** The flags of a tag for `pages` pages, those pages' flags cleared, whatever they were. */
    method MaskFor(tag: string, pages: nat) returns (mask: array<int>)
      requires Valid()
      modifies this`masks, set t | t in masks :: masks[t]
      ensures Valid()
      ensures masks == old(masks)[tag := mask] && pages <= mask.Length
      ensures forall p :: 0 <= p < pages ==> mask[p] == 0
      ensures forall t :: t in old(masks) && t != tag ==> old(masks)[t][..] == old(masks[t][..])
      ensures mask in old(masks).Values || fresh(mask)
    {
      if tag !in masks || masks[tag].Length < pages {
        mask := new int[pages];
        masks := masks[tag := mask];
      } else {
        mask := masks[tag];
      }
      forall p | 0 <= p < pages {
        mask[p] := 0;
      }
    }

    /** The flags of the pages to copy; nothing is flagged when there are no indices to go by. */
    method FlagsFor(s: Source, touched: Option<seq<int>>, tag: string) returns (flags: seq<int>)
      requires Valid() && ValidSource(s)
      requires touched.Some? ==>
          forall i :: 0 <= i < |touched.value| ==> touched.value[i] < s.pages * Tokens(s)
      modifies this`masks, set t | t in masks :: masks[t]
      ensures Valid() && FlagsFit(s, flags, touched)
      ensures forall t :: t in masks ==> masks[t] in old(masks).Values || fresh(masks[t])
    {
      flags := seq(s.pages, _ => 0);
      if UsesMask(touched) {
        var mask := MaskFor(tag, s.pages);
        MarkPages(touched.value, mask, s.pages, Tokens(s));
        flags := mask[..s.pages];
      }
    }

    /** Converts a pool to 64-token pages in the tag's buffer. It fails exactly when an access leaves the pool or the
        buffer. If every copied page has the right bases, every referenced token reads the same data and scale lanes
        from the result as from the pool, and pages that were not copied keep what a reused buffer held. No other
        tag's buffer changes. */
    method SplitTo64(s: Source, touched: Option<seq<int>>, tag: string, order: seq<nat>)
      returns (ok: bool, out: Layout)
      requires Valid() && ValidSource(s)
      requires touched.Some? ==>
          forall i :: 0 <= i < |touched.value| ==> touched.value[i] < s.pages * Tokens(s)
      requires (forall k :: 0 <= k < |order| ==> order[k] < Slots(s)) && forall pid :: 0 <= pid < Slots(s) ==> pid in order
      modifies this, (set t | t in bufs :: bufs[t]), set t | t in masks :: masks[t]
      ensures Valid()
      ensures out.AsIs? <==> s.ratio == 1
      ensures out.AsIs? ==> ok && bufs == old(bufs) && forall t :: t in bufs ==> bufs[t][..] == old(bufs[t][..])
      ensures out.Split? ==> bufs == old(bufs)[tag := out.buf] && Slots(s) * DST_STRIDE <= out.buf.Length
      ensures out.Split? ==> (ok <==> CopiesLand(s, touched, out.buf.Length))
      ensures out.Split? && AddressedCopies(s, touched) ==>
          ok && forall token: nat :: Referenced(s, touched, token) ==> ReadsSame(out.buf[..], s, token)
      ensures out.Split? && AddressedCopies(s, touched) && tag in old(bufs) && out.buf == old(bufs)[tag] ==>
          forall q :: 0 <= q < Slots(s) && !Copies(s, touched, q) ==>
              Slot(out.buf[..], q) == Slot(old(bufs[tag][..]), q)
      ensures forall t :: t in old(bufs) && t != tag ==> t in bufs && old(bufs)[t][..] == old(bufs[t][..])
      ensures forall t :: t in bufs ==> bufs[t] in old(bufs).Values || fresh(bufs[t])
      ensures forall t :: t in masks ==> masks[t] in old(masks).Values || fresh(masks[t])
    {
      if s.ratio == 1 {
        return true, AsIs;
      }
      var buf := BufferFor(tag, Slots(s));
      ghost var before := buf[..];
      var flags := FlagsFor(s, touched, tag);
      assert forall t :: t in old(bufs) && t != tag ==> bufs[t] == old(bufs)[t] && bufs[t] != buf;
      ok := SplitGrid(s, buf, order, flags, UsesMask(touched));
      out := Split(buf);
      GridLandsIff(s, flags, touched, order, buf.Length);
      if AddressedCopies(s, touched) {
        SplitKeeps(s, before, flags, touched, order);
      }
    }

    /** The two conversions of one attention call. Each source has its own buffer, so after converting the
        extra source the tokens of the primary one still read the same. */
    method ConvertBoth(primary: Source, indices: seq<int>, extra: Source, extraIndices: Option<seq<int>>,
                       order: seq<nat>, extraOrder: seq<nat>) returns (ok: bool, out: Layout, extraOut: Layout)
      requires Valid() && ValidSource(primary) && ValidSource(extra)
      requires forall i :: 0 <= i < |indices| ==> indices[i] < primary.pages * Tokens(primary)
      requires extraIndices.Some? ==> forall i :: 0 <= i < |extraIndices.value| ==>
          extraIndices.value[i] < extra.pages * Tokens(extra)
      requires (forall k :: 0 <= k < |order| ==> order[k] < Slots(primary))
        && forall pid :: 0 <= pid < Slots(primary) ==> pid in order
      requires (forall k :: 0 <= k < |extraOrder| ==> extraOrder[k] < Slots(extra))
        && forall pid :: 0 <= pid < Slots(extra) ==> pid in extraOrder
      modifies this, (set t | t in bufs :: bufs[t]), set t | t in masks :: masks[t]
      ensures Valid()
      ensures AddressedCopies(primary, Some(indices)) ==> Readable(primary, Some(indices), out)
      ensures AddressedCopies(extra, extraIndices) ==> Readable(extra, extraIndices, extraOut)
      ensures AddressedCopies(primary, Some(indices)) && AddressedCopies(extra, extraIndices) ==> ok
    {
      ok, out := SplitTo64(primary, Some(indices), PRIMARY, order);
      ghost var converted := if out.Split? then out.buf[..] else [];
      assert |PRIMARY| != |EXTRA|;
      ghost var held := bufs;
      assert out.Split? ==> PRIMARY in held && held[PRIMARY] == out.buf;
      var extraOk;
      extraOk, extraOut := SplitTo64(extra, extraIndices, EXTRA, extraOrder);
      assert PRIMARY != EXTRA;
      assert out.Split? ==> held[PRIMARY][..] == converted;
      ok := ok && extraOk;
    }
  }

  lemma SelectedIsCopied(s: Source, flags: seq<int>, touched: Option<seq<int>>, q: nat)
    requires s.ratio > 0 && FlagsFit(s, flags, touched) && q / s.ratio < s.pages
    ensures Selected(s, flags, UsesMask(touched), q) <==> Copies(s, touched, q)
  {
    var page := q / s.ratio;
    assert 0 <= page;
    assert UsesMask(touched) ==> (flags[page] != 0 <==> Touched(touched.value, Tokens(s), page));
  }

  /** A selected page of a grid that stays inside lands. */
  lemma PageLands(s: Source, mask: seq<int>, hasMask: bool, order: seq<nat>, n: nat, pid: nat)
    requires s.ratio > 0 && |mask| >= s.pages && AllLand(s, mask, hasMask, order, n)
    requires pid in order && Selected(s, mask, hasMask, pid)
    ensures Lands(s, pid, n)
  {
    var k :| 0 <= k < |order| && order[k] == pid;
    assert Selected(s, mask, hasMask, order[k]);
  }

  /** The programs of a grid that covers the pool stay inside exactly when the copied pages do. */
  lemma GridLandsIff(s: Source, flags: seq<int>, touched: Option<seq<int>>, order: seq<nat>, n: nat)
    requires ValidSource(s) && FlagsFit(s, flags, touched) && Slots(s) * DST_STRIDE <= n
    requires (forall k :: 0 <= k < |order| ==> order[k] < Slots(s)) && forall pid :: 0 <= pid < Slots(s) ==> pid in order
    ensures AllLand(s, flags, UsesMask(touched), order, n) <==> CopiesLand(s, touched, n)
  {
    if AllLand(s, flags, UsesMask(touched), order, n) {
      forall pid: nat | pid < Slots(s) && Copies(s, touched, pid)
        ensures Lands(s, pid, n)
      {
        SlotFits(s, pid, n);
        SelectedIsCopied(s, flags, touched, pid);
        PageLands(s, flags, UsesMask(touched), order, n, pid);
      }
    } else {
      var k :| 0 <= k < |order| && Selected(s, flags, UsesMask(touched), order[k]) && !Lands(s, order[k], n);
      SelectedIsCopied(s, flags, touched, order[k]);
    }
  }

  /** In a pool of up to 32 GiB a conversion stays inside if and only if every copied page has the right bases, so that
      every referenced token reads the same. */
  lemma CopiesLandIff(s: Source, touched: Option<seq<int>>, n: nat)
    requires ValidSource(s) && Slots(s) * DST_STRIDE <= n
    requires s.pages * s.stride <= 2 * INT32_END && Slots(s) * DST_STRIDE <= 2 * INT32_END
    ensures CopiesLand(s, touched, n) <==> AddressedCopies(s, touched)
  {
    forall pid: nat | pid < Slots(s)
      ensures Lands(s, pid, n) <==> Addressed(s, pid)
    {
      LandsIffAddressed(s, pid, n);
    }
  }

  lemma SlotOutcome(s: Source, before: seq<Lane>, after: seq<Lane>, flags: seq<int>, touched: Option<seq<int>>,
                    order: seq<nat>, q: nat)
    requires ValidSource(s) && FlagsFit(s, flags, touched) && Slots(s) * DST_STRIDE <= |before|
    requires q in order && q < Slots(s) && SplitSoFar(s, before, after, flags, UsesMask(touched), order)
    ensures q / s.ratio < s.pages && (q + 1) * DST_STRIDE <= |before| == |after|
    ensures Slot(after, q) == if Copies(s, touched, q) then SlotAfter(s, before, q) else Slot(before, q)
  {
    SlotFits(s, q, |before|);
    SelectedIsCopied(s, flags, touched, q);
  }

  lemma TokenIsReadable(s: Source, before: seq<Lane>, after: seq<Lane>, flags: seq<int>, touched: Option<seq<int>>,
                        order: seq<nat>, token: nat)
    requires ValidSource(s) && FlagsFit(s, flags, touched) && Slots(s) * DST_STRIDE <= |before|
    requires forall pid :: 0 <= pid < Slots(s) ==> pid in order
    requires SplitSoFar(s, before, after, flags, UsesMask(touched), order)
    requires Referenced(s, touched, token)
    ensures ReadsSame(after, s, token)
  {
    ReferencedIsCopied(s, touched, token);
    var pid := token / PBS_DST;
    SlotOutcome(s, before, after, flags, touched, order, pid);
    assert Slot(after, pid)[..USED] == Image(s, pid);
    CopiedTokenReadsSame(after, s, token);
  }

  /** What a finished grid means for tokens and for pages that were not copied. */
  lemma SplitKeeps(s: Source, before: seq<Lane>, flags: seq<int>, touched: Option<seq<int>>, order: seq<nat>)
    requires ValidSource(s) && FlagsFit(s, flags, touched) && Slots(s) * DST_STRIDE <= |before|
    requires (forall k :: 0 <= k < |order| ==> order[k] < Slots(s)) && forall pid :: 0 <= pid < Slots(s) ==> pid in order
    requires AddressedCopies(s, touched)
    ensures AllLand(s, flags, UsesMask(touched), order, |before|)
    ensures var after := AfterGrid(s, flags, UsesMask(touched), order, before);
            && (forall token: nat :: Referenced(s, touched, token) ==> ReadsSame(after, s, token))
            && (forall q :: 0 <= q < Slots(s) && !Copies(s, touched, q) ==> Slot(after, q) == Slot(before, q))
  {
    forall k | 0 <= k < |order| && Selected(s, flags, UsesMask(touched), order[k])
      ensures Addressed(s, order[k])
    {
      SelectedIsCopied(s, flags, touched, order[k]);
    }
    GridIsExact(s, before, flags, UsesMask(touched), order);
    var after := AfterGrid(s, flags, UsesMask(touched), order, before);
    forall token: nat | Referenced(s, touched, token)
      ensures ReadsSame(after, s, token)
    {
      TokenIsReadable(s, before, after, flags, touched, order, token);
    }
    forall q | 0 <= q < Slots(s) && !Copies(s, touched, q)
      ensures Slot(after, q) == Slot(before, q)
    {
      SlotOutcome(s, before, after, flags, touched, order, q);
    }
  }
}

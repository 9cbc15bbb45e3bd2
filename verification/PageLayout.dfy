/** Footer-format KV pages, in 64-bit lanes: a page of `pbs` tokens holds 72 data lanes per token, then one
    scale lane per token, then padding up to the page stride. */
module PageLayout {
  import opened Arith

  type Lane = i: int | 0 <= i < 0x1_0000_0000_0000_0000

  /** 576 data bytes per token. */
  const DATA_LANES: nat := 72

  /** Tokens per page of the layout the attention kernel reads. */
  const PBS_DST: nat := 64

  /** Data lanes of a 64-token page; its scales start here. */
  const DATA_PER_SUB: nat := PBS_DST * DATA_LANES

  /** Lanes that a program writes: data and one scale lane per token. */
  const USED: nat := DATA_PER_SUB + PBS_DST

  /** The page stride: 37376 bytes rounded up to a multiple of 576, which is 37440. */
  const DST_STRIDE: nat := 4680

  lemma StrideIsRoundedUp()
    ensures USED * 8 == 37376
    ensures DST_STRIDE * 8 % 576 == 0 && USED * 8 <= DST_STRIDE * 8 < USED * 8 + 576
  {
  }

  /** Where data lane `l` of a token sits in a pool with pages of `pbs` tokens at `stride` lanes. */
  function DataAt(pbs: nat, stride: nat, token: nat, l: nat): int
    requires pbs > 0
  {
    token / pbs * stride + token % pbs * DATA_LANES + l
  }

  function ScaleAt(pbs: nat, stride: nat, token: nat): int
    requires pbs > 0
  {
    token / pbs * stride + pbs * DATA_LANES + token % pbs
  }

  lemma InPage(pbs: nat, stride: nat, page: nat, at: nat)
    requires at < stride
    ensures (page * stride + at) / stride == page && (page * stride + at) % stride == at
  {
    DivMod(page * stride + at, page, at, stride);
  }

  /** Data lane `l` of a token is lane (token % pbs) * 72 + l of its page, and its scale is behind all data lanes. */
  lemma LaneOfPage(pbs: nat, stride: nat, token: nat, l: nat)
    requires pbs > 0 && l < DATA_LANES && pbs * DATA_LANES + pbs <= stride
    ensures var at, scale := DataAt(pbs, stride, token, l), ScaleAt(pbs, stride, token);
            && 0 <= at && at / stride == token / pbs && at % stride < pbs * DATA_LANES
            && at % stride / DATA_LANES == token % pbs && at % stride % DATA_LANES == l
            && 0 <= scale && scale / stride == token / pbs && scale % stride == pbs * DATA_LANES + token % pbs
  {
    var slot := token % pbs;
    MulMono(0, token / pbs, stride);
    MulMono(slot, pbs, DATA_LANES);
    InPage(pbs, stride, token / pbs, slot * DATA_LANES + l);
    InPage(pbs, stride, token / pbs, pbs * DATA_LANES + slot);
    DivMod(slot * DATA_LANES + l, slot, l, DATA_LANES);
  }

  /** No two lanes share a place: not of one token, nor of two, nor data and scales. */
  lemma LanesAreApart(pbs: nat, stride: nat, token: nat, l: nat, other: nat, m: nat)
    requires pbs > 0 && l < DATA_LANES && m < DATA_LANES && pbs * DATA_LANES + pbs <= stride
    ensures DataAt(pbs, stride, token, l) == DataAt(pbs, stride, other, m) <==> token == other && l == m
    ensures ScaleAt(pbs, stride, token) == ScaleAt(pbs, stride, other) <==> token == other
    ensures DataAt(pbs, stride, token, l) != ScaleAt(pbs, stride, other)
  {
    LaneOfPage(pbs, stride, token, l);
    LaneOfPage(pbs, stride, other, m);
    assert token == token / pbs * pbs + token % pbs && other == other / pbs * pbs + other % pbs;
  }

  /** The source pool: `pages` pages of 64 * ratio tokens, `stride` lanes apart. */
  datatype Source = Source(lanes: seq<Lane>, pages: nat, ratio: nat, stride: nat)

  function Tokens(s: Source): nat
  {
    PBS_DST * s.ratio
  }

  function Slots(s: Source): nat
  {
    s.pages * s.ratio
  }

  ghost predicate ValidSource(s: Source)
  {
    && s.ratio > 0
    && Tokens(s) * DATA_LANES + Tokens(s) <= s.stride
    && |s.lanes| == s.pages * s.stride
  }

  /** Where the source page of the 64-token page `pid` begins. */
  function PageStart(s: Source, pid: nat): nat
    requires s.ratio > 0
  {
    pid / s.ratio * s.stride
  }

  /** The data and the scales of the 64 tokens, in a source page that begins at `base`. */
  function DataFrom(s: Source, base: int, pid: nat): int
    requires s.ratio > 0
  {
    base + pid % s.ratio * DATA_PER_SUB
  }

  function ScalesFrom(s: Source, base: int, pid: nat): int
    requires s.ratio > 0
  {
    base + Tokens(s) * DATA_LANES + pid % s.ratio * PBS_DST
  }

  /** The 64 tokens of sub-page `pid` lie in the pool if its source page begins at `base`. */
  predicate InSource(s: Source, base: int, pid: nat)
    requires s.ratio > 0
  {
    && 0 <= DataFrom(s, base, pid) && DataFrom(s, base, pid) + DATA_PER_SUB <= |s.lanes|
    && 0 <= ScalesFrom(s, base, pid) && ScalesFrom(s, base, pid) + PBS_DST <= |s.lanes|
  }

  lemma StartInSource(s: Source, pid: nat)
    requires ValidSource(s) && pid / s.ratio < s.pages
    ensures InSource(s, PageStart(s, pid), pid)
  {
    MulMono(pid / s.ratio, s.pages, s.stride);
    MulMono(0, pid / s.ratio, s.stride);
  }

  /** The data and scale lanes of the 64 tokens. */
  function Gathered(s: Source, base: int, pid: nat): (r: seq<Lane>)
    requires s.ratio > 0 && InSource(s, base, pid)
    ensures |r| == USED
  {
    s.lanes[DataFrom(s, base, pid)..DataFrom(s, base, pid) + DATA_PER_SUB]
      + s.lanes[ScalesFrom(s, base, pid)..ScalesFrom(s, base, pid) + PBS_DST]
  }

  /** What the 64-token page `pid` must hold: the data and scale lanes of its tokens. */
  function Image(s: Source, pid: nat): (r: seq<Lane>)
    requires ValidSource(s) && pid / s.ratio < s.pages
    ensures |r| == USED
  {
    StartInSource(s, pid);
    Gathered(s, PageStart(s, pid), pid)
  }

  /** Page `q` of a buffer. */
  function Slot(buf: seq<Lane>, q: nat): (r: seq<Lane>)
    requires (q + 1) * DST_STRIDE <= |buf|
    ensures |r| == DST_STRIDE
  {
    buf[q * DST_STRIDE..(q + 1) * DST_STRIDE]
  }

  ghost predicate Holds(buf: seq<Lane>, s: Source, q: nat)
  {
    && ValidSource(s) && q / s.ratio < s.pages && (q + 1) * DST_STRIDE <= |buf|
    && Slot(buf, q)[..USED] == Image(s, q)
  }

  /** A token reads the same 72 data lanes and the same scale lane from either layout. */
  ghost predicate ReadsSame(buf: seq<Lane>, s: Source, token: nat)
    requires s.ratio > 0
  {
    && (forall l :: 0 <= l < DATA_LANES ==>
        && 0 <= DataAt(PBS_DST, DST_STRIDE, token, l) < |buf|
        && 0 <= DataAt(Tokens(s), s.stride, token, l) < |s.lanes|
        && buf[DataAt(PBS_DST, DST_STRIDE, token, l)] == s.lanes[DataAt(Tokens(s), s.stride, token, l)])
    && 0 <= ScaleAt(PBS_DST, DST_STRIDE, token) < |buf|
    && 0 <= ScaleAt(Tokens(s), s.stride, token) < |s.lanes|
    && buf[ScaleAt(PBS_DST, DST_STRIDE, token)] == s.lanes[ScaleAt(Tokens(s), s.stride, token)]
  }

  /** The 64-token page of a token is a sub-page of its source page. */
  lemma SubPage(token: nat, ratio: nat)
    requires ratio > 0
    ensures token / PBS_DST / ratio == token / (PBS_DST * ratio)
    ensures token % (PBS_DST * ratio) == token / PBS_DST % ratio * PBS_DST + token % PBS_DST
  {
    var pid := token / PBS_DST;
    var page, sub := pid / ratio, pid % ratio;
    assert pid == page * ratio + sub;
    assert token == pid * PBS_DST + token % PBS_DST;
    assert token == page * (PBS_DST * ratio) + (sub * PBS_DST + token % PBS_DST);
    MulMono(sub + 1, ratio, PBS_DST);
    DivMod(token, page, sub * PBS_DST + token % PBS_DST, PBS_DST * ratio);
  }

  lemma AddressInSource(s: Source, token: nat)
    requires s.ratio > 0
    ensures forall l ::
        DataAt(Tokens(s), s.stride, token, l)
          == DataFrom(s, PageStart(s, token / PBS_DST), token / PBS_DST) + (token % PBS_DST * DATA_LANES + l)
    ensures ScaleAt(Tokens(s), s.stride, token)
          == ScalesFrom(s, PageStart(s, token / PBS_DST), token / PBS_DST) + token % PBS_DST
  {
    SubPage(token, s.ratio);
  }

  /** Splitting keeps token addressing: a token whose 64-token page was copied reads the same from it. */
  lemma CopiedTokenReadsSame(buf: seq<Lane>, s: Source, token: nat)
    requires Holds(buf, s, token / PBS_DST)
    ensures ReadsSame(buf, s, token)
  {
    var pid, o := token / PBS_DST, token % PBS_DST;
    AddressInSource(s, token);
    StartInSource(s, pid);
    var slot, image := Slot(buf, pid), Image(s, pid);
    forall l | 0 <= l < DATA_LANES
      ensures buf[DataAt(PBS_DST, DST_STRIDE, token, l)] == s.lanes[DataAt(Tokens(s), s.stride, token, l)]
    {
      assert slot[o * DATA_LANES + l] == slot[..USED][o * DATA_LANES + l] == image[o * DATA_LANES + l];
    }
    assert slot[DATA_PER_SUB + o] == slot[..USED][DATA_PER_SUB + o] == image[DATA_PER_SUB + o];
  }
}

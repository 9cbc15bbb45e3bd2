/** The bitmap of owned rows that were fetched at least once: one bit per owned row, eight to a byte. */
module SeenBits {
  import opened Totals

  /** A byte, as the set of the positions of its set bits. */
  type BitByte = b: set<nat> | forall k :: k in b ==> k < 8

  ghost function ByteBits(b: BitByte, unit: ()): nat
  {
    |b|
  }

  /** Number of set bits of the whole bitmap. */
  ghost function SetBits(seen: seq<BitByte>): nat
  {
    Total<BitByte, ()>(seen, (), ByteBits)
  }

  /** Whether the row with local index `local` is marked. */
  predicate Marked(seen: seq<BitByte>, local: nat)
    requires local / 8 < |seen|
  {
    local % 8 in seen[local / 8]
  }

  /** The bitmap after a winning compare-and-swap for row `local`. */
  function Mark(seen: seq<BitByte>, local: nat): seq<BitByte>
    requires local / 8 < |seen|
  {
    seen[local / 8 := seen[local / 8] + {local % 8}]
  }

  /** Marking a clear bit adds one set bit and touches no other row. */
  lemma MarkOne(seen: seq<BitByte>, local: nat)
    requires local / 8 < |seen| && !Marked(seen, local)
    ensures SetBits(Mark(seen, local)) == SetBits(seen) + 1
    ensures Marked(Mark(seen, local), local)
    ensures forall other: nat :: other / 8 < |seen| && other != local ==>
                                   (Marked(Mark(seen, local), other) <==> Marked(seen, other))
  {
    var byte: BitByte := seen[local / 8] + {local % 8};
    TotalUpdate<BitByte, ()>(seen, (), ByteBits, local / 8, byte);
    assert Mark(seen, local) == seen[local / 8 := byte];
  }

  lemma {:induction false} SubsetSize(a: set<nat>, b: set<nat>)
    requires a <= b
    ensures |a| <= |b|
    ensures |a| == |b| ==> a == b
    decreases |b|
  {
    if a != {} {
      var x :| x in a;
      SubsetSize(a - {x}, b - {x});
      assert a == (a - {x}) + {x} && b == (b - {x}) + {x};
    } else if b != {} {
      var y :| y in b;
      assert |b| == |b - {y}| + 1;
    }
  }

  /** A byte has at most eight set bits. */
  lemma ByteSize(b: BitByte)
    ensures |b| <= 8
  {
    var full: set<nat> := {0, 1, 2, 3, 4, 5, 6, 7};
    SubsetSize(b, full);
  }
}

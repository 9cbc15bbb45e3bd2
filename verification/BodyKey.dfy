/** The dedup key of a request body: the digest of its length, a colon, and its first MiB. The digest
    is taken as injective, so a key is the string that is hashed. */
module BodyKey {
  const MAX_HASH_BYTES: nat := 0x10_0000
  const COLON: int := 58

  /** Decimal digits of `n` as character codes, most significant first. */
  function Decimal(n: nat): (d: seq<int>)
    ensures |d| > 0 && forall i :: 0 <= i < |d| ==> 48 <= d[i] < 58
  {
    if n < 10 then [48 + n] else Decimal(n / 10) + [48 + n % 10]
  }

  function Value(d: seq<int>): int
  {
    if d == [] then 0 else Value(d[..|d| - 1]) * 10 + (d[|d| - 1] - 48)
  }

  lemma {:induction false} DecimalRoundTrip(n: nat)
    ensures Value(Decimal(n)) == n
  {
    if n >= 10 {
      DecimalRoundTrip(n / 10);
      assert Decimal(n)[..|Decimal(n)| - 1] == Decimal(n / 10);
    } else {
      assert Decimal(n)[..0] == [];
    }
  }

  function Head(body: seq<int>): seq<int>
  {
    if |body| <= MAX_HASH_BYTES then body else body[..MAX_HASH_BYTES]
  }

  function Key(body: seq<int>): seq<int>
  {
    Decimal(|body|) + [COLON] + Head(body)
  }

  /** A colon-free prefix before the first colon can be read off. */
  lemma SplitAtColon(a: seq<int>, p: seq<int>, b: seq<int>, q: seq<int>)
    requires COLON !in a && COLON !in b && a + [COLON] + p == b + [COLON] + q
    ensures a == b && p == q
  {
    var s := a + [COLON] + p;
    assert s[|a|] == COLON && s[|b|] == COLON;
    assert forall i :: 0 <= i < |a| ==> s[i] == a[i];
    assert forall i :: 0 <= i < |b| ==> s[i] == b[i];
    assert |a| == |b|;
    assert a == s[..|a|] && b == s[..|b|];
    assert p == s[|a| + 1..] && q == s[|b| + 1..];
  }

  /** Two bodies share a key exactly when they have the same length and the same first MiB. */
  lemma SameKeyIff(a: seq<int>, b: seq<int>)
    ensures Key(a) == Key(b) <==> |a| == |b| && Head(a) == Head(b)
  {
    if Key(a) == Key(b) {
      SplitAtColon(Decimal(|a|), Head(a), Decimal(|b|), Head(b));
      DecimalRoundTrip(|a|);
      DecimalRoundTrip(|b|);
    }
  }

  /** For bodies up to a MiB the key is the identity of the body. */
  lemma SmallBodiesHaveOwnKeys(a: seq<int>, b: seq<int>)
    requires |a| <= MAX_HASH_BYTES
    ensures Key(a) == Key(b) <==> a == b
  {
    SameKeyIff(a, b);
  }

  /** Larger bodies can collide: they need only differ behind the first MiB. */
  lemma LargeBodiesCollide() returns (a: seq<int>, b: seq<int>)
    ensures a != b && Key(a) == Key(b)
  {
    var head := seq(MAX_HASH_BYTES, _ => 0);
    a, b := head + [0], head + [1];
    assert a[MAX_HASH_BYTES] != b[MAX_HASH_BYTES];
    assert Head(a) == head == Head(b);
    SameKeyIff(a, b);
  }
}

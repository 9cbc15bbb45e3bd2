/** `str.replace` and `str.count`: scanning from the left, matches do not overlap. */
module Placeholders {
  const PLACEHOLDER: string := "<\U{FF5C}deepseek_image\U{FF5C}>"
  const REPLACEMENT: string := "[\U{56FE}\U{50CF}]"

  predicate StartsWith(s: string, p: string)
  {
    |p| <= |s| && s[..|p|] == p
  }

  /** `p` occurs in `s` at index `i`. */
  predicate OccursAt(s: string, p: string, i: int)
  {
    0 <= i <= |s| && StartsWith(s[i..], p)
  }

  ghost predicate Contains(s: string, p: string)
  {
    exists i :: OccursAt(s, p, i)
  }

  function Replace(s: string, p: string, r: string): string
    requires p != ""
    decreases |s|
  {
    if s == "" then ""
    else if StartsWith(s, p) then r + Replace(s[|p|..], p, r)
    else [s[0]] + Replace(s[1..], p, r)
  }

  function Count(s: string, p: string): nat
    requires p != ""
    decreases |s|
  {
    if s == "" then 0
    else if StartsWith(s, p) then 1 + Count(s[|p|..], p)
    else Count(s[1..], p)
  }

  /** No character of the replacement is a character of the pattern. */
  ghost predicate Disjoint(p: string, r: string)
  {
    forall c :: c in r ==> c !in p
  }

  /** No proper suffix of the pattern is also a prefix of it. */
  ghost predicate BorderFree(p: string)
  {
    forall d :: 0 < d < |p| ==> p[d..] != p[..|p| - d]
  }

  lemma PlaceholderFacts()
    ensures |PLACEHOLDER| == 18 && |REPLACEMENT| == 4
    ensures Disjoint(PLACEHOLDER, REPLACEMENT) && BorderFree(PLACEHOLDER)
  {
    assert forall d :: 0 < d < |PLACEHOLDER| ==> PLACEHOLDER[d] != PLACEHOLDER[0];
    OwnFirstLetter(PLACEHOLDER);
  }

  /** A text whose first letter does not occur again has no border. */
  lemma OwnFirstLetter(p: string)
    requires forall d :: 0 < d < |p| ==> p[d] != p[0]
    ensures BorderFree(p)
  {
    forall d | 0 < d < |p|
      ensures p[d..] != p[..|p| - d]
    {
      assert p[d..][0] == p[d] && p[..|p| - d][0] == p[0];
    }
  }

  lemma ContainsAtEither(s: string, p: string)
    requires s != "" && p != ""
    ensures Contains(s, p) <==> StartsWith(s, p) || Contains(s[1..], p)
  {
    if i :| OccursAt(s, p, i) {
      if i == 0 {
        assert s[0..] == s;
      } else if i < |s| {
        assert s[1..][i - 1..] == s[i..];
        assert OccursAt(s[1..], p, i - 1);
      }
    }
    if StartsWith(s, p) {
      assert s[0..] == s;
      assert OccursAt(s, p, 0);
    }
    if i :| OccursAt(s[1..], p, i) {
      assert s[1..][i..] == s[i + 1..];
      assert OccursAt(s, p, i + 1);
    }
  }

  /** What begins with a character foreign to `u` does not begin with `u`. */
  lemma ForeignHead(a: string, b: string, u: string)
    requires a != "" && u != "" && a[0] !in u
    ensures !StartsWith(a + b, u)
  {
    assert (a + b)[0] == a[0] && u[0] in u;
  }

  /** If the result begins with characters of the pattern, so did the source. */
  lemma {:induction false} PrefixSurvives(t: string, p: string, r: string, u: string)
    requires p != "" && r != "" && Disjoint(p, r) && StartsWith(Replace(t, p, r), u)
    requires forall c :: c in u ==> c in p
    ensures StartsWith(t, u)
    decreases |t|
  {
    if u != "" && t != "" {
      var out := Replace(t, p, r);
      if StartsWith(t, p) {
        assert r[0] in r;
        ForeignHead(r, Replace(t[|p|..], p, r), u);
      } else {
        assert out[0] == u[0] && out[0] == t[0];
        assert out == [t[0]] + Replace(t[1..], p, r);
        assert out[1..] == Replace(t[1..], p, r);
        assert u[1..] == out[..|u|][1..] == out[1..][..|u| - 1];
        PrefixSurvives(t[1..], p, r, u[1..]);
        assert t[..|u|] == [t[0]] + t[1..][..|u| - 1];
        assert u == [u[0]] + u[1..];
      }
    }
  }

  /** A prefix that shares no character with the pattern takes no part in any match. */
  lemma {:induction false} SkipForeign(a: string, b: string, p: string)
    requires p != "" && (forall c :: c in a ==> c !in p) && Contains(a + b, p)
    ensures Contains(b, p)
    decreases |a|
  {
    if a == "" {
      assert a + b == b;
    } else {
      assert (a + b)[1..] == a[1..] + b;
      assert a[0] in a;
      ForeignHead(a, b, p);
      ContainsAtEither(a + b, p);
      SkipForeign(a[1..], b, p);
    }
  }

  /** After replacing, the pattern is gone. */
  lemma {:induction false} ReplaceRemovesAll(s: string, p: string, r: string)
    requires p != "" && r != "" && Disjoint(p, r)
    ensures !Contains(Replace(s, p, r), p)
    decreases |s|
  {
    if s == "" {
    } else if StartsWith(s, p) {
      ReplaceRemovesAll(s[|p|..], p, r);
      if Contains(Replace(s, p, r), p) {
        SkipForeign(r, Replace(s[|p|..], p, r), p);
      }
    } else {
      var rest := Replace(s[1..], p, r);
      ReplaceRemovesAll(s[1..], p, r);
      ContainsAtEither([s[0]] + rest, p);
      assert ([s[0]] + rest)[1..] == rest;
      if StartsWith([s[0]] + rest, p) {
        PrefixSurvives(s, p, r, p);
      }
    }
  }

  /** The count is zero exactly when the pattern does not occur, and then nothing is replaced. */
  lemma {:induction false} CountZeroIff(s: string, p: string, r: string)
    requires p != ""
    ensures Count(s, p) == 0 <==> !Contains(s, p)
    ensures !Contains(s, p) ==> Replace(s, p, r) == s
    decreases |s|
  {
    if s != "" {
      ContainsAtEither(s, p);
      if !StartsWith(s, p) {
        CountZeroIff(s[1..], p, r);
        assert s == [s[0]] + s[1..];
      }
    }
  }

  /** The parts with `sep` between them. */
  function Join(parts: seq<string>, sep: string): string
  {
    if parts == [] then "" else if |parts| == 1 then parts[0] else parts[0] + sep + Join(parts[1..], sep)
  }

  /** The text between the matches, some of it empty. */
  function Split(s: string, p: string): (parts: seq<string>)
    requires p != ""
    ensures |parts| == Count(s, p) + 1
    decreases |s|
  {
    if s == "" then [""]
    else if StartsWith(s, p) then [""] + Split(s[|p|..], p)
    else var rest := Split(s[1..], p); [[s[0]] + rest[0]] + rest[1..]
  }

  /** No part holds the pattern. */
  ghost predicate Free(parts: seq<string>, p: string)
  {
    forall i :: 0 <= i < |parts| ==> !Contains(parts[i], p)
  }

  lemma FirstOfJoin(head: string, parts: seq<string>, sep: string)
    requires parts != []
    ensures Join([head + parts[0]] + parts[1..], sep) == head + Join(parts, sep)
  {
    var longer := [head + parts[0]] + parts[1..];
    assert longer[1..] == parts[1..];
    if |parts| > 1 {
      assert head + (parts[0] + sep + Join(parts[1..], sep)) == head + parts[0] + sep + Join(parts[1..], sep);
    }
  }

  lemma EmptyHead(parts: seq<string>, sep: string)
    requires parts != []
    ensures Join([""] + parts, sep) == sep + Join(parts, sep)
  {
    assert ([""] + parts)[1..] == parts;
  }

  lemma {:induction false} JoinSplit(s: string, p: string)
    requires p != ""
    ensures Join(Split(s, p), p) == s
    decreases |s|
  {
    if s == "" {
    } else if StartsWith(s, p) {
      JoinSplit(s[|p|..], p);
      EmptyHead(Split(s[|p|..], p), p);
      assert s == p + s[|p|..];
    } else {
      JoinSplit(s[1..], p);
      FirstOfJoin([s[0]], Split(s[1..], p), p);
      assert s == [s[0]] + s[1..];
    }
  }

  lemma {:induction false} JoinReplaces(s: string, p: string, r: string)
    requires p != ""
    ensures Join(Split(s, p), r) == Replace(s, p, r)
    decreases |s|
  {
    if s == "" {
    } else if StartsWith(s, p) {
      JoinReplaces(s[|p|..], p, r);
      EmptyHead(Split(s[|p|..], p), r);
    } else {
      JoinReplaces(s[1..], p, r);
      FirstOfJoin([s[0]], Split(s[1..], p), r);
    }
  }

  lemma EmptyIsFree(p: string)
    requires p != ""
    ensures !Contains("", p)
  {
  }

  /** The first part stands at the front of the text. */
  lemma FirstPart(s: string, p: string)
    requires p != ""
    ensures Split(s, p)[0] <= s
  {
    JoinSplit(s, p);
  }

  lemma {:induction false} SplitIsFree(s: string, p: string)
    requires p != ""
    ensures Free(Split(s, p), p)
    decreases |s|
  {
    EmptyIsFree(p);
    if s == "" {
    } else if StartsWith(s, p) {
      SplitIsFree(s[|p|..], p);
    } else {
      var rest := Split(s[1..], p);
      SplitIsFree(s[1..], p);
      var first := [s[0]] + rest[0];
      FirstPart(s, p);
      assert first <= s && first[1..] == rest[0];
      ContainsAtEither(first, p);
    }
  }

  /** Replacing keeps the text between the placeholders as it was: there are parts, none of which holds the pattern, that
      the pattern joins to the source, the replacement to the result, and that are one more than was counted. */
  lemma ReplaceKeepsTheRest(s: string, p: string, r: string) returns (parts: seq<string>)
    requires p != ""
    ensures Free(parts, p) && |parts| == Count(s, p) + 1
    ensures Join(parts, p) == s && Join(parts, r) == Replace(s, p, r)
  {
    parts := Split(s, p);
    SplitIsFree(s, p);
    JoinSplit(s, p);
    JoinReplaces(s, p, r);
  }

  lemma OneMore(n: int, d: int)
    ensures (1 + n) * d == n * d + d
  {
  }

  /** Every replacement changes the length by the same amount. */
  lemma {:induction false} ReplaceLength(s: string, p: string, r: string)
    requires p != ""
    ensures |Replace(s, p, r)| == |s| + Count(s, p) * (|r| - |p|)
    decreases |s|
  {
    if s == "" {
    } else if StartsWith(s, p) {
      var rest := Count(s[|p|..], p);
      ReplaceLength(s[|p|..], p, r);
      OneMore(rest, |r| - |p|);
    } else {
      ReplaceLength(s[1..], p, r);
    }
  }

  /** The positions at which the pattern occurs, overlapping or not. */
  ghost function Positions(s: string, p: string): set<nat>
  {
    set i: nat | 0 <= i <= |s| && OccursAt(s, p, i)
  }

  lemma PositionsShift(s: string, p: string, n: nat)
    requires n <= |s|
    ensures forall i :: i in Positions(s[n..], p) <==> i >= 0 && i + n in Positions(s, p)
  {
    forall i: int | 0 <= i <= |s| - n
      ensures OccursAt(s[n..], p, i) <==> OccursAt(s, p, i + n)
    {
      assert s[n..][i..] == s[i + n..];
    }
  }

  /** `b` is `a` moved up by `n`. */
  ghost predicate Shifted(a: set<nat>, b: set<nat>, n: nat)
  {
    && (forall i :: i in a <==> i + n in b)
    && forall j :: j in b ==> j >= n
  }

  /** A set of integers and its shift have the same size. */
  lemma {:induction false} ShiftedSize(a: set<nat>, b: set<nat>, n: nat)
    requires Shifted(a, b, n)
    ensures |a| == |b|
    decreases |a|
  {
    if a != {} {
      var x :| x in a;
      ShiftedSize(a - {x}, b - {x + n}, n);
    } else {
      forall j
        ensures j !in b
      {
        if j >= n {
          assert j - n !in a;
        }
      }
    }
  }

  /** Two overlapping occurrences make a border of the pattern. */
  lemma OverlapIsBorder(s: string, p: string, i: int)
    requires StartsWith(s, p) && 0 < i < |p| && OccursAt(s, p, i)
    ensures p[i..] == p[..|p| - i]
  {
    assert p[i..] == s[i..|p|] == s[i..][..|p|][..|p| - i];
  }

  /** A border-free pattern cannot occur inside its own first occurrence. */
  lemma NoOverlap(s: string, p: string, i: int)
    requires BorderFree(p) && StartsWith(s, p) && 0 < i < |p|
    ensures !OccursAt(s, p, i)
  {
    if OccursAt(s, p, i) {
      OverlapIsBorder(s, p, i);
    }
  }

  /** Past the first `n` indices the occurrences are those of the rest of the string. */
  lemma PositionsAfter(s: string, p: string, n: nat)
    requires n <= |s|
    ensures |set i: nat | i in Positions(s, p) && i >= n| == |Positions(s[n..], p)|
  {
    PositionsShift(s, p, n);
    ShiftedSize(Positions(s[n..], p), (set i: nat | i in Positions(s, p) && i >= n), n);
  }

  /** The occurrences of a border-free pattern that starts the string: index 0 and those past it. */
  lemma PositionsOfMatch(s: string, p: string)
    requires p != "" && BorderFree(p) && StartsWith(s, p)
    ensures |Positions(s, p)| == 1 + |Positions(s[|p|..], p)|
  {
    var rest := set i: nat | i in Positions(s, p) && i >= |p|;
    assert s[0..] == s;
    forall i | i in Positions(s, p)
      ensures i == 0 || i in rest
    {
      if 0 < i < |p| {
        NoOverlap(s, p, i);
      }
    }
    assert Positions(s, p) == {0} + rest;
    PositionsAfter(s, p, |p|);
  }

  lemma PositionsOfMiss(s: string, p: string)
    requires s != "" && p != "" && !StartsWith(s, p)
    ensures |Positions(s, p)| == |Positions(s[1..], p)|
  {
    assert s[0..] == s;
    assert Positions(s, p) == (set i: nat | i in Positions(s, p) && i >= 1);
    PositionsAfter(s, p, 1);
  }

  /** For a border-free pattern the scan counts every occurrence. */
  lemma {:induction false} CountIsOccurrences(s: string, p: string)
    requires p != "" && BorderFree(p)
    ensures Count(s, p) == |Positions(s, p)|
    decreases |s|
  {
    if s == "" {
      assert Positions(s, p) == {};
    } else if StartsWith(s, p) {
      PositionsOfMatch(s, p);
      CountIsOccurrences(s[|p|..], p);
    } else {
      PositionsOfMiss(s, p);
      CountIsOccurrences(s[1..], p);
    }
  }
}

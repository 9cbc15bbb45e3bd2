/** The stable sort of a list by an order, as the benchmark analysers use it. */
module Sorting {

  ghost predicate IsTotalPreorder<T(!new)>(le: (T, T) -> bool)
  {
    && (forall a, b :: le(a, b) || le(b, a))
    && (forall a, b, c :: le(a, b) && le(b, c) ==> le(a, c))
  }

  ghost predicate IsSorted<T>(s: seq<T>, le: (T, T) -> bool)
  {
    forall i, j :: 0 <= i < j < |s| ==> le(s[i], s[j])
  }

  /** Before every element that is not smaller. */
  function Insert<T>(x: T, s: seq<T>, le: (T, T) -> bool): seq<T>
  {
    if s == [] then [x]
    else if le(x, s[0]) then [x] + s
    else [s[0]] + Insert(x, s[1..], le)
  }

  function Sort<T>(s: seq<T>, le: (T, T) -> bool): seq<T>
  {
    if s == [] then [] else Insert(s[0], Sort(s[1..], le), le)
  }

  lemma {:induction false} InsertKeeps<T>(x: T, s: seq<T>, le: (T, T) -> bool)
    ensures multiset(Insert(x, s, le)) == multiset(s) + multiset{x}
  {
    if s != [] && !le(x, s[0]) {
      InsertKeeps(x, s[1..], le);
      assert s == [s[0]] + s[1..];
    }
  }

  lemma {:induction false} InsertSorts<T(!new)>(x: T, s: seq<T>, le: (T, T) -> bool)
    requires IsTotalPreorder(le) && IsSorted(s, le)
    ensures IsSorted(Insert(x, s, le), le)
  {
    if s != [] && !le(x, s[0]) {
      InsertSorts(x, s[1..], le);
      InsertKeeps(x, s[1..], le);
      var rest := Insert(x, s[1..], le);
      forall j | 0 <= j < |rest|
        ensures le(s[0], rest[j])
      {
        assert rest[j] in multiset(rest);
        if rest[j] != x {
          assert rest[j] in s[1..];
          var k :| 0 <= k < |s[1..]| && s[1..][k] == rest[j];
          assert le(s[0], s[k + 1]);
        }
      }
    }
  }

  /** The result is sorted and holds the same elements. */
  lemma {:induction false} SortIsSorted<T(!new)>(s: seq<T>, le: (T, T) -> bool)
    requires IsTotalPreorder(le)
    ensures IsSorted(Sort(s, le), le) && multiset(Sort(s, le)) == multiset(s)
  {
    if s != [] {
      SortIsSorted(s[1..], le);
      InsertSorts(s[0], Sort(s[1..], le), le);
      InsertKeeps(s[0], Sort(s[1..], le), le);
      assert s == [s[0]] + s[1..];
    }
  }

  predicate Ties<T>(a: T, b: T, le: (T, T) -> bool)
  {
    le(a, b) && le(b, a)
  }

  /** The elements that tie with `x`, in their order. */
  function Tied<T>(s: seq<T>, x: T, le: (T, T) -> bool): seq<T>
  {
    if s == [] then []
    else if Ties(s[0], x, le) then [s[0]] + Tied(s[1..], x, le)
    else Tied(s[1..], x, le)
  }

  lemma TiedOfCons<T>(y: T, s: seq<T>, x: T, le: (T, T) -> bool)
    ensures Tied([y] + s, x, le) == if Ties(y, x, le) then [y] + Tied(s, x, le) else Tied(s, x, le)
  {
    assert ([y] + s)[1..] == s;
  }

  lemma TieBlocks<T(!new)>(y: T, z: T, x: T, le: (T, T) -> bool)
    requires IsTotalPreorder(le) && !le(y, z) && Ties(y, x, le)
    ensures !Ties(z, x, le)
  {
  }

  lemma {:induction false} InsertGoesFirst<T(!new)>(y: T, s: seq<T>, x: T, le: (T, T) -> bool)
    requires IsTotalPreorder(le)
    ensures Tied(Insert(y, s, le), x, le) == if Ties(y, x, le) then [y] + Tied(s, x, le) else Tied(s, x, le)
  {
    if s == [] || le(y, s[0]) {
      TiedOfCons(y, s, x, le);
    } else {
      InsertGoesFirst(y, s[1..], x, le);
      TiedOfCons(s[0], Insert(y, s[1..], le), x, le);
      if Ties(y, x, le) {
        TieBlocks(y, s[0], x, le);
      }
    }
  }

  /** The sort is stable: elements that tie keep their order. */
  lemma {:induction false} SortIsStable<T(!new)>(s: seq<T>, x: T, le: (T, T) -> bool)
    requires IsTotalPreorder(le)
    ensures Tied(Sort(s, le), x, le) == Tied(s, x, le)
  {
    if s != [] {
      SortIsStable(s[1..], x, le);
      InsertGoesFirst(s[0], Sort(s[1..], le), x, le);
    }
  }
}

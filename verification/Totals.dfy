/** Sums of a weight over a sequence, used for every "how many threads are there" argument. */
module Totals {

  /** The weight `f(_, e)` summed over `s`; `e` carries what the weight depends on besides the element. */
  ghost function Total<T, E>(s: seq<T>, e: E, f: (T, E) -> nat): nat
  {
    if s == [] then 0 else f(s[0], e) + Total(s[1..], e, f)
  }

  lemma {:induction false} TotalUpdate<T, E>(s: seq<T>, e: E, f: (T, E) -> nat, i: nat, x: T)
    requires i < |s|
    ensures Total(s[i := x], e, f) + f(s[i], e) == Total(s, e, f) + f(x, e)
  {
    if i == 0 {
      assert s[i := x][1..] == s[1..];
    } else {
      assert s[i := x][1..] == s[1..][i - 1 := x];
      TotalUpdate(s[1..], e, f, i - 1, x);
    }
  }

  lemma {:induction false} TotalAtLeast<T, E>(s: seq<T>, e: E, f: (T, E) -> nat, i: nat)
    requires i < |s|
    ensures Total(s, e, f) >= f(s[i], e)
  {
    if i > 0 {
      TotalAtLeast(s[1..], e, f, i - 1);
    }
  }

  /** A positive total has a positive contributor. */
  lemma {:induction false} TotalWitness<T, E>(s: seq<T>, e: E, f: (T, E) -> nat) returns (i: nat)
    requires Total(s, e, f) > 0
    ensures i < |s| && f(s[i], e) > 0
  {
    if f(s[0], e) > 0 {
      i := 0;
    } else {
      var k := TotalWitness(s[1..], e, f);
      i := k + 1;
    }
  }

  /** Pointwise weights that differ by at most `d` differ in total by at most `d * |s|`. */
  lemma {:induction false} TotalShift<T, E>(s: seq<T>, t: seq<T>, e: E, e': E, f: (T, E) -> nat, d: nat)
    requires |s| == |t|
    requires forall i :: 0 <= i < |s| ==> f(t[i], e') <= f(s[i], e) + d
    ensures Total(t, e', f) <= Total(s, e, f) + d * |s|
  {
    if s != [] {
      assert forall i :: 0 <= i < |s| - 1 ==> s[1..][i] == s[i + 1] && t[1..][i] == t[i + 1];
      TotalShift(s[1..], t[1..], e, e', f, d);
      assert d * |s| == d * (|s| - 1) + d;
    }
  }

  lemma {:induction false} TotalSame<T, E>(s: seq<T>, t: seq<T>, e: E, f: (T, E) -> nat)
    requires |s| == |t|
    requires forall i :: 0 <= i < |s| ==> f(t[i], e) == f(s[i], e)
    ensures Total(t, e, f) == Total(s, e, f)
  {
    if s != [] {
      assert forall i :: 0 <= i < |s| - 1 ==> s[1..][i] == s[i + 1] && t[1..][i] == t[i + 1];
      TotalSame(s[1..], t[1..], e, f);
    }
  }
}

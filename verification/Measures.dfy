/** Weighted totals over a sequence: the one notion of "sum of" used by the whole project. */
module Measures {

  datatype Option<+T> = None | Some(value: T)

  /** The sum of `w` over the elements of `s`. */
  function Total<T>(s: seq<T>, w: T -> int): int {
    if s == [] then 0 else Total(s[..|s| - 1], w) + w(s[|s| - 1])
  }

  lemma TotalAppend<T>(s: seq<T>, w: T -> int, x: T)
    ensures Total(s + [x], w) == Total(s, w) + w(x)
  {
    assert (s + [x])[..|s|] == s;
  }

  /** Changing one element changes the total by the difference of the two weights. */
  lemma {:induction false} TotalUpdate<T>(s: seq<T>, w: T -> int, i: nat, x: T)
    requires i < |s|
    ensures Total(s[i := x], w) == Total(s, w) - w(s[i]) + w(x)
  {
    var n := |s| - 1;
    if i == n {
      assert s[i := x][..n] == s[..n];
    } else {
      TotalUpdate(s[..n], w, i, x);
      assert s[i := x][..n] == s[..n][i := x];
    }
  }

  lemma {:induction false} TotalConcat<T>(s: seq<T>, t: seq<T>, w: T -> int)
    ensures Total(s + t, w) == Total(s, w) + Total(t, w)
  {
    if t == [] {
      assert s + t == s;
    } else {
      TotalConcat(s, t[..|t| - 1], w);
      assert (s + t)[..|s + t| - 1] == s + t[..|t| - 1];
    }
  }

  /** With weights that are never negative, no element outweighs the total. */
  lemma {:induction false} TotalAtLeast<T>(s: seq<T>, w: T -> int, i: nat)
    requires i < |s|
    requires forall k :: 0 <= k < |s| ==> w(s[k]) >= 0
    ensures 0 <= w(s[i]) <= Total(s, w)
  {
    var n := |s| - 1;
    TotalNonNegative(s[..n], w);
    if i < n {
      TotalAtLeast(s[..n], w, i);
    }
  }

  lemma {:induction false} TotalNonNegative<T>(s: seq<T>, w: T -> int)
    requires forall k :: 0 <= k < |s| ==> w(s[k]) >= 0
    ensures Total(s, w) >= 0
  {
    if s != [] {
      TotalNonNegative(s[..|s| - 1], w);
    }
  }

  /** Pointwise smaller weights give a smaller total. */
  lemma {:induction false} TotalMonotone<T>(s: seq<T>, v: T -> int, w: T -> int)
    requires forall k :: 0 <= k < |s| ==> v(s[k]) <= w(s[k])
    ensures Total(s, v) <= Total(s, w)
  {
    if s != [] {
      TotalMonotone(s[..|s| - 1], v, w);
    }
  }

  lemma {:induction false} TotalSame<T>(s: seq<T>, v: T -> int, w: T -> int)
    requires forall k :: 0 <= k < |s| ==> v(s[k]) == w(s[k])
    ensures Total(s, v) == Total(s, w)
  {
    TotalMonotone(s, v, w);
    TotalMonotone(s, w, v);
  }

  /** If `v` is pointwise at most `w` and the totals agree, the two agree on every element. */
  lemma {:induction false} TotalTight<T>(s: seq<T>, v: T -> int, w: T -> int, i: nat)
    requires forall k :: 0 <= k < |s| ==> v(s[k]) <= w(s[k])
    requires Total(s, v) >= Total(s, w)
    requires i < |s|
    ensures v(s[i]) == w(s[i])
  {
    var n := |s| - 1;
    TotalMonotone(s[..n], v, w);
    if i < n {
      TotalTight(s[..n], v, w, i);
    }
  }

  lemma {:induction false} TotalZero<T>(s: seq<T>, w: T -> int)
    requires forall k :: 0 <= k < |s| ==> w(s[k]) == 0
    ensures Total(s, w) == 0
  {
    if s != [] {
      TotalZero(s[..|s| - 1], w);
    }
  }

  /** A total with at most one weight that is not zero. */
  lemma {:induction false} TotalOne<T>(s: seq<T>, w: T -> int, i: nat)
    requires i < |s| && forall k :: 0 <= k < |s| && k != i ==> w(s[k]) == 0
    ensures Total(s, w) == w(s[i])
  {
    if i == |s| - 1 {
      TotalZero(s[..i], w);
    } else {
      TotalOne(s[..|s| - 1], w, i);
    }
  }

  lemma {:induction false} TotalCount<T>(s: seq<T>, w: T -> int)
    requires forall k :: 0 <= k < |s| ==> w(s[k]) == 1
    ensures Total(s, w) == |s|
  {
    if s != [] {
      TotalCount(s[..|s| - 1], w);
    }
  }
}

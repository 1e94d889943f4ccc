/** Sums of a weight over the elements of a sequence.  With weights 0 and 1 this
    counts the processes that are at a given place of their program. */
module Totals {

  function Total<T>(s: seq<T>, w: T -> nat): nat {
    if s == [] then 0 else Total(s[..|s| - 1], w) + w(s[|s| - 1])
  }

  /** Appending an element adds its weight. */
  lemma TotalSnoc<T>(s: seq<T>, x: T, w: T -> nat)
    ensures Total(s + [x], w) == Total(s, w) + w(x)
  {
    assert (s + [x])[..|s|] == s;
  }

  /** A prefix that grows by one element grows by the weight of that element. */
  lemma TotalPrefix<T>(s: seq<T>, k: nat, w: T -> nat)
    requires k < |s|
    ensures Total(s[..k + 1], w) == Total(s[..k], w) + w(s[k])
  {
    assert s[..k + 1] == s[..k] + [s[k]];
    TotalSnoc(s[..k], s[k], w);
  }

  /** Replacing one element exchanges its weight. */
  lemma {:induction false} TotalUpdate<T>(s: seq<T>, i: nat, x: T, w: T -> nat)
    requires i < |s|
    ensures Total(s[i := x], w) + w(s[i]) == Total(s, w) + w(x)
  {
    var n := |s| - 1;
    if i == n {
      assert s[i := x][..n] == s[..n];
    } else {
      assert s[i := x][..n] == s[..n][i := x];
      TotalUpdate(s[..n], i, x, w);
    }
  }

  /** One element weighs no more than all of them. */
  lemma {:induction false} TotalAtLeast<T>(s: seq<T>, i: nat, w: T -> nat)
    requires i < |s|
    ensures w(s[i]) <= Total(s, w)
  {
    if i < |s| - 1 {
      TotalAtLeast(s[..|s| - 1], i, w);
    }
  }

  /** Two different elements weigh no more than all of them. */
  lemma {:induction false} TotalAtLeastTwo<T>(s: seq<T>, i: nat, j: nat, w: T -> nat)
    requires i < j < |s|
    ensures w(s[i]) + w(s[j]) <= Total(s, w)
  {
    if j < |s| - 1 {
      TotalAtLeastTwo(s[..|s| - 1], i, j, w);
    } else {
      TotalAtLeast(s[..|s| - 1], i, w);
    }
  }

  /** A positive total has a positive element. */
  lemma {:induction false} TotalPositive<T>(s: seq<T>, w: T -> nat)
    ensures Total(s, w) > 0 <==> exists i :: 0 <= i < |s| && w(s[i]) > 0
  {
    if s != [] {
      var r := s[..|s| - 1];
      TotalPositive(r, w);
      if Total(r, w) > 0 {
        var i :| 0 <= i < |r| && w(r[i]) > 0;
        assert w(s[i]) > 0;
      } else if w(s[|s| - 1]) == 0 {
        forall i | 0 <= i < |s| ensures w(s[i]) == 0 {
          if i < |r| { assert r[i] == s[i]; }
        }
      }
    }
  }

  /** Elements of weight at most k weigh at most k times their number. */
  lemma {:induction false} TotalBound<T>(s: seq<T>, k: nat, w: T -> nat)
    requires forall i :: 0 <= i < |s| ==> w(s[i]) <= k
    ensures Total(s, w) <= k * |s|
  {
    if s != [] {
      var r := s[..|s| - 1];
      assert forall i :: 0 <= i < |r| ==> r[i] == s[i];
      TotalBound(r, k, w);
      assert k * |s| == k * |r| + k;
    }
  }

  /** Elements of equal weight. */
  lemma {:induction false} TotalConstant<T>(s: seq<T>, k: nat, w: T -> nat)
    requires forall i :: 0 <= i < |s| ==> w(s[i]) == k
    ensures Total(s, w) == k * |s|
  {
    if s != [] {
      var r := s[..|s| - 1];
      assert forall i :: 0 <= i < |r| ==> r[i] == s[i];
      TotalConstant(r, k, w);
      assert k * |s| == k * |r| + k;
    }
  }

  /** Weights that agree element by element have the same total. */
  lemma {:induction false} TotalAgree<S, T>(s: seq<S>, v: S -> nat, t: seq<T>, w: T -> nat)
    requires |s| == |t|
    requires forall i :: 0 <= i < |s| ==> v(s[i]) == w(t[i])
    ensures Total(s, v) == Total(t, w)
  {
    if s != [] {
      var n := |s| - 1;
      assert forall i :: 0 <= i < n ==> s[..n][i] == s[i] && t[..n][i] == t[i];
      TotalAgree(s[..n], v, t[..n], w);
    }
  }

  /** A weight that is the sum of two has the sum of their totals. */
  lemma {:induction false} TotalSplit<T>(s: seq<T>, w: T -> nat, u: T -> nat, v: T -> nat)
    requires forall i :: 0 <= i < |s| ==> w(s[i]) == u(s[i]) + v(s[i])
    ensures Total(s, w) == Total(s, u) + Total(s, v)
  {
    if s != [] {
      var r := s[..|s| - 1];
      assert forall i :: 0 <= i < |r| ==> r[i] == s[i];
      TotalSplit(r, w, u, v);
    }
  }
}

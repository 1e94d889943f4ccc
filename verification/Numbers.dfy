/** Finite sets of natural numbers and their sizes. */
module Numbers {
  /** The numbers below n. */
  function Below(n: nat): (r: set<nat>)
    ensures |r| == n && forall i: nat :: i in r <==> i < n
  {
    if n == 0 then {} else Below(n - 1) + {n - 1}
  }

  lemma {:induction false} SubsetSize(a: set<nat>, b: set<nat>)
    requires a <= b
    ensures |a| <= |b|
  {
    if a != {} {
      var x :| x in a;
      SubsetSize(a - {x}, b - {x});
    }
  }

  /** Different elements make a set of their number. */
  lemma {:induction false} Elements(t: seq<nat>)
    requires forall i, j :: 0 <= i < j < |t| ==> t[i] != t[j]
    ensures |set i | 0 <= i < |t| :: t[i]| == |t|
  {
    if t != [] {
      var r, x := t[..|t| - 1], t[|t| - 1];
      Elements(r);
      assert (set i | 0 <= i < |t| :: t[i]) == (set i | 0 <= i < |r| :: r[i]) + {x};
    }
  }

  /** A list of different numbers below n that misses one of them is shorter than n. */
  lemma {:induction false} Pigeonhole(t: seq<nat>, n: nat, k: nat)
    requires k < n && forall i :: 0 <= i < |t| ==> t[i] < n && t[i] != k
    requires forall i, j :: 0 <= i < j < |t| ==> t[i] != t[j]
    ensures |t| < n
  {
    var used := set i | 0 <= i < |t| :: t[i];
    Elements(t);
    var below := Below(n);
    assert used <= below - {k};
    SubsetSize(used, below - {k});
  }
}

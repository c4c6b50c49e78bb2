/** Sets held as strictly sorted arrays, and the merging loops over them. */
module Sets {

  predicate Sorted(s: seq<nat>) {
    forall i, j :: 0 <= i < j < |s| ==> s[i] < s[j]
  }

  /** Two sorted arrays with the same elements are the same array. */
  lemma {:induction false} SortedUnique(a: seq<nat>, b: seq<nat>)
    requires Sorted(a) && Sorted(b) && forall x :: x in a <==> x in b
    ensures a == b
    decreases |a|
  {
    if a == [] {
      assert forall i :: 0 <= i < |b| ==> b[i] in b;
    } else {
      assert a[0] in b && b != [] && b[0] in a;
      assert a == [a[0]] + a[1..] && b == [b[0]] + b[1..];
      assert a[0] == b[0];
      forall x ensures x in a[1..] <==> x in b[1..] {
        assert x in a[1..] <==> x in a && x != a[0];
        assert x in b[1..] <==> x in b && x != b[0];
      }
      SortedUnique(a[1..], b[1..]);
    }
  }

  /** Appending something above everything keeps an array sorted. */
  lemma SortedAppend(s: seq<nat>, x: nat)
    requires Sorted(s) && forall y :: y in s ==> y < x
    ensures Sorted(s + [x])
  {
    assert forall i :: 0 <= i < |s| ==> s[i] in s;
  }

  /** set::merge */
  method Merge(l: seq<nat>, r: seq<nat>) returns (d: seq<nat>)
    requires Sorted(l) && Sorted(r)
    ensures Sorted(d) && forall x :: x in d <==> x in l || x in r
  {
    var i, j := 0, 0;
    d := [];
    while i < |l| && j < |r|
      invariant 0 <= i <= |l| && 0 <= j <= |r| && Sorted(d)
      invariant forall x :: x in d <==> x in l[..i] || x in r[..j]
      invariant forall x, k :: x in d && i <= k < |l| ==> x < l[k]
      invariant forall x, k :: x in d && j <= k < |r| ==> x < r[k]
      decreases |l| - i + |r| - j
    {
      if l[i] > r[j] {
        SortedAppend(d, r[j]);
        d := d + [r[j]];
        j := j + 1;
      } else if l[i] < r[j] {
        SortedAppend(d, l[i]);
        d := d + [l[i]];
        i := i + 1;
      } else {
        SortedAppend(d, l[i]);
        d := d + [l[i]];
        i, j := i + 1, j + 1;
      }
    }
    while i < |l|
      invariant 0 <= i <= |l| && 0 <= j <= |r| && Sorted(d) && (i == |l| || j == |r|)
      invariant forall x :: x in d <==> x in l[..i] || x in r[..j]
      invariant forall x, k :: x in d && i <= k < |l| ==> x < l[k]
      invariant forall x, k :: x in d && j <= k < |r| ==> x < r[k]
    {
      SortedAppend(d, l[i]);
      d := d + [l[i]];
      i := i + 1;
    }
    while j < |r|
      invariant i == |l| && 0 <= j <= |r| && Sorted(d)
      invariant forall x :: x in d <==> x in l[..i] || x in r[..j]
      invariant forall x, k :: x in d && j <= k < |r| ==> x < r[k]
    {
      SortedAppend(d, r[j]);
      d := d + [r[j]];
      j := j + 1;
    }
    assert l[..i] == l && r[..j] == r;
  }

  /** Sorted, possibly with repetitions. */
  predicate Ordered(s: seq<nat>) {
    forall i, j :: 0 <= i < j < |s| ==> s[i] <= s[j]
  }

  /** set::substract; its right side may repeat elements. */
  method Substract(l: seq<nat>, r: seq<nat>) returns (d: seq<nat>)
    requires Sorted(l) && Ordered(r)
    ensures Sorted(d) && forall x :: x in d <==> x in l && x !in r
  {
    var i, j := 0, 0;
    d := [];
    while i < |l| && j < |r|
      invariant 0 <= i <= |l| && 0 <= j <= |r| && Sorted(d)
      invariant forall x :: x in d <==> x in l[..i] && x !in r
      invariant forall k, m :: 0 <= k < j && i <= m < |l| ==> r[k] < l[m]
      invariant forall x :: x in d ==> forall k :: i <= k < |l| ==> x < l[k]
      decreases |l| - i + |r| - j
    {
      if l[i] > r[j] {
        j := j + 1;
      } else if l[i] < r[j] {
        assert l[i] !in r;
        SortedAppend(d, l[i]);
        d := d + [l[i]];
        i := i + 1;
      } else {
        i, j := i + 1, j + 1;
      }
    }
    while i < |l|
      invariant 0 <= i <= |l| && Sorted(d) && (i == |l| || j == |r|)
      invariant forall x :: x in d <==> x in l[..i] && x !in r
      invariant forall k, m :: 0 <= k < j <= |r| && i <= m < |l| ==> r[k] < l[m]
      invariant forall x :: x in d ==> forall k :: i <= k < |l| ==> x < l[k]
    {
      assert l[i] !in r;
      SortedAppend(d, l[i]);
      d := d + [l[i]];
      i := i + 1;
    }
    assert l[..i] == l;
  }

  /** set::any: do the two sets meet? */
  method Any(l: seq<nat>, r: seq<nat>) returns (meet: bool)
    requires Sorted(l) && Sorted(r)
    ensures meet <==> exists x :: x in l && x in r
  {
    var i, j := 0, 0;
    while i < |l| && j < |r|
      invariant 0 <= i <= |l| && 0 <= j <= |r|
      invariant forall x :: x in l && x in r ==> x in l[i..] && x in r[j..]
      decreases |l| - i + |r| - j
    {
      if l[i] > r[j] {
        assert r[j] !in l[i..];
        j := j + 1;
      } else if l[i] < r[j] {
        assert l[i] !in r[j..];
        i := i + 1;
      } else {
        assert l[i] in l && r[j] in r;
        return true;
      }
    }
    return false;
  }

  /** set::all: does l contain all of r? */
  method All(l: seq<nat>, r: seq<nat>) returns (covers: bool)
    requires Sorted(l) && Sorted(r)
    ensures covers <==> forall x :: x in r ==> x in l
  {
    var i, j := 0, 0;
    while i < |l| && j < |r|
      invariant 0 <= i <= |l| && 0 <= j <= |r|
      invariant forall x :: x in r[..j] ==> x in l
      invariant forall k, m :: 0 <= k < i && j <= m < |r| ==> l[k] < r[m]
      decreases |l| - i + |r| - j
    {
      if l[i] > r[j] {
        assert r[j] in r && r[j] !in l;
        return false;
      } else if l[i] < r[j] {
        i := i + 1;
      } else {
        assert r[..j + 1] == r[..j] + [r[j]];
        i, j := i + 1, j + 1;
      }
    }
    covers := j == |r|;
    if covers {
      assert r[..j] == r;
    } else {
      assert r[j] in r && r[j] !in l;
    }
  }
}

/**
 The k-d tree: built in place into a flat array of nodes, searched with pruning, over exact arithmetic.
 */
module KdTree {
  import opened Basics

  type Point = seq<real>

  datatype Node = Node(index: int, left: Option<nat>, right: Option<nat>, axis: int)

  const UNUSED := Node(-1, None, None, -1)

  function Elems<T>(s: seq<T>): set<T> {
    set x | x in s
  }

  predicate Distinct<T(==)>(s: seq<T>) {
    forall i, j :: 0 <= i < j < |s| ==> s[i] != s[j]
  }

  // ------------------------------------------------------------------ distances

  predicate PointsOk(points: seq<Point>, dim: nat) {
    dim > 0 && forall i :: 0 <= i < |points| ==> |points[i]| == dim
  }

  /** The squared distance over the first n coordinates. */
  function Dist(p: Point, q: Point, n: nat): real
    requires n <= |p| && n <= |q|
  {
    if n == 0 then 0.0 else Dist(p, q, n - 1) + (p[n - 1] - q[n - 1]) * (p[n - 1] - q[n - 1])
  }

  method SquaredDistance(p: Point, q: Point) returns (dist: real)
    requires |p| == |q|
    ensures dist == Dist(p, q, |p|)
  {
    dist := 0.0;
    for i := 0 to |p|
      invariant dist == Dist(p, q, i)
    {
      dist := dist + (p[i] - q[i]) * (p[i] - q[i]);
    }
  }

  predicate IsSquare(d: real, square: real) {
    square == d * d
  }

  lemma SquareGrows(a: real, b: real)
    requires a >= b >= 0.0
    ensures a * a >= b * b >= 0.0
  {
    assert a * a >= a * b;
    assert a * b >= b * b;
  }

  lemma Square(a: real)
    ensures a * a >= 0.0 && a * a == (0.0 - a) * (0.0 - a)
  {
  }

  /** A point is at least as far away as it is along any one axis. */
  lemma {:induction false} AxisWithinDist(p: Point, q: Point, n: nat, axis: nat)
    requires n <= |p| && n <= |q|
    ensures Dist(p, q, n) >= 0.0
    ensures axis < n ==> Dist(p, q, n) >= (p[axis] - q[axis]) * (p[axis] - q[axis])
  {
    if n > 0 {
      AxisWithinDist(p, q, n - 1, axis);
      Square(p[n - 1] - q[n - 1]);
    }
  }

  /** Points that differ along one axis alone are as far apart as they are along it. */
  lemma {:induction false} AlongOneAxis(p: Point, q: Point, n: nat, axis: nat)
    requires n <= |p| && n <= |q| && forall i :: 0 <= i < n && i != axis ==> p[i] == q[i]
    ensures Dist(p, q, n) == if axis < n then (p[axis] - q[axis]) * (p[axis] - q[axis]) else 0.0
  {
    if n > 0 {
      AlongOneAxis(p, q, n - 1, axis);
    }
  }

  /** A corner that shares each coordinate with one of two points makes a right angle with them. */
  lemma {:induction false} Pythagoras(p: Point, q: Point, corner: Point, n: nat)
    requires n <= |p| && n <= |q| && n <= |corner|
    requires forall i :: 0 <= i < n ==> corner[i] == p[i] || corner[i] == q[i]
    ensures Dist(p, q, n) == Dist(p, corner, n) + Dist(corner, q, n)
  {
    if n > 0 {
      Pythagoras(p, q, corner, n - 1);
    }
  }

  /** On the far side of the splitting plane nothing is closer to the query than the plane. */
  lemma FarSide(query: Point, train: Point, p: Point, axis: nat, d: real, square: real)
    requires axis < |query| == |train| == |p| && d == query[axis] - train[axis] && IsSquare(d, square)
    requires if d < 0.0 then p[axis] >= train[axis] else p[axis] <= train[axis]
    ensures Dist(query, p, |query|) >= square
  {
    var e := query[axis] - p[axis];
    AxisWithinDist(query, p, |query|, axis);
    Square(d);
    Square(e);
    if d < 0.0 {
      SquareGrows(0.0 - e, 0.0 - d);
    } else {
      SquareGrows(e, d);
    }
  }

  // ------------------------------------------------------------------ the tree in the node array

  function Child(id: nat, n: nat): Option<nat> {
    if n == 0 then None else Some(id)
  }

  function Key(points: seq<Point>, index: int, axis: int): real {
    if 0 <= index < |points| && 0 <= axis < |points[index]| then points[index][axis] else 0.0
  }

  /** Nodes lo..hi hold points that are at most, or at least, as far along the axis as `pivot`. */
  ghost predicate OnSide(points: seq<Point>, nodes: seq<Node>, lo: nat, hi: nat, axis: nat, pivot: int, below: bool)
    requires hi <= |nodes|
  {
    forall k :: lo <= k < hi ==>
      if below then Key(points, nodes[k].index, axis) <= Key(points, pivot, axis)
      else Key(points, nodes[k].index, axis) >= Key(points, pivot, axis)
  }

  /** Nodes id..id + n are a tree: the root first, then the left and the right subtree. */
  ghost predicate Tree(points: seq<Point>, dim: nat, nodes: seq<Node>, id: nat, n: nat, depth: nat)
    decreases n
  {
    n > 0 ==>
      var mid := (n - 1) / 2;
      && dim > 0 && id + n <= |nodes| && 0 <= nodes[id].index < |points|
      && nodes[id].axis == depth % dim
      && nodes[id].left == Child(id + 1, mid) && nodes[id].right == Child(id + 1 + mid, n - 1 - mid)
      && OnSide(points, nodes, id + 1, id + 1 + mid, depth % dim, nodes[id].index, true)
      && OnSide(points, nodes, id + 1 + mid, id + n, depth % dim, nodes[id].index, false)
      && Tree(points, dim, nodes, id + 1, mid, depth + 1)
      && Tree(points, dim, nodes, id + 1 + mid, n - 1 - mid, depth + 1)
  }

  /** A tree depends on its own nodes only. */
  lemma {:induction false} TreeSame(points: seq<Point>, dim: nat, nodes: seq<Node>, nodes': seq<Node>, id: nat, n: nat,
                                    depth: nat)
    requires Tree(points, dim, nodes, id, n, depth) && id + n <= |nodes| == |nodes'|
    requires forall k :: id <= k < id + n ==> nodes'[k] == nodes[k]
    ensures Tree(points, dim, nodes', id, n, depth)
    decreases n
  {
    if n > 0 {
      var mid := (n - 1) / 2;
      TreeSame(points, dim, nodes, nodes', id + 1, mid, depth + 1);
      TreeSame(points, dim, nodes, nodes', id + 1 + mid, n - 1 - mid, depth + 1);
    }
  }

  function IndicesIn(nodes: seq<Node>, id: nat, n: nat): (r: seq<int>)
    requires id + n <= |nodes|
    ensures |r| == n && forall k :: 0 <= k < n ==> r[k] == nodes[id + k].index
  {
    seq(n, k requires 0 <= k < n => nodes[id + k].index)
  }

  // ------------------------------------------------------------------ building

  /** t is s with the elements lo..hi rearranged: nothing outside changes, nothing inside is lost. */
  predicate Rearranged(s: seq<int>, lo: nat, hi: nat, t: seq<int>) {
    && lo <= hi <= |s| == |t|
    && (forall k :: 0 <= k < |s| && !(lo <= k < hi) ==> t[k] == s[k])
    && Elems(t[lo..hi]) == Elems(s[lo..hi])
    && (Distinct(s[lo..hi]) ==> Distinct(t[lo..hi]))
  }

  lemma SwapKeeps(s: seq<int>, t: seq<int>, i: nat, j: nat)
    requires i < |s| == |t| && j < |s| && t == s[i := s[j]][j := s[i]]
    ensures Elems(t) == Elems(s) && (Distinct(s) ==> Distinct(t))
  {
    forall x | x in s ensures x in t {
      var k :| 0 <= k < |s| && s[k] == x;
      assert t[if k == i then j else if k == j then i else k] == x;
    }
    forall x | x in t ensures x in s {
      var k :| 0 <= k < |t| && t[k] == x;
    }
  }

  lemma SwapRearranges(s: seq<int>, lo: nat, hi: nat, i: nat, j: nat, t: seq<int>)
    requires lo <= i < hi <= |s| && lo <= j < hi && t == s[i := s[j]][j := s[i]]
    ensures Rearranged(s, lo, hi, t)
  {
    assert t[lo..hi] == s[lo..hi][i - lo := s[j]][j - lo := s[i]];
    SwapKeeps(s[lo..hi], t[lo..hi], i - lo, j - lo);
  }

  lemma RearrangedThen(s: seq<int>, lo: nat, hi: nat, t: seq<int>, u: seq<int>)
    requires Rearranged(s, lo, hi, t) && Rearranged(t, lo, hi, u)
    ensures Rearranged(s, lo, hi, u)
  {
  }

  /** Rearranging a part rearranges the whole. */
  lemma RearrangedPart(s: seq<int>, lo: nat, hi: nat, l: nat, h: nat, t: seq<int>)
    requires lo <= l <= h <= hi <= |s| && Rearranged(s, l, h, t)
    ensures Rearranged(s, lo, hi, t)
  {
    Pieces(s, lo, l, h, hi);
    Pieces(t, lo, l, h, hi);
    assert t[lo..l] == s[lo..l] && t[h..hi] == s[h..hi];
    MiddleOf(s[lo..l], s[l..h], s[h..hi], t[l..h]);
  }

  lemma Pieces(s: seq<int>, lo: nat, l: nat, h: nat, hi: nat)
    requires lo <= l <= h <= hi <= |s|
    ensures s[lo..hi] == s[lo..l] + s[l..h] + s[h..hi]
  {
  }

  lemma MiddleOf(a: seq<int>, b: seq<int>, c: seq<int>, b': seq<int>)
    requires Elems(b') == Elems(b) && |b'| == |b| && (Distinct(b) ==> Distinct(b'))
    ensures Elems(a + b' + c) == Elems(a + b + c)
    ensures Distinct(a + b + c) ==> Distinct(a + b' + c)
  {
    forall x ensures x in a + b' + c <==> x in a + b + c {
      assert x in b' <==> x in Elems(b');
      assert x in b <==> x in Elems(b);
    }
    if Distinct(a + b + c) {
      var l, m := a + b + c, a + b' + c;
      forall i, j | 0 <= i < j < |b| ensures b[i] != b[j] {
        assert b[i] == l[|a| + i] && b[j] == l[|a| + j];
      }
      forall i, j | 0 <= i < j < |m| ensures m[i] != m[j] {
        Apart(a, b, c, b', i, j);
      }
    }
  }

  lemma Apart(a: seq<int>, b: seq<int>, c: seq<int>, b': seq<int>, i: nat, j: nat)
    requires Elems(b') == Elems(b) && |b'| == |b| && Distinct(b') && Distinct(a + b + c)
    requires i < j < |a + b' + c|
    ensures (a + b' + c)[i] != (a + b' + c)[j]
  {
    var l := a + b + c;
    var i' := Where(a, b, c, b', i);
    var j' := Where(a, b, c, b', j);
    assert l[i'] == (a + b' + c)[i] && l[j'] == (a + b' + c)[j];
  }

  lemma Where(a: seq<int>, b: seq<int>, c: seq<int>, b': seq<int>, i: nat) returns (k: nat)
    requires Elems(b') == Elems(b) && |b'| == |b| && i < |a + b' + c|
    ensures k < |a + b + c| && (a + b + c)[k] == (a + b' + c)[i]
    ensures if |a| <= i < |a| + |b| then |a| <= k < |a| + |b| else k == i
  {
    if |a| <= i < |a| + |b| {
      assert b'[i - |a|] in Elems(b');
      assert b'[i - |a|] in b;
      var m :| 0 <= m < |b| && b[m] == b'[i - |a|];
      k := |a| + m;
    } else {
      k := i;
    }
  }

  /** What nth_element promises: the element at mid is where sorting would put it. */
  ghost predicate Partitioned(points: seq<Point>, s: seq<int>, lo: nat, mid: nat, hi: nat, axis: nat) {
    && lo <= mid < hi <= |s|
    && (forall k :: lo <= k < mid ==> Key(points, s[k], axis) <= Key(points, s[mid], axis))
    && (forall k :: mid < k < hi ==> Key(points, s[k], axis) >= Key(points, s[mid], axis))
  }

  method NthElement(points: seq<Point>, a: array<int>, lo: nat, mid: nat, hi: nat, axis: nat)
    requires lo <= mid < hi <= a.Length
    modifies a
    ensures Rearranged(old(a[..]), lo, hi, a[..]) && Partitioned(points, a[..], lo, mid, hi, axis)
  {
    var i := lo;
    while i <= mid
      invariant lo <= i <= mid + 1
      invariant Rearranged(old(a[..]), lo, hi, a[..])
      invariant forall j, k :: lo <= j < i && j <= k < hi ==> Key(points, a[j], axis) <= Key(points, a[k], axis)
    {
      var m := MinIndex(points, a, i, hi, axis);
      ghost var was := a[..];
      a[i], a[m] := a[m], a[i];
      SwapRearranges(was, lo, hi, i, m, a[..]);
      RearrangedThen(old(a[..]), lo, hi, was, a[..]);
      i := i + 1;
    }
  }

  method MinIndex(points: seq<Point>, a: array<int>, lo: nat, hi: nat, axis: nat) returns (m: nat)
    requires lo < hi <= a.Length
    ensures lo <= m < hi && forall k :: lo <= k < hi ==> Key(points, a[m], axis) <= Key(points, a[k], axis)
  {
    m := lo;
    for k := lo + 1 to hi
      invariant lo <= m < k && forall j :: lo <= j < k ==> Key(points, a[m], axis) <= Key(points, a[j], axis)
    {
      if Key(points, a[k], axis) < Key(points, a[m], axis) {
        m := k;
      }
    }
  }

  /** Nodes id.. are a tree of exactly the points lo..hi, each in one node. */
  ghost predicate BuiltFrom(points: seq<Point>, dim: nat, s: seq<int>, lo: nat, hi: nat, nodes: seq<Node>, id: nat,
                            depth: nat) {
    && lo <= hi <= |s| && id + (hi - lo) <= |nodes|
    && Tree(points, dim, nodes, id, hi - lo, depth)
    && Elems(IndicesIn(nodes, id, hi - lo)) == Elems(s[lo..hi])
    && (Distinct(s[lo..hi]) ==> Distinct(IndicesIn(nodes, id, hi - lo)))
  }

  lemma BuiltSame(points: seq<Point>, dim: nat, s: seq<int>, s': seq<int>, lo: nat, hi: nat,
                  nodes: seq<Node>, nodes': seq<Node>, id: nat, depth: nat)
    requires BuiltFrom(points, dim, s, lo, hi, nodes, id, depth) && |s'| == |s| && |nodes'| == |nodes|
    requires forall k :: lo <= k < hi ==> s'[k] == s[k]
    requires forall k :: id <= k < id + (hi - lo) ==> nodes'[k] == nodes[k]
    ensures BuiltFrom(points, dim, s', lo, hi, nodes', id, depth)
  {
    TreeSame(points, dim, nodes, nodes', id, hi - lo, depth);
    assert s'[lo..hi] == s[lo..hi] && IndicesIn(nodes', id, hi - lo) == IndicesIn(nodes, id, hi - lo);
  }

  /** The points of a built subtree are on the side the partition put them. */
  lemma SideKept(points: seq<Point>, dim: nat, s: seq<int>, t: seq<int>, lo: nat, hi: nat, nodes: seq<Node>, id: nat,
                 depth: nat, axis: nat, pivot: int, below: bool)
    requires BuiltFrom(points, dim, t, lo, hi, nodes, id, depth) && hi <= |s| && Elems(t[lo..hi]) == Elems(s[lo..hi])
    requires forall k :: lo <= k < hi ==>
               if below then Key(points, s[k], axis) <= Key(points, pivot, axis)
                 else Key(points, s[k], axis) >= Key(points, pivot, axis)
    ensures OnSide(points, nodes, id, id + (hi - lo), axis, pivot, below)
  {
    var l := IndicesIn(nodes, id, hi - lo);
    forall k | id <= k < id + (hi - lo)
      ensures if below then Key(points, nodes[k].index, axis) <= Key(points, pivot, axis)
              else Key(points, nodes[k].index, axis) >= Key(points, pivot, axis)
    {
      assert l[k - id] in Elems(l);
      assert nodes[k].index in s[lo..hi];
      var m :| 0 <= m < hi - lo && s[lo..hi][m] == nodes[k].index;
      assert s[lo + m] == nodes[k].index;
    }
  }

  /** A root between two built subtrees makes a built tree. */
  lemma RootBuilt(points: seq<Point>, dim: nat, s: seq<int>, t: seq<int>, lo: nat, m: nat, hi: nat, nodes: seq<Node>,
                  id: nat, depth: nat)
    requires dim > 0 && lo <= m < hi <= |s| == |t| && m - lo == (hi - lo - 1) / 2 && 0 <= t[m] < |points|
    requires Partitioned(points, s, lo, m, hi, depth % dim) && t[m] == s[m]
    requires Elems(t[lo..m]) == Elems(s[lo..m]) && Elems(t[m + 1..hi]) == Elems(s[m + 1..hi])
    requires BuiltFrom(points, dim, t, lo, m, nodes, id + 1, depth + 1)
    requires BuiltFrom(points, dim, t, m + 1, hi, nodes, id + 1 + (m - lo), depth + 1)
    requires nodes[id] == Node(t[m], Child(id + 1, m - lo), Child(id + 1 + (m - lo), hi - m - 1), depth % dim)
    ensures BuiltFrom(points, dim, t, lo, hi, nodes, id, depth)
  {
    SidesKept(points, dim, s, t, lo, m, hi, nodes, id, depth);
    RootIndices(t, lo, m, hi, nodes, id);
    RootTree(points, dim, nodes, id, m - lo, hi - lo, depth);
  }

  lemma SidesKept(points: seq<Point>, dim: nat, s: seq<int>, t: seq<int>, lo: nat, m: nat, hi: nat, nodes: seq<Node>,
                  id: nat, depth: nat)
    requires dim > 0 && lo <= m < hi <= |s| == |t| && t[m] == s[m] && Partitioned(points, s, lo, m, hi, depth % dim)
    requires Elems(t[lo..m]) == Elems(s[lo..m]) && Elems(t[m + 1..hi]) == Elems(s[m + 1..hi])
    requires BuiltFrom(points, dim, t, lo, m, nodes, id + 1, depth + 1)
    requires BuiltFrom(points, dim, t, m + 1, hi, nodes, id + 1 + (m - lo), depth + 1)
    ensures OnSide(points, nodes, id + 1, id + 1 + (m - lo), depth % dim, t[m], true)
    ensures OnSide(points, nodes, id + 1 + (m - lo), id + (hi - lo), depth % dim, t[m], false)
  {
    SideKept(points, dim, s, t, lo, m, nodes, id + 1, depth + 1, depth % dim, t[m], true);
    SideKept(points, dim, s, t, m + 1, hi, nodes, id + 1 + (m - lo), depth + 1, depth % dim, t[m], false);
  }

  lemma RootIndices(t: seq<int>, lo: nat, m: nat, hi: nat, nodes: seq<Node>, id: nat)
    requires lo <= m < hi <= |t| && id + (hi - lo) <= |nodes| && nodes[id].index == t[m]
    requires Elems(IndicesIn(nodes, id + 1, m - lo)) == Elems(t[lo..m])
    requires Elems(IndicesIn(nodes, id + 1 + (m - lo), hi - (m + 1))) == Elems(t[m + 1..hi])
    requires Distinct(t[lo..m]) ==> Distinct(IndicesIn(nodes, id + 1, m - lo))
    requires Distinct(t[m + 1..hi]) ==> Distinct(IndicesIn(nodes, id + 1 + (m - lo), hi - (m + 1)))
    ensures Elems(IndicesIn(nodes, id, hi - lo)) == Elems(t[lo..hi])
    ensures Distinct(t[lo..hi]) ==> Distinct(IndicesIn(nodes, id, hi - lo))
  {
    var l, r := IndicesIn(nodes, id + 1, m - lo), IndicesIn(nodes, id + 1 + (m - lo), hi - (m + 1));
    assert IndicesIn(nodes, id, hi - lo) == [t[m]] + l + r;
    assert t[lo..hi] == t[lo..m] + [t[m]] + t[m + 1..hi];
    RootFirst(t[lo..m], t[m], t[m + 1..hi], l, r);
  }

  lemma RootTree(points: seq<Point>, dim: nat, nodes: seq<Node>, id: nat, mid: nat, n: nat, depth: nat)
    requires dim > 0 && n > 0 && mid == (n - 1) / 2 && id + n <= |nodes| && 0 <= nodes[id].index < |points|
    requires nodes[id] == Node(nodes[id].index, Child(id + 1, mid), Child(id + 1 + mid, n - 1 - mid), depth % dim)
    requires OnSide(points, nodes, id + 1, id + 1 + mid, depth % dim, nodes[id].index, true)
    requires OnSide(points, nodes, id + 1 + mid, id + n, depth % dim, nodes[id].index, false)
    requires Tree(points, dim, nodes, id + 1, mid, depth + 1)
    requires Tree(points, dim, nodes, id + 1 + mid, n - 1 - mid, depth + 1)
    ensures Tree(points, dim, nodes, id, n, depth)
  {
  }

  lemma RootFirst(left: seq<int>, x: int, right: seq<int>, l: seq<int>, r: seq<int>)
    requires Elems(l) == Elems(left) && Elems(r) == Elems(right)
    requires (Distinct(left) ==> Distinct(l)) && (Distinct(right) ==> Distinct(r))
    ensures Elems([x] + l + r) == Elems(left + [x] + right)
    ensures Distinct(left + [x] + right) ==> Distinct([x] + l + r)
  {
    var s, t := left + [x] + right, [x] + l + r;
    forall y ensures (y in l <==> y in left) && (y in r <==> y in right) {
      assert y in Elems(l) <==> y in Elems(left);
      assert y in Elems(r) <==> y in Elems(right);
    }
    assert forall y :: y in t <==> y in s;
    if Distinct(s) {
      DistinctParts(left, x, right);
      assert forall i :: 0 <= i < |l| ==> l[i] in left;
      assert forall i :: 0 <= i < |r| ==> r[i] in right;
    }
  }

  lemma DistinctParts(left: seq<int>, x: int, right: seq<int>)
    requires Distinct(left + [x] + right)
    ensures Distinct(left) && Distinct(right) && x !in left && x !in right
    ensures forall y :: y in left ==> y !in right
  {
    var s := left + [x] + right;
    forall i | 0 <= i < |left| ensures left[i] != x && left[i] !in right {
      assert s[i] == left[i] && s[|left|] == x;
      forall j | 0 <= j < |right| ensures right[j] != left[i] {
        assert s[|left| + 1 + j] == right[j];
      }
    }
    forall j | 0 <= j < |right| ensures right[j] != x {
      assert s[|left| + 1 + j] == right[j] && s[|left|] == x;
    }
    forall i, j | 0 <= i < j < |left| ensures left[i] != left[j] {
      assert s[i] == left[i] && s[j] == left[j];
    }
    forall i, j | 0 <= i < j < |right| ensures right[i] != right[j] {
      assert s[|left| + 1 + i] == right[i] && s[|left| + 1 + j] == right[j];
    }
  }

  predicate InRange(points: seq<Point>, s: seq<int>, lo: nat, hi: nat) {
    hi <= |s| && forall k :: lo <= k < hi ==> 0 <= s[k] < |points|
  }

  lemma InRangeKept(points: seq<Point>, s: seq<int>, lo: nat, hi: nat, t: seq<int>)
    requires InRange(points, s, lo, hi) && Rearranged(s, lo, hi, t)
    ensures InRange(points, t, lo, hi)
  {
    forall k | lo <= k < hi ensures 0 <= t[k] < |points| {
      assert t[lo..hi][k - lo] in Elems(t[lo..hi]);
      assert t[k] in s[lo..hi];
      var m :| 0 <= m < hi - lo && s[lo..hi][m] == t[k];
    }
  }

  /** Only nodes lo..hi have changed. */
  predicate Outside(was: seq<Node>, now: seq<Node>, lo: nat, hi: nat) {
    |now| == |was| && forall k :: 0 <= k < |was| && !(lo <= k < hi) ==> now[k] == was[k]
  }

  /** build_recursive */
  method BuildRecursive(points: seq<Point>, dim: nat, a: array<int>, lo: nat, hi: nat, depth: nat, nodes: array<Node>,
                        id: nat)
    returns (root: Option<nat>)
    requires dim > 0 && lo <= hi <= a.Length && id + (hi - lo) <= nodes.Length && InRange(points, a[..], lo, hi)
    modifies a, nodes
    ensures root == Child(id, hi - lo)
    ensures Rearranged(old(a[..]), lo, hi, a[..])
    ensures Outside(old(nodes[..]), nodes[..], id, id + (hi - lo))
    ensures BuiltFrom(points, dim, a[..], lo, hi, nodes[..], id, depth)
    decreases hi - lo, 1
  {
    if lo == hi {
      return None;
    }
    var axis, mid := depth % dim, (hi - lo - 1) / 2;
    NthElement(points, a, lo, lo + mid, hi, axis);
    ghost var s := a[..];
    InRangeKept(points, old(a[..]), lo, hi, s);
    nodes[id] := Node(a[lo + mid], None, None, axis);
    BuildChildren(points, dim, a, lo, lo + mid, hi, depth, nodes, id);
    RearrangedThen(old(a[..]), lo, hi, s, a[..]);
    return Some(id);
  }

  /** The recursive calls of build_recursive, on the indices in front of and behind position m. */
  method BuildChildren(points: seq<Point>, dim: nat, a: array<int>, lo: nat, m: nat, hi: nat, depth: nat,
                       nodes: array<Node>, id: nat)
    requires dim > 0 && lo <= m < hi <= a.Length && m - lo == (hi - lo - 1) / 2 && id + (hi - lo) <= nodes.Length
    requires InRange(points, a[..], lo, hi) && Partitioned(points, a[..], lo, m, hi, depth % dim)
    requires nodes[id] == Node(a[m], None, None, depth % dim)
    modifies a, nodes
    ensures Rearranged(old(a[..]), lo, hi, a[..])
    ensures Outside(old(nodes[..]), nodes[..], id, id + (hi - lo))
    ensures BuiltFrom(points, dim, a[..], lo, hi, nodes[..], id, depth)
    decreases hi - lo, 0
  {
    ghost var s, nodes0 := a[..], nodes[..];
    BuildPart(points, dim, a, lo, m, depth + 1, nodes, id + 1, id, true);
    ghost var s1, nodes1 := a[..], nodes[..];
    var behind := id + 1 + (m - lo);
    BuildPart(points, dim, a, m + 1, hi, depth + 1, nodes, behind, id, false);
    PartsBuilt(points, dim, s, s1, a[..], lo, m, hi, nodes0, nodes1, nodes[..], id, behind, depth);
  }

  function SetChild(node: Node, left: bool, child: Option<nat>): Node {
    if left then node.(left := child) else node.(right := child)
  }

  /** Of the nodes outside lo..hi only the one at `root` has changed, and it is now `node`. */
  predicate Joined(was: seq<Node>, now: seq<Node>, root: nat, lo: nat, hi: nat, node: Node) {
    && root < lo <= hi <= |now| == |was| && now[root] == node
    && forall k :: 0 <= k < |was| && k != root && !(lo <= k < hi) ==> now[k] == was[k]
  }

  /** One recursive call of build_recursive, whose result becomes a child of the root. */
  method BuildPart(points: seq<Point>, dim: nat, a: array<int>, lo: nat, hi: nat, depth: nat,
                   nodes: array<Node>, id: nat, root: nat, left: bool)
    requires dim > 0 && lo <= hi <= a.Length && root < id && id + (hi - lo) <= nodes.Length
    requires InRange(points, a[..], lo, hi)
    modifies a, nodes
    ensures Rearranged(old(a[..]), lo, hi, a[..])
    ensures Joined(old(nodes[..]), nodes[..], root, id, id + (hi - lo),
                   SetChild(old(nodes[root]), left, Child(id, hi - lo)))
    ensures BuiltFrom(points, dim, a[..], lo, hi, nodes[..], id, depth)
    decreases hi - lo, 2
  {
    var child := BuildRecursive(points, dim, a, lo, hi, depth, nodes, id);
    ghost var nodes1 := nodes[..];
    nodes[root] := SetChild(nodes[root], left, child);
    BuiltSame(points, dim, a[..], a[..], lo, hi, nodes1, nodes[..], id, depth);
  }

  /** What building the left part, and then the right part, with the root in front adds up to. */
  lemma PartsBuilt(points: seq<Point>, dim: nat, s: seq<int>, s1: seq<int>, s2: seq<int>, lo: nat, m: nat, hi: nat,
                   nodes0: seq<Node>, nodes1: seq<Node>, nodes2: seq<Node>, id: nat, behind: nat, depth: nat)
    requires dim > 0 && lo <= m < hi <= |s| && m - lo == (hi - lo - 1) / 2 && InRange(points, s, lo, hi)
    requires Partitioned(points, s, lo, m, hi, depth % dim)
    requires Rearranged(s, lo, m, s1) && Rearranged(s1, m + 1, hi, s2)
    requires behind == id + 1 + (m - lo) && id + (hi - lo) <= |nodes0|
    requires nodes0[id] == Node(s[m], None, None, depth % dim)
    requires Joined(nodes0, nodes1, id, id + 1, id + 1 + (m - lo), SetChild(nodes0[id], true, Child(id + 1, m - lo)))
    requires BuiltFrom(points, dim, s1, lo, m, nodes1, id + 1, depth + 1)
    requires Joined(nodes1, nodes2, id, behind, behind + (hi - (m + 1)),
                    SetChild(nodes1[id], false, Child(behind, hi - (m + 1))))
    requires BuiltFrom(points, dim, s2, m + 1, hi, nodes2, behind, depth + 1)
    ensures Rearranged(s, lo, hi, s2) && BuiltFrom(points, dim, s2, lo, hi, nodes2, id, depth)
    ensures Outside(nodes0, nodes2, id, id + (hi - lo))
  {
    PartsRearranged(s, s1, s2, lo, m, hi);
    BuiltSame(points, dim, s1, s2, lo, m, nodes1, nodes2, id + 1, depth + 1);
    RootBuilt(points, dim, s, s2, lo, m, hi, nodes2, id, depth);
  }

  lemma PartsRearranged(s: seq<int>, s1: seq<int>, s2: seq<int>, lo: nat, m: nat, hi: nat)
    requires lo <= m < hi <= |s| && Rearranged(s, lo, m, s1) && Rearranged(s1, m + 1, hi, s2)
    ensures Rearranged(s, lo, hi, s2) && s2[m] == s[m] && forall k :: lo <= k < m ==> s2[k] == s1[k]
    ensures Elems(s2[lo..m]) == Elems(s[lo..m]) && Elems(s2[m + 1..hi]) == Elems(s[m + 1..hi])
  {
    assert s1[m + 1..hi] == s[m + 1..hi] && s2[lo..m] == s1[lo..m];
    RearrangedPart(s, lo, hi, lo, m, s1);
    RearrangedPart(s1, lo, hi, m + 1, hi, s2);
    RearrangedThen(s, lo, hi, s1, s2);
  }

  // ------------------------------------------------------------------ searching

  /** The squared distance from the query to point number x. */
  function DistTo(points: seq<Point>, query: Point, x: int): real {
    if 0 <= x < |points| && |points[x]| == |query| then Dist(query, points[x], |query|) else 0.0
  }

  /** `found` lists, each once, exactly the points of nodes id..id + n that are closer than the limit. */
  ghost predicate Exactly(points: seq<Point>, nodes: seq<Node>, id: nat, n: nat, query: Point, limit: real,
                          found: seq<int>)
    requires id + n <= |nodes|
  {
    && Distinct(found)
    && forall x :: x in found <==> x in IndicesIn(nodes, id, n) && DistTo(points, query, x) < limit
  }

  /** A subtree beyond the splitting plane has no point closer than the plane. */
  lemma BeyondPlane(points: seq<Point>, dim: nat, nodes: seq<Node>, id: nat, n: nat, axis: nat, pivot: int,
                    query: Point, d: real, square: real)
    requires PointsOk(points, dim) && |query| == dim && axis < dim && id + n <= |nodes| && 0 <= pivot < |points|
    requires d == query[axis] - points[pivot][axis] && IsSquare(d, square)
    requires OnSide(points, nodes, id, id + n, axis, pivot, d >= 0.0)
    requires forall k :: id <= k < id + n ==> 0 <= nodes[k].index < |points|
    ensures forall x :: x in IndicesIn(nodes, id, n) ==> DistTo(points, query, x) >= square
  {
    forall x | x in IndicesIn(nodes, id, n) ensures DistTo(points, query, x) >= square {
      var k :| 0 <= k < n && IndicesIn(nodes, id, n)[k] == x;
      assert nodes[id + k].index == x;
      FarSide(query, points[pivot], points[x], axis, d, square);
    }
  }

  lemma {:induction false} TreeInRange(points: seq<Point>, dim: nat, nodes: seq<Node>, id: nat, n: nat, depth: nat)
    requires Tree(points, dim, nodes, id, n, depth)
    ensures forall k :: id <= k < id + n ==> k < |nodes| && 0 <= nodes[k].index < |points|
    decreases n
  {
    if n > 0 {
      TreeInRange(points, dim, nodes, id + 1, (n - 1) / 2, depth + 1);
      TreeInRange(points, dim, nodes, id + 1 + (n - 1) / 2, n - 1 - (n - 1) / 2, depth + 1);
    }
  }

  /** A tree's two subtrees: the one on the query's side of the plane, and the one beyond it. */
  datatype Halves = Halves(nearId: nat, nearN: nat, farId: nat, farN: nat)

  function Split(id: nat, n: nat, left: bool): Halves
    requires n > 0
  {
    var mid := (n - 1) / 2;
    if left then Halves(id + 1, mid, id + 1 + mid, n - 1 - mid) else Halves(id + 1 + mid, n - 1 - mid, id + 1, mid)
  }

  /** The distance from the query to the plane that splits this node's tree. */
  function PlaneDist(points: seq<Point>, query: Point, node: Node): real {
    if 0 <= node.index < |points| && 0 <= node.axis < |query| == |points[node.index]| then
      query[node.axis] - points[node.index][node.axis]
    else 0.0
  }

  /** Both subtrees are trees again, and the children of the root. */
  lemma SplitTree(points: seq<Point>, dim: nat, nodes: seq<Node>, id: nat, n: nat, depth: nat, left: bool)
    requires Tree(points, dim, nodes, id, n, depth) && id + n <= |nodes| && n > 0
    ensures var h := Split(id, n, left);
      && Tree(points, dim, nodes, h.nearId, h.nearN, depth + 1) && Tree(points, dim, nodes, h.farId, h.farN, depth + 1)
      && Child(h.nearId, h.nearN) == (if left then nodes[id].left else nodes[id].right)
      && Child(h.farId, h.farN) == (if left then nodes[id].right else nodes[id].left)
  {
  }

  lemma SplitApart(nodes: seq<Node>, id: nat, n: nat, left: bool)
    requires id + n <= |nodes| && n > 0 && Distinct(IndicesIn(nodes, id, n))
    ensures var h := Split(id, n, left);
      && h.nearId + h.nearN <= |nodes| && h.farId + h.farN <= |nodes| && h.nearN < n && h.farN < n
      && Distinct(IndicesIn(nodes, h.nearId, h.nearN)) && Distinct(IndicesIn(nodes, h.farId, h.farN))
  {
    RootApart(nodes, id, (n - 1) / 2, n);
  }

  /** What being a tree says about the root. */
  lemma RootParts(points: seq<Point>, dim: nat, nodes: seq<Node>, id: nat, n: nat, mid: nat, depth: nat)
    requires Tree(points, dim, nodes, id, n, depth) && id + n <= |nodes| && n > 0 && mid == (n - 1) / 2
    ensures dim > 0 && 0 <= nodes[id].index < |points| && nodes[id].axis == depth % dim
    ensures nodes[id].left == Child(id + 1, mid) && nodes[id].right == Child(id + 1 + mid, n - 1 - mid)
    ensures OnSide(points, nodes, id + 1, id + 1 + mid, depth % dim, nodes[id].index, true)
    ensures OnSide(points, nodes, id + 1 + mid, id + n, depth % dim, nodes[id].index, false)
    ensures Tree(points, dim, nodes, id + 1, mid, depth + 1)
    ensures Tree(points, dim, nodes, id + 1 + mid, n - 1 - mid, depth + 1)
  {
  }

  /** Nothing in the far subtree is closer than the plane. */
  lemma FarTree(points: seq<Point>, dim: nat, nodes: seq<Node>, id: nat, n: nat, depth: nat, query: Point, d: real,
                square: real)
    requires PointsOk(points, dim) && |query| == dim && Tree(points, dim, nodes, id, n, depth) && id + n <= |nodes|
    requires n > 0
    requires d == PlaneDist(points, query, nodes[id]) && IsSquare(d, square)
    ensures var h := Split(id, n, d < 0.0);
      h.farId + h.farN <= |nodes| && forall x :: x in IndicesIn(nodes, h.farId, h.farN) ==>
        DistTo(points, query, x) >= square
  {
    var mid := (n - 1) / 2;
    TreeInRange(points, dim, nodes, id, n, depth);
    RootParts(points, dim, nodes, id, n, mid, depth);
    BeyondRoot(points, dim, nodes, id, n, mid, depth % dim, query, d, square);
  }

  lemma BeyondRoot(points: seq<Point>, dim: nat, nodes: seq<Node>, id: nat, n: nat, mid: nat, axis: nat, query: Point,
                   d: real, square: real)
    requires PointsOk(points, dim) && |query| == dim && axis < dim && mid == (n - 1) / 2 && 0 < n && id + n <= |nodes|
    requires forall k :: id <= k < id + n ==> 0 <= nodes[k].index < |points|
    requires d == query[axis] - points[nodes[id].index][axis] && IsSquare(d, square)
    requires OnSide(points, nodes, id + 1, id + 1 + mid, axis, nodes[id].index, true)
    requires OnSide(points, nodes, id + 1 + mid, id + n, axis, nodes[id].index, false)
    ensures var h := Split(id, n, d < 0.0);
      forall x :: x in IndicesIn(nodes, h.farId, h.farN) ==> DistTo(points, query, x) >= square
  {
    if d < 0.0 {
      BeyondPlane(points, dim, nodes, id + 1 + mid, n - 1 - mid, axis, nodes[id].index, query, d, square);
    } else {
      BeyondPlane(points, dim, nodes, id + 1, mid, axis, nodes[id].index, query, d, square);
    }
  }

  /** The points of a tree are its root's and those of its two subtrees. */
  lemma Visit(points: seq<Point>, nodes: seq<Node>, id: nat, n: nat, left: bool, query: Point, limit: real,
              here: seq<int>, near: seq<int>, far: seq<int>)
    requires n > 0 && id + n <= |nodes| && Distinct(IndicesIn(nodes, id, n))
    requires here == if DistTo(points, query, nodes[id].index) < limit then [nodes[id].index] else []
    requires var h := Split(id, n, left);
      Exactly(points, nodes, h.nearId, h.nearN, query, limit, near) &&
        Exactly(points, nodes, h.farId, h.farN, query, limit, far)
    ensures Exactly(points, nodes, id, n, query, limit, here + near + far)
  {
    VisitParts(points, nodes, id, (n - 1) / 2, n, query, limit, here,
      if left then near else far, if left then far else near, here + near + far);
  }

  lemma VisitParts(points: seq<Point>, nodes: seq<Node>, id: nat, mid: nat, n: nat, query: Point, limit: real,
                   here: seq<int>, left: seq<int>, right: seq<int>, found: seq<int>)
    requires mid < n && id + n <= |nodes| && Distinct(IndicesIn(nodes, id, n))
    requires here == if DistTo(points, query, nodes[id].index) < limit then [nodes[id].index] else []
    requires Exactly(points, nodes, id + 1, mid, query, limit, left)
    requires Exactly(points, nodes, id + 1 + mid, n - 1 - mid, query, limit, right)
    requires found == here + left + right || found == here + right + left
    ensures Exactly(points, nodes, id, n, query, limit, found)
  {
    var l, r := IndicesIn(nodes, id + 1, mid), IndicesIn(nodes, id + 1 + mid, n - 1 - mid);
    assert IndicesIn(nodes, id, n) == [nodes[id].index] + l + r;
    RootApart(nodes, id, mid, n);
    assert forall i :: 0 <= i < |left| ==> left[i] in left;
    assert forall i :: 0 <= i < |right| ==> right[i] in right;
  }

  /** What searching some points for a nearer one than (i0, d0) yields: (i1, d1) is a nearest of all of them. */
  ghost predicate Nearest(points: seq<Point>, xs: seq<int>, query: Point, i0: int, d0: real, i1: int, d1: real) {
    && (forall x :: x in xs ==> d1 <= DistTo(points, query, x))
    && ((i1 == i0 && d1 == d0) || (i1 in xs && d1 == DistTo(points, query, i1) && d1 < d0))
  }

  lemma FarNotNearer(points: seq<Point>, dim: nat, nodes: seq<Node>, id: nat, n: nat, depth: nat, query: Point, d: real,
                     square: real, i0: int, d0: real)
    requires PointsOk(points, dim) && |query| == dim && Tree(points, dim, nodes, id, n, depth) && id + n <= |nodes|
    requires n > 0
    requires d == PlaneDist(points, query, nodes[id]) && IsSquare(d, square) && square >= d0
    ensures var h := Split(id, n, d < 0.0);
      h.farId + h.farN <= |nodes| && Nearest(points, IndicesIn(nodes, h.farId, h.farN), query, i0, d0, i0, d0)
  {
    FarTree(points, dim, nodes, id, n, depth, query, d, square);
  }

  /** Three searches in turn are one search of everything. */
  lemma NearestInTurn(points: seq<Point>, a: seq<int>, b: seq<int>, c: seq<int>, all: seq<int>, query: Point,
                      i0: int, d0: real, i1: int, d1: real, i2: int, d2: real, i3: int, d3: real)
    requires Nearest(points, a, query, i0, d0, i1, d1) && Nearest(points, b, query, i1, d1, i2, d2)
    requires Nearest(points, c, query, i2, d2, i3, d3)
    requires forall x :: x in all <==> x in a || x in b || x in c
    ensures Nearest(points, all, query, i0, d0, i3, d3)
  {
  }

  lemma TreeParts(nodes: seq<Node>, id: nat, n: nat, left: bool, x: int)
    requires n > 0 && id + n <= |nodes|
    ensures var h := Split(id, n, left);
      x in IndicesIn(nodes, id, n) <==>
      x in [nodes[id].index] || x in IndicesIn(nodes, h.nearId, h.nearN) || x in IndicesIn(nodes, h.farId, h.farN)
  {
    var mid := (n - 1) / 2;
    var l, r := IndicesIn(nodes, id + 1, mid), IndicesIn(nodes, id + 1 + mid, n - 1 - mid);
    assert IndicesIn(nodes, id, n) == [nodes[id].index] + l + r;
  }

  /** Looking at the root, the near subtree and the far one in turn is looking at the whole tree. */
  lemma NearestOfAll(points: seq<Point>, nodes: seq<Node>, id: nat, n: nat, left: bool, query: Point,
                     i0: int, d0: real, i1: int, d1: real, i2: int, d2: real, i3: int, d3: real)
    requires n > 0 && id + n <= |nodes|
    requires Nearest(points, [nodes[id].index], query, i0, d0, i1, d1)
    requires var h := Split(id, n, left);
      && Nearest(points, IndicesIn(nodes, h.nearId, h.nearN), query, i1, d1, i2, d2)
      && Nearest(points, IndicesIn(nodes, h.farId, h.farN), query, i2, d2, i3, d3)
    ensures Nearest(points, IndicesIn(nodes, id, n), query, i0, d0, i3, d3)
  {
    var h, all := Split(id, n, left), IndicesIn(nodes, id, n);
    var here, near, far := [nodes[id].index], IndicesIn(nodes, h.nearId, h.nearN), IndicesIn(nodes, h.farId, h.farN);
    forall x ensures x in all <==> x in here || x in near || x in far {
      TreeParts(nodes, id, n, left, x);
    }
    NearestInTurn(points, here, near, far, all, query, i0, d0, i1, d1, i2, d2, i3, d3);
  }

  lemma Gathered<T>(a: seq<T>, b: seq<T>, c: seq<T>, d: seq<T>)
    ensures ((a + b) + c) + d == a + ((b + c) + d)
    ensures (a + b) + c == a + ((b + c) + [])
  {
  }

  lemma NothingCloser(points: seq<Point>, nodes: seq<Node>, id: nat, n: nat, query: Point, limit: real)
    requires id + n <= |nodes|
    requires forall x :: x in IndicesIn(nodes, id, n) ==> DistTo(points, query, x) >= limit
    ensures Exactly(points, nodes, id, n, query, limit, [])
  {
  }

  lemma RootApart(nodes: seq<Node>, id: nat, mid: nat, n: nat)
    requires mid < n && id + n <= |nodes| && Distinct(IndicesIn(nodes, id, n))
    ensures var l, r := IndicesIn(nodes, id + 1, mid), IndicesIn(nodes, id + 1 + mid, n - 1 - mid);
      && Distinct(l) && Distinct(r) && nodes[id].index !in l && nodes[id].index !in r
      && forall x :: x in l ==> x !in r
  {
    var all, l, r := IndicesIn(nodes, id, n), IndicesIn(nodes, id + 1, mid),
          IndicesIn(nodes, id + 1 + mid, n - 1 - mid);
    assert all[0] == nodes[id].index;
    assert forall i :: 0 <= i < mid ==> l[i] == all[i + 1];
    assert forall i :: 0 <= i < n - 1 - mid ==> r[i] == all[i + 1 + mid];
  }

  class Index {
    const points: seq<Point>
    const dim: nat
    const nodes: array<Node>

    /** The nodes are a tree in which every point appears exactly once. */
    ghost predicate Valid()
      reads nodes
    {
      && PointsOk(points, dim) && nodes.Length == |points|
      && Tree(points, dim, nodes[..], 0, |points|, 0)
      && Distinct(IndicesIn(nodes[..], 0, |points|))
      && forall x :: x in IndicesIn(nodes[..], 0, |points|) <==> 0 <= x < |points|
    }

    constructor (points: seq<Point>, dim: nat)
      requires PointsOk(points, dim)
      ensures Valid() && this.points == points && this.dim == dim
    {
      this.points, this.dim := points, dim;
      var indices := new int[|points|](i => i);
      var tree := new Node[|points|](_ => UNUSED);
      Iota(indices[..]);
      ghost var iota := indices[..];
      var root := BuildRecursive(points, dim, indices, 0, |points|, 0, tree, 0);
      nodes := tree;
      AllOnce(iota, indices[..], tree[..]);
    }

    /** search_radius: reports the points within the radius, each once, and no others. */
    method SearchRadius(query: Point, radius: real) returns (indices: seq<int>)
      requires Valid() && |query| == dim
      ensures Distinct(indices)
      ensures forall x :: x in indices <==> 0 <= x < |points| && DistTo(points, query, x) < radius * radius
    {
      if nodes.Length == 0 {
        return [];
      }
      ghost var found;
      indices, found := SearchRadiusRecursive(query, Some(0), [], radius * radius, 0, |points|, 0);
      assert indices == found;
    }

    /** How far the query is from the plane that splits this node's tree, and that distance squared. */
    method AxisDistance(query: Point, node: Node) returns (d: real, square: real)
      requires PointsOk(points, dim) && |query| == dim && 0 <= node.index < |points| && 0 <= node.axis < dim
      ensures d == PlaneDist(points, query, node) && IsSquare(d, square)
    {
      d := query[node.axis] - points[node.index][node.axis];
      square := d * d;
    }

    method SearchRadiusRecursive(query: Point, node: Option<nat>, before: seq<int>, sradius: real,
                                 ghost id: nat, ghost n: nat, ghost depth: nat)
      returns (indices: seq<int>, ghost found: seq<int>)
      requires PointsOk(points, dim) && |query| == dim && Tree(points, dim, nodes[..], id, n, depth)
      requires id + n <= nodes.Length
      requires node == Child(id, n) && Distinct(IndicesIn(nodes[..], id, n))
      ensures indices == before + found && Exactly(points, nodes[..], id, n, query, sradius, found)
      ensures |before| <= |indices| && indices[..|before|] == before
      ensures Exactly(points, nodes[..], id, n, query, sradius, indices[|before|..])
      decreases n
    {
      indices, found := before, [];
      if node.None? {
        return;
      }
      var here := nodes[node.value];
      var train := points[here.index];
      var sdist := SquaredDistance(query, train);
      ghost var own: seq<int> := [];
      if sdist < sradius {
        indices := indices + [here.index];
        own := [here.index];
      }
      assert indices == before + own;
      var axisDist, crossing := AxisDistance(query, here);
      var child := if axisDist < 0.0 then 0 else 1;
      ghost var h := Split(id, n, axisDist < 0.0);
      SplitTree(points, dim, nodes[..], id, n, depth, axisDist < 0.0);
      SplitApart(nodes[..], id, n, axisDist < 0.0);
      var near, far := if child == 0 then here.left else here.right, if child == 0 then here.right else here.left;
      ghost var first, second: seq<int> := [], [];
      indices, first := SearchRadiusRecursive(query, near, indices, sradius, h.nearId, h.nearN, depth + 1);
      if crossing < sradius {
        indices, second := SearchRadiusRecursive(query, far, indices, sradius, h.farId, h.farN, depth + 1);
      } else {
        FarTree(points, dim, nodes[..], id, n, depth, query, axisDist, crossing);
        NothingCloser(points, nodes[..], h.farId, h.farN, query, sradius);
      }
      found := own + first + second;
      Gathered(before, own, first, second);
      Visit(points, nodes[..], id, n, axisDist < 0.0, query, sradius, own, first, second);
      assert indices[|before|..] == found;
    }

    /** search_nearest: a point no other is closer than, if there is one closer than the largest distance. */
    method SearchNearest(query: Point, max: real) returns (index: int)
      requires Valid() && |query| == dim
      ensures index == -1 ==> forall x :: 0 <= x < |points| ==> DistTo(points, query, x) >= max
      ensures index != -1 ==> 0 <= index < |points| && DistTo(points, query, index) < max
                              && forall x :: 0 <= x < |points| ==>
                                   DistTo(points, query, index) <= DistTo(points, query, x)
    {
      if nodes.Length == 0 {
        return -1;
      }
      var dist;
      index, dist := SearchNearestRecursive(query, Some(0), -1, max, 0, |points|, 0);
    }

    method SearchNearestRecursive(query: Point, node: Option<nat>, index0: int, dist0: real,
                                  ghost id: nat, ghost n: nat, ghost depth: nat)
      returns (index: int, dist: real)
      requires PointsOk(points, dim) && |query| == dim && Tree(points, dim, nodes[..], id, n, depth)
      requires id + n <= nodes.Length
      requires node == Child(id, n) && Distinct(IndicesIn(nodes[..], id, n))
      ensures Nearest(points, IndicesIn(nodes[..], id, n), query, index0, dist0, index, dist)
      decreases n
    {
      index, dist := index0, dist0;
      if node.None? {
        return;
      }
      var here := nodes[node.value];
      var train := points[here.index];
      var sdist := SquaredDistance(query, train);
      if sdist < dist {
        index, dist := here.index, sdist;
      }
      ghost var i1, d1 := index, dist;
      var axisDist, crossing := AxisDistance(query, here);
      var child := if axisDist < 0.0 then 0 else 1;
      ghost var h := Split(id, n, axisDist < 0.0);
      SplitTree(points, dim, nodes[..], id, n, depth, axisDist < 0.0);
      SplitApart(nodes[..], id, n, axisDist < 0.0);
      var near, far := if child == 0 then here.left else here.right, if child == 0 then here.right else here.left;
      index, dist := SearchNearestRecursive(query, near, index, dist, h.nearId, h.nearN, depth + 1);
      ghost var i2, d2 := index, dist;
      if crossing < dist {
        index, dist := SearchNearestRecursive(query, far, index, dist, h.farId, h.farN, depth + 1);
      } else {
        FarNotNearer(points, dim, nodes[..], id, n, depth, query, axisDist, crossing, index, dist);
      }
      NearestOfAll(points, nodes[..], id, n, axisDist < 0.0, query, index0, dist0, i1, d1, i2, d2, index, dist);
    }
  }

  lemma Iota(s: seq<int>)
    requires forall i :: 0 <= i < |s| ==> s[i] == i
    ensures Distinct(s) && forall x :: x in s <==> 0 <= x < |s|
  {
    forall x | 0 <= x < |s| ensures x in s {
      assert s[x] == x;
    }
  }

  lemma AllOnce(s: seq<int>, t: seq<int>, nodes: seq<Node>)
    requires |nodes| == |s| && Distinct(s) && (forall x :: x in s <==> 0 <= x < |s|)
    requires Rearranged(s, 0, |s|, t) && Elems(IndicesIn(nodes, 0, |s|)) == Elems(t[0..|s|])
    requires Distinct(t[0..|s|]) ==> Distinct(IndicesIn(nodes, 0, |s|))
    ensures Distinct(IndicesIn(nodes, 0, |s|))
    ensures forall x :: x in IndicesIn(nodes, 0, |s|) <==> 0 <= x < |s|
  {
    assert s[0..|s|] == s;
    forall x ensures x in IndicesIn(nodes, 0, |s|) <==> x in s {
      assert x in IndicesIn(nodes, 0, |s|) <==> x in Elems(IndicesIn(nodes, 0, |s|));
      assert x in s <==> x in Elems(s[0..|s|]);
    }
  }
}

/**
 Moving rows between chunks of different archetypes: chunk::cast merges the two column lists by valid
 type, carries over the columns they share, default-initialises the others and disposes of what is left behind.
 */
module Columns {
  import opened Basics
  import opened Sets

  /** A component type: its kind in the two highest of 32 bits, its registration number below. */
  type TypeIndex = nat

  const KIND: nat := 0x4000_0000

  datatype Kind = Pod | Buffer | Managed | Tag

  function KindOf(t: TypeIndex): Kind {
    if t < KIND then Pod else if t < 2 * KIND then Buffer else if t < 3 * KIND then Managed else Tag
  }

  /** What a component row holds: a value, or the freshly initialised state of its kind. */
  datatype Cell = Value(v: int) | Zeroed | AllOnes | EmptyBuffer | Constructed(t: TypeIndex)

  function Default(t: TypeIndex): Cell {
    match KindOf(t)
    case Pod => Zeroed
    case Buffer => EmptyBuffer
    case _ => Constructed(t)
  }

  /** to_valid_type: a pending copy has the data layout of its original. */
  function Valid(pending: set<TypeIndex>, t: TypeIndex): TypeIndex {
    if t in pending && t > 0 then t - 1 else t
  }

  /** A pending copy is registered right behind its original, with the same kind. */
  predicate PendingOk(pending: set<TypeIndex>) {
    forall t :: t in pending ==> t > 0 && KindOf(t - 1) == KindOf(t)
  }

  /** Strictly sorted, and never a pending copy together with its original. */
  predicate TypesOk(pending: set<TypeIndex>, ts: seq<TypeIndex>) {
    Sorted(ts) && forall t :: t in ts && t in pending && t > 0 ==> t - 1 !in ts
  }

  /** The first position whose type is of kind k or later: firstBuffer, firstManaged, firstTag. */
  function First(ts: seq<TypeIndex>, bound: nat): (n: nat)
    ensures n <= |ts|
  {
    if ts == [] || ts[0] >= bound then 0 else 1 + First(ts[1..], bound)
  }

  lemma {:induction false} FirstSplits(ts: seq<TypeIndex>, bound: nat)
    requires Sorted(ts)
    ensures forall i :: 0 <= i < |ts| ==> (ts[i] < bound <==> i < First(ts, bound))
  {
    if ts != [] && ts[0] < bound {
      FirstSplits(ts[1..], bound);
      assert forall i :: 1 <= i < |ts| ==> ts[i] == ts[1..][i - 1];
    }
  }

  function FirstBuffer(ts: seq<TypeIndex>): nat { First(ts, KIND) }
  function FirstManaged(ts: seq<TypeIndex>): nat { First(ts, 2 * KIND) }
  function FirstTag(ts: seq<TypeIndex>): nat { First(ts, 3 * KIND) }

  lemma ValidOrder(pending: set<TypeIndex>, ts: seq<TypeIndex>)
    requires TypesOk(pending, ts)
    ensures forall i, j :: 0 <= i < j < |ts| ==> Valid(pending, ts[i]) < Valid(pending, ts[j])
  {
    forall i, j | 0 <= i < j < |ts| ensures Valid(pending, ts[i]) < Valid(pending, ts[j]) {
      assert ts[i] in ts && ts[j] in ts;
    }
  }

  // ------------------------------------------------------------------ one row, as a function

  /** The source column that carries over to a destination type, if any. */
  function Source(pending: set<TypeIndex>, src: seq<TypeIndex>, t: TypeIndex): (i: int)
    ensures -1 <= i < |src|
    ensures i >= 0 ==> Valid(pending, src[i]) == Valid(pending, t)
    ensures i < 0 ==> forall k :: 0 <= k < |src| ==> Valid(pending, src[k]) != Valid(pending, t)
  {
    if src == [] then -1
    else if Valid(pending, src[|src| - 1]) == Valid(pending, t) then |src| - 1
    else Source(pending, src[..|src| - 1], t)
  }

  type Row = seq<Cell>

  /** A row of the source archetype seen as a row of the destination archetype. */
  function CastRow(pending: set<TypeIndex>, src: seq<TypeIndex>, dst: seq<TypeIndex>, row: Row): (r: Row)
    requires |row| == FirstTag(src)
    ensures |r| == FirstTag(dst)
  {
    seq(FirstTag(dst), d requires 0 <= d < FirstTag(dst) =>
      var s := Source(pending, src, dst[d]);
      if 0 <= s < |row| then row[s] else Default(dst[d]))
  }

  // ------------------------------------------------------------------ the merge

  type Column = seq<Cell>

  function Splice(col: Column, start: nat, part: Column): Column
    requires start + |part| <= |col|
  {
    col[..start] + part + col[start + |part|..]
  }

  /** A slice of `count` rows starting at `row` of a chunk with these types and columns. */
  datatype Rows = Rows(types: seq<TypeIndex>, columns: seq<Column>, row: nat, count: nat) {
    ghost predicate Ok(pending: set<TypeIndex>) {
      && TypesOk(pending, types) && |columns| == FirstTag(types)
      && forall i :: 0 <= i < |columns| ==> row + count <= |columns[i]|
    }
  }

  /** The cells destination column d must receive. */
  function Wanted(pending: set<TypeIndex>, s: Rows, t: TypeIndex): (c: Column)
    requires forall i :: 0 <= i < |s.columns| ==> s.row + s.count <= |s.columns[i]|
    ensures |c| == s.count
  {
    var i := Source(pending, s.types, t);
    if 0 <= i < |s.columns| then s.columns[i][s.row..s.row + s.count] else Repeat(Default(t), s.count)
  }

  /** Is there no destination column for source column i? */
  predicate Orphan(pending: set<TypeIndex>, src: seq<TypeIndex>, dst: seq<TypeIndex>, i: nat)
    requires i < |src|
  {
    forall d :: 0 <= d < |dst| ==> Valid(pending, dst[d]) != Valid(pending, src[i])
  }

  /** Columns dFrom..d of the slice are filled in, the others are as they were. */
  ghost predicate Filled(pending: set<TypeIndex>, s: Rows, dstTypes: seq<TypeIndex>, start: nat,
                         was: seq<Column>, now: seq<Column>, dFrom: nat, d: nat)
    requires s.Ok(pending) && d <= |was| <= |dstTypes|
    requires forall k :: 0 <= k < |was| ==> start + s.count <= |was[k]|
  {
    && |now| == |was|
    && forall k :: 0 <= k < |was| ==>
         now[k] == if dFrom <= k < d then Splice(was[k], start, Wanted(pending, s, dstTypes[k])) else was[k]
  }

  /** Source columns from..i without a counterpart are disposed of, if asked. */
  ghost predicate Disposed(pending: set<TypeIndex>, s: Rows, dstTypes: seq<TypeIndex>, dispose: bool,
                           was: seq<nat>, now: seq<nat>, from: nat, i: nat)
    requires |was| <= |s.types|
  {
    && |now| == |was|
    && forall k :: 0 <= k < |was| ==>
         now[k] == was[k] + if from <= k < i && dispose && Orphan(pending, s.types, dstTypes, k) then 1 else 0
  }

  /** All of ts[i..n] lie above all of us[m..d]. */
  predicate Above(pending: set<TypeIndex>, ts: seq<TypeIndex>, i: nat, n: nat, us: seq<TypeIndex>, m: nat, d: nat)
    requires n <= |ts| && d <= |us|
  {
    forall x, y :: i <= x < n && m <= y < d ==> Valid(pending, us[y]) < Valid(pending, ts[x])
  }

  /** One phase of chunk::cast, over the columns of one kind, which are those with valid types in lo..hi. */
  method Phase(pending: set<TypeIndex>, s: Rows, dstTypes: seq<TypeIndex>, dst: array<Column>, start: nat,
               from: nat, end: nat, dFrom: nat, dEnd: nat, dispose: bool, disposed: array<nat>, ghost lo: nat,
                 ghost hi: nat)
    requires s.Ok(pending) && TypesOk(pending, dstTypes) && dst.Length == FirstTag(dstTypes)
    requires from <= end <= |s.columns| && dFrom <= dEnd <= dst.Length && disposed.Length == |s.columns|
    requires forall d :: 0 <= d < dst.Length ==> start + s.count <= |dst[d]|
    requires forall i :: 0 <= i < |s.types| ==> (from <= i < end <==> lo <= Valid(pending, s.types[i]) < hi)
    requires forall d :: 0 <= d < |dstTypes| ==> (dFrom <= d < dEnd <==> lo <= Valid(pending, dstTypes[d]) < hi)
    modifies dst, disposed
    ensures Filled(pending, s, dstTypes, start, old(dst[..]), dst[..], dFrom, dEnd)
    ensures Disposed(pending, s, dstTypes, dispose, old(disposed[..]), disposed[..], from, end)
  {
    ValidOrder(pending, s.types);
    ValidOrder(pending, dstTypes);
    var i, d := Merge(pending, s, dstTypes, dst, start, from, end, dFrom, dEnd, dispose, disposed);
    RestAlone(pending, s.types, dstTypes, from, end, dFrom, dEnd, i, d);
    DisposeRest(pending, s, dstTypes, i, end, dispose, disposed);
    ConstructRest(pending, s, dstTypes, dst, start, d, dEnd);
  }

  /** The columns of one kind have no partner outside it and are in order of their valid types. */
  predicate Paired(pending: set<TypeIndex>, ts: seq<TypeIndex>, from: nat, end: nat, us: seq<TypeIndex>, dFrom: nat,
                   dEnd: nat)
    requires end <= |ts|
  {
    && (forall i, j :: from <= i < j < end ==> Valid(pending, ts[i]) < Valid(pending, ts[j]))
    && (forall i, d :: from <= i < end && 0 <= d < |us| && !(dFrom <= d < dEnd) ==>
        Valid(pending, ts[i]) != Valid(pending, us[d]))
  }

  /** Where a merge stands: both sides are paired, and what is still ahead lies above what is behind. */
  ghost predicate Merging(pending: set<TypeIndex>, src: seq<TypeIndex>, dst: seq<TypeIndex>,
                          from: nat, end: nat, dFrom: nat, dEnd: nat, i: nat, d: nat) {
    && from <= i <= end <= |src| && dFrom <= d <= dEnd <= |dst|
    && Paired(pending, src, from, end, dst, dFrom, dEnd) && Paired(pending, dst, dFrom, dEnd, src, from, end)
    && Above(pending, dst, d, dEnd, src, from, i) && Above(pending, src, i, end, dst, dFrom, d)
  }

  /** The smaller of the two columns in front has no partner; equal ones are partners. */
  lemma SourceFirst(pending: set<TypeIndex>, src: seq<TypeIndex>, dst: seq<TypeIndex>,
                    from: nat, end: nat, dFrom: nat, dEnd: nat, i: nat, d: nat)
    requires Merging(pending, src, dst, from, end, dFrom, dEnd, i, d) && i < end
    requires d < dEnd ==> Valid(pending, src[i]) < Valid(pending, dst[d])
    ensures Orphan(pending, src, dst, i) && Merging(pending, src, dst, from, end, dFrom, dEnd, i + 1, d)
  {
    forall k | 0 <= k < |dst| ensures Valid(pending, dst[k]) != Valid(pending, src[i]) {
      if d < k < dEnd {
        assert Valid(pending, dst[d]) < Valid(pending, dst[k]);
      }
    }
  }

  lemma DestinationFirst(pending: set<TypeIndex>, src: seq<TypeIndex>, dst: seq<TypeIndex>,
                         from: nat, end: nat, dFrom: nat, dEnd: nat, i: nat, d: nat)
    requires Merging(pending, src, dst, from, end, dFrom, dEnd, i, d) && d < dEnd
    requires i < end ==> Valid(pending, dst[d]) < Valid(pending, src[i])
    ensures Source(pending, src, dst[d]) < 0 && Merging(pending, src, dst, from, end, dFrom, dEnd, i, d + 1)
  {
    forall k | 0 <= k < |src| ensures Valid(pending, src[k]) != Valid(pending, dst[d]) {
      if i < k < end {
        assert Valid(pending, src[i]) < Valid(pending, src[k]);
      }
    }
  }

  lemma Partners(pending: set<TypeIndex>, src: seq<TypeIndex>, dst: seq<TypeIndex>,
                 from: nat, end: nat, dFrom: nat, dEnd: nat, i: nat, d: nat)
    requires Merging(pending, src, dst, from, end, dFrom, dEnd, i, d) && i < end && d < dEnd
    requires Valid(pending, src[i]) == Valid(pending, dst[d]) && TypesOk(pending, src)
    ensures Source(pending, src, dst[d]) == i && !Orphan(pending, src, dst, i)
    ensures Merging(pending, src, dst, from, end, dFrom, dEnd, i + 1, d + 1)
  {
    ValidOrder(pending, src);
  }

  /** The loop of a phase: it stops when either side runs out, and what is left has no partner. */
  method Merge(pending: set<TypeIndex>, s: Rows, dstTypes: seq<TypeIndex>, dst: array<Column>, start: nat,
               from: nat, end: nat, dFrom: nat, dEnd: nat, dispose: bool, disposed: array<nat>)
    returns (i: nat, d: nat)
    requires s.Ok(pending) && dst.Length <= |dstTypes|
    requires from <= end <= |s.columns| && dFrom <= dEnd <= dst.Length && disposed.Length == |s.columns|
    requires forall d :: 0 <= d < dst.Length ==> start + s.count <= |dst[d]|
    requires Merging(pending, s.types, dstTypes, from, end, dFrom, dEnd, from, dFrom)
    modifies dst, disposed
    ensures from <= i <= end && dFrom <= d <= dEnd
    ensures Filled(pending, s, dstTypes, start, old(dst[..]), dst[..], dFrom, d)
    ensures Disposed(pending, s, dstTypes, dispose, old(disposed[..]), disposed[..], from, i)
    ensures Merging(pending, s.types, dstTypes, from, end, dFrom, dEnd, i, d) && (i == end || d == dEnd)
  {
    i, d := from, dFrom;
    while i < end && d < dEnd
      invariant from <= i <= end && dFrom <= d <= dEnd
      invariant Filled(pending, s, dstTypes, start, old(dst[..]), dst[..], dFrom, d)
      invariant Disposed(pending, s, dstTypes, dispose, old(disposed[..]), disposed[..], from, i)
      invariant Merging(pending, s.types, dstTypes, from, end, dFrom, dEnd, i, d)
      decreases end - i + dEnd - d
    {
      i, d := MergeOne(pending, s, dstTypes, dst, start, from, end, dFrom, dEnd, dispose, disposed, i, d, old(dst[..]),
                       old(disposed[..]));
    }
  }

  /** One round: the smaller of the two columns in front goes on, or both do. */
  method MergeOne(pending: set<TypeIndex>, s: Rows, dstTypes: seq<TypeIndex>, dst: array<Column>, start: nat,
                  from: nat, end: nat, dFrom: nat, dEnd: nat, dispose: bool, disposed: array<nat>, i0: nat, d0: nat,
                  ghost columns: seq<Column>, ghost counts: seq<nat>)
    returns (i: nat, d: nat)
    requires s.Ok(pending) && dst.Length <= |dstTypes| && disposed.Length == |s.columns| && |columns| == dst.Length
    requires |counts| == |s.columns|
    requires forall d :: 0 <= d < |columns| ==> start + s.count <= |columns[d]|
    requires end <= |s.columns| && dEnd <= dst.Length && i0 < end && d0 < dEnd
    requires Merging(pending, s.types, dstTypes, from, end, dFrom, dEnd, i0, d0)
    requires Filled(pending, s, dstTypes, start, columns, dst[..], dFrom, d0)
    requires Disposed(pending, s, dstTypes, dispose, counts, disposed[..], from, i0)
    modifies dst, disposed
    ensures i0 <= i <= end && d0 <= d <= dEnd && i + d > i0 + d0
    ensures Merging(pending, s.types, dstTypes, from, end, dFrom, dEnd, i, d)
    ensures Filled(pending, s, dstTypes, start, columns, dst[..], dFrom, d)
    ensures Disposed(pending, s, dstTypes, dispose, counts, disposed[..], from, i)
  {
    i, d := i0, d0;
    ghost var columns1, counts1 := dst[..], disposed[..];
    var st, dt := Valid(pending, s.types[i]), Valid(pending, dstTypes[d]);
    assert dst[d] == columns[d] && disposed[i] == counts[i];
    if st < dt {
      SourceFirst(pending, s.types, dstTypes, from, end, dFrom, dEnd, i, d);
      Leave(pending, s, dstTypes, dispose, disposed, i);
      DisposedMore(pending, s, dstTypes, dispose, counts, counts1, disposed[..], from, i);
      i := i + 1;
    } else if st > dt {
      DestinationFirst(pending, s.types, dstTypes, from, end, dFrom, dEnd, i, d);
      Receive(dst, d, start, Repeat(Default(dstTypes[d]), s.count));
      FilledMore(pending, s, dstTypes, start, columns, columns1, dst[..], dFrom, d);
      d := d + 1;
    } else {
      Partners(pending, s.types, dstTypes, from, end, dFrom, dEnd, i, d);
      Receive(dst, d, start, s.columns[i][s.row..s.row + s.count]);
      FilledMore(pending, s, dstTypes, start, columns, columns1, dst[..], dFrom, d);
      DisposedMore(pending, s, dstTypes, dispose, counts, counts1, disposed[..], from, i);
      i, d := i + 1, d + 1;
    }
  }

  /** A source column without a partner is left behind. */
  method Leave(pending: set<TypeIndex>, s: Rows, dstTypes: seq<TypeIndex>, dispose: bool, disposed: array<nat>, i: nat)
    requires i < disposed.Length <= |s.types| && Orphan(pending, s.types, dstTypes, i)
    modifies disposed
    ensures var once := if dispose && Orphan(pending, s.types, dstTypes, i) then 1 else 0;
            disposed[..] == old(disposed[..])[i := old(disposed[i]) + once]
  {
    if dispose {
      disposed[i] := disposed[i] + 1;
    }
  }

  /** A destination column receives its part of the slice. */
  method Receive(dst: array<Column>, d: nat, start: nat, part: Column)
    requires d < dst.Length && start + |part| <= |dst[d]|
    modifies dst
    ensures dst[..] == old(dst[..])[d := Splice(old(dst[d]), start, part)]
  {
    dst[d] := Splice(dst[d], start, part);
  }

  lemma FilledMore(pending: set<TypeIndex>, s: Rows, dstTypes: seq<TypeIndex>, start: nat,
                   was: seq<Column>, now: seq<Column>, next: seq<Column>, dFrom: nat, d: nat)
    requires s.Ok(pending) && dFrom <= d < |was| <= |dstTypes|
    requires forall k :: 0 <= k < |was| ==> start + s.count <= |was[k]|
    requires Filled(pending, s, dstTypes, start, was, now, dFrom, d)
    requires next == now[d := Splice(was[d], start, Wanted(pending, s, dstTypes[d]))]
    ensures Filled(pending, s, dstTypes, start, was, next, dFrom, d + 1)
  {
  }

  lemma DisposedMore(pending: set<TypeIndex>, s: Rows, dstTypes: seq<TypeIndex>, dispose: bool,
                     was: seq<nat>, now: seq<nat>, next: seq<nat>, from: nat, i: nat)
    requires from <= i < |was| <= |s.types| && Disposed(pending, s, dstTypes, dispose, was, now, from, i)
    requires next == now[i := was[i] + if dispose && Orphan(pending, s.types, dstTypes, i) then 1 else 0]
    ensures Disposed(pending, s, dstTypes, dispose, was, next, from, i + 1)
  {
  }

  /** When one side has run out, what is left of the other has no partner. */
  lemma RestAlone(pending: set<TypeIndex>, src: seq<TypeIndex>, dst: seq<TypeIndex>,
                  from: nat, end: nat, dFrom: nat, dEnd: nat, i: nat, d: nat)
    requires Merging(pending, src, dst, from, end, dFrom, dEnd, i, d) && (i == end || d == dEnd)
    ensures forall k :: i <= k < end ==> Orphan(pending, src, dst, k)
    ensures forall k :: d <= k < dEnd ==> Source(pending, src, dst[k]) < 0
    decreases end - i + dEnd - d
  {
    if i < end {
      SourceFirst(pending, src, dst, from, end, dFrom, dEnd, i, d);
      RestAlone(pending, src, dst, from, end, dFrom, dEnd, i + 1, d);
    } else if d < dEnd {
      DestinationFirst(pending, src, dst, from, end, dFrom, dEnd, i, d);
      RestAlone(pending, src, dst, from, end, dFrom, dEnd, i, d + 1);
    }
  }

  method DisposeRest(pending: set<TypeIndex>, s: Rows, dstTypes: seq<TypeIndex>,
                     first: nat, end: nat, dispose: bool, disposed: array<nat>)
    requires |s.columns| <= |s.types| && first <= end <= disposed.Length == |s.columns|
    requires forall k :: first <= k < end ==> Orphan(pending, s.types, dstTypes, k)
    modifies disposed
    ensures Disposed(pending, s, dstTypes, dispose, old(disposed[..]), disposed[..], first, end)
  {
    var i := first;
    while i < end
      invariant first <= i <= end
      invariant Disposed(pending, s, dstTypes, dispose, old(disposed[..]), disposed[..], first, i)
    {
      if dispose {
        disposed[i] := disposed[i] + 1;
      }
      i := i + 1;
    }
  }

  method ConstructRest(pending: set<TypeIndex>, s: Rows, dstTypes: seq<TypeIndex>, dst: array<Column>, start: nat,
                       first: nat, dEnd: nat)
    requires s.Ok(pending) && dst.Length <= |dstTypes| && first <= dEnd <= dst.Length
    requires forall d :: 0 <= d < dst.Length ==> start + s.count <= |dst[d]|
    requires forall k :: first <= k < dEnd ==> Source(pending, s.types, dstTypes[k]) < 0
    modifies dst
    ensures Filled(pending, s, dstTypes, start, old(dst[..]), dst[..], first, dEnd)
  {
    var d := first;
    while d < dEnd
      invariant first <= d <= dEnd
      invariant Filled(pending, s, dstTypes, start, old(dst[..]), dst[..], first, d)
    {
      dst[d] := Splice(dst[d], start, Repeat(Default(dstTypes[d]), s.count));
      d := d + 1;
    }
  }

  /**
   chunk::cast.  Every destination column receives the shared column or its default; a buffer or managed
   column that the destination lacks is disposed of once (buffers only when asked), all others never.
   */
  method Cast(pending: set<TypeIndex>, s: Rows, dstTypes: seq<TypeIndex>, dst: array<Column>, start: nat,
              destruct: bool)
    returns (disposed: array<nat>)
    requires PendingOk(pending) && s.Ok(pending) && TypesOk(pending, dstTypes) && dst.Length == FirstTag(dstTypes)
    requires forall d :: 0 <= d < dst.Length ==> start + s.count <= |dst[d]|
    modifies dst
    ensures forall d :: 0 <= d < dst.Length ==> dst[d] == Splice(old(dst[d]), start, Wanted(pending, s, dstTypes[d]))
    ensures fresh(disposed) && disposed.Length == |s.columns|
    ensures forall i :: 0 <= i < disposed.Length ==>
      disposed[i] == if Orphan(pending, s.types, dstTypes, i) && Disposable(s.types[i], destruct) then 1 else 0
  {
    disposed := new nat[|s.columns|](_ => 0);
    KindRanges(pending, s.types);
    KindRanges(pending, dstTypes);
    Phase(pending, s, dstTypes, dst, start, 0, FirstBuffer(s.types), 0, FirstBuffer(dstTypes),
          false, disposed, 0, KIND);
    Phase(pending, s, dstTypes, dst, start, FirstBuffer(s.types), FirstManaged(s.types), FirstBuffer(dstTypes),
          FirstManaged(dstTypes),
          destruct, disposed, KIND, 2 * KIND);
    Phase(pending, s, dstTypes, dst, start, FirstManaged(s.types), FirstTag(s.types), FirstManaged(dstTypes),
          FirstTag(dstTypes),
          true, disposed, 2 * KIND, 3 * KIND);
  }

  predicate Disposable(t: TypeIndex, destruct: bool) {
    KindOf(t) == Managed || (KindOf(t) == Buffer && destruct)
  }

  /** Sorting groups the kinds, and valid types stay in their group. */
  lemma KindRanges(pending: set<TypeIndex>, ts: seq<TypeIndex>)
    requires PendingOk(pending) && TypesOk(pending, ts)
    ensures FirstBuffer(ts) <= FirstManaged(ts) <= FirstTag(ts)
    ensures forall i :: 0 <= i < |ts| ==>
      && (i < FirstBuffer(ts) <==> Valid(pending, ts[i]) < KIND)
      && (i < FirstManaged(ts) <==> Valid(pending, ts[i]) < 2 * KIND)
      && (i < FirstTag(ts) <==> Valid(pending, ts[i]) < 3 * KIND)
      && (i < FirstBuffer(ts) <==> KindOf(ts[i]) == Pod)
      && (FirstBuffer(ts) <= i < FirstManaged(ts) <==> KindOf(ts[i]) == Buffer)
      && (FirstManaged(ts) <= i < FirstTag(ts) <==> KindOf(ts[i]) == Managed)
  {
    FirstSplits(ts, KIND);
    FirstSplits(ts, 2 * KIND);
    FirstSplits(ts, 3 * KIND);
    var b, m, g := FirstBuffer(ts), FirstManaged(ts), FirstTag(ts);
    assert b > 0 ==> ts[b - 1] < KIND;
    assert m > 0 ==> ts[m - 1] < 2 * KIND;
    forall i | 0 <= i < |ts|
      ensures Valid(pending, ts[i]) < KIND <==> ts[i] < KIND
      ensures Valid(pending, ts[i]) < 2 * KIND <==> ts[i] < 2 * KIND
      ensures Valid(pending, ts[i]) < 3 * KIND <==> ts[i] < 3 * KIND
    {
      assert KindOf(Valid(pending, ts[i])) == KindOf(ts[i]);
    }
  }

  /** Row by row, the merge computes CastRow: cell j of what column d receives is cell d of the cast of row j. */
  lemma CastIsRowwise(pending: set<TypeIndex>, s: Rows, dst: seq<TypeIndex>, d: nat, j: nat)
    requires PendingOk(pending) && s.Ok(pending) && TypesOk(pending, dst) && d < FirstTag(dst) && j < s.count
    ensures var row := seq(|s.columns|, i requires 0 <= i < |s.columns| => s.columns[i][s.row + j]);
      Wanted(pending, s, dst[d])[j] == CastRow(pending, s.types, dst, row)[d]
  {
  }

  /** Casting there and back keeps every column both archetypes have. */
  lemma CastRoundTrip(pending: set<TypeIndex>, src: seq<TypeIndex>, dst: seq<TypeIndex>, row: Row, i: nat)
    requires PendingOk(pending) && TypesOk(pending, src) && TypesOk(pending, dst) && |row| == FirstTag(src) && i < |row|
    ensures CastRow(pending, dst, src, CastRow(pending, src, dst, row))[i]
         == if Orphan(pending, src, dst, i) then Default(src[i]) else row[i]
  {
    ValidOrder(pending, src);
    ValidOrder(pending, dst);
    KindRanges(pending, src);
    KindRanges(pending, dst);
    var d := Source(pending, dst, src[i]);
    if d >= 0 {
      assert !Orphan(pending, src, dst, i);
      assert Source(pending, src, dst[d]) == i;
    }
  }
}

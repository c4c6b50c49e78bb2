/**
 Copying one row of a chunk into a slice of another, byte by byte.  A chunk's data is its entity array
 followed by its columns; where the columns begin depends on the bin the chunk comes from.
 */
module Duplicates {
  import opened Basics
  import opened Modulo
  import opened Chunks

  const ENTITY_SIZE: nat := 4

  /** A byte knows which cell value it is part of, and which part. */
  datatype Byte<T> = Part(value: T, k: nat)

  /** A chunk's data; what is written past the end of a small chunk goes on behind it. */
  type Memory<!T> = nat -> Byte<T>

  /** Where each column begins, how large its cells are, for how many rows; and the first columns of two kinds. */
  datatype Layout = Layout(offsets: seq<nat>, sizes: seq<nat>, capacity: nat, firstBuffer: nat, firstManaged: nat)

  ghost predicate Apart(l: Layout, i: nat, j: nat)
    requires i < |l.sizes| == |l.offsets| && j < |l.sizes|
  {
    ColumnEnd(l, i) <= l.offsets[j] || ColumnEnd(l, j) <= l.offsets[i]
  }

  /** Columns lie behind the entities and apart from each other. */
  ghost predicate LayoutOk(l: Layout) {
    && |l.offsets| == |l.sizes| && l.firstBuffer <= l.firstManaged <= |l.sizes|
    && (forall i :: 0 <= i < |l.sizes| ==> l.sizes[i] > 0 && ENTITY_SIZE * l.capacity <= l.offsets[i])
    && (forall i: nat, j: nat {:trigger Apart(l, i, j)} :: i < |l.sizes| && j < |l.sizes| && i != j ==> Apart(l, i, j))
  }

  function ColumnEnd(l: Layout, i: nat): nat
    requires i < |l.offsets| == |l.sizes|
  {
    l.offsets[i] + l.sizes[i] * l.capacity
  }

  // ------------------------------------------------------------------ construct_archetype's offsets

  datatype Column = Column(size: nat, align: nat)

  function AlignUp(x: nat, a: nat): (r: nat)
    requires a > 0
    ensures r >= x
  {
    Euclid(x + a - 1, a);
    a * ((x + a - 1) / a)
  }

  /** Where the columns, in stable order, begin: each behind the one before it, aligned. */
  function Start(cols: seq<Column>, capacity: nat, p: nat): nat
    requires p < |cols| && forall c :: c in cols ==> c.align > 0
    decreases p
  {
    AlignUp(if p == 0 then ENTITY_SIZE * capacity else Start(cols, capacity, p - 1) + cols[p - 1].size * capacity,
            cols[p].align)
  }

  /** The p-th column in stable order. */
  ghost predicate PlacedAt(l: Layout, cols: seq<Column>, stable: seq<nat>, p: nat)
    requires |l.offsets| == |l.sizes| && p < |cols| == |stable| && forall c :: c in cols ==> c.align > 0
  {
    stable[p] < |l.sizes| && l.sizes[stable[p]] == cols[p].size && l.offsets[stable[p]] == Start(cols, l.capacity, p)
  }

  /** stable lists the columns in stable order; cols are their sizes and alignments in that order. */
  ghost predicate IsLayout(l: Layout, cols: seq<Column>, stable: seq<nat>) {
    && |l.offsets| == |l.sizes| == |stable| == |cols| && l.firstBuffer <= l.firstManaged <= |l.sizes|
    && (forall c :: c in cols ==> c.align > 0 && c.size > 0)
    && (forall i :: 0 <= i < |l.sizes| ==> i in stable)
    && (forall p: nat {:trigger PlacedAt(l, cols, stable, p)} :: p < |stable| ==> PlacedAt(l, cols, stable, p))
  }

  lemma PlaceOf(l: Layout, cols: seq<Column>, stable: seq<nat>, i: nat) returns (p: nat)
    requires IsLayout(l, cols, stable) && i < |l.sizes|
    ensures p < |cols| && stable[p] == i && PlacedAt(l, cols, stable, p)
  {
    assert i in stable;
    p :| 0 <= p < |stable| && stable[p] == i;
  }

  /** Each column begins behind the one before it, the first one behind the entities. */
  lemma StartAfter(cols: seq<Column>, capacity: nat, p: nat)
    requires p < |cols| && forall c :: c in cols ==> c.align > 0
    ensures Start(cols, capacity, p) >= if p == 0 then ENTITY_SIZE * capacity
              else Start(cols, capacity, p - 1) + cols[p - 1].size * capacity
  {
  }

  lemma {:induction false} StartsApart(cols: seq<Column>, capacity: nat, p: nat, q: nat)
    requires p < q < |cols| && forall c :: c in cols ==> c.align > 0
    ensures Start(cols, capacity, p) + cols[p].size * capacity <= Start(cols, capacity, q)
    decreases q
  {
    StartAfter(cols, capacity, q);
    if p < q - 1 {
      StartsApart(cols, capacity, p, q - 1);
      NonNegative(cols[q - 1].size, capacity);
    }
  }

  lemma {:induction false} StartsBehindEntities(cols: seq<Column>, capacity: nat, p: nat)
    requires p < |cols| && forall c :: c in cols ==> c.align > 0
    ensures ENTITY_SIZE * capacity <= Start(cols, capacity, p)
  {
    StartAfter(cols, capacity, p);
    if p > 0 {
      StartsBehindEntities(cols, capacity, p - 1);
      NonNegative(cols[p - 1].size, capacity);
    }
  }

  lemma NonNegative(x: nat, y: nat)
    ensures x * y >= 0
  {
  }

  /** The computed offsets keep the columns apart. */
  lemma LayoutsAreOk(l: Layout, cols: seq<Column>, stable: seq<nat>)
    requires IsLayout(l, cols, stable)
    ensures LayoutOk(l)
  {
    forall i: nat | i < |l.sizes| ensures l.sizes[i] > 0 && ENTITY_SIZE * l.capacity <= l.offsets[i] {
      var p := PlaceOf(l, cols, stable, i);
      assert cols[p] in cols;
      StartsBehindEntities(cols, l.capacity, p);
    }
    forall i: nat, j: nat | i < |l.sizes| && j < |l.sizes| && i != j ensures Apart(l, i, j) {
      PlacedApart(l, cols, stable, i, j);
    }
  }

  lemma PlacedApart(l: Layout, cols: seq<Column>, stable: seq<nat>, i: nat, j: nat)
    requires IsLayout(l, cols, stable) && i < |l.sizes| && j < |l.sizes| && i != j
    ensures Apart(l, i, j)
  {
    var p := PlaceOf(l, cols, stable, i);
    var q := PlaceOf(l, cols, stable, j);
    StartsApart(cols, l.capacity, if p < q then p else q, if p < q then q else p);
  }

  /**
   An archetype with a column has the same offsets in two chunks exactly if they hold equally many rows, that
   is, come from the same bin: bins differ by far more than an alignment.
   */
  lemma OffsetsTellBins(l: Layout, l': Layout, cols: seq<Column>, stable: seq<nat>)
    requires IsLayout(l, cols, stable) && IsLayout(l', cols, stable) && cols != []
    requires l.capacity == l'.capacity
          || ENTITY_SIZE * l.capacity + cols[0].align <= ENTITY_SIZE * l'.capacity
          || ENTITY_SIZE * l'.capacity + cols[0].align <= ENTITY_SIZE * l.capacity
    ensures l.offsets == l'.offsets <==> l.capacity == l'.capacity
  {
    if l.capacity == l'.capacity {
      forall i: nat | i < |l.sizes| ensures l.offsets[i] == l'.offsets[i] {
        var p := PlaceOf(l, cols, stable, i);
        assert PlacedAt(l', cols, stable, p);
      }
    } else {
      assert PlacedAt(l, cols, stable, 0) && PlacedAt(l', cols, stable, 0);
      if l.capacity < l'.capacity {
        FirstDiffers(cols, l.capacity, l'.capacity);
      } else {
        FirstDiffers(cols, l'.capacity, l.capacity);
      }
    }
  }

  lemma FirstDiffers(cols: seq<Column>, small: nat, large: nat)
    requires cols != [] && (forall c :: c in cols ==> c.align > 0)
    requires ENTITY_SIZE * small + cols[0].align <= ENTITY_SIZE * large
    ensures Start(cols, small, 0) < Start(cols, large, 0)
  {
    var a, x := cols[0].align, ENTITY_SIZE * small + cols[0].align - 1;
    assert cols[0] in cols;
    Euclid(x, a);
  }

  // ------------------------------------------------------------------ rows in memory

  function Cell(l: Layout, i: nat, r: nat): nat
    requires i < |l.offsets| == |l.sizes|
  {
    l.offsets[i] + l.sizes[i] * r
  }

  ghost predicate HoldsByte<T>(mem: Memory<T>, l: Layout, r: nat, row: seq<T>, i: nat, k: nat)
    requires i < |row| == |l.offsets| == |l.sizes|
  {
    mem(Cell(l, i, r) + k) == Part(row[i], k)
  }

  /** Row r of the chunk holds these cells. */
  ghost predicate Holds<T>(mem: Memory<T>, l: Layout, r: nat, row: seq<T>)
    requires |l.offsets| == |l.sizes|
  {
    && |row| == |l.sizes|
    && forall i: nat, k: nat {:trigger HoldsByte(mem, l, r, row, i, k)} :: i < |row| && k < l.sizes[i] ==>
         HoldsByte(mem, l, r, row, i, k)
  }

  /** The value of a cell; bytes that do not belong together read as junk. */
  function ReadCell<T(==)>(mem: Memory<T>, at: nat, size: nat, junk: T): T {
    if size > 0 && forall k :: 0 <= k < size ==> mem(at + k) == Part(mem(at).value, k) then mem(at).value else junk
  }

  function ReadRow<T(==)>(mem: Memory<T>, l: Layout, r: nat, junk: T): (row: seq<T>)
    requires |l.offsets| == |l.sizes|
    ensures |row| == |l.sizes|
  {
    seq(|l.sizes|, i requires 0 <= i < |l.sizes| => ReadCell(mem, Cell(l, i, r), l.sizes[i], junk))
  }

  lemma ReadHeld<T>(mem: Memory<T>, l: Layout, r: nat, row: seq<T>, junk: T)
    requires LayoutOk(l) && Holds(mem, l, r, row)
    ensures ReadRow(mem, l, r, junk) == row
  {
    forall i | 0 <= i < |row| ensures ReadCell(mem, Cell(l, i, r), l.sizes[i], junk) == row[i] {
      assert HoldsByte(mem, l, r, row, i, 0);
      forall k: nat | k < l.sizes[i] ensures mem(Cell(l, i, r) + k) == Part(row[i], k) {
        assert HoldsByte(mem, l, r, row, i, k);
      }
    }
  }

  lemma SameRead<T>(m: Memory<T>, m': Memory<T>, l: Layout, r: nat, junk: T)
    requires LayoutOk(l) && forall a: nat :: m(a) == m'(a)
    ensures ReadRow(m, l, r, junk) == ReadRow(m', l, r, junk)
  {
    forall i: nat | i < |l.sizes|
      ensures ReadCell(m, Cell(l, i, r), l.sizes[i], junk) == ReadCell(m', Cell(l, i, r), l.sizes[i], junk)
    {
      SameCell(m, m', Cell(l, i, r), l.sizes[i], junk);
    }
  }

  lemma SameCell<T>(m: Memory<T>, m': Memory<T>, at: nat, size: nat, junk: T)
    requires forall a: nat :: m(a) == m'(a)
    ensures ReadCell(m, at, size, junk) == ReadCell(m', at, size, junk)
  {
    assert m(at) == m'(at);
    forall k: nat | k < size ensures (m(at + k) == Part(m(at).value, k)) == (m'(at + k) == Part(m'(at).value, k)) {
    }
  }

  // ------------------------------------------------------------------ memdup

  function Copied<T>(mem: Memory<T>, at: nat, src: Memory<T>, from: nat, n: nat): Memory<T> {
    (a: nat) => if at <= a < at + n then src(from + (a - at)) else mem(a)
  }

  /** `size` bytes of src, repeated over n bytes. */
  function Spread<T>(mem: Memory<T>, at: nat, size: nat, src: Memory<T>, from: nat, n: nat): Memory<T>
    requires size > 0
  {
    (a: nat) => if at <= a < at + n then src(from + (a - at) % size) else mem(a)
  }

  ghost predicate SameAt<T>(m: Memory<T>, n: Memory<T>, a: nat) {
    m(a) == n(a)
  }

  ghost predicate Same<T>(m: Memory<T>, n: Memory<T>) {
    forall a: nat {:trigger SameAt(m, n, a)} :: SameAt(m, n, a)
  }

  /** memdup: copies once, then doubles what is there. */
  method Memdup<T>(mem: Memory<T>, at: nat, src: Memory<T>, from: nat, size: nat, count: nat) returns (m: Memory<T>)
    requires size > 0 && count > 0
    ensures Same(m, Spread(mem, at, size, src, from, count * size))
  {
    var copied := 1;
    m := Copied(mem, at, src, from, size);
    FirstCopy(mem, at, src, from, size);
    while copied < count
      invariant 1 <= copied <= count
      invariant Same(m, Spread(mem, at, size, src, from, copied * size))
    {
      var toCopy := if copied < count - copied then copied else count - copied;
      MoreCells(size, copied, toCopy);
      Doubled(mem, m, at, src, from, size, copied, copied * size, toCopy * size);
      m := Copied(m, at + copied * size, m, at, toCopy * size);
      copied := copied + toCopy;
    }
  }

  lemma FirstCopy<T>(mem: Memory<T>, at: nat, src: Memory<T>, from: nat, size: nat)
    requires size > 0
    ensures Same(Copied(mem, at, src, from, size), Spread(mem, at, size, src, from, 1 * size))
  {
    forall a: nat ensures SameAt(Copied(mem, at, src, from, size), Spread(mem, at, size, src, from, 1 * size), a) {
      if at <= a < at + size {
        ModUnique(a - at, size, 0, a - at);
      }
    }
  }

  lemma MoreCells(size: nat, copied: nat, toCopy: nat)
    requires toCopy <= copied
    ensures toCopy * size <= copied * size == size * copied && (copied + toCopy) * size == copied * size + toCopy * size
  {
    NonNegative(copied - toCopy, size);
    assert copied * size == toCopy * size + (copied - toCopy) * size;
  }

  /** The first bytes copied behind n bytes that repeat a cell go on repeating it. */
  lemma Doubled<T>(mem: Memory<T>, m: Memory<T>, at: nat, src: Memory<T>, from: nat, size: nat, copied: nat, n: nat,
                   more: nat)
    requires size > 0 && n == size * copied && more <= n && Same(m, Spread(mem, at, size, src, from, n))
    ensures Same(Copied(m, at + n, m, at, more), Spread(mem, at, size, src, from, n + more))
  {
    var was, m', all := Spread(mem, at, size, src, from, n), Copied(m, at + n, m, at, more),
          Spread(mem, at, size, src, from, n + more);
    forall a: nat ensures SameAt(m', all, a) {
      assert SameAt(m, was, a);
      if at + n <= a < at + n + more {
        assert SameAt(m, was, a - n);
        SamePhase(a - n - at, size, copied, n);
      }
    }
  }

  lemma SamePhase(x: nat, size: nat, copied: nat, n: nat)
    requires size > 0 && n == size * copied
    ensures (x + n) % size == x % size
  {
    Euclid(x, size);
    assert size * (x / size + copied) == size * (x / size) + size * copied;
    ModUnique(x + n, size, x / size + copied, x % size);
  }

  // ------------------------------------------------------------------ which columns chunk::duplicate copies

  function Numbers(lo: nat, hi: nat): (l: seq<nat>)
    requires lo <= hi
    ensures |l| == hi - lo && forall i :: 0 <= i < |l| ==> l[i] == lo + i
  {
    seq(hi - lo, i requires 0 <= i => lo + i)
  }

  /** The columns lo..hi whose type is the next one of the destination's, and the destination's next type after them. */
  function Matched(types: seq<nat>, dstTypes: seq<nat>, lo: nat, hi: nat, dstI: nat): (r: (seq<nat>, nat))
    requires hi <= |types|
    ensures forall p :: 0 <= p < |r.0| ==> lo <= r.0[p] < hi
    decreases hi - lo
  {
    if lo >= hi then ([], dstI)
    else if dstI < |dstTypes| && types[lo] == dstTypes[dstI] then
      var r := Matched(types, dstTypes, lo + 1, hi, dstI + 1);
      ([lo] + r.0, r.1)
    else Matched(types, dstTypes, lo + 1, hi, dstI)
  }

  predicate ColumnsOf(l: Layout, order: seq<nat>) {
    forall p :: 0 <= p < |order| ==> order[p] < |l.sizes|
  }

  /** Which column is copied when: plain ones, then managed ones, then buffers. */
  function CopyOrder(l: Layout, types: seq<nat>, dstTypes: seq<nat>): (order: seq<nat>)
    requires l.firstBuffer <= l.firstManaged <= |l.sizes| <= |types|
    ensures ColumnsOf(l, order)
  {
    var plain := Matched(types, dstTypes, 0, l.firstBuffer, 0);
    plain.0 + Numbers(l.firstManaged, |l.sizes|) + Matched(types, dstTypes, l.firstBuffer, l.firstManaged, plain.1).0
  }

  function Order(l: Layout): (order: seq<nat>)
    requires l.firstBuffer <= l.firstManaged <= |l.sizes|
    ensures |order| == |l.sizes| && ColumnsOf(l, order)
  {
    Numbers(0, l.firstBuffer) + Numbers(l.firstManaged, |l.sizes|) + Numbers(l.firstBuffer, l.firstManaged)
  }

  lemma {:induction false} SameTypesMatch(types: seq<nat>, lo: nat, hi: nat)
    requires lo <= hi <= |types|
    ensures Matched(types, types, lo, hi, lo) == (Numbers(lo, hi), hi)
    decreases hi - lo
  {
    if lo < hi {
      SameTypesMatch(types, lo + 1, hi);
      assert Numbers(lo, hi) == [lo] + Numbers(lo + 1, hi);
    }
  }

  /** Between archetypes with the same types, up to pending copies, every column is copied. */
  lemma SameTypesCopyAll(l: Layout, types: seq<nat>)
    requires l.firstBuffer <= l.firstManaged <= |l.sizes| <= |types|
    ensures CopyOrder(l, types, types) == Order(l)
  {
    SameTypesMatch(types, 0, l.firstBuffer);
    SameTypesMatch(types, l.firstBuffer, l.firstManaged);
  }

  // ------------------------------------------------------------------ chunk::duplicate

  /**
   A call of chunk::duplicate: the destination's memory, the layout of the source chunk, the new rows, and
   the source row.  The source may be the chunk that is written to.
   */
  datatype Call<!T> =
    Call(mem: Memory<T>, l: Layout, start: nat, count: nat, src: Memory<T>, index: nat, own: bool)
  {
    /** The source row that is read: its number arrives in 16 bits. */
    function SrcIndex(): nat {
      Narrow(index)
    }
  }

  /** In the source's own chunk the new rows lie behind all others. */
  ghost predicate CallOk<T>(d: Call<T>) {
    LayoutOk(d.l) && d.count > 0 && (d.own ==> d.src == d.mem && d.index < d.start && d.start + d.count <= d.l.capacity)
  }

  /** Does column i's copy write to a? */
  predicate Hits<T>(d: Call<T>, i: nat, a: nat)
    requires i < |d.l.sizes| == |d.l.offsets|
  {
    Cell(d.l, i, d.start) <= a < Cell(d.l, i, d.start) + d.count * d.l.sizes[i]
  }

  /**
   The byte at a after the first n columns of order were written, each at
   the place the source chunk's layout gives.
   */
  function ByteAfter<T>(d: Call<T>, order: seq<nat>, n: nat, a: nat): Byte<T>
    requires LayoutOk(d.l) && ColumnsOf(d.l, order) && n <= |order|
  {
    if n == 0 then d.mem(a)
    else if Hits(d, order[n - 1], a) then
      var i := order[n - 1];
      d.src(Cell(d.l, i, d.SrcIndex()) + (a - Cell(d.l, i, d.start)) % d.l.sizes[i])
    else ByteAfter(d, order, n - 1, a)
  }

  ghost predicate Written<T>(m: Memory<T>, d: Call<T>, order: seq<nat>, n: nat)
    requires LayoutOk(d.l) && ColumnsOf(d.l, order) && n <= |order|
  {
    forall a: nat {:trigger m(a)} :: m(a) == ByteAfter(d, order, n, a)
  }

  /** The columns in list come next in order. */
  ghost predicate ComeNext(order: seq<nat>, n: nat, list: seq<nat>) {
    n + |list| <= |order| && forall p :: 0 <= p < |list| ==> list[p] == order[n + p]
  }

  method Duplicate<T>(d: Call<T>, types: seq<nat>, dstTypes: seq<nat>) returns (m: Memory<T>)
    requires CallOk(d) && |d.l.sizes| <= |types|
    ensures var order := CopyOrder(d.l, types, dstTypes); Written(m, d, order, |order|)
  {
    ghost var order := CopyOrder(d.l, types, dstTypes);
    var dstI;
    ghost var n;
    m, dstI, n := DuplicateMatched(d, d.mem, order, 0, types, dstTypes, 0, d.l.firstBuffer, 0);
    m, n := DuplicateManaged(d, m, order, n);
    m, dstI, n := DuplicateMatched(d, m, order, n, types, dstTypes, d.l.firstBuffer, d.l.firstManaged, dstI);
    assert n == |order|;
  }

  /** The loops over plain columns and over buffers. */
  method DuplicateMatched<T>(d: Call<T>, now: Memory<T>, ghost order: seq<nat>, ghost n: nat,
                             types: seq<nat>, dstTypes: seq<nat>, lo: nat, hi: nat, from: nat)
    returns (m: Memory<T>, dstI: nat, ghost n': nat)
    requires CallOk(d) && lo <= hi <= |d.l.sizes| <= |types| && ColumnsOf(d.l, order)
    requires ComeNext(order, n, Matched(types, dstTypes, lo, hi, from).0) && Written(now, d, order, n)
    ensures dstI == Matched(types, dstTypes, lo, hi, from).1 && n' == n + |Matched(types, dstTypes, lo, hi, from).0|
    ensures Written(m, d, order, n')
  {
    m, dstI, n' := now, from, n;
    var i := lo;
    while i < hi
      invariant lo <= i <= hi && ComeNext(order, n', Matched(types, dstTypes, i, hi, dstI).0)
      invariant n' + |Matched(types, dstTypes, i, hi, dstI).0| == n + |Matched(types, dstTypes, lo, hi, from).0|
      invariant Matched(types, dstTypes, i, hi, dstI).1 == Matched(types, dstTypes, lo, hi, from).1
      invariant Written(m, d, order, n')
    {
      if dstI < |dstTypes| && types[i] == dstTypes[dstI] {
        Unshift(order, n', i, Matched(types, dstTypes, i + 1, hi, dstI + 1).0);
        m := DuplicateColumn(d, m, order, n', i);
        dstI, n' := dstI + 1, n' + 1;
      }
      i := i + 1;
    }
  }

  lemma Unshift(order: seq<nat>, n: nat, i: nat, rest: seq<nat>)
    requires ComeNext(order, n, [i] + rest)
    ensures n < |order| && order[n] == i && ComeNext(order, n + 1, rest)
  {
    assert ([i] + rest)[0] == i;
    forall p | 0 <= p < |rest| ensures rest[p] == order[n + 1 + p] {
      assert ([i] + rest)[p + 1] == rest[p];
    }
  }

  /** The loop over managed columns, whose cells are copied one at a time. */
  method DuplicateManaged<T>(d: Call<T>, now: Memory<T>, ghost order: seq<nat>, ghost n: nat)
    returns (m: Memory<T>, ghost n': nat)
    requires CallOk(d) && ColumnsOf(d.l, order) && ComeNext(order, n, Numbers(d.l.firstManaged, |d.l.sizes|))
    requires Written(now, d, order, n)
    ensures n' == n + |d.l.sizes| - d.l.firstManaged && Written(m, d, order, n')
  {
    m, n' := now, n;
    ghost var managed := Numbers(d.l.firstManaged, |d.l.sizes|);
    var i := d.l.firstManaged;
    while i < |d.l.sizes|
      invariant d.l.firstManaged <= i <= |d.l.sizes| && n' == n + i - d.l.firstManaged
      invariant Written(m, d, order, n')
    {
      assert managed[i - d.l.firstManaged] == i;
      m := DuplicateColumn(d, m, order, n', i);
      i, n' := i + 1, n' + 1;
    }
  }

  method DuplicateColumn<T>(d: Call<T>, now: Memory<T>, ghost order: seq<nat>, ghost n: nat, i: nat)
    returns (m: Memory<T>)
    requires CallOk(d) && ColumnsOf(d.l, order) && n < |order| && order[n] == i && Written(now, d, order, n)
    ensures Written(m, d, order, n + 1)
  {
    var src := if d.own then now else d.src;
    m := Memdup(now, Cell(d.l, i, d.start), src, Cell(d.l, i, d.SrcIndex()), d.l.sizes[i], d.count);
    ColumnDone(d, now, m, order, n, src);
  }

  lemma ColumnDone<T>(d: Call<T>, now: Memory<T>, m: Memory<T>, order: seq<nat>, n: nat, src: Memory<T>)
    requires CallOk(d) && ColumnsOf(d.l, order) && n < |order| && Written(now, d, order, n)
    requires src == if d.own then now else d.src
    requires var i := order[n];
             Same(m, Spread(now, Cell(d.l, i, d.start), d.l.sizes[i], src, Cell(d.l, i, d.SrcIndex()),
                            d.count * d.l.sizes[i]))
    ensures Written(m, d, order, n + 1)
  {
    if d.own {
      SourceRead(d, now, order, n);
    }
    forall a: nat ensures m(a) == ByteAfter(d, order, n + 1, a) {
      ByteDone(d, now, m, order, n, src, a);
    }
  }

  lemma ByteDone<T>(d: Call<T>, now: Memory<T>, m: Memory<T>, order: seq<nat>, n: nat, src: Memory<T>, a: nat)
    requires LayoutOk(d.l) && ColumnsOf(d.l, order) && n < |order| && now(a) == ByteAfter(d, order, n, a)
    requires var from := Cell(d.l, order[n], d.SrcIndex());
             forall b: nat :: from <= b < from + d.l.sizes[order[n]] ==> src(b) == d.src(b)
    requires var i := order[n];
             Same(m, Spread(now, Cell(d.l, i, d.start), d.l.sizes[i], src, Cell(d.l, i, d.SrcIndex()),
                            d.count * d.l.sizes[i]))
    ensures m(a) == ByteAfter(d, order, n + 1, a)
  {
    var i := order[n];
    assert SameAt(m, Spread(now, Cell(d.l, i, d.start), d.l.sizes[i], src, Cell(d.l, i, d.SrcIndex()),
                            d.count * d.l.sizes[i]), a);
  }

  lemma SourceRead<T>(d: Call<T>, now: Memory<T>, order: seq<nat>, n: nat)
    requires CallOk(d) && d.own && ColumnsOf(d.l, order) && n < |order| && Written(now, d, order, n)
    ensures var from := Cell(d.l, order[n], d.SrcIndex());
            forall b: nat :: from <= b < from + d.l.sizes[order[n]] ==> now(b) == d.src(b)
  {
    var from := Cell(d.l, order[n], d.SrcIndex());
    forall b: nat | from <= b < from + d.l.sizes[order[n]] ensures now(b) == d.src(b) {
      SourceUntouched(d, order, n, order[n], b - from);
    }
  }

  /** Byte k of cell r of column i lies in column i's rows start..start + count exactly if r does. */
  lemma CellInRows(size: nat, r: nat, k: nat, start: nat, count: nat)
    requires k < size
    ensures size * start <= size * r + k < size * start + count * size <==> start <= r < start + count
  {
    var d := r - start;
    assert size * r - size * start == size * d;
    assert count * size - size * d == size * (count - d);
    MultipleGrows(size, d);
    MultipleGrows(size, count - d);
  }

  lemma InColumn(l: Layout, i: nat, r: nat, k: nat)
    requires LayoutOk(l) && i < |l.sizes| && r < l.capacity && k < l.sizes[i]
    ensures l.offsets[i] <= Cell(l, i, r) + k < ColumnEnd(l, i)
  {
    CellInRows(l.sizes[i], r, k, 0, l.capacity);
    assert l.sizes[i] * l.capacity == l.capacity * l.sizes[i];
  }

  /** The rows of a slice lie in the column. */
  lemma RowsInColumn(l: Layout, i: nat, start: nat, count: nat)
    requires LayoutOk(l) && i < |l.sizes| && start + count <= l.capacity
    ensures l.offsets[i] <= Cell(l, i, start) && Cell(l, i, start) + count * l.sizes[i] <= ColumnEnd(l, i)
  {
    var s := l.sizes[i];
    NonNegative(s, start);
    NonNegative(s, l.capacity - start - count);
    assert s * l.capacity == s * start + count * s + s * (l.capacity - start - count);
  }

  /** Rows that the source's chunk has room for are written inside its columns, and nowhere else. */
  lemma {:induction false} WritesInColumns<T>(d: Call<T>, order: seq<nat>, n: nat, a: nat)
    requires LayoutOk(d.l) && ColumnsOf(d.l, order) && n <= |order| && d.start + d.count <= d.l.capacity
    requires forall i :: 0 <= i < |d.l.sizes| ==> !(d.l.offsets[i] <= a < ColumnEnd(d.l, i))
    ensures ByteAfter(d, order, n, a) == d.mem(a)
    decreases n
  {
    if n > 0 {
      RowsInColumn(d.l, order[n - 1], d.start, d.count);
      WritesInColumns(d, order, n - 1, a);
    }
  }

  /** New rows behind the source row, in the source's own layout, leave it alone. */
  lemma {:induction false} SourceUntouched<T>(d: Call<T>, order: seq<nat>, n: nat, i: nat, k: nat)
    requires LayoutOk(d.l) && ColumnsOf(d.l, order) && n <= |order| && i < |d.l.sizes| && k < d.l.sizes[i]
    requires d.SrcIndex() < d.start && d.start + d.count <= d.l.capacity
    ensures ByteAfter(d, order, n, Cell(d.l, i, d.SrcIndex()) + k) == d.mem(Cell(d.l, i, d.SrcIndex()) + k)
    decreases n
  {
    if n > 0 {
      SourceUntouched(d, order, n - 1, i, k);
      ApartRows(d, i, d.SrcIndex(), k, order[n - 1]);
    }
  }

  /** The copy of column j hits row r of column i exactly if the columns and the rows agree. */
  lemma ApartRows<T>(d: Call<T>, i: nat, r: nat, k: nat, j: nat)
    requires LayoutOk(d.l) && i < |d.l.sizes| && j < |d.l.sizes| && k < d.l.sizes[i]
    requires r < d.l.capacity && d.start + d.count <= d.l.capacity
    ensures Hits(d, j, Cell(d.l, i, r) + k) <==> i == j && d.start <= r < d.start + d.count
  {
    if i == j {
      CellInRows(d.l.sizes[i], r, k, d.start, d.count);
    } else {
      InColumn(d.l, i, r, k);
      RowsInColumn(d.l, j, d.start, d.count);
      assert Apart(d.l, i, j);
    }
  }

  // ------------------------------------------------------------------ when the copies are copies

  /** The destination after a call between archetypes with the same types. */
  function Result<T>(d: Call<T>): Memory<T>
    requires LayoutOk(d.l)
  {
    (a: nat) => ByteAfter(d, Order(d.l), |d.l.sizes|, a)
  }

  /** Another chunk's layout has the same columns. */
  ghost predicate SameColumns(l: Layout, l': Layout) {
    LayoutOk(l) && LayoutOk(l') && l'.sizes == l.sizes
  }

  /** If the source row holds these cells, then so does every new row, read where the destination's columns are. */
  ghost predicate Copies<T>(d: Call<T>, dl: Layout, row: seq<T>)
    requires SameColumns(d.l, dl)
  {
    Holds(d.src, d.l, d.index, row) ==>
      forall r: nat :: d.start <= r < d.start + d.count ==> Holds(Result(d), dl, r, row)
  }

  ghost predicate AlwaysCopies<T(!new)>(sl: Layout, dl: Layout, start: nat, count: nat, index: nat)
    requires SameColumns(sl, dl)
  {
    forall mem: Memory<T>, src: Memory<T>, row: seq<T> ::
      Copies(Call(mem, sl, start, count, src, index, false), dl, row)
  }

  lemma InOrder(l: Layout, i: nat) returns (p: nat)
    requires l.firstBuffer <= l.firstManaged <= |l.sizes| && i < |l.sizes|
    ensures p < |l.sizes| && Order(l)[p] == i
  {
    p := if i < l.firstBuffer then i
         else if i < l.firstManaged then |l.sizes| - l.firstManaged + i
         else l.firstBuffer + (i - l.firstManaged);
  }

  /** With the source's offsets, every byte lands in its cell of every new row, and stays there. */
  lemma {:induction false} Landed<T>(d: Call<T>, dl: Layout, order: seq<nat>, n: nat, p: nat, r: nat, k: nat)
    requires SameColumns(d.l, dl) && dl.offsets == d.l.offsets && d.start <= r < d.start + d.count <= dl.capacity
    requires ColumnsOf(d.l, order) && p < n <= |order| && k < d.l.sizes[order[p]]
    ensures ByteAfter(d, order, n, Cell(dl, order[p], r) + k) == d.src(Cell(d.l, order[p], d.SrcIndex()) + k)
  {
    var i, c := order[p], order[n - 1];
    var there := Call(d.mem, dl, d.start, d.count, d.src, d.index, d.own);
    ApartRows(there, i, r, k, c);
    assert Hits(there, c, Cell(dl, i, r) + k) == Hits(d, c, Cell(dl, i, r) + k);
    if i == c {
      assert d.l.sizes[i] * r == d.l.sizes[i] * d.start + d.l.sizes[i] * (r - d.start);
      ModUnique(Cell(dl, i, r) + k - Cell(d.l, i, d.start), d.l.sizes[i], r - d.start, k);
    } else {
      Landed(d, dl, order, n - 1, p, r, k);
    }
  }

  lemma SameOffsetsCopy<T>(d: Call<T>, dl: Layout, row: seq<T>, r: nat)
    requires SameColumns(d.l, dl) && Reaches(d.l, dl, d.index) && d.start <= r < d.start + d.count <= dl.capacity
    requires Holds(d.src, d.l, d.index, row)
    ensures Holds(Result(d), dl, r, row)
  {
    forall i: nat, k: nat | i < |row| && k < d.l.sizes[i] ensures HoldsByte(Result(d), dl, r, row, i, k) {
      var p := InOrder(d.l, i);
      assert HoldsByte(d.src, d.l, d.SrcIndex(), row, i, k);
      Landed(d, dl, Order(d.l), |d.l.sizes|, p, r, k);
    }
  }

  lemma ReadsCopy<T>(d: Call<T>, dl: Layout, row: seq<T>, r: nat, junk: T)
    requires SameColumns(d.l, dl) && Reaches(d.l, dl, d.index) && d.start <= r < d.start + d.count <= dl.capacity
    requires Holds(d.src, d.l, d.index, row)
    ensures ReadRow(Result(d), dl, r, junk) == row
  {
    SameOffsetsCopy(d, dl, row, r);
    ReadHeld(Result(d), dl, r, row, junk);
  }

  /** The byte at a after the first n cells of row r were written. */
  function StoredAt<T>(mem: Memory<T>, l: Layout, r: nat, row: seq<T>, n: nat, a: nat): Byte<T>
    requires |l.offsets| == |l.sizes| == |row| && n <= |row|
  {
    if n == 0 then mem(a)
    else if Cell(l, n - 1, r) <= a < Cell(l, n - 1, r) + l.sizes[n - 1] then Part(row[n - 1], a - Cell(l, n - 1, r))
    else StoredAt(mem, l, r, row, n - 1, a)
  }

  function WriteRow<T>(mem: Memory<T>, l: Layout, r: nat, row: seq<T>): Memory<T>
    requires |l.offsets| == |l.sizes| == |row|
  {
    (a: nat) => StoredAt(mem, l, r, row, |row|, a)
  }

  lemma {:induction false} Stored<T>(mem: Memory<T>, l: Layout, r: nat, row: seq<T>, n: nat, i: nat, k: nat)
    requires LayoutOk(l) && |l.sizes| == |row| && r < l.capacity && i < n <= |row| && k < l.sizes[i]
    ensures StoredAt(mem, l, r, row, n, Cell(l, i, r) + k) == Part(row[i], k)
  {
    if i < n - 1 {
      InColumn(l, i, r, k);
      InColumn(l, n - 1, r, 0);
      InColumn(l, n - 1, r, l.sizes[n - 1] - 1);
      assert Apart(l, i, n - 1);
      Stored(mem, l, r, row, n - 1, i, k);
    }
  }

  lemma WrittenIsHeld<T>(mem: Memory<T>, l: Layout, r: nat, row: seq<T>)
    requires LayoutOk(l) && |row| == |l.sizes| && r < l.capacity
    ensures Holds(WriteRow(mem, l, r, row), l, r, row)
  {
    forall c: nat, k: nat | c < |row| && k < l.sizes[c] ensures HoldsByte(WriteRow(mem, l, r, row), l, r, row, c, k) {
      Stored(mem, l, r, row, |row|, c, k);
    }
  }

  /** A byte that column i's copy does not reach never gets column i's value, if that value is nowhere else. */
  lemma {:induction false} NeverReached<T>(d: Call<T>, order: seq<nat>, n: nat, i: nat, x: T, row: seq<T>, a: nat)
    requires LayoutOk(d.l) && ColumnsOf(d.l, order) && n <= |order| && i < |d.l.sizes| == |row|
    requires d.SrcIndex() < d.l.capacity
    requires d.mem(a).value == x && !Hits(d, i, a)
    requires Holds(d.src, d.l, d.SrcIndex(), row) && forall c :: 0 <= c < |row| && c != i ==> row[c] == x
    ensures ByteAfter(d, order, n, a).value == x
    decreases n
  {
    if n > 0 {
      var c := order[n - 1];
      if Hits(d, c, a) {
        var k: nat := (a - Cell(d.l, c, d.start)) % d.l.sizes[c];
        assert HoldsByte(d.src, d.l, d.SrcIndex(), row, c, k);
      } else {
        NeverReached(d, order, n - 1, i, x, row, a);
      }
    }
  }

  /** If column i is elsewhere in the destination, some byte of the new rows' cells is not reached. */
  lemma UnreachedByte<T>(d: Call<T>, dl: Layout, i: nat) returns (r: nat, k: nat)
    requires SameColumns(d.l, dl) && i < |dl.sizes| && dl.offsets[i] != d.l.offsets[i] && d.count > 0
    ensures d.start <= r < d.start + d.count && k < dl.sizes[i] && !Hits(d, i, Cell(dl, i, r) + k)
  {
    var s := d.l.sizes[i];
    if dl.offsets[i] < d.l.offsets[i] {
      r, k := d.start, 0;
    } else {
      r, k := d.start + d.count - 1, s - 1;
      assert s * r == s * d.start + s * (d.count - 1) && d.count * s == s * (d.count - 1) + s;
    }
  }

  lemma CallFails<T>(d: Call<T>, dl: Layout, i: nat, row: seq<T>, x: T)
    requires SameColumns(d.l, dl) && d.count > 0 && d.SrcIndex() == d.index < d.l.capacity
    requires i < |d.l.sizes| == |row| && d.l.offsets[i] != dl.offsets[i]
    requires Holds(d.src, d.l, d.index, row) && forall a: nat :: d.mem(a).value == x
    requires row[i] != x && forall c :: 0 <= c < |row| && c != i ==> row[c] == x
    ensures !Copies(d, dl, row)
  {
    var r, k := UnreachedByte(d, dl, i);
    var a := Cell(dl, i, r) + k;
    NeverReached(d, Order(d.l), |d.l.sizes|, i, x, row, a);
    assert !HoldsByte(Result(d), dl, r, row, i, k);
    assert !Holds(Result(d), dl, r, row);
  }

  lemma OtherOffsetsFail<T(!new)>(sl: Layout, dl: Layout, start: nat, count: nat, index: nat, i: nat, x: T, y: T)
    requires SameColumns(sl, dl) && count > 0 && index < sl.capacity && x != y && Narrow(index) == index
    requires i < |sl.sizes| && sl.offsets[i] != dl.offsets[i]
    ensures !AlwaysCopies<T>(sl, dl, start, count, index)
  {
    var row := seq(|sl.sizes|, c => if c == i then y else x);
    var mem: Memory<T> := (a: nat) => Part(x, 0);
    var src := WriteRow(mem, sl, index, row);
    WrittenIsHeld(mem, sl, index, row);
    var d := Call(mem, sl, start, count, src, index, false);
    CallFails(d, dl, i, row, x);
  }

  /** Writing one row leaves the other rows as they were. */
  lemma {:induction false} OtherRowStays<T>(mem: Memory<T>, l: Layout, r: nat, row: seq<T>, n: nat, q: nat, i: nat,
                                            k: nat)
    requires LayoutOk(l) && |row| == |l.sizes| && r < l.capacity && q < l.capacity && q != r
    requires n <= |row| && i < |row| && k < l.sizes[i]
    ensures StoredAt(mem, l, r, row, n, Cell(l, i, q) + k) == mem(Cell(l, i, q) + k)
    decreases n
  {
    if n > 0 {
      ApartRows(Call(mem, l, r, 1, mem, 0, false), i, q, k, n - 1);
      OtherRowStays(mem, l, r, row, n - 1, q, i, k);
    }
  }

  ghost predicate ReadsOnly<T>(d: Call<T>, i: nat, k: nat, x: T)
    requires i < |d.l.offsets| == |d.l.sizes|
  {
    d.src(Cell(d.l, i, d.SrcIndex()) + k).value == x
  }

  /** If the row that is read holds x everywhere, and so does the destination, then nothing but x is in the result. */
  lemma {:induction false} OnlyThis<T>(d: Call<T>, order: seq<nat>, n: nat, x: T, a: nat)
    requires LayoutOk(d.l) && ColumnsOf(d.l, order) && n <= |order| && d.mem(a).value == x
    requires forall i: nat, k: nat {:trigger ReadsOnly(d, i, k, x)} ::
      i < |d.l.sizes| && k < d.l.sizes[i] ==> ReadsOnly(d, i, k, x)
    ensures ByteAfter(d, order, n, a).value == x
    decreases n
  {
    if n > 0 {
      var c := order[n - 1];
      if Hits(d, c, a) {
        assert ReadsOnly(d, c, (a - Cell(d.l, c, d.start)) % d.l.sizes[c], x);
      } else {
        OnlyThis(d, order, n - 1, x, a);
      }
    }
  }

  /** From row 65536 on it is another row that is copied. */
  lemma HighRowsFail<T(!new)>(sl: Layout, dl: Layout, start: nat, count: nat, index: nat, x: T, y: T)
    requires SameColumns(sl, dl) && count > 0 && MAX_ROOM <= index < sl.capacity && x != y && sl.sizes != []
    ensures !AlwaysCopies<T>(sl, dl, start, count, index)
  {
    var row := seq(|sl.sizes|, _ => y);
    var mem: Memory<T> := (a: nat) => Part(x, 0);
    var src := WriteRow(mem, sl, index, row);
    WrittenIsHeld(mem, sl, index, row);
    HighRowFails(Call(mem, sl, start, count, src, index, false), dl, row, x);
  }

  lemma HighRowFails<T>(d: Call<T>, dl: Layout, row: seq<T>, x: T)
    requires SameColumns(d.l, dl) && d.count > 0 && MAX_ROOM <= d.index < d.l.capacity && d.l.sizes != []
    requires Holds(d.src, d.l, d.index, row) && row[0] != x && forall a: nat :: d.mem(a).value == x
    requires forall a: nat :: d.src(a) == StoredAt(d.mem, d.l, d.index, row, |row|, a)
    ensures !Copies(d, dl, row)
  {
    forall i: nat, k: nat | i < |d.l.sizes| && k < d.l.sizes[i] ensures ReadsOnly(d, i, k, x) {
      LowRowRead(d, row, x, i, k);
    }
    FirstByteFails(d, dl, row, x);
  }

  lemma LowRowRead<T>(d: Call<T>, row: seq<T>, x: T, i: nat, k: nat)
    requires LayoutOk(d.l) && MAX_ROOM <= d.index < d.l.capacity && |row| == |d.l.sizes|
    requires i < |d.l.sizes| && k < d.l.sizes[i] && forall a: nat :: d.mem(a).value == x
    requires forall a: nat :: d.src(a) == StoredAt(d.mem, d.l, d.index, row, |row|, a)
    ensures ReadsOnly(d, i, k, x)
  {
    OtherRowStays(d.mem, d.l, d.index, row, |row|, d.SrcIndex(), i, k);
  }

  lemma FirstByteFails<T>(d: Call<T>, dl: Layout, row: seq<T>, x: T)
    requires SameColumns(d.l, dl) && d.count > 0 && d.l.sizes != []
    requires Holds(d.src, d.l, d.index, row) && row[0] != x && forall a: nat :: d.mem(a).value == x
    requires forall i: nat, k: nat {:trigger ReadsOnly(d, i, k, x)} ::
      i < |d.l.sizes| && k < d.l.sizes[i] ==> ReadsOnly(d, i, k, x)
    ensures !Copies(d, dl, row)
  {
    OnlyThis(d, Order(d.l), |d.l.sizes|, x, Cell(dl, 0, d.start));
    assert !HoldsByte(Result(d), dl, d.start, row, 0, 0);
    assert !Holds(Result(d), dl, d.start, row);
  }

  /** The destination's columns begin where the source's do, and the source row's number fits 16 bits. */
  predicate Reaches(sl: Layout, dl: Layout, index: nat) {
    sl.sizes == [] || (dl.offsets == sl.offsets && index < MAX_ROOM)
  }

  /**
   The new rows are copies of the source row, whatever it holds and whatever was there before, if and only if
   there is no column at all, or the destination's columns begin where the source's do and the source row is
   below 65536.
   */
  lemma CopiesIff<T(!new)>(sl: Layout, dl: Layout, start: nat, count: nat, index: nat, x: T, y: T)
    requires SameColumns(sl, dl) && count > 0 && start + count <= dl.capacity && index < sl.capacity && x != y
    ensures AlwaysCopies<T>(sl, dl, start, count, index) <==> Reaches(sl, dl, index)
  {
    if Reaches(sl, dl, index) {
      forall mem: Memory<T>, src: Memory<T>, row: seq<T>
        ensures Copies(Call(mem, sl, start, count, src, index, false), dl, row)
      {
        var d := Call(mem, sl, start, count, src, index, false);
        if Holds(src, sl, index, row) {
          forall r: nat | start <= r < start + count ensures Holds(Result(d), dl, r, row) {
            SameOffsetsCopy(d, dl, row, r);
          }
        }
      }
    } else if index >= MAX_ROOM {
      HighRowsFail(sl, dl, start, count, index, x, y);
    } else {
      var i :| 0 <= i < |sl.sizes| && sl.offsets[i] != dl.offsets[i];
      OtherOffsetsFail(sl, dl, start, count, index, i, x, y);
    }
  }

  /** The handles written into the entity array afterwards leave every column as it is. */
  lemma HandlesLeaveColumns<T>(m: Memory<T>, l: Layout, start: nat, count: nat, ids: Memory<T>, r: nat, row: seq<T>)
    requires LayoutOk(l) && start + count <= l.capacity
    ensures var m' := Copied(m, ENTITY_SIZE * start, ids, 0, ENTITY_SIZE * count);
            Holds(m', l, r, row) <==> Holds(m, l, r, row)
  {
    var m' := Copied(m, ENTITY_SIZE * start, ids, 0, ENTITY_SIZE * count);
    forall i: nat, k: nat | |row| == |l.sizes| && i < |row| && k < l.sizes[i]
      ensures HoldsByte(m', l, r, row, i, k) <==> HoldsByte(m, l, r, row, i, k)
    {
      NonNegative(l.sizes[i], r);
    }
  }

  // ------------------------------------------------------------------ a thousand copies of one entity

  /** An archetype with one plain column of eight bytes, in a bin whose chunks begin with a header. */
  function OneColumn(bin: nat, header: nat): (l: Layout)
    requires header + 16 <= bin
  {
    var capacity := (bin - header - 4) / 12;
    Layout([AlignUp(ENTITY_SIZE * capacity, 8)], [8], capacity, 1, 1)
  }

  /**
   The entity lies alone in a small chunk, which the first slice fills; the rest go to a chunk of the fast bin.
   There nothing is written to the column: all bytes go where the handles are, to be overwritten by them.
   */
  lemma CopiesAmongHandles<T>(header: nat, mem: Memory<T>, src: Memory<T>)
    requires header <= 200
    ensures var small, fast := OneColumn(SMALL_BIN_SIZE, header), OneColumn(FAST_BIN_SIZE, header);
      var rest := 1000 - (small.capacity - 1);
      && IsLayout(small, [Column(8, 8)], [0]) && IsLayout(fast, [Column(8, 8)], [0])
      && BinFor(12, 1, 0) == SMALL_BIN && BinFor(12, rest, 1) == FAST_BIN && 0 < rest <= fast.capacity
      && LayoutOk(small)
      && forall a: nat :: a >= ENTITY_SIZE * fast.capacity ==>
           Result(Call(mem, small, 0, rest, src, 0, false))(a) == mem(a)
  {
    var small, fast := OneColumn(SMALL_BIN_SIZE, header), OneColumn(FAST_BIN_SIZE, header);
    LayoutsAreOk(small, [Column(8, 8)], [0]);
    var d := Call(mem, small, 0, 1000 - (small.capacity - 1), src, 0, false);
    forall a: nat | a >= ENTITY_SIZE * fast.capacity ensures Result(d)(a) == mem(a) {
      assert ByteAfter(d, Order(small), 0, a) == mem(a);
    }
  }

  /**
   A large chunk with more than 70000 rows: copying the entity of row 70000, in a chunk with the same offsets,
   gives what row 4464 holds.
   */
  lemma HighRowCopied<T>(header: nat, mem: Memory<T>, src: Memory<T>, start: nat, row: seq<T>, other: seq<T>)
    requires header <= 200
    requires 70000 < start < OneColumn(LARGE_BIN_SIZE, header).capacity
    requires Holds(src, OneColumn(LARGE_BIN_SIZE, header), 70000, row)
    requires Holds(src, OneColumn(LARGE_BIN_SIZE, header), 4464, other)
    ensures var large := OneColumn(LARGE_BIN_SIZE, header);
      && IsLayout(large, [Column(8, 8)], [0]) && LayoutOk(large) && BinFor(12, 60000, 0) == LARGE_BIN
      && Holds(Result(Call(mem, large, start, 1, src, 70000, false)), large, start, other)
  {
    LargeChunk(header);
    LowRowLands(OneColumn(LARGE_BIN_SIZE, header), mem, src, start, other);
  }

  lemma LargeChunk(header: nat)
    requires header <= 200
    ensures var large := OneColumn(LARGE_BIN_SIZE, header);
      IsLayout(large, [Column(8, 8)], [0]) && LayoutOk(large) && BinFor(12, 60000, 0) == LARGE_BIN
  {
    LayoutsAreOk(OneColumn(LARGE_BIN_SIZE, header), [Column(8, 8)], [0]);
  }

  lemma LowRowLands<T>(l: Layout, mem: Memory<T>, src: Memory<T>, start: nat, other: seq<T>)
    requires LayoutOk(l) && start < l.capacity && Holds(src, l, 4464, other)
    ensures Holds(Result(Call(mem, l, start, 1, src, 70000, false)), l, start, other)
  {
    var d, low := Call(mem, l, start, 1, src, 70000, false), Call(mem, l, start, 1, src, 4464, false);
    SameOffsetsCopy(low, l, other, start);
    forall i: nat, k: nat | i < |other| && k < l.sizes[i] ensures HoldsByte(Result(d), l, start, other, i, k) {
      assert HoldsByte(Result(low), l, start, other, i, k);
      SameCall(d, low, Order(l), |l.sizes|, Cell(l, i, start) + k);
    }
  }

  /** What is copied depends on the 16 bits of the source row alone. */
  lemma {:induction false} SameCall<T>(d: Call<T>, e: Call<T>, order: seq<nat>, n: nat, a: nat)
    requires LayoutOk(d.l) && ColumnsOf(d.l, order) && n <= |order| && d.SrcIndex() == e.SrcIndex()
    requires e == Call(d.mem, d.l, d.start, d.count, d.src, e.index, d.own)
    ensures ByteAfter(d, order, n, a) == ByteAfter(e, order, n, a)
    decreases n
  {
    if n > 0 {
      SameCall(d, e, order, n - 1, a);
    }
  }
}

/**
 Cloning a group of entities.  The members' references to each other are first rewritten as transient
 handles that carry a member's number; every new copy then resolves those numbers to its own members; and
 the originals are resolved back.  A row is modelled by the entity references in each of its columns.
 */
module Groups {
  import opened Handles
  import opened Modulo
  import opened Duplicates

  type Cells = seq<Entity>
  type Row = seq<Cells>

  const NULL := Entity(0xFF_FFFF, TRANSIENT)

  // ------------------------------------------------------------------ rewriting one reference

  /** Mark numbers the references to members; Resolve looks numbers up from a position of the table on. */
  datatype Mode = Mark(keepExternal: bool) | Resolve

  /** An array of handles, and what lies in memory behind it. */
  datatype Lookup = Lookup(entries: seq<Entity>, beyond: nat -> Entity) {
    function At(i: nat): Entity {
      if i < |entries| then entries[i] else beyond(i - |entries|)
    }
  }

  /** The first position of e in the table, or the table's length. */
  function Find(table: seq<Entity>, e: Entity): (i: nat)
    ensures i <= |table| && (i < |table| ==> table[i] == e)
    ensures i == |table| <==> e !in table
  {
    if table == [] then 0 else if table[0] == e then 0 else 1 + Find(table[1..], e)
  }

  lemma {:induction false} FoundAt(table: seq<Entity>, e: Entity, i: nat)
    requires i < |table| && table[i] == e && forall m :: 0 <= m < i ==> table[m] != e
    ensures Find(table, e) == i
  {
    if i > 0 {
      FoundAt(table[1..], e, i - 1);
    }
  }

  function Patched(mode: Mode, table: Lookup, count: nat, at: nat, e: Entity): Entity {
    match mode
    case Mark(keep) =>
      if e in table.entries then Entity(Find(table.entries, e), TRANSIENT) else if keep then e else NULL
    case Resolve => if e.id > count || e.version != TRANSIENT then e else table.At(at + e.id)
  }

  function PatchCells(mode: Mode, table: Lookup, count: nat, at: nat, cells: Cells): (r: Cells)
    ensures |r| == |cells| && forall k :: 0 <= k < |cells| ==> r[k] == Patched(mode, table, count, at, cells[k])
  {
    seq(|cells|, k requires 0 <= k < |cells| => Patched(mode, table, count, at, cells[k]))
  }

  /** A row with its first n columns rewritten. */
  function PatchColumns(mode: Mode, table: Lookup, count: nat, at: nat, row: Row, n: nat): (r: Row)
    ensures |r| == |row|
    ensures forall c :: 0 <= c < |row| ==> r[c] == if c < n then PatchCells(mode, table, count, at, row[c]) else row[c]
  {
    seq(|row|, c requires 0 <= c < |row| => if c < n then PatchCells(mode, table, count, at, row[c]) else row[c])
  }

  function PatchRow(mode: Mode, table: Lookup, count: nat, at: nat, row: Row): (r: Row)
    ensures |r| == |row|
  {
    PatchColumns(mode, table, count, at, row, |row|)
  }

  // ------------------------------------------------------------------ chunk::patch

  class Patcher {
    const mode: Mode
    const table: Lookup
    const count: nat
    const stride: nat   // how far move() goes on: not at all while a group is marked or resolved back
    const base: nat
    var curr: nat

    constructor (mode: Mode, table: Lookup, count: nat, stride: nat, base: nat)
      ensures this.mode == mode && this.table == table && this.count == count && this.stride == stride
      ensures this.base == base && curr == base
    {
      this.mode, this.table, this.count, this.stride, this.base, curr := mode, table, count, stride, base, base;
    }

    method Move()
      modifies this`curr
      ensures curr == old(curr) + stride
    {
      curr := curr + stride;
    }

    method Reset()
      modifies this`curr
      ensures curr == base
    {
      curr := base;
    }

    method Patch(e: Entity) returns (r: Entity)
      ensures r == Patched(mode, table, count, curr, e)
    {
      match mode {
        case Mark(keepExternal) =>
          var i := 0;
          while i < |table.entries|
            invariant 0 <= i <= |table.entries| && forall m :: 0 <= m < i ==> table.entries[m] != e
          {
            if e == table.entries[i] {
              FoundAt(table.entries, e, i);
              return Entity(i, TRANSIENT);
            }
            i := i + 1;
          }
          r := if keepExternal then e else NULL;
        case Resolve =>
          if e.id > count || e.version != TRANSIENT {
            r := e;
          } else {
            r := table.At(curr + e.id);
          }
      }
    }

    method PatchColumn(cells: Cells) returns (r: Cells)
      ensures r == PatchCells(mode, table, count, curr, cells)
    {
      r := [];
      for k := 0 to |cells|
        invariant |r| == k && forall i :: 0 <= i < k ==> r[i] == Patched(mode, table, count, curr, cells[i])
      {
        var e := Patch(cells[k]);
        r := r + [e];
      }
    }

    /** Where row j of a slice looks its numbers up. */
    function At(j: nat): nat {
      base + j * stride
    }

    /** chunk::patch for a slice: column by column, and in each column row by row. */
    method PatchSlice(rows: seq<Row>, width: nat) returns (r: seq<Row>)
      requires curr == base && forall j :: 0 <= j < |rows| ==> |rows[j]| == width
      modifies this`curr
      ensures curr == base && |r| == |rows|
      ensures forall j :: 0 <= j < |rows| ==> r[j] == PatchRow(mode, table, count, At(j), rows[j])
    {
      r := rows;
      for c := 0 to width
        invariant curr == base && |r| == |rows|
        invariant forall j :: 0 <= j < |rows| ==> r[j] == PatchColumns(mode, table, count, At(j), rows[j], c)
      {
        r := PatchSliceColumn(rows, r, width, c);
        Reset();
      }
    }

    method PatchSliceColumn(ghost rows: seq<Row>, now: seq<Row>, width: nat, c: nat) returns (r: seq<Row>)
      requires curr == base && c < width && |now| == |rows|
      requires forall j :: 0 <= j < |rows| ==> |rows[j]| == width
      requires forall j :: 0 <= j < |rows| ==> now[j] == PatchColumns(mode, table, count, At(j), rows[j], c)
      modifies this`curr
      ensures |r| == |rows|
      ensures forall j :: 0 <= j < |rows| ==> r[j] == PatchColumns(mode, table, count, At(j), rows[j], c + 1)
    {
      r := now;
      for j := 0 to |now|
        invariant curr == At(j) && |r| == |rows|
        invariant forall i :: 0 <= i < |rows| ==>
                    r[i] == PatchColumns(mode, table, count, At(i), rows[i], if i < j then c + 1 else c)
      {
        assert r[j][c] == rows[j][c];
        var column := PatchColumn(r[j][c]);
        r := r[j := r[j][c := column]];
        Move();
        assert At(j + 1) == At(j) + stride;
      }
    }
  }

  // ------------------------------------------------------------------ the table of new handles

  /** The handle of copy k of member i is at position k * size + i. */
  function Flat(k: nat, size: nat, i: nat): nat {
    k * size + i
  }

  lemma FlatBound(k: nat, count: nat, size: nat, i: nat)
    requires k < count && i < size
    ensures Flat(k, size, i) < Flat(count, size, 0)
  {
    MultipleGrows(size, count - k);
    assert count * size == k * size + size * (count - k);
  }

  lemma FlatUnique(k: nat, k': nat, size: nat, i: nat, i': nat)
    requires i < size && i' < size && Flat(k, size, i) == Flat(k', size, i')
    ensures k == k' && i == i'
  {
    assert k * size == size * k && k' * size == size * k';
    ModUnique(Flat(k, size, i), size, k, i);
    ModUnique(Flat(k, size, i), size, k', i');
  }

  ghost predicate IsTable(ret: seq<Entity>, made: seq<seq<Entity>>, size: nat, count: nat) {
    && |made| == size && |ret| == Flat(count, size, 0)
    && (forall i :: 0 <= i < size ==> |made[i]| == count)
    && (forall k: nat, i: nat :: k < count && i < size ==>
        Flat(k, size, i) < |ret| && ret[Flat(k, size, i)] == made[i][k])
  }

  /** The first loop of instantiate_prefab: member by member, each copy's handle to its place. */
  method FillTable(made: seq<seq<Entity>>, size: nat, count: nat) returns (ret: seq<Entity>)
    requires |made| == size && forall i :: 0 <= i < size ==> |made[i]| == count
    ensures IsTable(ret, made, size, count)
  {
    ret := seq(Flat(count, size, 0), _ => NULL);
    for i := 0 to size
      invariant |ret| == Flat(count, size, 0)
      invariant forall k: nat, m: nat :: k < count && m < i ==>
                  Flat(k, size, m) < |ret| && ret[Flat(k, size, m)] == made[m][k]
    {
      ret := FillMember(made, size, count, ret, i);
    }
    forall k: nat, i: nat | k < count && i < size ensures Flat(k, size, i) < |ret| {
      FlatBound(k, count, size, i);
    }
  }

  method FillMember(made: seq<seq<Entity>>, size: nat, count: nat, before: seq<Entity>, i: nat)
    returns (ret: seq<Entity>)
    requires i < |made| == size && |before| == Flat(count, size, 0) && |made[i]| == count
    requires forall m :: 0 <= m < i ==> |made[m]| == count
    requires forall k: nat, m: nat :: k < count && m < i ==>
               Flat(k, size, m) < |before| && before[Flat(k, size, m)] == made[m][k]
    ensures |ret| == |before|
    ensures forall k: nat, m: nat :: k < count && m <= i ==>
              Flat(k, size, m) < |ret| && ret[Flat(k, size, m)] == made[m][k]
  {
    ret := before;
    for k := 0 to count
      invariant |ret| == |before|
      invariant forall k': nat, m: nat :: k' < count && m < i ==>
                  Flat(k', size, m) < |ret| && ret[Flat(k', size, m)] == made[m][k']
      invariant forall k': nat :: k' < k ==> Flat(k', size, i) < |ret| && ret[Flat(k', size, i)] == made[i][k']
    {
      FlatBound(k, count, size, i);
      ghost var was := ret;
      ret := ret[Flat(k, size, i) := made[i][k]];
      forall k': nat, m: nat | k' < count && m <= i && (k' != k || m != i)
        ensures Flat(k', size, m) != Flat(k, size, i)
      {
        if Flat(k', size, m) == Flat(k, size, i) {
          FlatUnique(k', k, size, m, i);
        }
      }
    }
  }

  // ------------------------------------------------------------------ what cloning means

  /** Copy j's version of a reference: its own member for a reference into the group, otherwise the same. */
  function CloneRef(members: seq<Entity>, made: seq<seq<Entity>>, j: nat, e: Entity): Entity {
    var m := Find(members, e);
    if m < |members| && m < |made| && j < |made[m]| then made[m][j] else e
  }

  /** No reference to anything but members looks like a member's number already. */
  predicate NoStray(members: seq<Entity>, e: Entity) {
    e in members || e.version != TRANSIENT || e.id > |members|
  }

  /** A reference that is no member's but whose number is looked up one place behind the members. */
  predicate OneTooFar(members: seq<Entity>, e: Entity) {
    e !in members && e.version == TRANSIENT && e.id == |members|
  }

  function Marked(members: seq<Entity>, e: Entity): Entity {
    Patched(Mark(true), Lookup(members, _ => NULL), |members|, 0, e)
  }

  /** What copy j of count makes of a reference, and what the originals have in the end. */
  function InCopy(members: seq<Entity>, t: Lookup, j: nat, e: Entity): Entity {
    Patched(Resolve, t, |members|, Flat(j, |members|, 0), Marked(members, e))
  }

  function Restored(members: seq<Entity>, beyond: nat -> Entity, e: Entity): Entity {
    Patched(Resolve, Lookup(members, beyond), |members|, 0, Marked(members, e))
  }

  /** References to members become their numbers; others stay, or are cut off. */
  lemma MarkedIs(members: seq<Entity>, count: nat, at: nat, keep: bool, beyond: nat -> Entity, m: nat, e: Entity)
    requires m < |members| && forall i, j :: 0 <= i < j < |members| ==> members[i] != members[j]
    requires e !in members
    ensures Patched(Mark(keep), Lookup(members, beyond), count, at, members[m]) == Entity(m, 0xFF)
    ensures Patched(Mark(keep), Lookup(members, beyond), count, at, e) == if keep then e else Entity(0xFF_FFFF, 0xFF)
  {
    FoundAt(members, members[m], m);
  }

  /** Copy j refers to its own copy of member m where the original refers to m, and to the same as it elsewhere. */
  lemma CloneRefIs(members: seq<Entity>, made: seq<seq<Entity>>, count: nat, j: nat, m: nat, e: Entity)
    requires |made| == |members| && forall i :: 0 <= i < |made| ==> |made[i]| == count
    requires m < |members| && j < count && forall i, k :: 0 <= i < k < |members| ==> members[i] != members[k]
    requires e !in members
    ensures CloneRef(members, made, j, members[m]) == made[m][j] && CloneRef(members, made, j, e) == e
  {
    FoundAt(members, members[m], m);
  }

  /** Resolving what was marked gives copy j's version. */
  lemma ResolveMarked(members: seq<Entity>, made: seq<seq<Entity>>, t: Lookup, count: nat, j: nat, e: Entity)
    requires IsTable(t.entries, made, |members|, count) && j < count && NoStray(members, e)
    ensures InCopy(members, t, j, e) == CloneRef(members, made, j, e)
  {
    var m := Find(members, e);
    if m < |members| {
      FlatBound(j, count, |members|, m);
      assert t.entries[Flat(j, |members|, m)] == made[m][j];
    }
  }

  /** Where the number one too far is looked up: at the next copy's first member, or behind the table. */
  lemma OnePast(count: nat, j: nat, size: nat)
    requires j < count
    ensures Flat(j, size, size) == Flat(j + 1, size, 0) <= Flat(count, size, 0)
    ensures size > 0 ==> (Flat(j + 1, size, 0) == Flat(count, size, 0) <==> j == count - 1)
  {
    assert (j + 1) * size == j * size + size;
    if j + 1 < count && size > 0 {
      FlatBound(j + 1, count, size, 0);
    }
  }

  /** A copy reads behind the table of new handles if and only if it is the last one and the number is one too far. */
  lemma ReadsBeyondIff(members: seq<Entity>, made: seq<seq<Entity>>, ret: seq<Entity>, count: nat, j: nat, e: Entity)
    requires IsTable(ret, made, |members|, count) && j < count && members != []
    ensures var m := Marked(members, e);
      m.version == TRANSIENT && m.id <= |members| && Flat(j, |members|, 0) + m.id >= |ret| <==>
        j == count - 1 && OneTooFar(members, e)
  {
    OnePast(count, j, |members|);
    if Marked(members, e).id < |members| {
      FlatBound(j, count, |members|, Marked(members, e).id);
    }
  }

  /**
   A copy keeps a reference to something outside the group if and only if it does not look like a number, or
   happens to be what lies behind the table.
   */
  lemma KeptIff(members: seq<Entity>, made: seq<seq<Entity>>, t: Lookup, count: nat, j: nat, e: Entity)
    requires IsTable(t.entries, made, |members|, count) && j < count && members != [] && e !in members
    requires forall m, k :: 0 <= m < |made| && 0 <= k < |made[m]| ==> made[m][k] != e
    ensures InCopy(members, t, j, e) == e <==>
              NoStray(members, e) || (j == count - 1 && e.id == |members| && t.beyond(0) == e)
  {
    var size := |members|;
    OnePast(count, j, size);
    if !NoStray(members, e) {
      if e.id < size {
        FlatBound(j, count, size, e.id);
        assert t.entries[Flat(j, size, e.id)] == made[e.id][j];
      } else if j < count - 1 {
        assert t.entries[Flat(j + 1, size, 0)] == made[0][j + 1];
      }
    }
  }

  /**
   Marking and resolving back restores a reference if and only if it is one to a member or no member's number,
   or happens to be what lies behind the members.
   */
  lemma RestoredIff(members: seq<Entity>, beyond: nat -> Entity, e: Entity)
    ensures Restored(members, beyond, e) == e <==> NoStray(members, e) || (e.id == |members| && beyond(0) == e)
  {
    if !NoStray(members, e) && e.id < |members| {
      assert Restored(members, beyond, e) == members[e.id];
    }
  }

  /**
   In a group of one entity, a transient reference with number 0 becomes
   a reference to the copy, and to the original.
   */
  lemma StrayReference(member: Entity, copy: Entity, beyond: nat -> Entity)
    requires member.version != TRANSIENT && copy.version != TRANSIENT
    ensures var e := Entity(0, TRANSIENT);
      InCopy([member], Lookup([copy], beyond), 0, e) == copy != e && Restored([member], beyond, e) == member != e
  {
    assert Marked([member], Entity(0, TRANSIENT)) == Entity(0, TRANSIENT);
  }

  /** A copy is isomorphic to the original: with handles that are new, different references stay different. */
  lemma ClonesAreIsomorphic(members: seq<Entity>, made: seq<seq<Entity>>, count: nat, j: nat, e: Entity, f: Entity)
    requires |made| == |members| && j < count && forall i :: 0 <= i < |made| ==> |made[i]| == count
    requires forall a, b :: 0 <= a < b < |made| ==> made[a][j] != made[b][j]
    requires forall a :: 0 <= a < |made| ==> made[a][j] != e && made[a][j] != f
    ensures CloneRef(members, made, j, e) == CloneRef(members, made, j, f) <==> e == f
  {
    var a, b := Find(members, e), Find(members, f);
    if a < |members| && b < |members| && a != b {
      assert made[a][j] != made[b][j];
    }
  }

  /** Different copies never refer to each other's members. */
  lemma CopiesAreSeparate(members: seq<Entity>, made: seq<seq<Entity>>, count: nat, j: nat, e: Entity, m: nat, j': nat)
    requires |made| == |members| && j < count && j' < count && j != j' && m < |made|
    requires forall i :: 0 <= i < |made| ==> |made[i]| == count
    requires forall a, b, x, y :: 0 <= a < |made| && 0 <= b < |made| && 0 <= x < count && 0 <= y < count ==>
               made[a][x] == made[b][y] ==> x == y
    requires made[m][j'] != e
    ensures CloneRef(members, made, j, e) != made[m][j']
  {
  }

  // ------------------------------------------------------------------ where members and copies lie

  /** The chunk and row of a member, and its archetype's types up to pending copies. */
  datatype Home = Home(l: Layout, types: seq<nat>, index: nat, mem: Memory<Cells>)

  /** The slices of one member's copies: behind the other rows of its own chunk, or in another chunk. */
  datatype Site = Here(start: nat, count: nat) | There(start: nat, count: nat, l: Layout, mem: Memory<Cells>)

  ghost predicate HomeOk(h: Home, row: Row) {
    LayoutOk(h.l) && |h.l.sizes| == |row| <= |h.types| && h.index < h.l.capacity
  }

  ghost predicate SiteOk(h: Home, s: Site) {
    && s.count > 0
    && match s
       case Here(start, count) => h.index < start && start + count <= h.l.capacity
       case There(start, count, l, _) => SameColumns(h.l, l) && start + count <= l.capacity
  }

  function SiteLayout(h: Home, s: Site): Layout {
    if s.Here? then h.l else s.l
  }

  /** What chunk::duplicate is called with once the member's row has been marked. */
  function CallAt(h: Home, prefab: Row, s: Site): Call<Cells>
    requires |h.l.offsets| == |h.l.sizes| == |prefab|
  {
    var held := WriteRow(h.mem, h.l, h.index, prefab);
    Call(if s.Here? then held else s.mem, h.l, s.start, s.count, held, h.index, s.Here?)
  }

  /** The rows of a slice as chunk::duplicate leaves them; bytes that belong to no cell read as nothing. */
  function DuplicatedRow(h: Home, prefab: Row, s: Site, r: nat): (row: Row)
    requires HomeOk(h, prefab) && SiteOk(h, s)
    ensures |row| == |prefab|
  {
    ReadRow(Result(CallAt(h, prefab, s)), SiteLayout(h, s), s.start + r, [])
  }

  /** In a chunk with the original's offsets they are copies of its row, if that is below 65536. */
  lemma DuplicatedInSameBin(h: Home, prefab: Row, s: Site, r: nat)
    requires HomeOk(h, prefab) && SiteOk(h, s) && r < s.count && Reaches(h.l, SiteLayout(h, s), h.index)
    ensures DuplicatedRow(h, prefab, s, r) == prefab
  {
    WrittenIsHeld(h.mem, h.l, h.index, prefab);
    ReadsCopy(CallAt(h, prefab, s), SiteLayout(h, s), prefab, s.start + r, []);
  }

  method DuplicateSite(h: Home, prefab: Row, s: Site) returns (rows: seq<Row>)
    requires HomeOk(h, prefab) && SiteOk(h, s)
    ensures |rows| == s.count && forall r :: 0 <= r < s.count ==> rows[r] == DuplicatedRow(h, prefab, s, r)
  {
    var l := SiteLayout(h, s);
    var m := CopyToSite(h, prefab, s);
    rows := seq(s.count, r requires 0 <= r => ReadRow(m, l, s.start + r, []));
    forall r: nat | r < s.count ensures ReadRow(m, l, s.start + r, []) == DuplicatedRow(h, prefab, s, r) {
      ReadsDuplicated(m, h, prefab, s, r);
    }
  }

  lemma ReadsDuplicated(m: Memory<Cells>, h: Home, prefab: Row, s: Site, r: nat)
    requires HomeOk(h, prefab) && SiteOk(h, s) && forall a: nat :: m(a) == Result(CallAt(h, prefab, s))(a)
    ensures ReadRow(m, SiteLayout(h, s), s.start + r, []) == DuplicatedRow(h, prefab, s, r)
  {
    SameRead(m, Result(CallAt(h, prefab, s)), SiteLayout(h, s), s.start + r, []);
  }

  method CopyToSite(h: Home, prefab: Row, s: Site) returns (m: Memory<Cells>)
    requires HomeOk(h, prefab) && SiteOk(h, s)
    ensures forall a: nat :: m(a) == Result(CallAt(h, prefab, s))(a)
  {
    var d := CallAt(h, prefab, s);
    m := Duplicate(d, h.types, h.types);
    SameTypesCopyAll(d.l, h.types);
  }

  // ------------------------------------------------------------------ the operations on groups

  /** group_to_prefab */
  method GroupToPrefab(members: seq<Entity>, rows: seq<Row>, keepExternal: bool) returns (prefab: seq<Row>)
    requires |rows| == |members|
    ensures |prefab| == |rows|
    ensures forall i :: 0 <= i < |rows| ==>
              prefab[i] == PatchRow(Mark(keepExternal), Lookup(members, _ => NULL), |members|, 0, rows[i])
  {
    prefab := [];
    var p := new Patcher(Mark(keepExternal), Lookup(members, _ => NULL), |members|, 0, 0);
    for i := 0 to |members|
      invariant fresh(p) && p.curr == 0 && |prefab| == i
      invariant forall m :: 0 <= m < i ==> prefab[m] == PatchRow(Mark(keepExternal), p.table, |members|, 0, rows[m])
    {
      var r := p.PatchSlice([rows[i]], |rows[i]|);
      assert p.At(0) == 0;
      prefab := prefab + [r[0]];
    }
  }

  /** prefab_to_group */
  method PrefabToGroup(members: seq<Entity>, beyond: nat -> Entity, prefab: seq<Row>) returns (rows: seq<Row>)
    requires |prefab| == |members|
    ensures |rows| == |prefab|
    ensures forall i :: 0 <= i < |rows| ==>
              rows[i] == PatchRow(Resolve, Lookup(members, beyond), |members|, 0, prefab[i])
  {
    rows := [];
    var p := new Patcher(Resolve, Lookup(members, beyond), |members|, 0, 0);
    for i := 0 to |members|
      invariant fresh(p) && p.curr == 0 && |rows| == i
      invariant forall m :: 0 <= m < i ==> rows[m] == PatchRow(Resolve, p.table, |members|, 0, prefab[m])
    {
      assert p.At(0) == 0;
      var r := p.PatchSlice([prefab[i]], |prefab[i]|);
      rows := rows + [r[0]];
    }
  }

  /** The number of copies in the first n slices. */
  function Before(sites: seq<Site>, n: nat): nat
    requires n <= |sites|
  {
    if n == 0 then 0 else Before(sites, n - 1) + sites[n - 1].count
  }

  lemma {:induction false} BeforeGrows(sites: seq<Site>, s: nat, n: nat)
    requires s < n <= |sites|
    ensures Before(sites, s) + sites[s].count <= Before(sites, n)
  {
    if s < n - 1 {
      BeforeGrows(sites, s, n - 1);
    }
  }

  ghost predicate SitesOk(h: Home, sites: seq<Site>, row: Row, count: nat) {
    HomeOk(h, row) && (forall s :: 0 <= s < |sites| ==> SiteOk(h, sites[s])) && Before(sites, |sites|) == count
  }

  /** Row r of a slice is what was copied there, with the numbers of copy k + r resolved. */
  ghost predicate ResolvedSlice(patched: seq<Row>, h: Home, prefab: Row, s: Site, k: nat, t: Lookup, size: nat)
    requires HomeOk(h, prefab) && SiteOk(h, s)
  {
    && |patched| == s.count
    && forall r: nat :: r < s.count ==>
         patched[r] == PatchRow(Resolve, t, size, Flat(k + r, size, 0), DuplicatedRow(h, prefab, s, r))
  }

  /** The copying of instantiate_single and the second loop of instantiate_prefab, for one slice. */
  method PatchPart(h: Home, prefab: Row, s: Site, k: nat, t: Lookup, size: nat) returns (patched: seq<Row>)
    requires HomeOk(h, prefab) && SiteOk(h, s)
    ensures ResolvedSlice(patched, h, prefab, s, k, t, size)
  {
    var rows := DuplicateSite(h, prefab, s);
    var p := new Patcher(Resolve, t, size, size, k * size);
    forall j | 0 <= j < s.count ensures p.At(j) == Flat(k + j, size, 0) {
      assert (k + j) * size == k * size + j * size;
    }
    patched := p.PatchSlice(rows, |prefab|);
  }

  /** What slice number s must hold. */
  ghost predicate IsSlice(patched: seq<Row>, h: Home, prefab: Row, sites: seq<Site>, s: nat, t: Lookup, size: nat)
    requires HomeOk(h, prefab) && s < |sites|
  {
    SiteOk(h, sites[s]) && ResolvedSlice(patched, h, prefab, sites[s], Before(sites, s), t, size)
  }

  /** For one member: however the copies are cut into slices, row r of slice s is copy Before(sites, s) + r. */
  method PatchCopies(h: Home, prefab: Row, sites: seq<Site>, t: Lookup, size: nat, count: nat)
    returns (slices: seq<seq<Row>>)
    requires SitesOk(h, sites, prefab, count)
    ensures |slices| == |sites|
    ensures forall s: nat {:trigger slices[s]} :: s < |sites| ==> IsSlice(slices[s], h, prefab, sites, s, t, size)
  {
    slices := [];
    var k := 0;
    for s := 0 to |sites|
      invariant k == Before(sites, s) && |slices| == s
      invariant forall x: nat {:trigger slices[x]} :: x < s ==> IsSlice(slices[x], h, prefab, sites, x, t, size)
    {
      var patched := PatchPart(h, prefab, sites[s], k, t, size);
      assert IsSlice(patched, h, prefab, sites, s, t, size);
      slices := slices + [patched];
      k := k + sites[s].count;
    }
  }

  /** A copy of a row: every reference that does not look like a number is what it should be. */
  ghost predicate IsClone(members: seq<Entity>, made: seq<seq<Entity>>, j: nat, row: Row, copy: Row) {
    && |copy| == |row|
    && forall c :: 0 <= c < |row| ==>
         && |copy[c]| == |row[c]|
         && forall k :: 0 <= k < |row[c]| && NoStray(members, row[c][k]) ==>
              copy[c][k] == CloneRef(members, made, j, row[c][k])
  }

  /**
   Copies k, k + 1, ... in a slice of a chunk with the original's offsets
   are clones, if the original is below row 65536.
   */
  ghost predicate SliceClones(slice: seq<Row>, h: Home, s: Site, k: nat, members: seq<Entity>, made: seq<seq<Entity>>,
                              row: Row) {
    && |slice| == s.count
    && (Reaches(h.l, SiteLayout(h, s), h.index) ==>
          forall r: nat :: r < s.count ==> IsClone(members, made, k + r, row, slice[r]))
  }

  ghost predicate Clones(slices: seq<seq<Row>>, h: Home, sites: seq<Site>, members: seq<Entity>, made: seq<seq<Entity>>,
                         row: Row) {
    && |slices| == |sites|
    && forall s: nat {:trigger slices[s]} :: s < |sites| ==>
         SliceClones(slices[s], h, sites[s], Before(sites, s), members, made, row)
  }

  ghost predicate IsRestored(members: seq<Entity>, row: Row, restored: Row) {
    && |restored| == |row|
    && forall c :: 0 <= c < |row| ==>
         && |restored[c]| == |row[c]|
         && forall k :: 0 <= k < |row[c]| && NoStray(members, row[c][k]) ==> restored[c][k] == row[c][k]
  }

  /**
   instantiate_group: count copies of the group, given where the members lie, the slices their copies were
   allocated in, the new handles, and what lies in memory behind the two tables.  If the original is below row
   65536, then in the slices whose chunk has its offsets references to members become references to the same
   copy's members, and all others that do not look like numbers stay; the originals are as they were, again up
   to references that look like numbers.
   */
  method InstantiateGroup(members: seq<Entity>, rows: seq<Row>, homes: seq<Home>, sites: seq<seq<Site>>,
                          made: seq<seq<Entity>>, count: nat,
                          behindNew: nat -> Entity, behindMembers: nat -> Entity)
    returns (copies: seq<seq<seq<Row>>>, restored: seq<Row>)
    requires |rows| == |members| == |made| == |homes| == |sites|
    requires forall i :: 0 <= i < |members| ==> |made[i]| == count && SitesOk(homes[i], sites[i], rows[i], count)
    ensures |copies| == |restored| == |members|
    ensures forall i :: 0 <= i < |members| ==> Clones(copies[i], homes[i], sites[i], members, made, rows[i])
    ensures forall i :: 0 <= i < |members| ==> IsRestored(members, rows[i], restored[i])
  {
    var prefab := GroupToPrefab(members, rows, true);
    var ret := FillTable(made, |members|, count);
    var t := Lookup(ret, behindNew);
    copies := [];
    for i := 0 to |members|
      invariant |copies| == i
      invariant forall m :: 0 <= m < i ==> Clones(copies[m], homes[m], sites[m], members, made, rows[m])
    {
      var slices := PatchCopies(homes[i], prefab[i], sites[i], t, |members|, count);
      SlicesAreClones(slices, homes[i], sites[i], members, made, t, rows[i], prefab[i], count);
      copies := copies + [slices];
    }
    restored := PrefabToGroup(members, behindMembers, prefab);
    forall i | 0 <= i < |members| ensures IsRestored(members, rows[i], restored[i]) {
      RowRestored(members, behindMembers, rows[i], prefab[i], restored[i]);
    }
  }

  ghost predicate IsMarked(members: seq<Entity>, row: Row, prefab: Row) {
    prefab == PatchRow(Mark(true), Lookup(members, _ => NULL), |members|, 0, row)
  }

  lemma SlicesAreClones(slices: seq<seq<Row>>, h: Home, sites: seq<Site>, members: seq<Entity>, made: seq<seq<Entity>>,
                        t: Lookup, row: Row, prefab: Row, count: nat)
    requires SitesOk(h, sites, row, count) && IsTable(t.entries, made, |members|, count)
    requires IsMarked(members, row, prefab)
    requires |slices| == |sites|
    requires forall s: nat {:trigger slices[s]} :: s < |sites| ==> IsSlice(slices[s], h, prefab, sites, s, t, |members|)
    ensures Clones(slices, h, sites, members, made, row)
  {
    forall s: nat | s < |sites| ensures SliceClones(slices[s], h, sites[s], Before(sites, s), members, made, row) {
      BeforeGrows(sites, s, |sites|);
      assert IsSlice(slices[s], h, prefab, sites, s, t, |members|);
      SliceIsCloned(slices[s], h, sites[s], Before(sites, s), members, made, t, row, prefab, count);
    }
  }

  lemma SliceIsCloned(slice: seq<Row>, h: Home, s: Site, k: nat, members: seq<Entity>, made: seq<seq<Entity>>,
                      t: Lookup, row: Row, prefab: Row, count: nat)
    requires HomeOk(h, prefab) && SiteOk(h, s) && k + s.count <= count
    requires IsTable(t.entries, made, |members|, count) && IsMarked(members, row, prefab)
    requires ResolvedSlice(slice, h, prefab, s, k, t, |members|)
    ensures SliceClones(slice, h, s, k, members, made, row)
  {
    if Reaches(h.l, SiteLayout(h, s), h.index) {
      forall r: nat | r < s.count ensures IsClone(members, made, k + r, row, slice[r]) {
        DuplicatedInSameBin(h, prefab, s, r);
        RowResolves(members, made, t, count, k + r, row, prefab, slice[r]);
      }
    }
  }

  lemma RowResolves(members: seq<Entity>, made: seq<seq<Entity>>, t: Lookup, count: nat, j: nat, row: Row, prefab: Row,
                    copy: Row)
    requires IsTable(t.entries, made, |members|, count) && j < count && IsMarked(members, row, prefab)
    requires copy == PatchRow(Resolve, t, |members|, Flat(j, |members|, 0), prefab)
    ensures IsClone(members, made, j, row, copy)
  {
    forall c, k | 0 <= c < |row| && 0 <= k < |row[c]| && NoStray(members, row[c][k])
      ensures copy[c][k] == CloneRef(members, made, j, row[c][k])
    {
      ResolveMarked(members, made, t, count, j, row[c][k]);
      assert prefab[c][k] == Marked(members, row[c][k]);
    }
  }

  lemma RowRestored(members: seq<Entity>, beyond: nat -> Entity, row: Row, prefab: Row, restored: Row)
    requires IsMarked(members, row, prefab)
    requires restored == PatchRow(Resolve, Lookup(members, beyond), |members|, 0, prefab)
    ensures IsRestored(members, row, restored)
  {
    forall c, k | 0 <= c < |row| && 0 <= k < |row[c]| && NoStray(members, row[c][k])
      ensures restored[c][k] == row[c][k]
    {
      RestoredIff(members, beyond, row[c][k]);
      assert prefab[c][k] == Marked(members, row[c][k]);
    }
  }
}

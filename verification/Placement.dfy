/**
 The world's two redundant structures: chunks that hold entities row by row, and the handle table that
 says in which chunk and row each entity lives.  This module says what it means for the two to agree, and
 shows that moving a chunk's tail into a hole keeps every surviving entity.
 */
module Placement {
  import opened Basics
  import opened Handles
  import opened Columns

  datatype Place = Place(chunk: nat, row: nat)

  /** A chunk's occupied rows: their handles and their component rows. */
  datatype Page = Page(arch: nat, room: nat, ents: seq<Entity>, rows: seq<Row>)

  datatype Slice = Slice(chunk: nat, start: nat, count: nat)

  type Pages = map<nat, Page>
  type Slots = seq<Slot<Place>>

  // ------------------------------------------------------------------ handles and rows

  function RowsOf(s: Slice): set<Place> {
    set r | s.start <= r < s.start + s.count :: Place(s.chunk, r)
  }

  predicate InPages(pages: Pages, p: Place) {
    p.chunk in pages && p.row < |pages[p.chunk].ents|
  }

  function EntAt(pages: Pages, p: Place): Entity {
    if InPages(pages, p) then pages[p.chunk].ents[p.row] else Entity(0, 0)
  }

  /**
   Every occupied row outside the hole holds a handle whose record points back to it, and every record
   that points to a row points to an occupied one outside the hole that holds its handle.
   */
  ghost predicate Placed(slots: Slots, pages: Pages, hole: set<Place>) {
    && (forall p :: InPages(pages, p) && p !in hole ==>
          var e := EntAt(pages, p); e.id < |slots| && slots[e.id] == Slot(At(p), e.version))
    && (forall id :: 0 <= id < |slots| && slots[id].loc.At? ==>
          var p := slots[id].loc.place; InPages(pages, p) && p !in hole && EntAt(pages, p).id == id)
  }

  predicate Live(slots: Slots, id: nat) {
    id < |slots| && slots[id].loc.At?
  }

  /** What the world holds for a live entity: its archetype and its component row. */
  datatype Held = Held(arch: nat, row: Row) | Nothing

  function Find(slots: Slots, pages: Pages, id: nat): Held {
    if Live(slots, id) && slots[id].loc.place.chunk in pages
       && slots[id].loc.place.row < |pages[slots[id].loc.place.chunk].rows| then
      Held(pages[slots[id].loc.place.chunk].arch, pages[slots[id].loc.place.chunk].rows[slots[id].loc.place.row])
    else Nothing
  }

  /** Entities outside `but` are as live as before, with the same handle, archetype and components. */
  ghost predicate Untouched(slots: Slots, pages: Pages, slots': Slots, pages': Pages, but: set<nat>) {
    && |slots| <= |slots'|
    && forall id :: 0 <= id < |slots| && id !in but ==>
         (Live(slots', id) <==> Live(slots, id)) && slots'[id].version == slots[id].version
         && Find(slots', pages', id) == Find(slots, pages, id)
  }

  function IdsOf(es: seq<Entity>): (ids: seq<nat>)
    ensures |ids| == |es| && forall i :: 0 <= i < |es| ==> ids[i] == es[i].id
  {
    seq(|es|, i requires 0 <= i < |es| => es[i].id)
  }

  function PlacesOf(s: Slice): (ps: seq<Place>)
    ensures |ps| == s.count && forall i :: 0 <= i < s.count ==> ps[i] == Place(s.chunk, s.start + i)
  {
    seq(s.count, i requires 0 <= i < s.count => Place(s.chunk, s.start + i))
  }

  predicate Fits(pages: Pages, s: Slice) {
    s.chunk in pages && s.start + s.count <= |pages[s.chunk].ents|
  }

  function EntsOf(pages: Pages, s: Slice): seq<Entity>
    requires Fits(pages, s)
  {
    pages[s.chunk].ents[s.start..s.start + s.count]
  }

  // ------------------------------------------------------------------ moving the tail into the hole

  /** How many rows the tail can give to a hole of s.count rows. */
  function Tail(n: nat, s: Slice): nat
    requires s.start + s.count <= n
  {
    if s.count < n - s.start - s.count then s.count else n - s.start - s.count
  }

  function CopyWithin<T>(xs: seq<T>, dst: nat, src: nat, n: nat): seq<T>
    requires dst + n <= |xs| && src + n <= |xs|
  {
    xs[..dst] + xs[src..src + n] + xs[dst + n..]
  }

  /** What chunk::move, which gets the source row in 16 bits, copies. */
  function NarrowCopied<T>(xs: seq<T>, s: Slice): (r: seq<T>)
    requires s.start + s.count <= |xs|
    ensures |r| == |xs|
  {
    CopyWithin(xs, s.start, Narrow(|xs| - Tail(|xs|, s)), Tail(|xs|, s))
  }

  predicate TailReached(n: nat, s: Slice)
    requires s.start + s.count <= n
  {
    Tail(n, s) == 0 || n - Tail(n, s) < MAX_ROOM
  }

  ghost predicate SameMove<T>(xs: seq<T>, s: Slice)
    requires s.start + s.count <= |xs|
  {
    NarrowCopied(xs, s) == CopyWithin(xs, s.start, |xs| - Tail(|xs|, s), Tail(|xs|, s))
  }

  /**
   The tail's component rows arrive, whatever they are, if and only if
   nothing moves or the tail begins below row 65536.
   */
  lemma TailMoveIff<T(!new)>(n: nat, s: Slice, x: T, y: T)
    requires s.start + s.count <= n && x != y
    ensures (forall xs: seq<T> :: |xs| == n ==> SameMove(xs, s)) <==> TailReached(n, s)
  {
    if TailReached(n, s) {
      forall xs: seq<T> | |xs| == n ensures SameMove(xs, s) {
        TailReachedCopies(xs, s);
      }
    } else {
      var xs := Marked(n, n - Tail(n, s), x, y);
      TailMissed(xs, s);
    }
  }

  function Marked<T>(n: nat, at: nat, x: T, y: T): (xs: seq<T>)
    ensures |xs| == n && forall r :: 0 <= r < n ==> xs[r] == if r == at then y else x
  {
    seq(n, r => if r == at then y else x)
  }

  lemma TailMissed<T>(xs: seq<T>, s: Slice)
    requires s.start + s.count <= |xs| && !TailReached(|xs|, s)
    requires xs[Narrow(|xs| - Tail(|xs|, s))] != xs[|xs| - Tail(|xs|, s)]
    ensures !SameMove(xs, s)
  {
    var m := Tail(|xs|, s);
    FirstCopied(xs, s.start, Narrow(|xs| - m), m);
    FirstCopied(xs, s.start, |xs| - m, m);
  }

  lemma FirstCopied<T>(xs: seq<T>, dst: nat, src: nat, n: nat)
    requires dst + n <= |xs| && src + n <= |xs| && n > 0
    ensures CopyWithin(xs, dst, src, n)[dst] == xs[src]
  {
  }

  lemma TailReachedCopies<T>(xs: seq<T>, s: Slice)
    requires s.start + s.count <= |xs| && TailReached(|xs|, s)
    ensures SameMove(xs, s)
  {
  }

  /** Freeing row 5 of a chunk of 70001 rows fills it with the components of row 4464, not of the last row. */
  lemma HighTailMoved<T>(xs: seq<T>, c: nat)
    requires |xs| == 70001
    ensures NarrowCopied(xs, Slice(c, 5, 1))[5] == xs[4464]
    ensures NewPlace(70001, Slice(c, 5, 1), Place(c, 70000)) == Place(c, 5)
  {
  }

  predicate SameRead<T(==)>(xs: seq<T>, start: nat, count: nat)
    requires start + count <= |xs|
  {
    xs[Narrow(start)..Narrow(start) + count] == xs[start..start + count]
  }

  /** Rows that are cast are read right, whatever they are, if and only if the first of them is below row 65536. */
  lemma CastReadIff<T(!new)>(n: nat, start: nat, count: nat, x: T, y: T)
    requires start + count <= n && count > 0 && x != y
    ensures (forall xs: seq<T> :: |xs| == n ==> SameRead(xs, start, count)) <==> start < MAX_ROOM
  {
    if start >= MAX_ROOM {
      var xs := Marked(n, start, x, y);
      assert xs[Narrow(start)..Narrow(start) + count][0] == x && xs[start..start + count][0] == y;
      assert !SameRead(xs, start, count);
    }
  }

  /** After the move and the shrink, row r holds what was in row From(r). */
  function From(n: nat, s: Slice, r: nat): int
    requires s.start + s.count <= n
  {
    if s.start <= r < s.start + Tail(n, s) then n - Tail(n, s) + (r - s.start) else r
  }

  /** Where a record that pointed to place p points after the tail moved. */
  function NewPlace(n: nat, s: Slice, p: Place): Place
    requires s.start + s.count <= n
  {
    if p.chunk == s.chunk && n - Tail(n, s) <= p.row < n then
      Place(p.chunk, s.start + (p.row - (n - Tail(n, s))))
    else p
  }

  /** From and NewPlace are inverse between the surviving rows and the rows of the shrunk chunk. */
  lemma SurvivorsMatch(n: nat, s: Slice, r: nat)
    requires s.start + s.count <= n
    ensures r < n - s.count ==>
      && 0 <= From(n, s, r) < n && Place(s.chunk, From(n, s, r)) !in RowsOf(s)
      && NewPlace(n, s, Place(s.chunk, From(n, s, r))) == Place(s.chunk, r)
    ensures r < n && Place(s.chunk, r) !in RowsOf(s) ==>
      var q := NewPlace(n, s, Place(s.chunk, r));
      q.chunk == s.chunk && q.row < n - s.count && From(n, s, q.row) == r
  {
    assert Place(s.chunk, r) in RowsOf(s) <==> s.start <= r < s.start + s.count;
    if r < n - s.count {
      var o := From(n, s, r);
      assert Place(s.chunk, o) in RowsOf(s) <==> s.start <= o < s.start + s.count;
    }
  }

  /** q is chunk p with the slice's rows gone and the tail in their place. */
  ghost predicate SweptTo(p: Page, s: Slice, q: Page) {
    && s.start + s.count <= |p.ents| == |p.rows|
    && q.arch == p.arch && q.room == p.room
    && |q.ents| == |q.rows| == |p.ents| - s.count
    && forall r :: 0 <= r < |q.ents| ==>
         0 <= From(|p.ents|, s, r) < |p.ents|
         && q.ents[r] == p.ents[From(|p.ents|, s, r)] && q.rows[r] == p.rows[From(|p.ents|, s, r)]
  }

  /** Copying the tail over the hole and dropping as many rows from the end sweeps the slice away. */
  lemma CopiedIsSwept(p: Page, s: Slice, q: Page)
    requires s.start + s.count <= |p.ents| == |p.rows| && q.arch == p.arch && q.room == p.room
    requires var n, m := |p.ents|, Tail(|p.ents|, s);
      && |q.ents| == |q.rows| == n - s.count
      && (forall r :: 0 <= r < n - s.count ==> q.ents[r] == CopyWithin(p.ents, s.start, n - m, m)[r])
      && (forall r :: 0 <= r < n - s.count ==> q.rows[r] == CopyWithin(p.rows, s.start, n - m, m)[r])
    ensures SweptTo(p, s, q)
  {
    var n, m := |p.ents|, Tail(|p.ents|, s);
    forall r | 0 <= r < n - s.count
      ensures 0 <= From(n, s, r) < n && q.ents[r] == p.ents[From(n, s, r)] && q.rows[r] == p.rows[From(n, s, r)]
    {
      CopiedAt(p.ents, s, r);
      CopiedAt(p.rows, s, r);
    }
  }

  lemma CopiedAt<T>(xs: seq<T>, s: Slice, r: nat)
    requires s.start + s.count <= |xs| && r < |xs| - s.count
    ensures 0 <= From(|xs|, s, r) < |xs|
    ensures CopyWithin(xs, s.start, |xs| - Tail(|xs|, s), Tail(|xs|, s))[r] == xs[From(|xs|, s, r)]
  {
  }

  /** Every record keeps its version; those that pointed into the moved tail point to where their rows went. */
  ghost predicate Refilled(slots: Slots, n: nat, s: Slice, slots': Slots)
    requires s.start + s.count <= n
  {
    && |slots'| == |slots|
    && forall id :: 0 <= id < |slots| ==>
         slots'[id]
         == if slots[id].loc.At? then slots[id].(loc := At(NewPlace(n, s, slots[id].loc.place))) else slots[id]
  }

  /**
   The handles in rows lo..hi, none of them in the hole, are distinct and
   theirs are the records that point to those rows.
   */
  lemma RowHandles(slots: Slots, pages: Pages, hole: set<Place>, c: nat, lo: nat, hi: nat)
    requires Placed(slots, pages, hole) && c in pages && lo <= hi <= |pages[c].ents|
    requires forall r :: lo <= r < hi ==> Place(c, r) !in hole
    ensures var ids := IdsOf(pages[c].ents[lo..hi]);
      && Handles.Distinct(ids)
      && (forall i :: 0 <= i < hi - lo ==> ids[i] < |slots| && slots[ids[i]].loc == At(Place(c, lo + i)))
      && (forall id :: 0 <= id < |slots| && slots[id].loc.At? ==>
            var p := slots[id].loc.place; p.chunk == c && lo <= p.row < hi ==> ids[p.row - lo] == id)
  {
    var ids := IdsOf(pages[c].ents[lo..hi]);
    forall i | 0 <= i < hi - lo ensures ids[i] < |slots| && slots[ids[i]].loc == At(Place(c, lo + i)) {
      assert InPages(pages, Place(c, lo + i)) && EntAt(pages, Place(c, lo + i)) == pages[c].ents[lo + i];
    }
    forall id | 0 <= id < |slots| && slots[id].loc.At?
      ensures var p := slots[id].loc.place; p.chunk == c && lo <= p.row < hi ==> ids[p.row - lo] == id
    {
      assert EntAt(pages, slots[id].loc.place).id == id;
    }
  }

  /** The records of ids, and no others, now point to the rows of slice s, in order. */
  ghost predicate Relocated(slots: Slots, ids: seq<nat>, s: Slice, slots': Slots) {
    && |ids| == s.count && |slots'| == |slots|
    && (forall i :: 0 <= i < |ids| ==>
          ids[i] < |slots| && slots'[ids[i]] == Slot(At(Place(s.chunk, s.start + i)), slots[ids[i]].version))
    && (forall id :: 0 <= id < |slots| && id !in ids ==> slots'[id] == slots[id])
  }

  lemma PlaceAllRelocates(slots: Slots, free: nat, ids: seq<nat>, s: Slice)
    requires Handles.Distinct(ids) && |ids| == s.count && forall id :: id in ids ==> id < |slots|
    ensures Relocated(slots, ids, s, PlaceAll(Table(slots, free), ids, PlacesOf(s)).slots)
  {
    PlaceAllAt(Table(slots, free), ids, PlacesOf(s));
    forall i | 0 <= i < |ids|
      ensures ids[i] < |slots|
      ensures PlaceAll(Table(slots, free), ids, PlacesOf(s)).slots[ids[i]]
                == Slot(At(Place(s.chunk, s.start + i)), slots[ids[i]].version)
    {
      assert ids[i] in ids;
    }
  }

  /** Relocating the handles of the tail to the front of the hole refills it. */
  lemma RefillRelocates(slots: Slots, n: nat, s: Slice, ids: seq<nat>, slots': Slots)
    requires s.start + s.count <= n && |ids| == Tail(n, s)
    requires Relocated(slots, ids, Slice(s.chunk, s.start, |ids|), slots')
    requires forall i :: 0 <= i < |ids| ==> slots[ids[i]].loc == At(Place(s.chunk, n - |ids| + i))
    requires forall id :: 0 <= id < |slots| && slots[id].loc.At? ==>
               var p := slots[id].loc.place;
               p.chunk == s.chunk && n - |ids| <= p.row < n ==> ids[p.row - (n - |ids|)] == id
    ensures Refilled(slots, n, s, slots')
  {
    forall id | 0 <= id < |slots|
      ensures slots'[id]
              == if slots[id].loc.At? then slots[id].(loc := At(NewPlace(n, s, slots[id].loc.place))) else slots[id]
    {
      if slots[id].loc.At? && slots[id].loc.place.chunk == s.chunk && n - |ids| <= slots[id].loc.place.row < n {
        var i := slots[id].loc.place.row - (n - |ids|);
        assert ids[i] == id;
      } else {
        assert id !in ids;
      }
    }
  }

  /** Whether rows and records agree does not depend on the component rows. */
  lemma PlacedByHandles(slots: Slots, pages: Pages, pages': Pages, hole: set<Place>)
    requires Placed(slots, pages, hole) && pages'.Keys == pages.Keys
    requires forall c :: c in pages ==> pages'[c].ents == pages[c].ents
    ensures Placed(slots, pages', hole)
  {
    assert forall p :: InPages(pages', p) <==> InPages(pages, p);
    assert forall p :: EntAt(pages', p) == EntAt(pages, p);
  }

  lemma SurvivorMoved(slots: Slots, pages: Pages, s: Slice, q: Page, slots': Slots, id: nat)
    requires s.chunk in pages && SweptTo(pages[s.chunk], s, q) && Refilled(slots, |pages[s.chunk].ents|, s, slots')
    requires Placed(slots, pages, RowsOf(s)) && Live(slots, id)
    ensures var pages' := pages[s.chunk := q];
      && InPages(pages', slots'[id].loc.place) && EntAt(pages', slots'[id].loc.place).id == id
      && Find(slots', pages', id) == Find(slots, pages, id)
  {
    var n, p := |pages[s.chunk].ents|, slots[id].loc.place;
    assert EntAt(pages, p).id == id && p !in RowsOf(s);
    if p.chunk == s.chunk {
      SurvivorsMatch(n, s, p.row);
    }
  }

  lemma RowRefilled(slots: Slots, pages: Pages, s: Slice, q: Page, slots': Slots, p: Place)
    requires s.chunk in pages && SweptTo(pages[s.chunk], s, q) && Refilled(slots, |pages[s.chunk].ents|, s, slots')
    requires Placed(slots, pages, RowsOf(s)) && InPages(pages[s.chunk := q], p)
    ensures var e := EntAt(pages[s.chunk := q], p); e.id < |slots'| && slots'[e.id] == Slot(At(p), e.version)
  {
    var n, o := |pages[s.chunk].ents|, p;
    if p.chunk == s.chunk {
      SurvivorsMatch(n, s, p.row);
      o := Place(p.chunk, From(n, s, p.row));
    }
    assert InPages(pages, o) && o !in RowsOf(s);
  }

  /** Moving the tail into the hole closes the hole and loses, duplicates and changes no surviving entity. */
  lemma HoleClosed(slots: Slots, pages: Pages, s: Slice, q: Page, slots': Slots)
    requires s.chunk in pages && SweptTo(pages[s.chunk], s, q) && Refilled(slots, |pages[s.chunk].ents|, s, slots')
    requires Placed(slots, pages, RowsOf(s))
    ensures Placed(slots', pages[s.chunk := q], {})
    ensures Untouched(slots, pages, slots', pages[s.chunk := q], {})
  {
    var pages' := pages[s.chunk := q];
    forall id | 0 <= id < |slots| && Live(slots, id)
      ensures Find(slots', pages', id) == Find(slots, pages, id)
      ensures var p := slots'[id].loc.place; InPages(pages', p) && EntAt(pages', p).id == id
    {
      SurvivorMoved(slots, pages, s, q, slots', id);
    }
    forall p | InPages(pages', p)
      ensures var e := EntAt(pages', p); e.id < |slots'| && slots'[e.id] == Slot(At(p), e.version)
    {
      RowRefilled(slots, pages, s, q, slots', p);
    }
  }

  // ------------------------------------------------------------------ filling and emptying rows

  /** q is chunk p with these handles and component rows written over the slice. */
  ghost predicate Overwritten(p: Page, s: Slice, es: seq<Entity>, rs: seq<Row>, q: Page) {
    && s.start + s.count <= |p.ents| == |p.rows| && |es| == |rs| == s.count
    && q.arch == p.arch && q.room == p.room && |q.ents| == |q.rows| == |p.ents|
    && (forall r :: 0 <= r < |p.ents| && !(s.start <= r < s.start + s.count) ==>
        q.ents[r] == p.ents[r] && q.rows[r] == p.rows[r])
    && (forall r :: s.start <= r < s.start + s.count ==> q.ents[r] == es[r - s.start] && q.rows[r] == rs[r - s.start])
  }

  function Overwrite(p: Page, s: Slice, es: seq<Entity>, rs: seq<Row>): Page
    requires s.start + s.count <= |p.ents| == |p.rows| && |es| == |rs| == s.count
  {
    p.(ents := p.ents[..s.start] + es + p.ents[s.start + s.count..],
       rows := p.rows[..s.start] + rs + p.rows[s.start + s.count..])
  }

  lemma OverwriteOverwrites(p: Page, s: Slice, es: seq<Entity>, rs: seq<Row>)
    requires s.start + s.count <= |p.ents| == |p.rows| && |es| == |rs| == s.count
    ensures Overwritten(p, s, es, rs, Overwrite(p, s, es, rs))
  {
  }

  function IdSet(ids: seq<nat>): set<nat> {
    set id | id in ids
  }

  /** What the entities es hold after rows rs were written for them. */
  ghost predicate Hold(slots: Slots, pages: Pages, es: seq<Entity>, arch: nat, rs: seq<Row>) {
    && |es| == |rs|
    && forall i :: 0 <= i < |es| ==>
         Live(slots, es[i].id) && slots[es[i].id].version == es[i].version &&
           Find(slots, pages, es[i].id) == Held(arch, rs[i])
  }

  /**
   Rows of a hole receive handles whose records are redirected to them; the rows those handles came from
   join the hole and no other row does.
   */
  ghost predicate Filling(slots: Slots, pages: Pages, s: Slice, was: set<Place>, left: set<Place>,
                          es: seq<Entity>, rs: seq<Row>, q: Page, slots': Slots) {
    && Fits(pages, s) && Overwritten(pages[s.chunk], s, es, rs, q)
    && was <= left && left !! RowsOf(s) && Placed(slots, pages, RowsOf(s) + was)
    && |slots| <= |slots'|
    && (forall id :: 0 <= id < |slots'| && id !in IdsOf(es) ==> id < |slots| && slots'[id] == slots[id])
    && (forall i :: 0 <= i < |es| ==>
        es[i].id < |slots'| && slots'[es[i].id] == Slot(At(Place(s.chunk, s.start + i)), es[i].version))
    && (forall p :: InPages(pages, p) && p !in RowsOf(s) + left ==> EntAt(pages, p).id !in IdsOf(es))
    && (forall id :: 0 <= id < |slots| && slots[id].loc.At? && id !in IdsOf(es) ==> slots[id].loc.place !in left)
  }

  lemma RowsFilled(slots: Slots, pages: Pages, s: Slice, was: set<Place>, left: set<Place>,
                   es: seq<Entity>, rs: seq<Row>, q: Page, slots': Slots)
    requires Filling(slots, pages, s, was, left, es, rs, q, slots')
    ensures Placed(slots', pages[s.chunk := q], left)
    ensures Hold(slots', pages[s.chunk := q], es, q.arch, rs)
    ensures Untouched(slots, pages, slots', pages[s.chunk := q], IdSet(IdsOf(es)))
  {
    var ids, pages' := IdsOf(es), pages[s.chunk := q];
    forall i | 0 <= i < |es|
      ensures Live(slots', es[i].id) && slots'[es[i].id].version == es[i].version
      ensures Find(slots', pages', es[i].id) == Held(q.arch, rs[i])
    {
      RowWritten(pages, s, es, rs, q, i);
    }
    forall id | 0 <= id < |slots'| && slots'[id].loc.At?
      ensures var p := slots'[id].loc.place; InPages(pages', p) && p !in left && EntAt(pages', p).id == id
    {
      RecordOk(slots, pages, s, was, left, es, rs, q, slots', id);
    }
    forall p | InPages(pages', p) && p !in left
      ensures var e := EntAt(pages', p); e.id < |slots'| && slots'[e.id] == Slot(At(p), e.version)
    {
      RowOk(slots, pages, s, was, left, es, rs, q, slots', p);
    }
    forall id | 0 <= id < |slots| && id !in IdSet(ids)
      ensures (Live(slots', id) <==> Live(slots, id)) && slots'[id].version == slots[id].version
      ensures Find(slots', pages', id) == Find(slots, pages, id)
    {
      if slots[id].loc.At? {
        RowKept(pages, s, es, rs, q, slots[id].loc.place);
      }
    }
  }

  lemma RowWritten(pages: Pages, s: Slice, es: seq<Entity>, rs: seq<Row>, q: Page, i: nat)
    requires Fits(pages, s) && Overwritten(pages[s.chunk], s, es, rs, q) && i < |es|
    ensures var p := Place(s.chunk, s.start + i);
      p in RowsOf(s) && InPages(pages[s.chunk := q], p) && EntAt(pages[s.chunk := q], p) == es[i] &&
        q.rows[s.start + i] == rs[i]
  {
    var r := s.start + i;
    assert q.ents[r] == es[r - s.start];
  }

  lemma RecordOk(slots: Slots, pages: Pages, s: Slice, was: set<Place>, left: set<Place>,
                 es: seq<Entity>, rs: seq<Row>, q: Page, slots': Slots, id: nat)
    requires Filling(slots, pages, s, was, left, es, rs, q, slots') && Live(slots', id)
    ensures var p := slots'[id].loc.place;
            InPages(pages[s.chunk := q], p) && p !in left && EntAt(pages[s.chunk := q], p).id == id
  {
    var ids := IdsOf(es);
    if id in ids {
      var i :| 0 <= i < |ids| && ids[i] == id;
      assert es[i].id == id;
      RowWritten(pages, s, es, rs, q, i);
    } else {
      RowKept(pages, s, es, rs, q, slots[id].loc.place);
    }
  }

  lemma RowOk(slots: Slots, pages: Pages, s: Slice, was: set<Place>, left: set<Place>,
              es: seq<Entity>, rs: seq<Row>, q: Page, slots': Slots, p: Place)
    requires Filling(slots, pages, s, was, left, es, rs, q, slots') && InPages(pages[s.chunk := q], p) && p !in left
    ensures var e := EntAt(pages[s.chunk := q], p); e.id < |slots'| && slots'[e.id] == Slot(At(p), e.version)
  {
    if p in RowsOf(s) {
      var i := p.row - s.start;
      RowWritten(pages, s, es, rs, q, i);
      assert p == Place(s.chunk, s.start + i);
    } else {
      RowKept(pages, s, es, rs, q, p);
    }
  }

  lemma RowKept(pages: Pages, s: Slice, es: seq<Entity>, rs: seq<Row>, q: Page, p: Place)
    requires Fits(pages, s) && Overwritten(pages[s.chunk], s, es, rs, q) && p !in RowsOf(s)
    ensures var pages' := pages[s.chunk := q];
      && (InPages(pages', p) <==> InPages(pages, p)) && (InPages(pages, p) ==> EntAt(pages', p) == EntAt(pages, p))
      && (InPages(pages, p) ==>
          && pages'[p.chunk].arch == pages[p.chunk].arch && |pages'[p.chunk].rows| == |pages[p.chunk].rows|
          && (p.row < |pages[p.chunk].rows| ==> pages'[p.chunk].rows[p.row] == pages[p.chunk].rows[p.row]))
  {
    if p.chunk == s.chunk {
      assert !(s.start <= p.row < s.start + s.count) by {
        assert p == Place(s.chunk, p.row);
      }
    }
  }

  /** Placing new handles in the rows of a hole closes it and gives those rows to entities that were not live. */
  lemma NewPlaced(t: Table<Place>, chain: seq<nat>, pages: Pages, s: Slice, es: seq<Entity>, rs: seq<Row>, q: Page,
                  t': Table<Place>)
    requires Chained(t, chain) && Takes(t, chain, PlacesOf(s), t', es)
    requires Fits(pages, s) && Overwritten(pages[s.chunk], s, es, rs, q) && Placed(t.slots, pages, RowsOf(s))
    ensures Placed(t'.slots, pages[s.chunk := q], {})
    ensures Hold(t'.slots, pages[s.chunk := q], es, q.arch, rs)
    ensures Untouched(t.slots, pages, t'.slots, pages[s.chunk := q], IdSet(IdsOf(es)))
    ensures forall i :: 0 <= i < |es| ==> !Live(t.slots, es[i].id)
  {
    var slots, slots', ids := t.slots, t'.slots, IdsOf(es);
    TakenOnly(t, chain, PlacesOf(s), es, t');
    forall p | InPages(pages, p) && p !in RowsOf(s) + {} ensures EntAt(pages, p).id !in IdsOf(es) {
      assert p !in RowsOf(s);
      var e := EntAt(pages, p);
      assert slots[e.id] == Slot(At(p), e.version);
      assert Live(slots, e.id);
    }
    assert RowsOf(s) + {} == RowsOf(s);
    RowsFilled(slots, pages, s, {}, {}, es, rs, q, slots');
  }

  lemma TakenOnlyOne(t: Table<Place>, chain: seq<nat>, places: seq<Place>, es: seq<Entity>, t': Table<Place>, id: nat)
    requires Chained(t, chain) && Takes(t, chain, places, t', es) && id < |t'.slots|
    ensures id in IdsOf(es) || (id < |t.slots| && t'.slots[id] == t.slots[id])
  {
    var i := if id >= |t.slots| then id - |t.slots| + |chain| else 0;
    if id >= |t.slots| {
      assert es[i].id == Taken(chain, |t.slots|, i) && IdsOf(es)[i] == id;
    } else if id in chain {
      i :| 0 <= i < |chain| && chain[i] == id;
      if i < |es| {
        assert es[i].id == Taken(chain, |t.slots|, i) && IdsOf(es)[i] == id;
      }
    }
  }

  /** An allocation changes no record but those it takes, and takes none that says where an entity is. */
  lemma TakenOnly(t: Table<Place>, chain: seq<nat>, places: seq<Place>, es: seq<Entity>, t': Table<Place>)
    requires Chained(t, chain) && Takes(t, chain, places, t', es)
    ensures forall id :: 0 <= id < |t'.slots| && id !in IdsOf(es) ==> id < |t.slots| && t'.slots[id] == t.slots[id]
    ensures forall id :: id in IdsOf(es) ==> !Live(t.slots, id)
    ensures forall i :: 0 <= i < |es| ==> !Live(t.slots, es[i].id)
  {
    var slots, slots', ids := t.slots, t'.slots, IdsOf(es);
    forall id | 0 <= id < |slots'| && id !in ids ensures id < |slots| && slots'[id] == slots[id] {
      TakenOnlyOne(t, chain, places, es, t', id);
    }
    forall i | 0 <= i < |es| ensures !Live(slots, es[i].id) {
      assert es[i].id == Taken(chain, |slots|, i);
      assert i < |chain| ==> slots[chain[i]].loc == Next(Head(chain, i + 1));
    }
    forall id | id in ids ensures !Live(slots, id) {
      var i :| 0 <= i < |ids| && ids[i] == id;
      assert es[i].id == id;
    }
  }

  /** ids are the entities of a slice, and no record of another points into it. */
  ghost predicate Stored(slots: Slots, s: Slice, ids: seq<nat>) {
    && |ids| == s.count && Handles.Distinct(ids)
    && (forall i :: 0 <= i < |ids| ==> ids[i] < |slots| && slots[ids[i]].loc == At(Place(s.chunk, s.start + i)))
    && (forall id :: 0 <= id < |slots| && slots[id].loc.At? && id !in ids ==>
          var p := slots[id].loc.place; !(p.chunk == s.chunk && s.start <= p.row < s.start + s.count))
  }

  lemma SliceStored(slots: Slots, pages: Pages, hole: set<Place>, s: Slice)
    requires Placed(slots, pages, hole) && Fits(pages, s) && RowsOf(s) !! hole
    ensures Stored(slots, s, IdsOf(EntsOf(pages, s)))
  {
    forall r: nat | s.start <= r < s.start + s.count ensures Place(s.chunk, r) !in hole {
      assert Place(s.chunk, r) in RowsOf(s);
    }
    RowHandles(slots, pages, hole, s.chunk, s.start, s.start + s.count);
  }

  lemma OthersElsewhere(slots: Slots, pages: Pages, hole: set<Place>, s: Slice, ids: seq<nat>)
    requires Placed(slots, pages, hole) && Stored(slots, s, ids)
    ensures forall p :: InPages(pages, p) && p !in hole && p !in RowsOf(s) ==> EntAt(pages, p).id !in ids
    ensures forall id :: 0 <= id < |slots| && slots[id].loc.At? && id !in ids ==> slots[id].loc.place !in RowsOf(s)
  {
    forall p | InPages(pages, p) && p !in hole && p !in RowsOf(s) ensures EntAt(pages, p).id !in ids {
      assert slots[EntAt(pages, p).id].loc == At(p);
    }
  }

  lemma HandlesKept(slots: Slots, pages: Pages, s: Slice, es: seq<Entity>)
    requires Fits(pages, s) && es == EntsOf(pages, s) && Stored(slots, s, IdsOf(es))
    requires forall p :: InPages(pages, p) && p in RowsOf(s) ==>
               EntAt(pages, p).id < |slots| && slots[EntAt(pages, p).id].version == EntAt(pages, p).version
    ensures forall i :: 0 <= i < |es| ==> es[i].id < |slots| && slots[es[i].id].version == es[i].version
  {
    forall i | 0 <= i < |es| ensures es[i].id < |slots| && slots[es[i].id].version == es[i].version {
      var p := Place(s.chunk, s.start + i);
      assert p in RowsOf(s) && EntAt(pages, p) == es[i];
    }
  }

  /** Moving handles of one chunk's rows to a hole elsewhere leaves the rows they came from as a hole. */
  lemma MovedPlaced(slots: Slots, pages: Pages, s: Slice, src: Slice, k: nat, es: seq<Entity>, rs: seq<Row>, q: Page,
                    slots': Slots)
    requires src.chunk != s.chunk && Fits(pages, Slice(src.chunk, src.start + k, s.count))
    requires es == EntsOf(pages, Slice(src.chunk, src.start + k, s.count))
    requires Fits(pages, s) && Overwritten(pages[s.chunk], s, es, rs, q)
    requires Placed(slots, pages, RowsOf(s) + RowsOf(src.(count := k))) && Relocated(slots, IdsOf(es), s, slots')
    ensures Placed(slots', pages[s.chunk := q], RowsOf(src.(count := k + s.count)))
    ensures Hold(slots', pages[s.chunk := q], es, q.arch, rs)
    ensures Untouched(slots, pages, slots', pages[s.chunk := q], IdSet(IdsOf(es)))
  {
    var was, part, left := RowsOf(src.(count := k)), Slice(src.chunk, src.start + k, s.count),
          RowsOf(src.(count := k + s.count));
    assert left == was + RowsOf(part) by {
      assert forall r: nat :: Place(src.chunk, r) in left <==> src.start <= r < src.start + k + s.count;
    }
    SliceStored(slots, pages, RowsOf(s) + was, part);
    OthersElsewhere(slots, pages, RowsOf(s) + was, part, IdsOf(es));
    HandlesKept(slots, pages, part, es);
    RowsFilled(slots, pages, s, was, left, es, rs, q, slots');
  }

  /** The records of ids are freed, and no others change. */
  ghost predicate FreedTo(slots: Slots, ids: seq<nat>, slots': Slots) {
    && |slots'| == |slots|
    && forall id :: 0 <= id < |slots| ==>
         if id in ids then slots'[id].loc.Next? && slots'[id].version == Recycle(slots[id].version)
         else slots'[id] == slots[id]
  }

  lemma FreeAllFrees(t: Table<Place>, ids: seq<nat>)
    requires ids != [] && Handles.Distinct(ids)
    ensures FreedTo(t.slots, ids, FreeAll(t, ids).slots)
  {
    var slots' := FreeAll(t, ids).slots;
    forall id | 0 <= id < |t.slots|
      ensures if id in ids then slots'[id].loc.Next? && slots'[id].version == Recycle(t.slots[id].version)
              else slots'[id] == t.slots[id]
    {
      if id in ids {
        var i :| 0 <= i < |ids| && ids[i] == id;
        RelinkAt(t, ids, t.free, i);
      } else {
        RelinkOther(t, ids, t.free, id);
      }
    }
  }

  /** Freeing the handles of a slice leaves its rows as a hole. */
  lemma FreedPlaced(slots: Slots, pages: Pages, s: Slice, slots': Slots)
    requires Fits(pages, s) && Placed(slots, pages, {}) && FreedTo(slots, IdsOf(EntsOf(pages, s)), slots')
    ensures Placed(slots', pages, RowsOf(s))
    ensures Untouched(slots, pages, slots', pages, IdSet(IdsOf(EntsOf(pages, s))))
    ensures forall id :: id in IdsOf(EntsOf(pages, s)) ==> id < |slots| && Live(slots, id) && !Live(slots', id)
  {
    SliceStored(slots, pages, {}, s);
    OthersElsewhere(slots, pages, {}, s, IdsOf(EntsOf(pages, s)));
  }

  /** Rows that a chunk opens at its end are a hole; nothing else changes. */
  lemma GrownPlaced(slots: Slots, pages: Pages, hole: set<Place>, s: Slice, q: Page)
    requires Placed(slots, pages, hole) && |q.ents| == |q.rows| == s.start + s.count
    requires if s.chunk in pages then
        var p := pages[s.chunk];
        && p.arch == q.arch && |p.ents| == |p.rows| == s.start
        && forall r :: 0 <= r < s.start ==> q.ents[r] == p.ents[r] && q.rows[r] == p.rows[r]
      else s.start == 0
    ensures Placed(slots, pages[s.chunk := q], RowsOf(s) + hole)
    ensures Untouched(slots, pages, slots, pages[s.chunk := q], {})
  {
    var pages' := pages[s.chunk := q];
    forall p | InPages(pages, p) ensures InPages(pages', p) && EntAt(pages', p) == EntAt(pages, p) && p !in RowsOf(s) {
    }
    forall p | InPages(pages', p) && p !in RowsOf(s) ensures InPages(pages, p) {
      assert p == Place(p.chunk, p.row);
    }
  }

  /** A chunk without rows can go. */
  lemma EmptyPageGone(slots: Slots, pages: Pages, c: nat, hole: set<Place>)
    requires c in pages && pages[c].ents == [] && Placed(slots, pages, hole)
    ensures Placed(slots, pages - {c}, hole)
    ensures Untouched(slots, pages, slots, pages - {c}, {})
  {
    forall p | InPages(pages, p) ensures InPages(pages - {c}, p) && EntAt(pages - {c}, p) == EntAt(pages, p) {
    }
  }

  lemma UntouchedThen(slots: Slots, pages: Pages, slots1: Slots, pages1: Pages, slots2: Slots, pages2: Pages,
                      b1: set<nat>, b2: set<nat>)
    requires Untouched(slots, pages, slots1, pages1, b1) && Untouched(slots1, pages1, slots2, pages2, b2)
    ensures Untouched(slots, pages, slots2, pages2, b1 + b2)
  {
    forall id | 0 <= id < |slots| && id !in b1 + b2
      ensures (Live(slots2, id) <==> Live(slots, id)) && slots2[id].version == slots[id].version
      ensures Find(slots2, pages2, id) == Find(slots, pages, id)
    {
      assert id !in b1 && id !in b2;
    }
  }

  lemma IdSetAppend(es1: seq<Entity>, es2: seq<Entity>)
    ensures IdSet(IdsOf(es1 + es2)) == IdSet(IdsOf(es1)) + IdSet(IdsOf(es2))
  {
    var l, l1, l2 := IdsOf(es1 + es2), IdsOf(es1), IdsOf(es2);
    assert l == l1 + l2;
  }

  lemma StillHold(slots1: Slots, pages1: Pages, slots2: Slots, pages2: Pages, es: seq<Entity>, arch: nat, rs: seq<Row>,
                  but: set<nat>)
    requires Hold(slots1, pages1, es, arch, rs) && Untouched(slots1, pages1, slots2, pages2, but)
    requires forall i :: 0 <= i < |es| ==> es[i].id !in but
    ensures Hold(slots2, pages2, es, arch, rs)
  {
  }

  /** Two steps that each give some entities new rows, one after the other. */
  lemma HoldMore(slots: Slots, pages: Pages, slots1: Slots, pages1: Pages, slots2: Slots, pages2: Pages,
                 es1: seq<Entity>, es2: seq<Entity>, arch: nat, rs1: seq<Row>, rs2: seq<Row>)
    requires Untouched(slots, pages, slots1, pages1, IdSet(IdsOf(es1))) && Hold(slots1, pages1, es1, arch, rs1)
    requires Untouched(slots1, pages1, slots2, pages2, IdSet(IdsOf(es2))) && Hold(slots2, pages2, es2, arch, rs2)
    requires forall i :: 0 <= i < |es1| ==> es1[i].id !in IdsOf(es2)
    ensures Untouched(slots, pages, slots2, pages2, IdSet(IdsOf(es1 + es2)))
    ensures Hold(slots2, pages2, es1 + es2, arch, rs1 + rs2)
  {
    IdSetAppend(es1, es2);
    UntouchedThen(slots, pages, slots1, pages1, slots2, pages2, IdSet(IdsOf(es1)), IdSet(IdsOf(es2)));
    StillHold(slots1, pages1, slots2, pages2, es1, arch, rs1, IdSet(IdsOf(es2)));
    HoldBoth(slots2, pages2, es1, es2, arch, rs1, rs2);
  }

  lemma HoldBoth(slots: Slots, pages: Pages, es1: seq<Entity>, es2: seq<Entity>, arch: nat, rs1: seq<Row>,
                 rs2: seq<Row>)
    requires Hold(slots, pages, es1, arch, rs1) && Hold(slots, pages, es2, arch, rs2)
    ensures Hold(slots, pages, es1 + es2, arch, rs1 + rs2)
  {
  }

  /** The tail's handles, and where their records point before it moves. */
  lemma TailStored(slots: Slots, pages: Pages, s: Slice)
    requires Fits(pages, s) && Placed(slots, pages, RowsOf(s))
    ensures var n := |pages[s.chunk].ents|;
      var m := Tail(n, s);
      var ids := IdsOf(pages[s.chunk].ents[n - m..n]);
      && |ids| == m && Handles.Distinct(ids)
      && (forall i :: 0 <= i < m ==> ids[i] < |slots| && slots[ids[i]].loc == At(Place(s.chunk, n - m + i)))
      && (forall id :: 0 <= id < |slots| && slots[id].loc.At? ==>
            var p := slots[id].loc.place; p.chunk == s.chunk && n - m <= p.row < n ==> ids[p.row - (n - m)] == id)
  {
    var n := |pages[s.chunk].ents|;
    BehindSlice(n, s);
    RowHandles(slots, pages, RowsOf(s), s.chunk, n - Tail(n, s), n);
  }

  lemma ToTheEnd<T>(xs: seq<T>, k: nat)
    requires k <= |xs|
    ensures xs[k..] == xs[k..|xs|]
  {
  }

  lemma BehindSlice(n: nat, s: Slice)
    requires s.start + s.count <= n
    ensures forall r: nat :: n - Tail(n, s) <= r < n ==> Place(s.chunk, r) !in RowsOf(s)
  {
  }

  lemma ChainedIsDead(t: Table<Place>, chain: seq<nat>, ids: seq<nat>)
    requires Chained(t, chain) && forall i :: 0 <= i < |ids| ==> Live(t.slots, ids[i])
    ensures forall id :: id in ids ==> id < |t.slots| && id !in chain
  {
    forall id | id in ids ensures id < |t.slots| && id !in chain {
      var i :| 0 <= i < |ids| && ids[i] == id;
    }
  }

  /** A handle accepted by exist that has a place is stored exactly there, and nowhere else. */
  lemma HandleIsWhereItSays(t: Table<Place>, pages: Pages, e: Entity, p: Place)
    requires Placed(t.slots, pages, {}) && InPages(pages, p)
    ensures EntAt(pages, p) == e <==> Exist(t, e) && t.slots[e.id].loc == At(p)
  {
  }
}

/**
 Allocating, casting and freeing slices of entities.  Chunks and archetypes are addressed by number here;
 an archetype's chunk list changes as module Chunks shows the linked list to change.
 */
module Worlds {
  import opened Basics
  import opened Handles
  import opened Columns
  import opened Placement
  import opened Sets
  import Casting
  import Chunks

  /** An archetype: its first `full` chunks are the full ones. */
  datatype Arch = Arch(types: seq<TypeIndex>, entitySize: nat, capacity: seq<nat>, chunks: seq<nat>, full: nat)

  type Archs = map<nat, Arch>

  // ------------------------------------------------------------------ the chunk lists

  /** Chunks of each bin have room for an entity. */
  predicate CapacityOk(capacity: seq<nat>) {
    |capacity| == 3 && capacity[0] > 0 && capacity[1] > 0 && capacity[2] > 0
  }

  ghost predicate ArchOk(pending: set<TypeIndex>, pages: Pages, g: nat, a: Arch) {
    && TypesOk(pending, a.types) && CapacityOk(a.capacity)
    && Handles.Distinct(a.chunks)
    && a.full <= |a.chunks|
    && (forall i :: 0 <= i < |a.chunks| ==>
          a.chunks[i] in pages && pages[a.chunks[i]].arch == g
          && (|pages[a.chunks[i]].ents| == pages[a.chunks[i]].room <==> i < a.full))
  }

  ghost predicate PageOk(archs: Archs, c: nat, p: Page) {
    && p.arch in archs && c in archs[p.arch].chunks
    && 0 < p.room && |p.ents| <= p.room && |p.rows| == |p.ents|
    && forall r :: 0 <= r < |p.rows| ==> |p.rows[r]| == FirstTag(archs[p.arch].types)
  }

  ghost predicate Lists(pending: set<TypeIndex>, pages: Pages, archs: Archs) {
    && (forall g {:trigger ArchOk(pending, pages, g, archs[g])} :: g in archs ==> ArchOk(pending, pages, g, archs[g]))
    && (forall c {:trigger PageOk(archs, c, pages[c])} :: c in pages ==> PageOk(archs, c, pages[c]))
  }

  function IndexOf(l: seq<nat>, c: nat): (i: nat)
    requires c in l
    ensures i < |l| && l[i] == c
  {
    if l[0] == c then 0 else 1 + IndexOf(l[1..], c)
  }

  /** How many chunks are full after chunk i of the list was resized. */
  function FullAfter(full: nat, i: nat, count: nat, room: nat): nat {
    if count == room then (if i < full then full else full + 1) else if i < full then full - 1 else full
  }

  /** Which element of the old list is element k of the new one. */
  function Origin(n: nat, full: nat, i: nat, count: nat, room: nat, k: nat): nat {
    if count == 0 then if k < i then k else k + 1
    else if count == room then if i == full then k else if k == 0 then i else if k - 1 < i then k - 1 else k
    else if i < full then if k + 1 == n then i else if k < i then k else k + 1
    else k
  }

  lemma ResizedFrom(l: seq<nat>, full: nat, i: nat, count: nat, room: nat)
    requires i < |l| && full <= |l| && 0 < room && Handles.Distinct(l)
    ensures var l', f' := Chunks.Resized(l, full, i, count, room), FullAfter(full, i, count, room);
      && |l'| == (if count == 0 then |l| - 1 else |l|)
      && (forall k :: 0 <= k < |l'| ==>
          Origin(|l|, full, i, count, room, k) < |l| && l'[k] == l[Origin(|l|, full, i, count, room, k)])
      && Handles.Distinct(l')
      && (forall k :: 0 <= k < |l'| ==>
            (k < f' <==>
               if Origin(|l|, full, i, count, room, k) == i then count == room
               else Origin(|l|, full, i, count, room, k) < full))
      && (forall x :: x in l && (x != l[i] || count > 0) ==> x in l')
  {
    var l', f' := Chunks.Resized(l, full, i, count, room), FullAfter(full, i, count, room);
    forall x | x in l && (x != l[i] || count > 0) ensures x in l' {
      var o :| 0 <= o < |l| && l[o] == x;
      ResizedHas(l, full, i, count, room, o);
    }
  }

  lemma ResizedHas(l: seq<nat>, full: nat, i: nat, count: nat, room: nat, o: nat)
    requires i < |l| && o < |l| && full <= |l| && (o != i || count > 0)
    ensures l[o] in Chunks.Resized(l, full, i, count, room)
  {
    var w := Chunks.Without(l, i);
    assert o != i ==> w[if o < i then o else o - 1] == l[o];
  }

  /** The archetypes after chunk c, number i of its archetype's list, was resized. */
  function ResizedArchs(archs: Archs, g: nat, i: nat, count: nat, room: nat): Archs
    requires g in archs && i < |archs[g].chunks|
  {
    var a := archs[g];
    var l := Chunks.Resized(a.chunks, a.full, i, count, room);
    if l == [] then archs - {g} else archs[g := a.(chunks := l, full := FullAfter(a.full, i, count, room))]
  }

  /** q is chunk p grown or shrunk to `count` rows. */
  ghost predicate FitTo(p: Page, count: nat, width: nat, q: Page) {
    && q.arch == p.arch && q.room == p.room && |q.ents| == |q.rows| == count
    && (forall r :: 0 <= r < count && r < |p.ents| && r < |p.rows| ==> q.ents[r] == p.ents[r] && q.rows[r] == p.rows[r])
    && (forall r :: |p.rows| <= r < count ==> |q.rows[r]| == width)
  }

  /** Resizing a chunk keeps every list in order. */
  lemma ResizedLists(pending: set<TypeIndex>, pages: Pages, archs: Archs, c: nat, count: nat, q: Page, i: nat)
    requires Lists(pending, pages, archs) && c in pages && count <= pages[c].room
    requires pages[c].arch in archs && i < |archs[pages[c].arch].chunks| && archs[pages[c].arch].chunks[i] == c
    requires FitTo(pages[c], count, FirstTag(archs[pages[c].arch].types), q)
    ensures Lists(pending, if count == 0 then pages - {c} else pages[c := q],
                  ResizedArchs(archs, pages[c].arch, i, count, pages[c].room))
  {
    var p, g := pages[c], pages[c].arch;
    var a := archs[g];
    var pages' := if count == 0 then pages - {c} else pages[c := q];
    var archs' := ResizedArchs(archs, g, i, count, p.room);
    forall h | h in archs' ensures ArchOk(pending, pages', h, archs'[h]) {
      if h == g {
        ResizedArchOk(pending, pages, archs, c, count, q, i);
      } else {
        OtherArchOk(pending, pages, archs, c, pages', h);
      }
    }
    forall d | d in pages' ensures PageOk(archs', d, pages'[d]) {
      ResizedPageOk(pending, pages, archs, c, count, q, i, d);
    }
  }

  lemma ResizedPageOk(pending: set<TypeIndex>, pages: Pages, archs: Archs, c: nat, count: nat, q: Page, i: nat, d: nat)
    requires Lists(pending, pages, archs) && c in pages && count <= pages[c].room && d in pages && (d != c || count > 0)
    requires pages[c].arch in archs && i < |archs[pages[c].arch].chunks| && archs[pages[c].arch].chunks[i] == c
    requires FitTo(pages[c], count, FirstTag(archs[pages[c].arch].types), q)
    ensures PageOk(ResizedArchs(archs, pages[c].arch, i, count, pages[c].room), d, if d == c then q else pages[d])
  {
    var p, a := pages[c], archs[pages[c].arch];
    assert PageOk(archs, c, p) && PageOk(archs, d, pages[d]) && ArchOk(pending, pages, p.arch, a);
    if pages[d].arch == p.arch {
      ResizedFrom(a.chunks, a.full, i, count, p.room);
      assert d in Chunks.Resized(a.chunks, a.full, i, count, p.room);
    }
  }

  lemma OtherArchOk(pending: set<TypeIndex>, pages: Pages, archs: Archs, c: nat, pages': Pages, h: nat)
    requires Lists(pending, pages, archs) && c in pages && h in archs && h != pages[c].arch
    requires forall d :: d in pages && d != c ==> d in pages' && pages'[d] == pages[d]
    ensures ArchOk(pending, pages', h, archs[h])
  {
    var a := archs[h];
    assert ArchOk(pending, pages, h, a);
    forall k | 0 <= k < |a.chunks| ensures a.chunks[k] != c {
      assert pages[a.chunks[k]].arch == h;
    }
  }

  lemma ResizedArchOk(pending: set<TypeIndex>, pages: Pages, archs: Archs, c: nat, count: nat, q: Page, i: nat)
    requires Lists(pending, pages, archs) && c in pages && count <= pages[c].room
    requires pages[c].arch in archs && i < |archs[pages[c].arch].chunks| && archs[pages[c].arch].chunks[i] == c
    requires FitTo(pages[c], count, FirstTag(archs[pages[c].arch].types), q)
    ensures var p, a := pages[c], archs[pages[c].arch];
      ArchOk(pending, if count == 0 then pages - {c} else pages[c := q], p.arch,
        a.(chunks := Chunks.Resized(a.chunks, a.full, i, count, p.room), full := FullAfter(a.full, i, count, p.room)))
  {
    var p, g := pages[c], pages[c].arch;
    var a := archs[g];
    assert ArchOk(pending, pages, g, a) && PageOk(archs, c, p);
    ResizedFrom(a.chunks, a.full, i, count, p.room);
    var l' := Chunks.Resized(a.chunks, a.full, i, count, p.room);
    var pages' := if count == 0 then pages - {c} else pages[c := q];
    forall k | 0 <= k < |l'|
      ensures l'[k] in pages' && pages'[l'[k]].arch == g
      ensures |pages'[l'[k]].ents| == pages'[l'[k]].room <==> k < FullAfter(a.full, i, count, p.room)
    {
      var o := Origin(|a.chunks|, a.full, i, count, p.room, k);
      assert a.chunks[o] == c <==> o == i;
    }
  }

  lemma AddedLists(pending: set<TypeIndex>, pages: Pages, archs: Archs, g: nat, c: nat, p: Page)
    requires Lists(pending, pages, archs) && g in archs && c !in pages && archs[g].full == |archs[g].chunks|
    requires p.arch == g && p.ents == [] && p.rows == [] && 0 < p.room
    ensures Lists(pending, pages[c := p], archs[g := archs[g].(chunks := archs[g].chunks + [c])])
  {
    var a, pages' := archs[g], pages[c := p];
    var archs' := archs[g := a.(chunks := a.chunks + [c])];
    assert ArchOk(pending, pages, g, a);
    forall h | h in archs' ensures ArchOk(pending, pages', h, archs'[h]) {
      assert ArchOk(pending, pages, h, archs[h]);
    }
    forall d | d in pages' ensures PageOk(archs', d, pages'[d]) {
      if d == c {
        assert (a.chunks + [c])[|a.chunks|] == c;
      } else {
        assert PageOk(archs, d, pages[d]);
      }
    }
  }

  /** A new archetype has no chunks yet. */
  lemma NewArchLists(pending: set<TypeIndex>, pages: Pages, archs: Archs, g: nat, a: Arch)
    requires Lists(pending, pages, archs) && g !in archs && TypesOk(pending, a.types) && a.chunks == [] && a.full == 0
    requires CapacityOk(a.capacity)
    ensures Lists(pending, pages, archs[g := a])
  {
    var archs' := archs[g := a];
    forall h | h in archs' ensures ArchOk(pending, pages, h, archs'[h]) {
      if h != g {
        assert ArchOk(pending, pages, h, archs[h]);
      }
    }
    forall c | c in pages ensures PageOk(archs', c, pages[c]) {
      assert PageOk(archs, c, pages[c]);
    }
  }

  // ------------------------------------------------------------------ slices

  function Total(slices: seq<Slice>): nat {
    if slices == [] then 0 else Total(slices[..|slices| - 1]) + slices[|slices| - 1].count
  }

  lemma TotalMore(slices: seq<Slice>, s: Slice)
    ensures Total(slices + [s]) == Total(slices) + s.count
  {
    assert (slices + [s])[..|slices|] == slices;
  }

  /** chunk::construct: every component in its default state, but the mask all ones. */
  function DefaultRow(mask: TypeIndex, types: seq<TypeIndex>): (r: Row)
    ensures |r| == FirstTag(types)
  {
    seq(FirstTag(types), d requires 0 <= d < FirstTag(types) && d < |types| =>
      if types[d] == mask then AllOnes else Default(types[d]))
  }

  /** Where rows are allocated: the archetype's first chunk with room, or else a new one from the bin of the request. */
  ghost predicate ChunkFor(pages: Pages, a: Arch, count: nat, c: nat, room: nat) {
    if a.full < |a.chunks| then c == a.chunks[a.full]
    else
      var bin := Chunks.BinFor(a.entitySize, count, |a.chunks|);
      c !in pages && bin < |a.capacity| && room == a.capacity[bin]
  }

  ghost predicate FullChunk(pages: Pages, c: nat) {
    c in pages && |pages[c].ents| == pages[c].room
  }

  /** These slices end their chunks, and the chunks are full. */
  ghost predicate AllFull(pages: Pages, slices: seq<Slice>) {
    forall i {:trigger slices[i]} :: 0 <= i < |slices| ==> FullChunk(pages, slices[i].chunk)
  }

  /** No slice ends before its chunk is full, but perhaps the last. */
  ghost predicate Packed(pages: Pages, slices: seq<Slice>) {
    slices != [] ==> AllFull(pages, slices[..|slices| - 1])
  }

  /** Rows were opened in chunk s.chunk alone; it is full if they are fewer than wanted. */
  ghost predicate Opened(was: Pages, now: Pages, s: Slice, count: nat) {
    && (forall c :: c in was && c != s.chunk ==> c in now && now[c] == was[c])
    && s.chunk in now && (s.chunk in was ==> |was[s.chunk].ents| < was[s.chunk].room)
    && (s.count < count ==> FullChunk(now, s.chunk))
  }

  lemma PackMore(was: Pages, now: Pages, slices: seq<Slice>, s: Slice, count: nat)
    requires AllFull(was, slices) && Opened(was, now, s, count)
    ensures Packed(now, slices + [s]) && (s.count < count ==> AllFull(now, slices + [s]))
  {
    assert (slices + [s])[..|slices|] == slices;
    forall i | 0 <= i < |slices| ensures FullChunk(now, slices[i].chunk) {
    }
  }

  lemma PackedElsewhere(was: Pages, now: Pages, slices: seq<Slice>, c: nat)
    requires Packed(was, slices) && Elsewhere(slices, c)
    requires forall d :: d in was && d != c ==> d in now && now[d] == was[d]
    ensures Packed(now, slices)
  {
    if slices != [] {
      var front := slices[..|slices| - 1];
      forall i | 0 <= i < |front| ensures FullChunk(now, front[i].chunk) {
        assert front[i] == slices[i];
      }
    }
  }

  /**
   Plain components start as zeros, buffers empty, managed ones as their
   constructor leaves them, the mask as ones.
   */
  lemma DefaultRowByKind(mask: TypeIndex, types: seq<TypeIndex>, d: nat)
    requires Sorted(types) && d < FirstTag(types)
    ensures var cell := DefaultRow(mask, types)[d];
            && d < |types|
            && (types[d] == mask ==> cell == AllOnes)
            && (types[d] != mask && d < FirstBuffer(types) ==> cell == Zeroed)
            && (types[d] != mask && FirstBuffer(types) <= d < FirstManaged(types) ==> cell == EmptyBuffer)
            && (types[d] != mask && FirstManaged(types) <= d ==> cell == Constructed(types[d]))
  {
    FirstSplits(types, KIND);
    FirstSplits(types, 2 * KIND);
    FirstSplits(types, 3 * KIND);
  }

  /** Rows start..start + count of a chunk, cast to rows of another archetype, in order. */
  function CastRows(pending: set<TypeIndex>, src: seq<TypeIndex>, dst: seq<TypeIndex>, rs: seq<Row>): (r: seq<Row>)
    requires forall i :: 0 <= i < |rs| ==> |rs[i]| == FirstTag(src)
    ensures |r| == |rs| && forall i :: 0 <= i < |rs| ==> r[i] == CastRow(pending, src, dst, rs[i])
  {
    seq(|rs|, i requires 0 <= i < |rs| => CastRow(pending, src, dst, rs[i]))
  }

  /** Rewriting rows of a chunk keeps the lists in order. */
  lemma RewrittenLists(pending: set<TypeIndex>, pages: Pages, archs: Archs, c: nat, q: Page)
    requires Lists(pending, pages, archs) && c in pages && q.arch == pages[c].arch && q.room == pages[c].room
    requires |q.ents| == |q.rows| == |pages[c].ents| && pages[c].arch in archs
    requires forall r :: 0 <= r < |q.rows| ==> |q.rows[r]| == FirstTag(archs[pages[c].arch].types)
    ensures Lists(pending, pages[c := q], archs)
  {
    var pages' := pages[c := q];
    forall h | h in archs ensures ArchOk(pending, pages', h, archs[h]) {
      assert ArchOk(pending, pages, h, archs[h]);
    }
    forall d | d in pages' ensures PageOk(archs, d, pages'[d]) {
      assert PageOk(archs, d, pages[d]);
    }
  }

  lemma MoveKeepsLists(pending: set<TypeIndex>, pages: Pages, archs: Archs, s: Slice)
    requires Lists(pending, pages, archs) && Fits(pages, s) && |pages[s.chunk].rows| == |pages[s.chunk].ents|
    ensures Lists(pending, pages[s.chunk := TailMoved(pages[s.chunk], s)], archs)
  {
    var p, n := pages[s.chunk], |pages[s.chunk].ents|;
    var m := Tail(n, s);
    assert PageOk(archs, s.chunk, p);
    var rows := NarrowCopied(p.rows, s);
    forall r | 0 <= r < |rows| ensures |rows[r]| == FirstTag(archs[p.arch].types) {
      assert rows[r] == p.rows[if s.start <= r < s.start + m then Narrow(n - m) + (r - s.start) else r];
    }
    RewrittenLists(pending, pages, archs, s.chunk, TailMoved(p, s));
  }

  lemma OverwriteKeepsLists(pending: set<TypeIndex>, pages: Pages, archs: Archs, s: Slice, es: seq<Entity>,
                            rs: seq<Row>)
    requires Lists(pending, pages, archs) && Fits(pages, s) && |es| == |rs| == s.count
    requires |pages[s.chunk].rows| == |pages[s.chunk].ents|
    requires pages[s.chunk].arch in archs
    requires forall i :: 0 <= i < |rs| ==> |rs[i]| == FirstTag(archs[pages[s.chunk].arch].types)
    ensures Overwritten(pages[s.chunk], s, es, rs, Overwrite(pages[s.chunk], s, es, rs))
    ensures Lists(pending, pages[s.chunk := Overwrite(pages[s.chunk], s, es, rs)], archs)
  {
    OverwriteOverwrites(pages[s.chunk], s, es, rs);
    assert PageOk(archs, s.chunk, pages[s.chunk]);
    RewrittenLists(pending, pages, archs, s.chunk, Overwrite(pages[s.chunk], s, es, rs));
  }

  /** The chunk with its last rows copied over the slice. */
  function TailCopied(p: Page, s: Slice): (q: Page)
    requires s.start + s.count <= |p.ents| == |p.rows|
    ensures q.arch == p.arch && q.room == p.room && |q.ents| == |q.rows| == |p.ents|
  {
    var n := |p.ents|;
    var m := Tail(n, s);
    p.(ents := CopyWithin(p.ents, s.start, n - m, m), rows := CopyWithin(p.rows, s.start, n - m, m))
  }

  /** The chunk as chunk::move and fill_entities leave it. */
  function TailMoved(p: Page, s: Slice): (q: Page)
    requires s.start + s.count <= |p.ents| == |p.rows|
    ensures q.arch == p.arch && q.room == p.room && |q.ents| == |q.rows| == |p.ents|
  {
    TailCopied(p, s).(rows := NarrowCopied(p.rows, s))
  }

  lemma NothingCopied(p: Page, s: Slice)
    requires s.start + s.count <= |p.ents| == |p.rows| && Tail(|p.ents|, s) == 0
    ensures TailMoved(p, s) == p
  {
    assert CopyWithin(p.ents, s.start, |p.ents|, 0) == p.ents && NarrowCopied(p.rows, s) == p.rows;
  }

  lemma NothingRefilled(slots: Slots, n: nat, s: Slice)
    requires s.start + s.count <= n && Tail(n, s) == 0
    ensures Refilled(slots, n, s, slots)
  {
  }

  /** The tail moved, the chunk cut off or, when nothing is left, gone: the hole is closed. */
  lemma SliceGone(slots: Slots, pages: Pages, s: Slice, slots': Slots, mid: Page, width: nat, pages': Pages)
    requires Fits(pages, s) && |pages[s.chunk].rows| == |pages[s.chunk].ents|
    requires Placed(slots, pages, RowsOf(s)) && Refilled(slots, |pages[s.chunk].ents|, s, slots')
    requires mid == TailCopied(pages[s.chunk], s)
    requires var n := |pages[s.chunk].ents| - s.count;
      if n == 0 then pages' == pages[s.chunk := mid] - {s.chunk}
      else s.chunk in pages' && pages' == pages[s.chunk := mid][s.chunk := pages'[s.chunk]]
           && FitTo(mid, n, width, pages'[s.chunk])
    ensures Placed(slots', pages', {}) && Untouched(slots, pages, slots', pages', {})
  {
    var c, n := s.chunk, |pages[s.chunk].ents| - s.count;
    var q := if n == 0 then mid.(ents := [], rows := []) else pages'[c];
    CopiedIsSwept(pages[c], s, q);
    HoleClosed(slots, pages, s, q, slots');
    if n == 0 {
      EmptyPageGone(slots', pages[c := q], c, {});
      assert pages[c := q] - {c} == pages';
      UntouchedThen(slots, pages, slots', pages[c := q], slots', pages', {}, {});
    } else {
      UpdatedTwice(pages, c, mid, q);
    }
  }

  /** The records agree with the rows even if the tail's component rows came from elsewhere. */
  lemma SliceGoneAnyway(slots: Slots, pages: Pages, s: Slice, slots': Slots, mid: Page, width: nat, pages': Pages)
    requires Fits(pages, s) && |pages[s.chunk].rows| == |pages[s.chunk].ents|
    requires Placed(slots, pages, RowsOf(s)) && Refilled(slots, |pages[s.chunk].ents|, s, slots')
    requires mid == TailMoved(pages[s.chunk], s)
    requires var n := |pages[s.chunk].ents| - s.count;
      if n == 0 then pages' == pages[s.chunk := mid] - {s.chunk}
      else s.chunk in pages' && pages' == pages[s.chunk := mid][s.chunk := pages'[s.chunk]]
           && FitTo(mid, n, width, pages'[s.chunk])
    ensures Placed(slots', pages', {})
  {
    var c, n, right := s.chunk, |pages[s.chunk].ents| - s.count, TailCopied(pages[s.chunk], s);
    if n == 0 {
      assert pages[c := mid] - {c} == pages[c := right] - {c};
      SliceGone(slots, pages, s, slots', right, width, pages');
    } else {
      var pages2 := pages[c := right][c := pages'[c].(rows := right.rows[..n])];
      UpdatedTwice(pages, c, mid, pages'[c]);
      UpdatedTwice(pages, c, right, pages2[c]);
      SliceGone(slots, pages, s, slots', right, width, pages2);
      PlacedByHandles(slots', pages2, pages', {});
    }
  }

  lemma SliceFreed(slots: Slots, pages: Pages, s: Slice, slots': Slots, mid: Page, width: nat, pages': Pages)
    requires Fits(pages, s) && |pages[s.chunk].rows| == |pages[s.chunk].ents|
    requires Placed(slots, pages, RowsOf(s)) && Refilled(slots, |pages[s.chunk].ents|, s, slots')
    requires mid == TailMoved(pages[s.chunk], s)
    requires var n := |pages[s.chunk].ents| - s.count;
      if n == 0 then pages' == pages[s.chunk := mid] - {s.chunk}
      else s.chunk in pages' && pages' == pages[s.chunk := mid][s.chunk := pages'[s.chunk]]
           && FitTo(mid, n, width, pages'[s.chunk])
    ensures Placed(slots', pages', {})
    ensures (TailReached(|pages[s.chunk].ents|, s) ==> Untouched(slots, pages, slots', pages', {}))
  {
    if TailReached(|pages[s.chunk].ents|, s) {
      TailReachedCopies(pages[s.chunk].rows, s);
      SliceGone(slots, pages, s, slots', mid, width, pages');
    } else {
      SliceGoneAnyway(slots, pages, s, slots', mid, width, pages');
    }
  }

  lemma UpdatedTwice(pages: Pages, c: nat, p: Page, q: Page)
    ensures pages[c := p][c := q] == pages[c := q]
  {
  }

  lemma PartInPages(pages: Pages, s: Slice, k: nat)
    requires Fits(pages, s) && k <= s.count
    ensures forall p :: p in RowsOf(s.(count := k)) ==> InPages(pages, p)
  {
  }

  lemma RowsNotOccupied(pages: Pages, s: Slice)
    requires s.chunk in pages ==> s.start >= |pages[s.chunk].ents|
    ensures forall p :: p in RowsOf(s) ==> !InPages(pages, p)
  {
  }

  /** The entities es are in archetype g now with component rows rs; nobody else has changed. */
  ghost predicate IsGiven(was: Slots, wasPages: Pages, es: seq<Entity>, g: nat, rs: seq<Row>, now: Slots,
                          nowPages: Pages) {
    && Untouched(was, wasPages, now, nowPages, IdSet(IdsOf(es)))
    && Hold(now, nowPages, es, g, rs)
  }

  /** The place of row number i of these slices, taken in order. */
  function Spot(slices: seq<Slice>, i: nat): Place {
    if slices == [] then Place(0, 0) else
    var front, s := slices[..|slices| - 1], slices[|slices| - 1];
    if i < Total(front) then Spot(front, i) else Place(s.chunk, s.start + (i - Total(front)))
  }

  /** The entities es lie in these slices, in order. */
  ghost predicate Lies(slots: Slots, es: seq<Entity>, slices: seq<Slice>) {
    && |es| == Total(slices)
    && forall i {:trigger es[i]} :: 0 <= i < |es| ==> es[i].id < |slots| && slots[es[i].id].loc == At(Spot(slices, i))
  }

  ghost predicate LieIn(slots: Slots, es: seq<Entity>, s: Slice) {
    |es| == s.count && forall j :: 0 <= j < |es| ==>
      es[j].id < |slots| && slots[es[j].id].loc == At(Place(s.chunk, s.start + j))
  }

  lemma LiesMore(slots: Slots, slots': Slots, es1: seq<Entity>, es2: seq<Entity>, es: seq<Entity>, slices: seq<Slice>,
                 s: Slice)
    requires Lies(slots, es1, slices) && LieIn(slots', es2, s) && es == es1 + es2
    requires forall i :: 0 <= i < |es1| && es1[i].id < |slots| ==>
               es1[i].id < |slots'| && slots'[es1[i].id].loc == slots[es1[i].id].loc
    ensures Lies(slots', es, slices + [s])
  {
    assert (slices + [s])[..|slices|] == slices;
    forall i | 0 <= i < |es| ensures es[i].id < |slots'| && slots'[es[i].id].loc == At(Spot(slices + [s], i)) {
      if i < |es1| {
        assert es[i] == es1[i];
      } else {
        assert es[i] == es2[i - |es1|];
      }
    }
  }

  /** Slices with rows in them, none of them in chunk c. */
  ghost predicate Elsewhere(slices: seq<Slice>, c: nat) {
    forall i :: 0 <= i < |slices| ==> slices[i].chunk != c && slices[i].count > 0
  }

  lemma ElsewhereMore(slices: seq<Slice>, s: Slice, c: nat)
    requires Elsewhere(slices, c) && s.chunk != c && s.count > 0
    ensures Elsewhere(slices + [s], c)
  {
  }

  lemma {:induction false} SpotElsewhere(slices: seq<Slice>, c: nat, i: nat)
    requires Elsewhere(slices, c) && i < Total(slices)
    ensures Spot(slices, i).chunk != c
  {
    if i < Total(slices[..|slices| - 1]) {
      SpotElsewhere(slices[..|slices| - 1], c, i);
    }
  }

  /** Filling a hole in another chunk leaves them where they are. */
  lemma LiesRefilled(slots: Slots, n: nat, hole: Slice, slots': Slots, es: seq<Entity>, slices: seq<Slice>)
    requires hole.start + hole.count <= n && Refilled(slots, n, hole, slots') && Elsewhere(slices, hole.chunk)
    requires Lies(slots, es, slices)
    ensures Lies(slots', es, slices)
  {
    forall i | 0 <= i < |es| ensures es[i].id < |slots'| && slots'[es[i].id].loc == At(Spot(slices, i)) {
      SpotElsewhere(slices, hole.chunk, i);
    }
  }

  /** Newly written rows hold their entities, and the entities before them stay where they are. */
  lemma LiesRelocated(slots: Slots, slots': Slots, es: seq<Entity>, k: nat, n: nat, slices: seq<Slice>, s: Slice)
    requires k + n <= |es| && s.count == n && forall i, j :: 0 <= i < j < |es| ==> es[i].id != es[j].id
    requires Lies(slots, es[..k], slices) && Relocated(slots, IdsOf(es[k..k + n]), s, slots')
    ensures Lies(slots', es[..k + n], slices + [s])
  {
    Split(es, k, n);
    PartsDistinct(es, k, n);
    RelocatedLie(slots, es[k..k + n], s, slots');
    LiesMore(slots, slots', es[..k], es[k..k + n], es[..k + n], slices, s);
  }

  lemma RelocatedLie(slots: Slots, es: seq<Entity>, s: Slice, slots': Slots)
    requires Relocated(slots, IdsOf(es), s, slots')
    ensures LieIn(slots', es, s)
  {
    var ids := IdsOf(es);
    forall j | 0 <= j < |es| ensures es[j].id < |slots'| && slots'[es[j].id].loc == At(Place(s.chunk, s.start + j)) {
      assert ids[j] == es[j].id;
    }
  }

  class World {
    const pending: set<TypeIndex>
    const manualClean: set<TypeIndex>
    const cleanup: TypeIndex
    const mask: TypeIndex
    const sizeOf: seq<TypeIndex> -> nat            // an archetype's entity size,
    const capacityOf: seq<TypeIndex> -> seq<nat>   // and the capacity of its chunks by bin
    const ents: Entities<Place>
    var pages: Pages
    var archs: Archs
    var nextChunk: nat

    /**
     The cleanup tag is neither copied nor cleaned by hand, nor a pending
     copy; every chunk has room for an entity.
     */
    ghost predicate RegistryOk() {
      && PendingOk(pending) && cleanup !in pending && cleanup + 1 !in pending && cleanup !in manualClean
      && forall types {:trigger capacityOf(types)} :: CapacityOk(capacityOf(types))
    }

    ghost predicate Valid(hole: set<Place>)
      reads this, ents
    {
      && RegistryOk() && ents.Valid() && Lists(pending, pages, archs) && Placed(ents.slots, pages, hole)
      && forall c :: c in pages ==> c < nextChunk
    }

    constructor (pending: set<TypeIndex>, manualClean: set<TypeIndex>, cleanup: TypeIndex, mask: TypeIndex,
                 sizeOf: seq<TypeIndex> -> nat, capacityOf: seq<TypeIndex> -> seq<nat>, memory: nat -> nat)
      requires PendingOk(pending) && cleanup !in pending && cleanup + 1 !in pending && cleanup !in manualClean
      requires forall types {:trigger capacityOf(types)} :: CapacityOk(capacityOf(types))
      ensures Valid({}) && fresh(ents) && this.pending == pending && archs == map[] && pages == map[]
    {
      this.pending, this.manualClean, this.cleanup, this.mask := pending, manualClean, cleanup, mask;
      this.sizeOf, this.capacityOf := sizeOf, capacityOf;
      pages, archs, nextChunk := map[], map[], 0;
      ents := new Entities<Place>(memory);
    }

    /** get_archetype: the one with these types, or a new one without chunks. */
    method GetArchetype(types: seq<TypeIndex>) returns (g: nat)
      requires Valid({}) && TypesOk(pending, types)
      modifies this`archs
      ensures Valid({}) && g in archs && archs[g].types == types && SameArchs(old(archs))
      ensures if exists h :: h in old(archs) && old(archs)[h].types == types then archs == old(archs)
              else g !in old(archs) && archs == old(archs)[g := Arch(types, sizeOf(types), capacityOf(types), [], 0)]
    {
      if h :| h in archs && archs[h].types == types {
        return h;
      }
      g := Unused(archs.Keys);
      var a := Arch(types, sizeOf(types), capacityOf(types), [], 0);
      NewArchLists(pending, pages, archs, g, a);
      archs := archs[g := a];
    }

    /** A number that is none of these, as the address of a new object is. */
    method Unused(used: set<nat>) returns (n: nat)
      ensures n !in used
    {
      n := 0;
      var rest := used;
      while rest != {}
        invariant rest <= used && forall u :: u in used ==> u in rest || u < n
        decreases rest
      {
        var u :| u in rest;
        rest := rest - {u};
        if n <= u {
          n := u + 1;
        }
      }
    }

    /** A chunk's rows cut off at `count`, or continued with rows nobody has written yet. */
    function Fitted(p: Page, count: nat, width: nat): (q: Page)
      requires |p.rows| == |p.ents|
      ensures FitTo(p, count, width, q)
    {
      if count <= |p.ents| then p.(ents := p.ents[..count], rows := p.rows[..count])
      else p.(ents := p.ents + seq(count - |p.ents|, _ => Entity(0, 0)),
              rows := p.rows + seq(count - |p.ents|, _ => seq(width, _ => Zeroed)))
    }

    /** resize_chunk: an emptied chunk is gone, and an archetype with its last chunk. */
    method ResizeChunk(c: nat, count: nat)
      requires Lists(pending, pages, archs) && c in pages && count <= pages[c].room
      modifies this`pages, this`archs
      ensures Lists(pending, pages, archs)
      ensures count == 0 ==> pages == old(pages) - {c}
      ensures old(pages[c].arch) in old(archs)
      ensures count > 0 ==> c in pages && pages == old(pages)[c := pages[c]]
                            && FitTo(old(pages[c]), count, FirstTag(old(archs)[old(pages[c].arch)].types), pages[c])
      ensures IsResized(old(pages), old(archs), c, count)
      ensures SameArchs(if count > 0 then old(archs) else old(archs) - {old(pages[c].arch)})
    {
      var p := pages[c];
      assert PageOk(archs, c, p) && ArchOk(pending, pages, p.arch, archs[p.arch]);
      var i := IndexOf(archs[p.arch].chunks, c);
      var q := Fitted(p, count, FirstTag(archs[p.arch].types));
      ResizedLists(pending, pages, archs, c, count, q, i);
      ResizedFrom(archs[p.arch].chunks, archs[p.arch].full, i, count, p.room);
      archs := ResizedArchs(archs, p.arch, i, count, p.room);
      pages := if count == 0 then pages - {c} else pages[c := q];
    }

    /** new_chunk: an empty chunk at the end of the list. */
    method NewChunk(g: nat, hint: nat) returns (c: nat)
      requires Lists(pending, pages, archs) && g in archs && archs[g].full == |archs[g].chunks|
      requires forall d :: d in pages ==> d < nextChunk
      modifies this`pages, this`archs, this`nextChunk
      ensures Lists(pending, pages, archs) && forall d :: d in pages ==> d < nextChunk
      ensures c !in old(pages) && c in pages && pages == old(pages)[c := pages[c]]
      ensures pages[c].arch == g && pages[c].ents == [] && pages[c].rows == []
      ensures ChunkFor(old(pages), old(archs)[g], hint, c, pages[c].room)
      ensures archs == old(archs)[g := old(archs)[g].(chunks := old(archs)[g].chunks + [c])]
    {
      var a := archs[g];
      assert ArchOk(pending, pages, g, a);
      c := nextChunk;
      var p := Page(g, a.capacity[Chunks.BinFor(a.entitySize, hint, |a.chunks|)], [], []);
      AddedLists(pending, pages, archs, g, c, p);
      pages, archs, nextChunk := pages[c := p], archs[g := a.(chunks := a.chunks + [c])], nextChunk + 1;
    }

    /**
     allocate_slice: rows at the end of the first chunk with room, or of a new one; at least one row, and
     as many as that chunk can give.
     */
    method AllocateSlice(g: nat, count: nat, ghost hole: set<Place>) returns (s: Slice)
      requires Valid(hole) && g in archs && count > 0 && forall p :: p in hole ==> InPages(pages, p)
      modifies this`pages, this`archs, this`nextChunk
      ensures Valid(RowsOf(s) + hole) && RowsOf(s) !! hole
      ensures 0 < s.count <= count && Fits(pages, s) && s.start + s.count == |pages[s.chunk].ents|
      ensures s.count < count ==> |pages[s.chunk].ents| == pages[s.chunk].room
      ensures pages[s.chunk].arch == g
      ensures if s.chunk in old(pages) then old(pages)[s.chunk].arch == g && |old(pages)[s.chunk].ents| == s.start
              else s.start == 0
      ensures pages == old(pages)[s.chunk := pages[s.chunk]]
      ensures ChunkFor(old(pages), old(archs)[g], count, s.chunk, pages[s.chunk].room)
      ensures Opened(old(pages), pages, s, count)
      ensures Untouched(ents.slots, old(pages), ents.slots, pages, {})
      ensures SameArchs(old(archs))
    {
      s := TakeRows(g, count);
      GrownPlaced(ents.slots, old(pages), hole, s, pages[s.chunk]);
      RowsNotOccupied(old(pages), s);
    }

    method TakeRows(g: nat, count: nat) returns (s: Slice)
      requires Lists(pending, pages, archs) && g in archs && count > 0 && forall d :: d in pages ==> d < nextChunk
      modifies this`pages, this`archs, this`nextChunk
      ensures Lists(pending, pages, archs) && forall d :: d in pages ==> d < nextChunk
      ensures Fits(pages, s) && pages[s.chunk].arch == g && pages == old(pages)[s.chunk := pages[s.chunk]]
      ensures 0 < s.count <= count && (s.count < count ==> |pages[s.chunk].ents| == pages[s.chunk].room)
      ensures |pages[s.chunk].ents| == |pages[s.chunk].rows| == s.start + s.count
      ensures if s.chunk in old(pages) then
          var p := old(pages)[s.chunk];
          && p.arch == g && |p.ents| == |p.rows| == s.start
          && forall r :: 0 <= r < s.start ==> pages[s.chunk].ents[r] == p.ents[r] && pages[s.chunk].rows[r] == p.rows[r]
        else s.start == 0
      ensures ChunkFor(old(pages), old(archs)[g], count, s.chunk, pages[s.chunk].room)
      ensures Opened(old(pages), pages, s, count)
      ensures SameArchs(old(archs))
    {
      var c := FirstFree(g, count);
      var start := |pages[c].ents|;
      ghost var mid := pages[c];
      s := Slice(c, start, if count < pages[c].room - start then count else pages[c].room - start);
      ResizeChunk(c, start + s.count);
      UpdatedTwice(old(pages), c, mid, pages[c]);
    }

    /** The archetype's first chunk with room, opened if there is none. */
    method FirstFree(g: nat, hint: nat) returns (c: nat)
      requires Lists(pending, pages, archs) && g in archs && forall d :: d in pages ==> d < nextChunk
      modifies this`pages, this`archs, this`nextChunk
      ensures Lists(pending, pages, archs) && forall d :: d in pages ==> d < nextChunk
      ensures c in pages && pages[c].arch == g && |pages[c].ents| == |pages[c].rows| < pages[c].room
      ensures pages == old(pages)[c := pages[c]]
      ensures (if c in old(pages) then pages[c] == old(pages)[c] else pages[c].ents == [])
      ensures ChunkFor(old(pages), old(archs)[g], hint, c, pages[c].room)
      ensures SameArchs(old(archs))
    {
      var a := archs[g];
      assert ArchOk(pending, pages, g, a);
      if a.full == |a.chunks| {
        c := NewChunk(g, hint);
      } else {
        c := a.chunks[a.full];
      }
      assert PageOk(archs, c, pages[c]);
    }

    /** The archetype's chunk list was resized as Chunks.Resized says; one that lost its last chunk is gone. */
    ghost predicate IsResized(was: Pages, wasArchs: Archs, c: nat, count: nat)
      requires Lists(pending, was, wasArchs) && c in was
      reads this`archs
    {
      var p := was[c];
      assert PageOk(wasArchs, c, p);
      archs == ResizedArchs(wasArchs, p.arch, IndexOf(wasArchs[p.arch].chunks, c), count, p.room)
    }

    /** The archetypes are still there, with the same types. */
    ghost predicate SameArchs(was: Archs)
      reads this`archs
    {
      forall g :: g in was ==> g in archs && archs[g].types == was[g].types
    }

    /**
     free_slice, for rows whose entities are gone from them: the chunk's last rows move into the hole and
     the chunk shrinks.  Every entity elsewhere is as it was, if the moved tail begins below row 65536; in any
     case rows and records agree.
     */
    method FreeSlice(s: Slice)
      requires Valid(RowsOf(s)) && Fits(pages, s)
      modifies this`pages, this`archs, ents`slots
      ensures Valid({}) && |ents.slots| == old(|ents.slots|) && ents.free == old(ents.free)
      ensures TailReached(|old(pages)[s.chunk].ents|, s) ==>
                Untouched(old(ents.slots), old(pages), ents.slots, pages, {})
      ensures Refilled(old(ents.slots), |old(pages)[s.chunk].ents|, s, ents.slots)
      ensures SameArchs(old(archs) - {old(pages[s.chunk].arch)})
      ensures forall c :: c in old(pages) && c != s.chunk ==> c in pages && pages[c] == old(pages)[c]
    {
      assert PageOk(archs, s.chunk, pages[s.chunk]);
      MoveTail(s);
      ghost var mid := pages[s.chunk];
      ResizeChunk(s.chunk, |pages[s.chunk].ents| - s.count);
      SliceFreed(old(ents.slots), old(pages), s, ents.slots, mid, FirstTag(old(archs)[mid.arch].types), pages);
    }

    /** chunk::move and fill_entities: the tail is copied over the hole and its records follow. */
    method MoveTail(s: Slice)
      requires ents.Valid() && Placed(ents.slots, pages, RowsOf(s)) && Lists(pending, pages, archs)
      requires Fits(pages, s) && |pages[s.chunk].rows| == |pages[s.chunk].ents|
      modifies this`pages, ents`slots
      ensures ents.Valid() && ents.free == old(ents.free)
      ensures Refilled(old(ents.slots), |old(pages)[s.chunk].ents|, s, ents.slots)
      ensures Lists(pending, pages, archs) && pages == old(pages)[s.chunk := TailMoved(old(pages)[s.chunk], s)]
    {
      MoveKeepsLists(pending, pages, archs, s);
      var q := pages[s.chunk];
      if Tail(|q.ents|, s) > 0 {
        q := MoveSome(s);
      } else {
        NothingCopied(q, s);
        NothingRefilled(ents.slots, |q.ents|, s);
      }
      pages := pages[s.chunk := q];
    }

    method MoveSome(s: Slice) returns (q: Page)
      requires ents.Valid() && Placed(ents.slots, pages, RowsOf(s)) && Fits(pages, s)
      requires |pages[s.chunk].rows| == |pages[s.chunk].ents|
      modifies ents`slots
      ensures ents.Valid() && ents.free == old(ents.free)
      ensures Refilled(old(ents.slots), |pages[s.chunk].ents|, s, ents.slots)
      ensures q == TailMoved(pages[s.chunk], s)
    {
      q := pages[s.chunk];
      var n := |q.ents|;
      var m := Tail(n, s);
      var moved := q.ents[n - m..];
      q := q.(rows := CopyWithin(q.rows, s.start, Narrow(n - m), m));
      FillRecords(s, moved, pages);
      q := q.(ents := CopyWithin(q.ents, s.start, n - m, m));
      assert q == TailMoved(pages[s.chunk], s);
    }

    method FillRecords(s: Slice, moved: seq<Entity>, ghost was: Pages)
      requires ents.Valid() && Placed(ents.slots, was, RowsOf(s)) && Fits(was, s)
      requires moved == was[s.chunk].ents[|was[s.chunk].ents| - Tail(|was[s.chunk].ents|, s)..]
      modifies ents`slots
      ensures ents.Valid()
      ensures Refilled(old(ents.slots), |was[s.chunk].ents|, s, ents.slots)
    {
      var ids := IdsOf(moved);
      MovedStored(ents.slots, was, s, moved);
      RelocateTo(ids, Slice(s.chunk, s.start, |ids|));
      MovedRefill(old(ents.slots), was, s, moved, ents.slots);
    }

    lemma MovedStored(slots: Slots, was: Pages, s: Slice, moved: seq<Entity>)
      requires Fits(was, s) && Placed(slots, was, RowsOf(s))
      requires moved == was[s.chunk].ents[|was[s.chunk].ents| - Tail(|was[s.chunk].ents|, s)..]
      ensures var ids := IdsOf(moved);
        |ids| == |moved| && Handles.Distinct(ids) && forall i :: 0 <= i < |ids| ==> Live(slots, ids[i])
    {
      ToTheEnd(was[s.chunk].ents, |was[s.chunk].ents| - |moved|);
      TailStored(slots, was, s);
    }

    lemma MovedRefill(slots: Slots, was: Pages, s: Slice, moved: seq<Entity>, slots': Slots)
      requires Fits(was, s) && Placed(slots, was, RowsOf(s))
      requires moved == was[s.chunk].ents[|was[s.chunk].ents| - Tail(|was[s.chunk].ents|, s)..]
      requires Relocated(slots, IdsOf(moved), Slice(s.chunk, s.start, |moved|), slots')
      ensures Refilled(slots, |was[s.chunk].ents|, s, slots')
    {
      ToTheEnd(was[s.chunk].ents, |was[s.chunk].ents| - |moved|);
      TailStored(slots, was, s);
      RefillRelocates(slots, |was[s.chunk].ents|, s, IdsOf(moved), slots');
    }

    method RelocateTo(ids: seq<nat>, s: Slice)
      requires ents.Valid() && Handles.Distinct(ids) && |ids| == s.count
      requires forall i :: 0 <= i < |ids| ==> Live(ents.slots, ids[i])
      modifies ents`slots
      ensures ents.Valid() && Relocated(old(ents.slots), ids, s, ents.slots)
    {
      ChainedIsDead(ents.View(), ents.chain, ids);
      PlaceAllRelocates(ents.slots, ents.free, ids, s);
      ents.Relocate(ids, PlacesOf(s));
      assert ents.slots == PlaceAll(Table(old(ents.slots), ents.free), ids, PlacesOf(s)).slots;
    }

    predicate PartReached(s: Slice, parts: seq<Slice>, i: nat)
      requires i <= |parts|
    {
      s.start + Total(parts[..i]) < MAX_ROOM
    }

    /** Each part of the slice is cast from a row that 16 bits can reach. */
    ghost predicate PartsReached(s: Slice, parts: seq<Slice>) {
      forall i: nat {:trigger PartReached(s, parts, i)} :: i < |parts| ==> PartReached(s, parts, i)
    }

    lemma PartsReachedMore(s: Slice, parts: seq<Slice>, p: Slice)
      ensures PartsReached(s, parts + [p]) ==> PartsReached(s, parts) && s.start + Total(parts) < MAX_ROOM
    {
      if PartsReached(s, parts + [p]) {
        assert (parts + [p])[..|parts|] == parts && PartReached(s, parts + [p], |parts|);
        forall i: nat | i < |parts| ensures PartReached(s, parts, i) {
          assert (parts + [p])[..i] == parts[..i] && PartReached(s, parts + [p], i);
        }
      }
    }

    /** With all its rows below 65536, a slice is reached however it is cut. */
    predicate RowsReached(s: Slice) {
      s.start + s.count <= MAX_ROOM
    }

    lemma {:induction false} TotalUpTo(parts: seq<Slice>, i: nat)
      requires i < |parts| && forall k :: 0 <= k < |parts| ==> parts[k].count > 0
      ensures Total(parts[..i]) < Total(parts)
      decreases |parts|
    {
      if i < |parts| - 1 {
        TotalUpTo(parts[..|parts| - 1], i);
        assert parts[..|parts| - 1][..i] == parts[..i];
      }
    }

    lemma RowsReachParts(s: Slice, parts: seq<Slice>)
      requires RowsReached(s) && Total(parts) == s.count && forall k :: 0 <= k < |parts| ==> parts[k].count > 0
      ensures PartsReached(s, parts)
    {
      forall i: nat | i < |parts| ensures PartReached(s, parts, i) {
        TotalUpTo(parts, i);
      }
    }

    /** One round of cast_slice: the next rows move to a new slice of archetype g. */
    method CastPart(src: Slice, k: nat, g: nat) returns (s: Slice, ghost es: seq<Entity>, ghost rs: seq<Row>)
      requires k < src.count && Valid(RowsOf(src.(count := k))) && Fits(pages, src)
      requires g in archs && pages[src.chunk].arch in archs && g != pages[src.chunk].arch
      modifies this`pages, this`archs, this`nextChunk, ents`slots
      ensures 0 < s.count <= src.count - k && Valid(RowsOf(src.(count := k + s.count)))
      ensures src.chunk in pages && pages[src.chunk] == old(pages)[src.chunk] && SameArchs(old(archs))
      ensures var p := Slice(src.chunk, src.start + k, s.count);
        Valued(old(pages), old(archs), p) && es == EntsOf(old(pages), p)
        && (src.start + k < MAX_ROOM ==> rs == CastOf(old(pages), old(archs), p, g))
      ensures IsGiven(old(ents.slots), old(pages), es, g, rs, ents.slots, pages)
      ensures Relocated(old(ents.slots), IdsOf(es), s, ents.slots) && s.chunk != src.chunk
      ensures Opened(old(pages), pages, s, src.count - k)
    {
      PartInPages(pages, src, k);
      s := AllocateSlice(g, src.count - k, RowsOf(src.(count := k)));
      ghost var mid := pages;
      assert PageOk(old(archs), src.chunk, old(pages)[src.chunk]);
      CastOfSame(old(pages), old(archs), pages, archs, Slice(src.chunk, src.start + k, s.count), g);
      es, rs := MoveRows(s, src, k, g);
      UntouchedThen(old(ents.slots), old(pages), old(ents.slots), mid, ents.slots, pages, {}, IdSet(IdsOf(es)));
    }

    lemma CastOfSame(was: Pages, wasArchs: Archs, now: Pages, nowArchs: Archs, s: Slice, g: nat)
      requires Valued(was, wasArchs, s) && s.chunk in now && now[s.chunk] == was[s.chunk] && g in wasArchs
      requires forall g :: g in wasArchs ==> g in nowArchs && nowArchs[g].types == wasArchs[g].types
      ensures Valued(now, nowArchs, s) && CastOf(now, nowArchs, s, g) == CastOf(was, wasArchs, s, g)
      ensures EntsOf(now, s) == EntsOf(was, s)
    {
    }

    /** chunk::cast and move_entities: rows k.. of src go to the fresh slice s, and their records follow. */
    method MoveRows(s: Slice, src: Slice, k: nat, g: nat) returns (ghost es: seq<Entity>, ghost rs: seq<Row>)
      requires Valid(RowsOf(s) + RowsOf(src.(count := k))) && RowsOf(s) !! RowsOf(src.(count := k))
      requires 0 < s.count <= src.count - k && Fits(pages, src) && Fits(pages, s) && src.chunk != s.chunk
      requires Valued(pages, archs, Slice(src.chunk, src.start + k, s.count)) && g in archs && g == pages[s.chunk].arch
      modifies this`pages, ents`slots
      ensures Valid(RowsOf(src.(count := k + s.count)))
      ensures src.chunk in pages && pages[src.chunk] == old(pages)[src.chunk]
      ensures var p := Slice(src.chunk, src.start + k, s.count);
        es == EntsOf(old(pages), p)
        && (src.start + k < MAX_ROOM ==> rs == CastOf(old(pages), old(archs), p, g))
      ensures IsGiven(old(ents.slots), old(pages), es, g, rs, ents.slots, pages)
      ensures Relocated(old(ents.slots), IdsOf(es), s, ents.slots) && s.chunk != src.chunk
      ensures s.chunk in pages && pages == old(pages)[s.chunk := pages[s.chunk]]
      ensures |pages[s.chunk].ents| == old(|pages[s.chunk].ents|) && pages[s.chunk].room == old(pages[s.chunk].room)
    {
      assert PageOk(archs, s.chunk, pages[s.chunk]) && PageOk(archs, src.chunk, pages[src.chunk]);
      var moved, rows := CastPiece(src, k, s.count, g);
      es, rs := moved, rows;
      var q := Overwrite(pages[s.chunk], s, moved, rows);
      OverwriteKeepsLists(pending, pages, archs, s, es, rs);
      SliceStored(ents.slots, pages, RowsOf(s) + RowsOf(src.(count := k)), Slice(src.chunk, src.start + k, s.count));
      RelocateTo(IdsOf(moved), s);
      MovedPlaced(old(ents.slots), old(pages), s, src, k, es, rs, q, ents.slots);
      pages := pages[s.chunk := q];
    }

    /** Rows k.. of src: their handles and their components, cast from the row number in 16 bits. */
    method CastPiece(src: Slice, k: nat, n: nat, g: nat) returns (es: seq<Entity>, rs: seq<Row>)
      requires k + n <= src.count && Fits(pages, src) && Valued(pages, archs, Slice(src.chunk, src.start + k, n))
      requires g in archs
      ensures es == EntsOf(pages, Slice(src.chunk, src.start + k, n)) && |rs| == n
      ensures forall i :: 0 <= i < n ==> |rs[i]| == FirstTag(archs[g].types)
      ensures rs == CastOf(pages, archs, Slice(src.chunk, Narrow(src.start + k), n), g)
      ensures src.start + k < MAX_ROOM ==> rs == CastOf(pages, archs, Slice(src.chunk, src.start + k, n), g)
    {
      var part := Slice(src.chunk, src.start + k, n);
      es := EntsOf(pages, part);
      rs := CastOf(pages, archs, part.(start := Narrow(src.start + k)), g);
    }

    ghost predicate Valued(pages: Pages, archs: Archs, s: Slice) {
      Fits(pages, s) && pages[s.chunk].arch in archs && |pages[s.chunk].rows| == |pages[s.chunk].ents|
      && forall r :: 0 <= r < |pages[s.chunk].rows| ==>
           |pages[s.chunk].rows[r]| == FirstTag(archs[pages[s.chunk].arch].types)
    }

    /** The slice's component rows as rows of archetype g. */
    function CastOf(pages: Pages, archs: Archs, s: Slice, g: nat): seq<Row>
      requires Valued(pages, archs, s) && g in archs
    {
      var p := pages[s.chunk];
      CastRows(pending, archs[p.arch].types, archs[g].types, p.rows[s.start..s.start + s.count])
    }

    /**
     cast_slice: every entity of the slice moves to archetype g, and if each part that is cast and the tail
     begin below row 65536, with its components cast and no other entity changed.
     */
    method CastSlice(src: Slice, g: nat) returns (result: seq<Slice>)
      requires Valid({}) && Fits(pages, src) && g in archs && g != pages[src.chunk].arch
      modifies this`pages, this`archs, this`nextChunk, ents`slots
      ensures Valid({}) && |ents.slots| == old(|ents.slots|) && Total(result) == src.count
      ensures SameArchs(old(archs) - {old(pages[src.chunk].arch)})
      ensures Valued(old(pages), old(archs), src)
      ensures (forall i :: 0 <= i < |result| ==> result[i].count > 0) && Packed(pages, result)
      ensures PartsReached(src, result) && TailReached(|old(pages)[src.chunk].ents|, src) ==>
        IsGiven(old(ents.slots), old(pages), EntsOf(old(pages), src), g, CastOf(old(pages), old(archs), src, g),
                ents.slots, pages)
      ensures Lies(ents.slots, EntsOf(old(pages), src), result)
    {
      assert PageOk(archs, src.chunk, pages[src.chunk]);
      ghost var es, rs := EntsOf(pages, src), [];
      result, rs := MoveSlice(src, g, es);
      ghost var slots1, pages1 := ents.slots, pages;
      FreeSlice(src);
      if PartsReached(src, result) && TailReached(|old(pages)[src.chunk].ents|, src) {
        UntouchedThen(old(ents.slots), old(pages), slots1, pages1, ents.slots, pages, IdSet(IdsOf(es)), {});
        StillHold(slots1, pages1, ents.slots, pages, es, g, rs, {});
      }
      LiesRefilled(slots1, |pages1[src.chunk].ents|, src, ents.slots, es, result);
      PackedElsewhere(pages1, pages, result, src.chunk);
    }

    /** The loop of cast_slice: afterwards the source rows are a hole. */
    method MoveSlice(src: Slice, g: nat, ghost es: seq<Entity>) returns (result: seq<Slice>, ghost rs: seq<Row>)
      requires Valid({}) && Fits(pages, src) && g in archs && g != pages[src.chunk].arch
      requires Valued(pages, archs, src) && es == EntsOf(pages, src)
      modifies this`pages, this`archs, this`nextChunk, ents`slots
      ensures Valid(RowsOf(src)) && |ents.slots| == old(|ents.slots|) && Total(result) == src.count
      ensures src.chunk in pages && pages[src.chunk] == old(pages)[src.chunk] && SameArchs(old(archs))
      ensures IsGiven(old(ents.slots), old(pages), es, g, rs, ents.slots, pages)
      ensures PartsReached(src, result) ==> rs == CastOf(old(pages), old(archs), src, g)
      ensures Lies(ents.slots, es, result) && Elsewhere(result, src.chunk) && Packed(pages, result)
    {
      result, rs := [], [];
      var k := 0;
      NothingGiven(ents.slots, pages, g, src);
      SliceStored(ents.slots, pages, {}, src);
      DistinctEntities(es);
      while k < src.count
        invariant k <= src.count && Total(result) == k && |ents.slots| == old(|ents.slots|)
        invariant ReadSoFar(src, k, g, rs, result, old(pages), old(archs))
        invariant Packed(pages, result) && (k < src.count ==> AllFull(pages, result))
        invariant Midway(src, k, g, es, rs, result, old(ents.slots), old(pages), old(archs))
      {
        result, k, rs := MoveRound(src, k, g, es, rs, result, old(ents.slots), old(pages), old(archs));
      }
      assert src.(count := k) == src && es[..k] == es;
    }

    /** What was written for the first k entities, if their parts are reached, is their cast components. */
    ghost predicate ReadSoFar(src: Slice, k: nat, g: nat, rs: seq<Row>, slices: seq<Slice>, was: Pages, wasArchs: Archs)
      requires Valued(was, wasArchs, src) && g in wasArchs && k <= src.count
    {
      PartsReached(src, slices) ==> rs == CastOf(was, wasArchs, src, g)[..k]
    }

    /** The first k entities of src have moved to these slices, and their rows in src are a hole. */
    ghost predicate Midway(src: Slice, k: nat, g: nat, es: seq<Entity>, rs: seq<Row>, slices: seq<Slice>,
                           was: Slots, wasPages: Pages, wasArchs: Archs)
      requires Valued(wasPages, wasArchs, src) && g in wasArchs
      reads this, ents
    {
      && k <= |es| && |rs| == k <= src.count && Valid(RowsOf(src.(count := k)))
      && src.chunk in pages && pages[src.chunk] == wasPages[src.chunk] && SameArchs(wasArchs)
      && IsGiven(was, wasPages, es[..k], g, rs, ents.slots, pages)
      && Lies(ents.slots, es[..k], slices) && Elsewhere(slices, src.chunk)
    }

    /** One round of that loop; `was` is what it started from. */
    method MoveRound(src: Slice, k: nat, g: nat, ghost es: seq<Entity>, ghost rs: seq<Row>, slices: seq<Slice>,
                     ghost was: Slots, ghost wasPages: Pages, ghost wasArchs: Archs)
      returns (slices': seq<Slice>, k': nat, ghost rs': seq<Row>)
      requires Valued(wasPages, wasArchs, src) && g in wasArchs && g != wasPages[src.chunk].arch
      requires Midway(src, k, g, es, rs, slices, was, wasPages, wasArchs) && k < src.count && g in archs
      requires Total(slices) == k
      requires ReadSoFar(src, k, g, rs, slices, wasPages, wasArchs) && AllFull(pages, slices)
      requires es == EntsOf(wasPages, src) && forall i, j :: 0 <= i < j < |es| ==> es[i].id != es[j].id
      modifies this`pages, this`archs, this`nextChunk, ents`slots
      ensures k < k' <= src.count && |ents.slots| == old(|ents.slots|) && Total(slices') == k'
      ensures ReadSoFar(src, k', g, rs', slices', wasPages, wasArchs)
      ensures Packed(pages, slices') && (k' < src.count ==> AllFull(pages, slices'))
      ensures Midway(src, k', g, es, rs', slices', was, wasPages, wasArchs)
    {
      ghost var slots1, pages1, archs1 := ents.slots, pages, archs;
      ghost var es2, rs2;
      var s;
      s, es2, rs2 := CastPart(src, k, g);
      slices', k', rs' := slices + [s], k + s.count, rs + rs2;
      PackMore(pages1, pages, slices, s, src.count - k);
      TotalMore(slices, s);
      RoundGiven(was, wasPages, wasArchs, slots1, pages1, archs1, ents.slots, pages, src, k, g, es, rs, es2, rs2,
                 slices, s, k', rs');
      RoundCast(wasPages, wasArchs, pages1, archs1, src, k, s, g, slices, rs, rs2);
      ElsewhereMore(slices, s, src.chunk);
    }

    lemma RoundGiven(was: Slots, wasPages: Pages, wasArchs: Archs, slots1: Slots, pages1: Pages, archs1: Archs,
                     now: Slots, nowPages: Pages, src: Slice, k: nat, g: nat, es: seq<Entity>, rs: seq<Row>,
                     es2: seq<Entity>, rs2: seq<Row>, slices: seq<Slice>, s: Slice, k': nat, rs': seq<Row>)
      requires k' == k + s.count && rs' == rs + rs2
      requires Valued(wasPages, wasArchs, src) && g in wasArchs && k + s.count <= src.count
      requires src.chunk in pages1 && pages1[src.chunk] == wasPages[src.chunk]
      requires forall h :: h in wasArchs ==> h in archs1 && archs1[h].types == wasArchs[h].types
      requires es == EntsOf(wasPages, src) && |rs| == k
      requires forall i, j :: 0 <= i < j < |es| ==> es[i].id != es[j].id
      requires var p := Slice(src.chunk, src.start + k, s.count); Valued(pages1, archs1, p) && es2 == EntsOf(pages1, p)
      requires IsGiven(was, wasPages, es[..k], g, rs, slots1, pages1) && Lies(slots1, es[..k], slices)
      requires IsGiven(slots1, pages1, es2, g, rs2, now, nowPages) && Relocated(slots1, IdsOf(es2), s, now)
      ensures IsGiven(was, wasPages, es[..k'], g, rs', now, nowPages)
      ensures Lies(now, es[..k'], slices + [s])
    {
      CastOfPart(wasPages, wasArchs, pages1, archs1, src, k, s.count, g);
      NextPartGiven(was, wasPages, slots1, pages1, now, nowPages, es, rs, rs2, k, s.count, g);
      LiesRelocated(slots1, now, es, k, s.count, slices, s);
    }

    lemma RoundCast(was: Pages, wasArchs: Archs, now: Pages, nowArchs: Archs, src: Slice, k: nat, s: Slice, g: nat,
                    slices: seq<Slice>, rs: seq<Row>, rs2: seq<Row>)
      requires Valued(was, wasArchs, src) && k + s.count <= src.count && g in wasArchs
      requires src.chunk in now && now[src.chunk] == was[src.chunk]
      requires forall h :: h in wasArchs ==> h in nowArchs && nowArchs[h].types == wasArchs[h].types
      requires Total(slices) == k && ReadSoFar(src, k, g, rs, slices, was, wasArchs)
      requires var p := Slice(src.chunk, src.start + k, s.count);
        Valued(now, nowArchs, p) && (src.start + k < MAX_ROOM ==> rs2 == CastOf(now, nowArchs, p, g))
      ensures ReadSoFar(src, k + s.count, g, rs + rs2, slices + [s], was, wasArchs)
    {
      PartsReachedMore(src, slices, s);
      CastOfPart(was, wasArchs, now, nowArchs, src, k, s.count, g);
      Split(CastOf(was, wasArchs, src, g), k, s.count);
    }

    lemma NothingGiven(slots: Slots, pages: Pages, g: nat, src: Slice)
      ensures RowsOf(src.(count := 0)) == {} && IsGiven(slots, pages, [], g, [], slots, pages)
    {
    }

    lemma CastOfPart(was: Pages, wasArchs: Archs, now: Pages, nowArchs: Archs, src: Slice, k: nat, n: nat, g: nat)
      requires Valued(was, wasArchs, src) && k + n <= src.count && g in wasArchs
      requires src.chunk in now && now[src.chunk] == was[src.chunk]
      requires forall h :: h in wasArchs ==> h in nowArchs && nowArchs[h].types == wasArchs[h].types
      ensures var p := Slice(src.chunk, src.start + k, n);
        && Valued(now, nowArchs, p)
        && EntsOf(now, p) == EntsOf(was, src)[k..k + n]
        && CastOf(now, nowArchs, p, g) == CastOf(was, wasArchs, src, g)[k..k + n]
    {
      Part(was[src.chunk].ents, src.start, src.count, k, n);
      Part(was[src.chunk].rows, src.start, src.count, k, n);
      CastRowsPart(wasArchs[was[src.chunk].arch].types, wasArchs[g].types,
                   was[src.chunk].rows[src.start..src.start + src.count], k, n);
    }

    lemma CastRowsPart(src: seq<TypeIndex>, dst: seq<TypeIndex>, rs: seq<Row>, k: nat, n: nat)
      requires k + n <= |rs| && forall i :: 0 <= i < |rs| ==> |rs[i]| == FirstTag(src)
      ensures CastRows(pending, src, dst, rs[k..k + n]) == CastRows(pending, src, dst, rs)[k..k + n]
    {
    }

    /** Writes new entities with these component rows into a slice nobody lives in yet. */
    method Populate(s: Slice, rs: seq<Row>) returns (made: seq<Entity>)
      requires Valid(RowsOf(s)) && Fits(pages, s) && |rs| == s.count && |ents.slots| + s.count <= MAX_IDS
      requires pages[s.chunk].arch in archs
      requires forall i :: 0 <= i < |rs| ==> |rs[i]| == FirstTag(archs[pages[s.chunk].arch].types)
      modifies this`pages, ents
      ensures Valid({}) && |made| == s.count && |ents.slots| <= old(|ents.slots|) + s.count
      ensures LieIn(ents.slots, made, s) && LiveStay(old(ents.slots), ents.slots)
      ensures s.chunk in pages && pages == old(pages)[s.chunk := pages[s.chunk]]
      ensures pages[s.chunk].arch == old(pages)[s.chunk].arch
      ensures |pages[s.chunk].ents| == old(|pages[s.chunk].ents|) && pages[s.chunk].room == old(pages[s.chunk].room)
      ensures IsGiven(old(ents.slots), old(pages), made, pages[s.chunk].arch, rs, ents.slots, pages)
      ensures forall i :: 0 <= i < |made| ==> !Live(old(ents.slots), made[i].id)
      ensures forall i, j :: 0 <= i < j < |made| ==> made[i].id != made[j].id
    {
      assert PageOk(archs, s.chunk, pages[s.chunk]);
      made := TakeHandles(s);
      var q := Overwrite(pages[s.chunk], s, made, rs);
      OverwriteKeepsLists(pending, pages, archs, s, made, rs);
      NewPlaced(old(ents.View()), old(ents.chain), pages, s, made, rs, q, ents.View());
      pages := pages[s.chunk := q];
    }

    method TakeHandles(s: Slice) returns (made: seq<Entity>)
      requires ents.Valid() && |ents.slots| + s.count <= MAX_IDS
      modifies ents
      ensures ents.Valid() && |ents.slots| <= old(|ents.slots|) + s.count && |made| == s.count
      ensures Takes(old(ents.View()), old(ents.chain), PlacesOf(s), ents.View(), made)
      ensures LieIn(ents.slots, made, s) && LiveStay(old(ents.slots), ents.slots)
      ensures forall i, j :: 0 <= i < j < |made| ==> made[i].id != made[j].id
    {
      made := ents.NewEntities(PlacesOf(s));
      TakenInPlace(old(ents.View()), old(ents.chain), s, ents.memory);
    }

    lemma TakenInPlace(t: Table<Place>, chain: seq<nat>, s: Slice, memory: nat -> nat)
      requires Chained(t, chain)
      ensures var (t', made) := NewAll(t, PlacesOf(s), memory);
        && Takes(t, chain, PlacesOf(s), t', made) && LieIn(t'.slots, made, s) && LiveStay(t.slots, t'.slots)
        && forall i, j :: 0 <= i < j < |made| ==> made[i].id != made[j].id
    {
      var (t', made) := NewAll(t, PlacesOf(s), memory);
      AllTaken(t, chain, PlacesOf(s), memory);
      TakenDistinct(t, chain, PlacesOf(s), t', made);
      LiveNotTaken(t, chain, PlacesOf(s), t', made);
    }

    /** allocate: n new entities with default components, in slices that sum to n; no live entity changes. */
    method Allocate(g: nat, count: nat) returns (result: seq<Slice>, ghost made: seq<Entity>)
      requires Valid({}) && g in archs && |ents.slots| + count <= MAX_IDS
      modifies this`pages, this`archs, this`nextChunk, ents
      ensures Valid({}) && Total(result) == count && Lies(ents.slots, made, result) && SameArchs(old(archs))
      ensures Packed(pages, result)
      ensures |made| == count && forall i, j :: 0 <= i < j < |made| ==> made[i].id != made[j].id
      ensures forall i :: 0 <= i < |made| ==> !Live(old(ents.slots), made[i].id)
      ensures IsGiven(old(ents.slots), old(pages), made, g, Repeat(DefaultRow(mask, old(archs)[g].types), count),
                      ents.slots, pages)
    {
      result, made := [], [];
      var k := 0;
      NothingGiven(ents.slots, pages, g, Slice(0, 0, 0));
      while k < count
        invariant 0 <= k <= count && Total(result) == k && |made| == k
        invariant Valid({}) && SameArchs(old(archs)) && |ents.slots| + count - k <= MAX_IDS
        invariant FreshlyMade(old(ents.slots), made) && Lies(ents.slots, made, result)
        invariant Packed(pages, result) && (k < count ==> AllFull(pages, result))
        invariant IsGiven(old(ents.slots), old(pages), made, g, Repeat(DefaultRow(mask, old(archs)[g].types), k),
                          ents.slots, pages)
      {
        ghost var slots1, pages1, made1 := ents.slots, pages, made;
        var s, more := AllocatePart(g, count - k);
        MadeMore(old(ents.slots), old(pages), slots1, pages1, ents.slots, pages, made1, more, g,
                 DefaultRow(mask, old(archs)[g].types));
        made := made + more;
        LiesMore(slots1, ents.slots, made1, more, made, result, s);
        PackMore(pages1, pages, result, s, count - k);
        k := k + s.count;
        result := result + [s];
      }
    }

    method AllocatePart(g: nat, count: nat) returns (s: Slice, made: seq<Entity>)
      requires Valid({}) && g in archs && count > 0 && |ents.slots| + count <= MAX_IDS
      modifies this`pages, this`archs, this`nextChunk, ents
      ensures Valid({}) && 0 < s.count <= count && SameArchs(old(archs)) && |ents.slots| <= old(|ents.slots|) + s.count
      ensures |made| == s.count && FreshlyMade(old(ents.slots), made) && Opened(old(pages), pages, s, count)
      ensures LieIn(ents.slots, made, s) && LiveStay(old(ents.slots), ents.slots)
      ensures IsGiven(old(ents.slots), old(pages), made, g, Repeat(DefaultRow(mask, old(archs)[g].types), s.count),
                      ents.slots, pages)
    {
      s := AllocateSlice(g, count, {});
      ghost var mid := pages;
      assert RowsOf(s) + {} == RowsOf(s);
      made := Populate(s, Repeat(DefaultRow(mask, archs[g].types), s.count));
      UntouchedThen(old(ents.slots), old(pages), old(ents.slots), mid, ents.slots, pages, {}, IdSet(IdsOf(made)));
    }

    /** Frees the entities of a slice: their handles are rejected from now on, and no other entity changes. */
    method Destroy(s: Slice)
      requires Valid({}) && Fits(pages, s) && s.count > 0
      modifies this`pages, this`archs, ents
      ensures Valid({}) && SameArchs(old(archs) - {old(pages[s.chunk].arch)})
      ensures TailReached(|old(pages)[s.chunk].ents|, s) ==>
        Untouched(old(ents.slots), old(pages), ents.slots, pages, IdSet(IdsOf(EntsOf(old(pages), s))))
      ensures forall e :: e in EntsOf(old(pages), s) ==>
                Exist(old(ents.View()), e) && !Exist(ents.View(), e) && !Live(ents.slots, e.id)
    {
      var es := EntsOf(pages, s);
      SliceStored(ents.slots, pages, {}, s);
      HandlesAreLive(ents.slots, pages, s);
      ChainedIsDead(ents.View(), ents.chain, IdsOf(es));
      FreeAllFrees(ents.View(), IdsOf(es));
      ents.FreeEntities(IdsOf(es));
      ghost var slots1 := ents.slots;
      FreedPlaced(old(ents.slots), old(pages), s, slots1);
      FreeSlice(s);
      if TailReached(|old(pages)[s.chunk].ents|, s) {
        UntouchedThen(old(ents.slots), old(pages), slots1, old(pages), ents.slots, pages, IdSet(IdsOf(es)), {});
      }
      forall e | e in es ensures !Exist(ents.View(), e) && !Live(ents.slots, e.id) {
        Outdated(old(ents.slots), slots1, es, e);
        assert e.id !in {};
      }
    }

    /** All rows that a cast or a removal of this slice reads are below 65536. */
    predicate Reached(pages: Pages, s: Slice)
      requires Fits(pages, s)
    {
      RowsReached(s) && TailReached(|pages[s.chunk].ents|, s)
    }

    /** The tail and each part that is cast begin below row 65536. */
    ghost predicate CastReached(pages: Pages, s: Slice, parts: seq<Slice>)
      requires Fits(pages, s)
    {
      PartsReached(s, parts) && TailReached(|pages[s.chunk].ents|, s)
    }

    /** The types the entities of a slice keep while they wait to be cleaned. */
    ghost predicate IsCleaned(types: seq<TypeIndex>, cleaned: seq<TypeIndex>) {
      Sorted(cleaned) && forall t :: t in cleaned <==> t == cleanup || (t in types && t in manualClean)
    }

    lemma CleanedOk(types: seq<TypeIndex>, cleaned: seq<TypeIndex>)
      requires RegistryOk() && TypesOk(pending, types) && IsCleaned(types, cleaned)
      ensures TypesOk(pending, cleaned) && cleanup in cleaned
    {
    }

    /** get_cleaning */
    method GetCleaning(types: seq<TypeIndex>) returns (r: Option<nat>)
      requires Valid({}) && TypesOk(pending, types) && cleanup !in types
      modifies this`archs
      ensures Valid({}) && SameArchs(old(archs))
      ensures r.None? <==> forall t :: t in types ==> t !in manualClean
      ensures r.Some? ==> r.value in archs && IsCleaned(types, archs[r.value].types) && cleanup in archs[r.value].types
    {
      var reg := Casting.Registry(set t | t in pending && t > 0 :: t - 1, manualClean, cleanup);
      var cleaned := Casting.GetCleaning(reg, Casting.EntityType(types, []));
      if cleaned.None? {
        return None;
      }
      var ts: seq<TypeIndex> := cleaned.value.types;
      assert IsCleaned(types, ts) by {
        forall t: nat ensures t in ts <==> Casting.InCleaned(reg, Casting.EntityType(types, []), t) {
        }
      }
      CleanedOk(types, ts);
      var g := GetArchetype(ts);
      r := Some(g);
    }

    /** The slice's entities are in archetype g now, with their components cast. */
    ghost predicate Waits(p: Page, s: Slice, types: seq<TypeIndex>, g: nat)
      requires s.start + s.count <= |p.ents| == |p.rows| && g in archs
      requires forall r :: 0 <= r < |p.rows| ==> |p.rows[r]| == FirstTag(types)
      reads this, ents
    {
      Hold(ents.slots, pages, p.ents[s.start..s.start + s.count], g,
           CastRows(pending, types, archs[g].types, p.rows[s.start..s.start + s.count]))
    }

    /**
     destroy_single: entities being cleaned stay; those with something to clean by hand wait with that and the
     cleanup tag; all others are gone.
     */
    method DestroySingle(s: Slice)
      requires Valid({}) && Fits(pages, s) && s.count > 0 && pages[s.chunk].arch in archs
      modifies this`pages, this`archs, this`nextChunk, ents
      ensures Valid({})
      ensures Reached(old(pages), s) ==>
                Untouched(old(ents.slots), old(pages), ents.slots, pages, IdSet(IdsOf(EntsOf(old(pages), s))))
      ensures Valued(old(pages), old(archs), s)
      ensures var es, types := EntsOf(old(pages), s), old(archs[pages[s.chunk].arch].types);
        if cleanup in types then pages == old(pages) && ents.slots == old(ents.slots)
        else if forall t :: t in types ==> t !in manualClean then forall e :: e in es ==> !Exist(ents.View(), e)
        else Reached(old(pages), s) ==>
          exists g :: g in archs && IsCleaned(types, archs[g].types) && Waits(old(pages)[s.chunk], s, types, g)
    {
      var types := archs[pages[s.chunk].arch].types;
      assert ArchOk(pending, pages, pages[s.chunk].arch, archs[pages[s.chunk].arch]) &&
               PageOk(archs, s.chunk, pages[s.chunk]);
      if cleanup in types {
        return;
      }
      var into := GetCleaning(types);
      if into.None? {
        Destroy(s);
      } else {
        var slices := CastSlice(s, into.value);
        if RowsReached(s) {
          RowsReachParts(s, slices);
        }
        assert Reached(old(pages), s) ==> Waits(old(pages)[s.chunk], s, types, into.value);
      }
    }

    /** cast: to no archetype at all, to the one the slice is already in, or to another. */
    method Cast(s: Slice, g: Option<nat>) returns (result: seq<Slice>)
      requires Valid({}) && Fits(pages, s) && s.count > 0 && (g.Some? ==> g.value in archs)
      modifies this`pages, this`archs, this`nextChunk, ents
      ensures Valid({}) && SameArchs(old(archs) - {old(pages[s.chunk].arch)})
      ensures (g.Some? && g.value == old(pages[s.chunk].arch)) || (CastReached(old(pages), s, result)) ==>
        Untouched(old(ents.slots), old(pages), ents.slots, pages, IdSet(IdsOf(EntsOf(old(pages), s))))
      ensures g.None? ==> forall e :: e in EntsOf(old(pages), s) ==> !Exist(ents.View(), e)
      ensures g.Some? && g.value == old(pages[s.chunk].arch) ==> pages == old(pages) && ents.slots == old(ents.slots)
      ensures g.Some? && g.value != old(pages[s.chunk].arch) ==>
        Total(result) == s.count && Packed(pages, result)
        && Lies(ents.slots, EntsOf(old(pages), s), result) && Valued(old(pages), old(archs), s)
        && (CastReached(old(pages), s, result) ==>
              Hold(ents.slots, pages, EntsOf(old(pages), s), g.value, CastOf(old(pages), old(archs), s, g.value)))
    {
      if g.None? {
        Destroy(s);
        result := [];
      } else if g.value == pages[s.chunk].arch {
        result := [];
      } else {
        result := CastSlice(s, g.value);
      }
    }

    function Here(): Snapshot
      reads this, ents
    {
      Snapshot(ents.slots, pages, archs)
    }

    /** New entities with default components in the archetype of these types, and nobody else changed. */
    ghost predicate Spawned(was: Snapshot, types: seq<TypeIndex>, count: nat, now: Snapshot) {
      exists g, made: seq<Entity> {:trigger IsGiven(was.slots, was.pages, made, g,
                                                    Repeat(DefaultRow(mask, types), count),
                                                    now.slots, now.pages)} ::
        && g in now.archs && now.archs[g].types == types && |made| == count && FreshlyMade(was.slots, made)
        && IsGiven(was.slots, was.pages, made, g, Repeat(DefaultRow(mask, types), count), now.slots, now.pages)
    }

    /** The slice's entities are left alone, are rejected, or wait to be cleaned; nobody else changed. */
    ghost predicate Despawned(was: Snapshot, s: Slice, now: Snapshot) {
      && Valued(was.pages, was.archs, s)
      && var p, es := was.pages[s.chunk], EntsOf(was.pages, s);
         var types := was.archs[p.arch].types;
         && (Reached(was.pages, s) ==>
               Untouched(was.slots, was.pages, now.slots, now.pages, IdSet(IdsOf(es))))
         && (if cleanup in types then now.pages == was.pages && now.slots == was.slots
             else if forall t :: t in types ==> t !in manualClean then
               forall e :: e in es ==> !(e.id < |now.slots| && e.version == now.slots[e.id].version)
             else
               Reached(was.pages, s) ==>
                 exists g :: g in now.archs && IsCleaned(types, now.archs[g].types)
                             && Hold(now.slots, now.pages, es, g,
                                     CastRows(pending, types, now.archs[g].types, p.rows[s.start..s.start + s.count])))
    }

    /**
     The slice's entities are in archetype g, which has these types, with
     their components cast; nobody else changed.
     */
    ghost predicate RecastInto(was: Snapshot, s: Slice, types: seq<TypeIndex>, g: nat, parts: seq<Slice>, now: Snapshot)
      requires Valued(was.pages, was.archs, s)
    {
      var es := EntsOf(was.pages, s);
      && g in now.archs && now.archs[g].types == types && Total(parts) == s.count && Packed(now.pages, parts)
      && Lies(now.slots, es, parts)
      && (CastReached(was.pages, s, parts) ==>
            && Untouched(was.slots, was.pages, now.slots, now.pages, IdSet(IdsOf(es)))
            && Hold(now.slots, now.pages, es, g, CastRowsOf(was, s, types)))
    }

    /** They had these types before, and nothing changed, or they were cast. */
    ghost predicate Recasted(was: Snapshot, s: Slice, types: seq<TypeIndex>, now: Snapshot) {
      && Valued(was.pages, was.archs, s)
      && ((was.archs[was.pages[s.chunk].arch].types == types && now.pages == was.pages && now.slots == was.slots)
          || exists g, parts :: RecastInto(was, s, types, g, parts, now))
    }

    function CastRowsOf(was: Snapshot, s: Slice, types: seq<TypeIndex>): seq<Row>
      requires Valued(was.pages, was.archs, s)
    {
      var p := was.pages[s.chunk];
      CastRows(pending, was.archs[p.arch].types, types, p.rows[s.start..s.start + s.count])
    }

    /** What an operation must have done, if it was a call at all. */
    ghost predicate Did(was: Snapshot, op: Op, now: Snapshot) {
      match op
      case Spawn(types, count) =>
        if TypesOk(pending, types) && |was.slots| + count <= MAX_IDS then Spawned(was, types, count, now)
        else now == was
      case Despawn(s) => if Fits(was.pages, s) && s.count > 0 then Despawned(was, s, now) else now == was
      case Recast(s, types) =>
        if Fits(was.pages, s) && s.count > 0 && TypesOk(pending, types) then Recasted(was, s, types, now)
        else now == was
    }

    method Perform(op: Op)
      requires Valid({})
      modifies this`pages, this`archs, this`nextChunk, ents
      ensures Valid({}) && Did(old(Here()), op, Here())
    {
      match op {
        case Spawn(types, count) =>
          if TypesOk(pending, types) && |ents.slots| + count <= MAX_IDS {
            SpawnAll(types, count);
          }
        case Despawn(s) =>
          if Fits(pages, s) && s.count > 0 {
            assert PageOk(archs, s.chunk, pages[s.chunk]);
            DestroySingle(s);
          }
        case Recast(s, types) =>
          if Fits(pages, s) && s.count > 0 && TypesOk(pending, types) {
            RecastTo(s, types);
          }
      }
    }

    method SpawnAll(types: seq<TypeIndex>, count: nat)
      requires Valid({}) && TypesOk(pending, types) && |ents.slots| + count <= MAX_IDS
      modifies this`pages, this`archs, this`nextChunk, ents
      ensures Valid({}) && Spawned(old(Here()), types, count, Here())
    {
      var g := GetArchetype(types);
      var slices, made := Allocate(g, count);
      assert IsGiven(old(ents.slots), old(pages), made, g, Repeat(DefaultRow(mask, types), count), ents.slots, pages);
    }

    method RecastTo(s: Slice, types: seq<TypeIndex>)
      requires Valid({}) && Fits(pages, s) && s.count > 0 && TypesOk(pending, types)
      modifies this`pages, this`archs, this`nextChunk, ents
      ensures Valid({}) && Recasted(old(Here()), s, types, Here())
    {
      assert PageOk(archs, s.chunk, pages[s.chunk]);
      var g := GetArchetype(types);
      ghost var mid := archs;
      assert PageOk(archs, s.chunk, pages[s.chunk]);
      var slices := Cast(s, Some(g));
      if g != old(pages[s.chunk].arch) {
        assert CastOf(old(pages), mid, s, g) == CastRowsOf(old(Here()), s, types);
        assert RecastInto(old(Here()), s, types, g, slices, Here());
      }
    }

    ghost predicate DidAt(trace: seq<Snapshot>, ops: seq<Op>, k: nat)
      requires k + 1 < |trace| && k < |ops|
    {
      Did(trace[k], ops[k], trace[k + 1])
    }

    /** The first n operations led from each state to the next. */
    ghost predicate Traced(trace: seq<Snapshot>, ops: seq<Op>, n: nat) {
      |trace| == n + 1 && n <= |ops| && forall k: nat {:trigger DidAt(trace, ops, k)} :: k < n ==> DidAt(trace, ops, k)
    }

    lemma TraceMore(trace: seq<Snapshot>, ops: seq<Op>, n: nat, now: Snapshot)
      requires Traced(trace, ops, n) && n < |ops| && Did(trace[n], ops[n], now)
      ensures Traced(trace + [now], ops, n + 1)
    {
      forall k: nat | k < n + 1 ensures DidAt(trace + [now], ops, k) {
        assert k < n ==> DidAt(trace, ops, k);
      }
    }

    /**
     Any sequence of operations: each does what it should in the state it finds, and handles, rows and chunk
     lists agree throughout.
     */
    method Replay(ops: seq<Op>) returns (ghost trace: seq<Snapshot>)
      requires Valid({})
      modifies this`pages, this`archs, this`nextChunk, ents
      ensures Valid({}) && Traced(trace, ops, |ops|) && trace[0] == old(Here()) && trace[|ops|] == Here()
    {
      trace := [Here()];
      for i := 0 to |ops|
        invariant Valid({}) && Traced(trace, ops, i) && trace[0] == old(Here()) && trace[i] == Here()
      {
        Perform(ops[i]);
        TraceMore(trace, ops, i, Here());
        trace := trace + [Here()];
      }
    }
  }

  /** Records, rows and chunk lists at one time. */
  datatype Snapshot = Snapshot(slots: Slots, pages: Pages, archs: Archs)

  datatype Op =
    | Spawn(types: seq<TypeIndex>, count: nat)
    | Despawn(slice: Slice)
    | Recast(slice: Slice, types: seq<TypeIndex>)

  /** Different entities, none of them live before. */
  ghost predicate FreshlyMade(was: Slots, made: seq<Entity>) {
    && (forall i, j :: 0 <= i < j < |made| ==> made[i].id != made[j].id)
    && (forall i :: 0 <= i < |made| ==> !Live(was, made[i].id))
  }

  lemma MadeMore(was: Slots, wasPages: Pages, slots1: Slots, pages1: Pages, now: Slots, nowPages: Pages,
                 made: seq<Entity>, more: seq<Entity>, g: nat, row: Row)
    requires FreshlyMade(was, made) && FreshlyMade(slots1, more)
    requires IsGiven(was, wasPages, made, g, Repeat(row, |made|), slots1, pages1)
    requires IsGiven(slots1, pages1, more, g, Repeat(row, |more|), now, nowPages)
    ensures FreshlyMade(was, made + more)
    ensures IsGiven(was, wasPages, made + more, g, Repeat(row, |made + more|), now, nowPages)
  {
    forall i | 0 <= i < |made| ensures made[i].id !in IdsOf(more) {
      forall j | 0 <= j < |more| ensures more[j].id != made[i].id {
        assert Live(slots1, made[i].id);
      }
      NotAmong(more, made[i].id);
    }
    forall j | 0 <= j < |more| ensures !Live(was, more[j].id) {
      assert more[j].id !in IdsOf(made) by {
        forall i | 0 <= i < |made| ensures made[i].id != more[j].id {
          assert Live(slots1, made[i].id);
        }
        NotAmong(made, more[j].id);
      }
    }
    GivenMore(was, wasPages, slots1, pages1, now, nowPages, made, more, made + more,
      Repeat(row, |made|), Repeat(row, |more|), Repeat(row, |made + more|), g);
  }

  /** The records of live entities have not changed. */
  ghost predicate LiveStay(slots: Slots, slots': Slots) {
    forall id :: 0 <= id < |slots| && Live(slots, id) ==> id < |slots'| && slots'[id] == slots[id]
  }

  lemma LiveNotTaken(t: Table<Place>, chain: seq<nat>, places: seq<Place>, t': Table<Place>, made: seq<Entity>)
    requires Chained(t, chain) && Takes(t, chain, places, t', made)
    ensures LiveStay(t.slots, t'.slots)
  {
    TakenOnly(t, chain, places, made, t');
  }

  lemma TakenDistinct(t: Table<Place>, chain: seq<nat>, places: seq<Place>, t': Table<Place>, made: seq<Entity>)
    requires Chained(t, chain) && Takes(t, chain, places, t', made)
    ensures forall i, j :: 0 <= i < j < |made| ==> made[i].id != made[j].id
  {
  }

  lemma HandlesAreLive(slots: Slots, pages: Pages, s: Slice)
    requires Fits(pages, s) && Placed(slots, pages, {})
    ensures forall e :: e in EntsOf(pages, s) ==> Live(slots, e.id) && slots[e.id].version == e.version
  {
    var es := EntsOf(pages, s);
    forall i | 0 <= i < |es| ensures Live(slots, es[i].id) && slots[es[i].id].version == es[i].version {
      assert EntAt(pages, Place(s.chunk, s.start + i)) == es[i];
    }
  }

  /** A freed handle is out of date. */
  lemma Outdated(slots: Slots, slots': Slots, es: seq<Entity>, e: Entity)
    requires FreedTo(slots, IdsOf(es), slots') && e in es && e.id < |slots| && slots[e.id].version == e.version
    ensures slots'[e.id].version != e.version && !Live(slots', e.id)
  {
    var i :| 0 <= i < |es| && es[i] == e;
    assert IdsOf(es)[i] == e.id;
  }

  lemma Split<T>(xs: seq<T>, k: nat, n: nat)
    requires k + n <= |xs|
    ensures xs[..k + n] == xs[..k] + xs[k..k + n]
  {
  }

  lemma Part<T>(xs: seq<T>, start: nat, count: nat, k: nat, n: nat)
    requires start + count <= |xs| && k + n <= count
    ensures xs[start..start + count][k..k + n] == xs[start + k..start + k + n]
  {
    var part := xs[start..start + count];
    var l, r := part[k..k + n], xs[start + k..start + k + n];
    forall i | 0 <= i < n ensures l[i] == r[i] {
      assert part[k + i] == xs[start + k + i];
    }
  }

  /** First the entities es1 got their rows, then other entities es2. */
  lemma GivenMore(was: Slots, wasPages: Pages, slots1: Slots, pages1: Pages, now: Slots, nowPages: Pages,
                  es1: seq<Entity>, es2: seq<Entity>, es: seq<Entity>,
                  rs1: seq<Row>, rs2: seq<Row>, rs: seq<Row>, g: nat)
    requires es == es1 + es2 && rs == rs1 + rs2 && forall i :: 0 <= i < |es1| ==> es1[i].id !in IdsOf(es2)
    requires IsGiven(was, wasPages, es1, g, rs1, slots1, pages1) && IsGiven(slots1, pages1, es2, g, rs2, now, nowPages)
    ensures IsGiven(was, wasPages, es, g, rs, now, nowPages)
  {
    HoldMore(was, wasPages, slots1, pages1, now, nowPages, es1, es2, g, rs1, rs2);
  }

  lemma NextPartGiven(was: Slots, wasPages: Pages, slots1: Slots, pages1: Pages, now: Slots, nowPages: Pages,
                      es: seq<Entity>, rs: seq<Row>, rs2: seq<Row>, k: nat, n: nat, g: nat)
    requires k + n <= |es| && forall i, j :: 0 <= i < j < |es| ==> es[i].id != es[j].id
    requires IsGiven(was, wasPages, es[..k], g, rs, slots1, pages1)
    requires IsGiven(slots1, pages1, es[k..k + n], g, rs2, now, nowPages)
    ensures IsGiven(was, wasPages, es[..k + n], g, rs + rs2, now, nowPages)
  {
    PartsDistinct(es, k, n);
    Split(es, k, n);
    GivenMore(was, wasPages, slots1, pages1, now, nowPages, es[..k], es[k..k + n], es[..k + n], rs, rs2, rs + rs2, g);
  }

  lemma PartsDistinct(es: seq<Entity>, k: nat, n: nat)
    requires k + n <= |es| && forall i, j :: 0 <= i < j < |es| ==> es[i].id != es[j].id
    ensures forall i :: 0 <= i < k ==> es[..k][i].id !in IdsOf(es[k..k + n])
  {
    forall i | 0 <= i < k ensures es[..k][i].id !in IdsOf(es[k..k + n]) {
      NotAmong(es[k..k + n], es[i].id);
    }
  }

  lemma DistinctEntities(es: seq<Entity>)
    requires Handles.Distinct(IdsOf(es))
    ensures forall i, j :: 0 <= i < j < |es| ==> es[i].id != es[j].id
  {
    var ids := IdsOf(es);
    forall i, j | 0 <= i < j < |es| ensures es[i].id != es[j].id {
      assert ids[i] != ids[j];
    }
  }

  lemma NotAmong(es: seq<Entity>, id: nat)
    requires forall j :: 0 <= j < |es| ==> es[j].id != id
    ensures id !in IdsOf(es)
  {
  }
}

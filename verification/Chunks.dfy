/**
 Chunks of entities and the per-archetype chunk list: a doubly linked list that keeps every full chunk
 in front of every chunk with room, and firstFree at the first chunk with room.
 */
module Chunks {

  const SMALL_BIN := 0
  const FAST_BIN := 1
  const LARGE_BIN := 2
  const SMALL_BIN_THRESHOLD := 8
  const SMALL_BIN_SIZE := 1024
  const FAST_BIN_SIZE := 64 * 1024
  const LARGE_BIN_SIZE := 1024 * 1024
  const WORDS := 0x1_0000_0000

  /** The bin of a new chunk depends on the requested size, a 32-bit product, and on how many chunks there are. */
  function BinFor(entitySize: nat, hint: nat, chunkCount: nat): (bin: nat)
    ensures bin < 3
  {
    var size := hint * entitySize % WORDS;
    if chunkCount < SMALL_BIN_THRESHOLD && size < SMALL_BIN_SIZE then SMALL_BIN
    else if size > FAST_BIN_SIZE * 8 then LARGE_BIN
    else FAST_BIN
  }

  /** By the size of the request in bytes, as long as that fits 32 bits. */
  lemma BinBySize(entitySize: nat, hint: nat, chunkCount: nat)
    requires hint * entitySize < 0x1_0000_0000
    ensures var size, bin := hint * entitySize, BinFor(entitySize, hint, chunkCount);
            && (bin == SMALL_BIN <==> chunkCount < 8 && size < 1024)
            && (bin == LARGE_BIN <==> size > 524288)
  {
  }

  /** A request for more than 300 million entities of 12 bytes opens a small chunk. */
  lemma HugeRequestIsSmall()
    ensures BinFor(12, 357913942, 0) == SMALL_BIN
  {
    assert 357913942 * 12 == 0x1_0000_0000 + 8;
  }

  class Chunk {
    var next: Chunk?
    var prev: Chunk?
    var owner: Archetype?
    var count: nat
    const bin: nat

    constructor (bin: nat)
      ensures next == prev == null && owner == null && count == 0 && this.bin == bin
    {
      next, prev, owner, count := null, null, null, 0;
      this.bin := bin;
    }

    /** Puts c right behind this chunk. */
    method Link(c: Chunk)
      requires c != this && c != next
      modifies this`next, c`next, c`prev, (if next == null then {} else {next})`prev
      ensures next == c && c.prev == this && c.next == old(next)
      ensures old(next) != null ==> old(next).prev == c
      ensures old(next) != this ==> prev == old(prev)
    {
      c.next := next;
      c.prev := this;
      if next != null {
        next.prev := c;
      }
      next := c;
    }

    method Unlink()
      requires next != this && prev != this
      modifies this`next, this`prev
      modifies (if prev == null then {} else {prev})`next, (if next == null then {} else {next})`prev
      ensures next == prev == null
      ensures old(prev) != null ==> old(prev).next == old(next)
      ensures old(next) != null ==> old(next).prev == old(prev)
    {
      if prev != null {
        prev.next := next;
      }
      if next != null {
        next.prev := prev;
      }
      prev, next := null, null;
    }
  }

  function Without<T(==)>(s: seq<T>, i: nat): (r: seq<T>)
    requires i < |s|
    ensures |r| == |s| - 1
    ensures forall k :: 0 <= k < |r| ==> r[k] == s[if k < i then k else k + 1]
  {
    s[..i] + s[i + 1..]
  }

  function Nth(s: seq<Chunk>, i: int): Chunk? {
    if 0 <= i < |s| then s[i] else null
  }

  lemma NthWithout(s: seq<Chunk>, i: nat, k: nat)
    requires i < |s|
    ensures Nth(Without(s, i), k) == Nth(s, if k < i then k else k + 1)
  {
  }

  /**
   What resizing element i of a chunk list does to the list, when its first `full` elements are the
   full ones: an emptied chunk leaves, a filled one joins the front unless it is already at the
   boundary, a full one that gets room goes to the back.
   */
  function Resized<T(==)>(l: seq<T>, full: nat, i: nat, count: nat, room: nat): seq<T>
    requires i < |l|
  {
    if count == 0 then Without(l, i)
    else if count == room then if i == full then l else [l[i]] + Without(l, i)
    else if i < full then Without(l, i) + [l[i]]
    else l
  }

  class Archetype {
    var firstChunk: Chunk?
    var lastChunk: Chunk?
    var firstFree: Chunk?
    var chunkCount: nat
    const capacity: seq<nat>     // chunk capacity by bin
    const entitySize: nat
    ghost var chunks: seq<Chunk>
    ghost var full: nat          // how many chunks at the front are full

    constructor (capacity: seq<nat>, entitySize: nat)
      ensures Valid() && chunks == [] && this.capacity == capacity && this.entitySize == entitySize
    {
      firstChunk, lastChunk, firstFree, chunkCount := null, null, null, 0;
      this.capacity, this.entitySize := capacity, entitySize;
      chunks, full := [], 0;
    }

    /** The list pointers describe exactly the sequence cs. */
    ghost predicate LinkedAs(cs: seq<Chunk>)
      reads this`firstChunk, this`lastChunk, cs`next, cs`prev
    {
      && (forall i, j :: 0 <= i < j < |cs| ==> cs[i] != cs[j])
      && firstChunk == Nth(cs, 0)
      && lastChunk == Nth(cs, |cs| - 1)
      && (forall i {:trigger cs[i].prev} :: 0 <= i < |cs| ==> cs[i].prev == Nth(cs, i - 1))
      && (forall i {:trigger cs[i].next} :: 0 <= i < |cs| ==> cs[i].next == Nth(cs, i + 1))
    }

    ghost predicate Linked()
      reads this`firstChunk, this`lastChunk, this`chunks, chunks`next, chunks`prev
    {
      LinkedAs(chunks)
    }

    function Room(c: Chunk): nat {
      if c.bin < |capacity| then capacity[c.bin] else 0
    }

    /** The first f chunks of cs are the full ones and firstFree is the chunk behind them. */
    ghost predicate SplitAt(cs: seq<Chunk>, f: nat)
      reads this`firstFree, cs`count
    {
      && f <= |cs|
      && (forall i {:trigger cs[i].count} :: 0 <= i < |cs| ==>
          cs[i].count <= Room(cs[i]) && (cs[i].count == Room(cs[i]) <==> i < f))
      && firstFree == Nth(cs, f)
    }

    ghost predicate Valid()
      reads this, chunks`next, chunks`prev, chunks`count
    {
      && Linked()
      && SplitAt(chunks, full)
      && chunkCount == |chunks|
    }

    /** world::remove */
    method Remove(c: Chunk, ghost i: nat)
      requires Linked() && i < |chunks| && chunks[i] == c
      modifies this`firstChunk, this`lastChunk, this`chunks, chunks`next, chunks`prev
      ensures Linked() && chunks == Without(old(chunks), i)
      ensures c.next == c.prev == null
    {
      if c == lastChunk {
        lastChunk := lastChunk.prev;
      }
      if firstChunk == c {
        firstChunk := firstChunk.next;
      }
      ghost var was := chunks;
      assert firstChunk == Nth(was, if i == 0 then 1 else 0);
      assert lastChunk == Nth(was, if i == |was| - 1 then i - 1 else |was| - 1);
      Bypass(c, was, i);
      chunks := Without(chunks, i);
      BridgedList(was, i, chunks);
      WithoutDistinct(was, i);
    }

    lemma WithoutDistinct(cs: seq<Chunk>, i: nat)
      requires i < |cs| && forall j, k :: 0 <= j < k < |cs| ==> cs[j] != cs[k]
      ensures var l := Without(cs, i);
        && (forall j, k :: 0 <= j < k < |l| ==> l[j] != l[k])
        && Nth(l, 0) == Nth(cs, if i == 0 then 1 else 0)
        && Nth(l, |l| - 1) == Nth(cs, if i == |cs| - 1 then i - 1 else |cs| - 1)
    {
    }

    method Bypass(c: Chunk, ghost cs: seq<Chunk>, ghost i: nat)
      requires i < |cs| && cs[i] == c && forall j, k :: 0 <= j < k < |cs| ==> cs[j] != cs[k]
      requires forall k {:trigger cs[k].prev} :: 0 <= k < |cs| ==> cs[k].prev == Nth(cs, k - 1)
      requires forall k {:trigger cs[k].next} :: 0 <= k < |cs| ==> cs[k].next == Nth(cs, k + 1)
      modifies cs`next, cs`prev
      ensures Bridged(cs, i) && c.next == c.prev == null
    {
      assert c.prev == Nth(cs, i - 1);
      assert c.next == Nth(cs, i + 1);
      assert i + 1 < |cs| ==> cs[i + 1].prev == c;
      assert i > 0 ==> cs[i - 1].next == c;
      c.Unlink();
    }

    /** The neighbours of element i point to each other. */
    ghost predicate Bridged(cs: seq<Chunk>, i: nat)
      reads cs`next, cs`prev
    {
      && (forall o {:trigger cs[o].prev} :: 0 <= o < |cs| && o != i ==>
          cs[o].prev == Nth(cs, if o == i + 1 then i - 1 else o - 1))
      && (forall o {:trigger cs[o].next} :: 0 <= o < |cs| && o != i ==>
          cs[o].next == Nth(cs, if o + 1 == i then i + 1 else o + 1))
    }

    /** Neighbours in the shortened list, as neighbours in the original one. */
    lemma WithoutNeighbours(cs: seq<Chunk>, i: nat, k: nat, o: nat)
      requires i < |cs| && k < |cs| - 1 && o == (if k < i then k else k + 1)
      ensures var l := Without(cs, i);
        && l[k] == cs[o] && Nth(l, k - 1) == Nth(cs, if o == i + 1 then i - 1 else o - 1)
        && Nth(l, k + 1) == Nth(cs, if o + 1 == i then i + 1 else o + 1)
    {
    }

    lemma BridgedList(cs: seq<Chunk>, i: nat, l: seq<Chunk>)
      requires i < |cs| && l == Without(cs, i) && Bridged(cs, i)
      ensures forall k {:trigger l[k].prev} :: 0 <= k < |l| ==> l[k].prev == Nth(l, k - 1)
      ensures forall k {:trigger l[k].next} :: 0 <= k < |l| ==> l[k].next == Nth(l, k + 1)
    {
      forall k | 0 <= k < |l| ensures l[k].prev == Nth(l, k - 1) && l[k].next == Nth(l, k + 1) {
        var o := if k < i then k else k + 1;
        WithoutNeighbours(cs, i, k, o);
        assert cs[o].prev == Nth(cs, if o == i + 1 then i - 1 else o - 1);
      }
    }

    /** Puts c behind the last chunk, or makes it the only one. */
    method Append(c: Chunk)
      requires Linked() && c !in chunks && c.next == c.prev == null
      modifies this`firstChunk, this`lastChunk, this`chunks, chunks`next, chunks`prev, c`next, c`prev
      ensures Linked() && chunks == old(chunks) + [c]
    {
      if lastChunk != null {
        lastChunk.Link(c);
      }
      lastChunk := c;
      if firstChunk == null {
        firstChunk := c;
      }
      chunks := chunks + [c];
    }

    method Prepend(c: Chunk)
      requires Linked() && c !in chunks && c.next == c.prev == null
      modifies this`firstChunk, this`lastChunk, this`chunks, chunks`next, chunks`prev, c`next, c`prev
      ensures Linked() && chunks == [c] + old(chunks)
    {
      if firstChunk != null {
        c.next := firstChunk.next;
        c.Link(firstChunk);
      }
      firstChunk := c;
      if lastChunk == null {
        lastChunk := c;
      }
      chunks := [c] + chunks;
    }

    /** world::mark_free, called before the count drops */
    method MarkFree(c: Chunk, ghost i: nat)
      requires Linked() && i < |chunks| && chunks[i] == c
      modifies this`firstChunk, this`lastChunk, this`firstFree, this`chunks, chunks`next, chunks`prev
      ensures Linked() && chunks == Without(old(chunks), i) + [c]
      ensures firstFree == if old(firstFree) == null then c else old(firstFree)
    {
      Remove(c, i);
      Append(c);
      if firstFree == null {
        firstFree := c;
      }
    }

    /** world::unmark_free, called before the count reaches the capacity */
    method UnmarkFree(c: Chunk, ghost i: nat)
      requires Linked() && i < |chunks| && chunks[i] == c
      modifies this`firstChunk, this`lastChunk, this`firstFree, this`chunks, chunks`next, chunks`prev
      ensures Linked()
      ensures old(firstFree) == c ==> chunks == old(chunks) && firstFree == Nth(chunks, i + 1)
      ensures old(firstFree) != c ==> chunks == [c] + Without(old(chunks), i) && firstFree == old(firstFree)
    {
      if firstFree == c {
        firstFree := c.next;
        return;
      }
      Remove(c, i);
      Prepend(c);
    }

    /** world::remove_chunk, up to the archetype's own removal */
    method RemoveChunk(c: Chunk, ghost i: nat)
      requires Valid() && i < |chunks| && chunks[i] == c
      modifies this`firstChunk, this`lastChunk, this`firstFree, this`chunks, this`full, this`chunkCount
      modifies chunks`next, chunks`prev, c`owner
      ensures Valid() && chunks == Without(old(chunks), i) && c.owner == null
    {
      ghost var was := chunks;
      chunkCount := chunkCount - 1;
      if c == firstFree {
        firstFree := c.next;
      }
      ghost var f := full;
      full := if i < full then full - 1 else full;
      c.owner := null;
      Remove(c, i);
      RemovedSplit(was, f, i, chunks, full);
    }

    lemma RemovedSplit(was: seq<Chunk>, f: nat, i: nat, now: seq<Chunk>, f': nat)
      requires i < |was| && f <= |was| && Counts(was, f, -1) && now == Without(was, i)
      requires f' == if i < f then f - 1 else f
      requires firstFree == Nth(was, if i == f then f + 1 else f)
      ensures SplitAt(now, f')
    {
      NthWithout(was, i, f');
      forall k | 0 <= k < |now|
        ensures now[k].count <= Room(now[k]) && (now[k].count == Room(now[k]) <==> k < f')
      {
        assert now[k] == was[if k < i then k else k + 1];
      }
    }

    method FillUp(c: Chunk, ghost i: nat)
      requires Valid() && i < |chunks| && chunks[i] == c
      modifies this`firstChunk, this`lastChunk, this`firstFree, this`chunks, this`full
      modifies chunks`next, chunks`prev, c`count
      ensures Valid() && c.count == Room(c)
      ensures chunks == if i == old(full) then old(chunks) else [c] + Without(old(chunks), i)
    {
      ghost var was, f := chunks, full;
      UnmarkFree(c, i);
      Fill(c, was, f, i);
      full := if i < full then full else full + 1;
      FilledSplit(was, f, i, chunks, full);
    }

    method Fill(c: Chunk, ghost cs: seq<Chunk>, ghost f: nat, ghost i: nat)
      requires Counts(cs, f, -1) && i < |cs| && cs[i] == c && forall j, k :: 0 <= j < k < |cs| ==> cs[j] != cs[k]
      modifies c`count
      ensures c.count == Room(c) && Counts(cs, f, i)
    {
      c.count := Room(c);
    }

    /** Which of the chunks are full. */
    ghost predicate Counts(cs: seq<Chunk>, f: nat, also: int)
      reads cs`count
    {
      forall k {:trigger cs[k].count} :: 0 <= k < |cs| ==>
        cs[k].count <= Room(cs[k]) && (cs[k].count == Room(cs[k]) <==> k < f || k == also)
    }

    lemma FilledSplit(was: seq<Chunk>, f: nat, i: nat, now: seq<Chunk>, f': nat)
      requires i < |was| && f <= |was| && Counts(was, f, i) && f' == if i < f then f else f + 1
      requires now == if i == f then was else [was[i]] + Without(was, i)
      requires firstFree == if i == f then Nth(now, i + 1) else Nth(was, f)
      ensures SplitAt(now, f')
    {
      forall k | 0 <= k < |now|
        ensures now[k].count <= Room(now[k]) && (now[k].count == Room(now[k]) <==> k < f')
      {
        var o := if i == f then k else if k == 0 then i else if k - 1 < i then k - 1 else k;
        assert now[k] == was[o] && (k < f' <==> o < f || o == i);
      }
      assert i != f ==> Nth(now, f') == Nth(was, f);
    }

    method MakeRoom(c: Chunk, count: nat, ghost i: nat)
      requires Valid() && i < full && chunks[i] == c && count < Room(c)
      modifies this`firstChunk, this`lastChunk, this`firstFree, this`chunks, this`full
      modifies chunks`next, chunks`prev, c`count
      ensures Valid() && c.count == count
      ensures chunks == Without(old(chunks), i) + [c]
    {
      full := full - 1;
      MarkFree(c, i);
      c.count := count;
    }

    /** world::resize_chunk: afterwards the list is in order again, without the chunk if it became empty. */
    method ResizeChunk(c: Chunk, count: nat, ghost i: nat)
      requires Valid() && i < |chunks| && chunks[i] == c && count <= Room(c) && Room(c) > 0
      modifies this`firstChunk, this`lastChunk, this`firstFree, this`chunks, this`full, this`chunkCount
      modifies chunks`next, chunks`prev, c`owner, c`count
      ensures Valid() && chunks == Resized(old(chunks), old(full), i, count, Room(c))
      ensures if count == 0 then c.owner == null else c.owner == old(c.owner) && c.count == count
    {
      if count == 0 {
        RemoveChunk(c, i);
      } else if count == Room(c) {
        FillUp(c, i);
      } else if c.count == Room(c) {
        MakeRoom(c, count, i);
      } else {
        c.count := count;
      }
    }

    /** No chunk list starts with a chunk that has room, or ends at its first chunk, when a full chunk follows it. */
    lemma NoSuchList(cs: seq<Chunk>, f: nat)
      requires firstChunk != null && firstChunk.next != null && firstChunk.next.count == Room(firstChunk.next)
      requires lastChunk == firstChunk || firstChunk.count != Room(firstChunk)
      requires LinkedAs(cs)
      ensures !SplitAt(cs, f)
    {
      assert cs[0].next == Nth(cs, 1);
      assert cs[|cs| - 1].next == null;
      assert cs[0].count == firstChunk.count && cs[1].count == firstChunk.next.count;
    }

    /** Links a full chunk right behind the first one, leaving lastChunk and firstFree alone. */
    method LinkSecond(c: Chunk)
      requires Valid() && c !in chunks && c.next == c.prev == null && chunks != [] && c.count == Room(c)
      modifies chunks`next, chunks`prev, c`next, c`prev, this`chunks, this`full, this`chunkCount
      ensures chunkCount == old(chunkCount) + 1
      ensures old(full) > 0 && |old(chunks)| > 1 ==> Valid() && chunks == [old(chunks)[0], c] + old(chunks)[1..]
      ensures old(full) == 0 || |old(chunks)| == 1 ==> forall cs, f :: LinkedAs(cs) ==> !SplitAt(cs, f)
    {
      ghost var was := chunks;
      ghost var f0 := full;
      if full > 0 && |chunks| > 1 {
        full := full + 1;
        chunks := [chunks[0], c] + chunks[1..];
      }
      chunkCount := chunkCount + 1;
      firstChunk.Link(c);
      if f0 == 0 || |was| == 1 {
        assert was[0].count == firstChunk.count;
        forall cs: seq<Chunk>, f: nat | LinkedAs(cs) ensures !SplitAt(cs, f) {
          NoSuchList(cs, f);
        }
      }
    }

    /**
     A list of one chunk with room, and a full chunk that merging links
     second: no order of the two is right any more.
     */
    static method RelinkBreaks() returns (a: Archetype)
      ensures fresh(a) && a.chunkCount == 2 && forall cs, f :: a.LinkedAs(cs) ==> !a.SplitAt(cs, f)
    {
      a := new Archetype([2, 2, 2], 500);
      var first := a.NewChunk(1);
      var c := new Chunk(SMALL_BIN);
      c.count := 2;
      a.LinkSecond(c);
    }

    /** world::add_chunk for a chunk with room, or for the first chunk of an archetype */
    method AddChunk(c: Chunk)
      requires Valid() && c !in chunks && c.next == c.prev == null
      requires c.count < Room(c) || (chunks == [] && c.count == Room(c))
      modifies this`firstChunk, this`lastChunk, this`firstFree, this`chunks, this`full, this`chunkCount
      modifies chunks`next, chunks`prev, c`next, c`prev, c`owner
      ensures Valid() && chunks == old(chunks) + [c] && c.owner == this
      ensures old(firstFree) == null && c.count < Room(c) ==> firstFree == c
    {
      c.owner := this;
      chunkCount := chunkCount + 1;
      if c.count < Room(c) {
        if firstFree == null {
          firstFree := c;
        }
      } else {
        full := 1;
      }
      assert SplitAt(chunks + [c], full);
      Append(c);
    }

    /** world::new_chunk */
    method NewChunk(hint: nat) returns (c: Chunk)
      requires Valid() && Sized()
      modifies this`firstChunk, this`lastChunk, this`firstFree, this`chunks, this`full, this`chunkCount
      modifies chunks`next, chunks`prev
      ensures Valid() && fresh(c) && chunks == old(chunks) + [c] && c.count == 0 && Room(c) > 0
      ensures c.owner == this && c.next == null
      ensures c.bin == BinFor(entitySize, hint, old(chunkCount))
      ensures old(firstFree) == null ==> firstFree == c
    {
      c := new Chunk(BinFor(entitySize, hint, chunkCount));
      AddChunk(c);
    }

    ghost predicate Sized() {
      |capacity| == 3 && forall b :: 0 <= b < 3 ==> capacity[b] > 0
    }

    /**
     world::allocate_slice: takes rows from the first chunk with room, opening a chunk only when there
     is none, and always obtains at least one row and as many as that chunk can give.
     */
    method AllocateSlice(count: nat) returns (c: Chunk, start: nat, got: nat)
      requires Valid() && Sized() && count > 0
      modifies this`firstChunk, this`lastChunk, this`firstFree, this`chunks, this`full, this`chunkCount
      modifies chunks`next, chunks`prev, chunks`owner, chunks`count
      ensures Valid() && c in chunks
      ensures c.count == start + got && 0 < got <= count && (got < count ==> c.count == Room(c))
      ensures old(firstFree) == null ==> fresh(c) && c.owner == this && start == 0
      ensures old(firstFree) != null ==> c == old(firstFree) && start == old(c.count)
      ensures forall d :: d in old(chunks) ==>
                d in chunks && (d != c ==> d.count == old(d.count) && d.owner == old(d.owner))
      ensures forall d :: d in chunks ==> d == c || d in old(chunks)
    {
      var f := firstFree;
      if f == null {
        f := NewChunk(count);
      }
      c := f;
      start := c.count;
      got := if count < Room(c) - start then count else Room(c) - start;
      ResizeChunk(c, start + got, full);
    }
  }
}

/**
 The circular block index of an implicit producer: it finds a block's entry from an element's index by
 subtracting the base of the newest block, with 64-bit unsigned arithmetic throughout.
 */
module BlockIndex {
  import opened Basics
  import opened Modulo

  const WORD: nat := 0x1_0000_0000_0000_0000
  const BLOCK_SIZE: nat := 32
  const INVALID: nat := 1

  // ------------------------------------------------------------------ machine arithmetic

  function Pow2(e: nat): (p: nat)
    ensures p > 0
  {
    if e == 0 then 1 else 2 * Pow2(e - 1)
  }

  /** Bitwise and. */
  function And(x: nat, y: nat): nat {
    if x == 0 || y == 0 then 0 else 2 * And(x / 2, y / 2) + if x % 2 == 1 && y % 2 == 1 then 1 else 0
  }

  function Sub64(a: nat, b: nat): nat {
    (a - b) % WORD
  }

  function Add64(a: nat, b: nat): nat {
    (a + b) % WORD
  }

  lemma AndOdd(x: nat, h: nat, y: nat)
    requires y == 2 * h + 1
    ensures And(x, y) == 2 * And(x / 2, h) + x % 2
  {
    assert y / 2 == h && y % 2 == 1;
  }

  lemma AndEven(x: nat, h: nat, y: nat)
    requires y == 2 * h
    ensures And(x, y) == 2 * And(x / 2, h)
  {
    assert y / 2 == h && y % 2 == 0;
  }

  /** Masking with a power of two minus one is the remainder. */
  lemma {:induction false} MaskIsMod(x: nat, e: nat)
    ensures And(x, Pow2(e) - 1) == x % Pow2(e)
  {
    if e > 0 {
      MaskIsMod(x / 2, e - 1);
      AndOdd(x, Pow2(e - 1) - 1, Pow2(e) - 1);
      HalfMod(x, Pow2(e - 1), Pow2(e));
    }
  }

  lemma HalfMod(x: nat, c: nat, d: nat)
    requires c > 0 && d == 2 * c
    ensures x % d == 2 * (x / 2 % c) + x % 2
  {
    var h := x / 2;
    Euclid(h, c);
    var q := h / c;
    assert x == 2 * (c * q) + (2 * (h % c) + x % 2);
    assert d * q == 2 * (c * q);
    ModUnique(x, d, q, 2 * (h % c) + x % 2);
  }

  lemma {:induction false} Pow2Add(a: nat, b: nat)
    ensures Pow2(a + b) == Pow2(a) * Pow2(b)
  {
    if a > 0 {
      Pow2Add(a - 1, b);
    }
  }

  lemma {:induction false} Pow2Grows(a: nat, b: nat)
    requires a <= b
    ensures Pow2(a) <= Pow2(b)
  {
    if a > 0 {
      Pow2Grows(a - 1, b - 1);
    }
  }

  lemma Pow2Values()
    ensures Pow2(59) * BLOCK_SIZE == WORD && Pow2(63) * 2 == WORD
  {
    assert Pow2(10) == 1024;
    assert Pow2(20) == 1024 * 1024;
    assert Pow2(30) == 1024 * 1024 * 1024;
    assert Pow2(40) == 1024 * 1024 * 1024 * 1024;
    assert Pow2(50) == 1024 * 1024 * 1024 * 1024 * 1024;
    assert Pow2(59) == 512 * Pow2(50);
  }

  lemma BlockMask()
    ensures WORD - BLOCK_SIZE == BLOCK_SIZE * (Pow2(59) - 1)
  {
    Pow2Values();
  }

  /** index & ~(BLOCK_SIZE - 1) */
  lemma BlockBase(x: nat)
    requires x < WORD
    ensures And(x, WORD - BLOCK_SIZE) == x - x % BLOCK_SIZE
  {
    var m, h := Pow2(59) - 1, x / BLOCK_SIZE;
    BlockMask();
    AndShift(x, m);
    MaskIsMod(h, 59);
    Pow2Values();
    ModUnique(h, Pow2(59), 0, h);
  }

  lemma AndShift(x: nat, m: nat)
    ensures And(x, BLOCK_SIZE * m) == BLOCK_SIZE * And(x / BLOCK_SIZE, m)
  {
    var x1 := x / 2;
    var x2 := x1 / 2;
    var x3 := x2 / 2;
    var x4 := x3 / 2;
    assert x4 / 2 == x / BLOCK_SIZE;
    AndEven(x, 16 * m, 32 * m);
    AndEven(x1, 8 * m, 16 * m);
    AndEven(x2, 4 * m, 8 * m);
    AndEven(x3, 2 * m, 4 * m);
    AndEven(x4, m, 2 * m);
  }

  // ------------------------------------------------------------------ where a lookup lands

  /** The base of the block k blocks behind the newest one. */
  function Base(last: nat, k: nat): nat {
    Sub64(last, BLOCK_SIZE * k)
  }

  /** The position k places behind the tail of a circular index. */
  function Pos(tail: nat, k: nat, capacity: nat): int {
    if k <= tail then tail - k else tail + capacity - k
  }

  /** get_block_index_index_for_index, given the key of the tail entry */
  function Locate(index: nat, tail: nat, tailBase: nat, capacity: nat): nat
    requires capacity > 0
  {
    And(Add64(tail, Sub64(And(index, WORD - BLOCK_SIZE), tailBase) / BLOCK_SIZE), capacity - 1)
  }

  /** Dividing the negative distance as an unsigned number gives 2^59 minus the number of blocks. */
  lemma Offset(last: nat, k: nat)
    requires last < WORD && k <= WORD / BLOCK_SIZE
    ensures Sub64(Base(last, k), last) / BLOCK_SIZE == if k % (WORD / BLOCK_SIZE) == 0 then 0 else WORD / BLOCK_SIZE - k
  {
    var d := BLOCK_SIZE * k;
    var b := Base(last, k);
    assert b == last - d || b == last - d + WORD by {
      if d <= last {
        ModUnique(last - d, WORD, 0, last - d);
      } else {
        ModUnique(last - d, WORD, -1, last - d + WORD);
      }
    }
    if k == 0 || d == WORD {
      assert Sub64(b, last) == 0;
    } else if b == last - d {
      ModUnique(b - last, WORD, -1, WORD - d);
    } else {
      ModUnique(b - last, WORD, 0, WORD - d);
    }
  }

  lemma BaseAligned(last: nat, k: nat)
    requires last < WORD && last % BLOCK_SIZE == 0
    ensures Base(last, k) < WORD && Base(last, k) % BLOCK_SIZE == 0
  {
    var x := last - BLOCK_SIZE * k;
    var q := x / WORD;
    assert x == WORD * q + x % WORD;
    assert x % WORD == BLOCK_SIZE * (last / BLOCK_SIZE - k - (WORD / BLOCK_SIZE) * q);
  }

  lemma {:induction false} ModShift(a: int, q: nat, c: nat)
    requires c > 0
    ensures (a + q * c) % c == a % c
  {
    ModUnique(a + q * c, c, a / c + q, a % c);
  }

  lemma PosIsMod(tail: nat, k: nat, capacity: nat)
    requires tail < capacity && k < capacity
    ensures 0 <= Pos(tail, k, capacity) < capacity && Pos(tail, k, capacity) == (tail - k) % capacity
  {
    if k <= tail {
      ModUnique(tail - k, capacity, 0, tail - k);
    } else {
      ModUnique(tail - k, capacity, -1, tail - k + capacity);
    }
  }

  /**
   A lookup of any element of the block k places behind the newest lands on that block's entry if and only
   if the block is the newest itself or the capacity, a power of two, is at most 2^59.
   */
  lemma LookupLands(index: nat, last: nat, k: nat, tail: nat, e: nat)
    requires e <= 63 && tail < Pow2(e) && k < Pow2(e) && k < WORD / BLOCK_SIZE
    requires last < WORD && last % BLOCK_SIZE == 0
    requires Base(last, k) <= index < Base(last, k) + BLOCK_SIZE
    ensures Locate(index, tail, last, Pow2(e)) == Pos(tail, k, Pow2(e)) <==> k == 0 || e <= 59
  {
    LocateIs(index, last, k, tail, e);
    PosIsMod(tail, k, Pow2(e));
    if k > 0 {
      SameRemainder(tail - k, e);
    }
  }

  lemma LocateIs(index: nat, last: nat, k: nat, tail: nat, e: nat)
    requires e <= 63 && tail < Pow2(e) && k < WORD / BLOCK_SIZE
    requires last < WORD && last % BLOCK_SIZE == 0
    requires Base(last, k) <= index < Base(last, k) + BLOCK_SIZE
    ensures Locate(index, tail, last, Pow2(e)) == if k == 0 then tail else (tail + Pow2(59) - k) % Pow2(e)
  {
    BaseAligned(last, k);
    BlockStart(index, Base(last, k));
    Offset(last, k);
    Pow2Values();
    Pow2Fits(e);
    LocateAt(index, tail, last, Base(last, k), if k == 0 then 0 else Pow2(59) - k, e);
    if k == 0 {
      ModUnique(tail, Pow2(e), 0, tail);
    }
  }

  lemma LocateAt(index: nat, tail: nat, last: nat, base: nat, off: nat, e: nat)
    requires And(index, WORD - BLOCK_SIZE) == base && Sub64(base, last) / BLOCK_SIZE == off && tail + off < WORD
    ensures Locate(index, tail, last, Pow2(e)) == (tail + off) % Pow2(e)
  {
    Wrapped(tail, off, e);
  }

  lemma Wrapped(tail: nat, off: nat, e: nat)
    requires tail + off < WORD
    ensures And(Add64(tail, off), Pow2(e) - 1) == (tail + off) % Pow2(e)
  {
    ModUnique(tail + off, WORD, 0, tail + off);
    MaskIsMod(tail + off, e);
  }

  /** The base of an element's block. */
  lemma BlockStart(index: nat, base: nat)
    requires base < WORD && base % BLOCK_SIZE == 0 && base <= index < base + BLOCK_SIZE
    ensures And(index, WORD - BLOCK_SIZE) == base
  {
    assert index < WORD by {
      assert base + BLOCK_SIZE <= WORD;
    }
    BlockBase(index);
    ModUnique(index, BLOCK_SIZE, base / BLOCK_SIZE, index - base);
  }

  lemma Pow2Fits(e: nat)
    requires e <= 63
    ensures Pow2(e) + Pow2(59) < WORD
  {
    Pow2Grows(e, 63);
    Pow2Values();
  }

  lemma AddMultiple(a: int, e: nat, f: nat)
    requires e <= f
    ensures (a + Pow2(f)) % Pow2(e) == a % Pow2(e)
  {
    Pow2Add(f - e, e);
    ModShift(a, Pow2(f - e), Pow2(e));
  }

  /** Adding 2^59 changes the remainder for exactly the powers of two it is not a multiple of. */
  lemma SameRemainder(a: int, e: nat)
    ensures (a + Pow2(59)) % Pow2(e) == a % Pow2(e) <==> e <= 59
  {
    if e <= 59 {
      AddMultiple(a, e, 59);
    } else {
      NotMultiple(a, e);
    }
  }

  lemma NotMultiple(a: int, e: nat)
    requires e >= 60
    ensures (a + Pow2(59)) % Pow2(e) != a % Pow2(e)
  {
    Pow2Grows(60, e);
    Misses(a, Pow2(59), Pow2(e));
  }

  /** Half a modulus more, or a smaller part of it, is another remainder. */
  lemma Misses(a: int, h: nat, c: nat)
    requires 0 < 2 * h <= c
    ensures (a + h) % c != a % c
  {
    Euclid(a, c);
    var r := a % c;
    if r + h < c {
      ModUnique(a + h, c, a / c, r + h);
    } else {
      assert c * (a / c + 1) == c * (a / c) + c;
      ModUnique(a + h, c, a / c + 1, r + h - c);
    }
  }

  // ------------------------------------------------------------------ the index itself

  class Entry {
    var key: nat
    var value: Option<nat>   // the block, or nothing once it was emptied

    constructor ()
      ensures key == INVALID && value == None
    {
      key, value := INVALID, None;
    }
  }

  /** One step forward in a circular index. */
  function Next(p: nat, capacity: nat): nat {
    if p + 1 == capacity then 0 else p + 1
  }

  lemma NextIsMasked(p: nat, e: nat)
    requires p < Pow2(e)
    ensures And(p + 1, Pow2(e) - 1) == Next(p, Pow2(e))
  {
    MaskIsMod(p + 1, e);
    if p + 1 == Pow2(e) {
      ModUnique(p + 1, Pow2(e), 1, 0);
    } else {
      ModUnique(p + 1, Pow2(e), 0, p + 1);
    }
  }

  lemma PrevIsMasked(p: nat, e: nat)
    requires p < Pow2(e) && e <= 63
    ensures And(Sub64(p, 1), Pow2(e) - 1) == if Pow2(e) == 1 then 0 else Pos(p, 1, Pow2(e))
  {
    MaskIsMod(Sub64(p, 1), e);
    Pow2Values();
    Pow2Grows(e, 63);
    if p == 0 {
      LastMasked(e);
    } else {
      ModUnique(p - 1, WORD, 0, p - 1);
      ModUnique(p - 1, Pow2(e), 0, p - 1);
    }
  }

  lemma LastMasked(e: nat)
    requires e <= 63
    ensures Sub64(0, 1) % Pow2(e) == Pow2(e) - 1
  {
    Pow2Values();
    assert Pow2(64) == WORD;
    ModUnique(-1, WORD, -1, WORD - 1);
    AddMultiple(-1, e, 64);
    ModUnique(-1, Pow2(e), -1, Pow2(e) - 1);
  }

  /** Bases are consecutive: k blocks behind the next block is k - 1 blocks behind the last one. */
  lemma BaseShift(last: nat, next: nat, k: nat)
    requires last < WORD && next == Add64(last, BLOCK_SIZE)
    ensures Base(next, k + 1) == Base(last, k)
  {
    var d := BLOCK_SIZE * k;
    Euclid(last + BLOCK_SIZE, WORD);
    var q := (last + BLOCK_SIZE) / WORD;
    assert next - BLOCK_SIZE * (k + 1) + WORD * q == last - d;
    Euclid(last - d, WORD);
    var p := (last - d) / WORD;
    assert next - BLOCK_SIZE * (k + 1) == WORD * (p - q) + (last - d) % WORD;
    ModUnique(next - BLOCK_SIZE * (k + 1), WORD, p - q, (last - d) % WORD);
  }

  class Header {
    const index: array<Entry?>
    var tail: nat

    constructor (index: array<Entry?>, tail: nat)
      ensures this.index == index && this.tail == tail
    {
      this.index, this.tail := index, tail;
    }
  }

  predicate AllDifferent(es: seq<Entry?>) {
    && (forall i :: 0 <= i < |es| ==> es[i] != null)
    && (forall i, j :: 0 <= i < j < |es| ==> es[i] != es[j])
  }

  /** ring lists the entries of a circular index from the tail backwards. */
  ghost predicate IsRing(index: seq<Entry?>, tail: nat, ring: seq<Entry?>) {
    && |ring| == |index| && tail < |index| && AllDifferent(ring)
    && forall k: nat :: k < |ring| ==> index[Pos(tail, k, |index|)] == ring[k]
  }

  /** The first `window` entries carry the bases of consecutive blocks, from the newest backwards. */
  ghost predicate Bases(ring: seq<Entry?>, window: nat, last: nat)
    reads ring`key
  {
    window <= |ring| && forall k {:trigger ring[k]} :: 0 <= k < window ==>
      ring[k] != null && ring[k].key == Base(last, k)
  }

  /** All of the window but this entry is still there, one place further back. */
  ghost predicate Kept(was: seq<Entry?>, wasWindow: nat, now: seq<Entry?>, nowWindow: nat, but: Entry?) {
    forall k :: 0 <= k < wasWindow && k < |was| && was[k] != but ==>
      k + 1 < nowWindow && k + 1 < |now| && now[k + 1] == was[k]
  }

  class Producer {
    var header: Header
    var nextCapacity: nat
    ghost var e: nat              // the capacity is 2^e
    ghost var ring: seq<Entry?>   // the entries from the tail backwards
    ghost var window: nat         // how many of them belong to the newest blocks
    ghost var last: nat           // the base of the newest block

    ghost predicate Shape()
      reads this, header, header.index
    {
      && e <= 59 && header.index.Length == Pow2(e) && nextCapacity == 2 * Pow2(e)
      && IsRing(header.index[..], header.tail, ring)
      && window <= Pow2(e) && last < WORD && last % BLOCK_SIZE == 0
    }

    /** The entries of the window carry the bases of consecutive blocks. */
    ghost predicate Valid()
      reads this, header, header.index, ring`key
    {
      && Shape()
      && Bases(ring, window, last)
    }

    constructor (e: nat)
      requires e < 59
      ensures Valid() && window == 0 && this.e == e && fresh(header) && fresh(header.index)
      ensures forall o :: o in ring ==> fresh(o)
    {
      var index := new Entry?[Pow2(e)](_ => null);
      NewEntries(index, 0);
      this.e, this.window, this.last := e, 0, 0;
      nextCapacity := 2 * Pow2(e);
      header := new Header(index, Pow2(e) - 1);
      ring := Reversed(index[..]);
    }

    /** Finds the entry of an element's block. */
    method Lookup(index: nat, ghost k: nat) returns (entry: Entry?)
      requires Valid() && k < window && Base(last, k) <= index < Base(last, k) + BLOCK_SIZE
      ensures entry == ring[k] && entry != null && entry.key == And(index, WORD - BLOCK_SIZE)
    {
      assert ring[0] == header.index[header.tail];
      BaseAligned(last, k);
      BlockStart(index, Base(last, k));
      ModUnique(last, WORD, 0, last);
      Pow2Grows(e, 59);
      Pow2Values();
      LookupLands(index, last, k, header.tail, e);
      PosIsMod(header.tail, k, header.index.Length);
      var tailBase := header.index[header.tail].key;
      entry := header.index[Locate(index, header.tail, tailBase, header.index.Length)];
    }

    /** new_block_index: twice the capacity; every entry stays where it was, counted from the tail. */
    method NewBlockIndex(canAlloc: bool) returns (ok: bool)
      requires Valid() && e < 59
      modifies this`header, this`nextCapacity, this`e, this`ring
      ensures Valid() && ok == canAlloc
      ensures !ok ==> header == old(header) && ring == old(ring) && e == old(e)
      ensures ok ==> fresh(header) && fresh(header.index) && e == old(e) + 1 && old(ring) <= ring
      ensures ok ==> forall k :: |old(ring)| <= k < |ring| ==> fresh(ring[k]) && ring[k].key == INVALID
    {
      if !canAlloc {
        return false;
      }
      var capacity := header.index.Length;
      var index, added := DoubledIndex();
      header := new Header(index, capacity - 1);
      e := e + 1;
      nextCapacity := 2 * nextCapacity;
      ring := ring + added;
      return true;
    }

    method DoubledIndex() returns (index: array<Entry?>, ghost added: seq<Entry?>)
      requires Shape()
      ensures fresh(index) && index.Length == nextCapacity
      ensures IsRing(index[..], |ring| - 1, ring + added)
      ensures forall k :: 0 <= k < |added| ==> fresh(added[k]) && added[k].key == INVALID
    {
      var capacity := header.index.Length;
      index := new Entry?[nextCapacity](_ => null);
      CopyEntries(index);
      ReversedDiffer(ring);
      NewEntries(index, capacity);
      ghost var all := index[..];
      assert all[..capacity] == Reversed(ring);
      added := Reversed(all[capacity..]);
      DoubledRing(all, ring, added);
    }

    /** The old entries, from the oldest to the newest, fill the front of the new index. */
    method CopyEntries(index: array<Entry?>)
      requires Shape() && index != header.index && index.Length >= header.index.Length
      modifies index
      ensures index[..header.index.Length] == Reversed(ring)
    {
      var prevTail, capacity := header.tail, header.index.Length;
      var prevPos, i, more := prevTail, 0, true;
      while more
        invariant 0 <= i <= capacity && (more <==> i < capacity)
        invariant prevPos == if i == 0 then prevTail else Pos(prevTail, capacity - i, capacity)
        invariant forall j :: 0 <= j < i ==> index[j] == ring[capacity - 1 - j]
        decreases capacity - i
      {
        NextIsMasked(prevPos, e);
        prevPos := And(prevPos + 1, capacity - 1);
        assert prevPos == Pos(prevTail, capacity - 1 - i, capacity);
        index[i] := header.index[prevPos];
        assert header.index[..][prevPos] == ring[capacity - 1 - i];
        i := i + 1;
        more := prevPos != prevTail;
      }
    }

    /** insert_block_index_entry: reuses the oldest position if its block is gone, and otherwise doubles the index. */
    method Insert(blockStart: nat, canAlloc: bool) returns (entry: Entry?)
      requires Valid() && e < 59 && blockStart < WORD && blockStart % BLOCK_SIZE == 0
      requires window > 0 ==> blockStart == Add64(last, BLOCK_SIZE)
      modifies this, header`tail, ring`key
      ensures Valid() && (entry == null ==> ring == old(ring) && window == old(window) && last == old(last))
      ensures entry == null <==>
                !canAlloc && old(ring[|ring| - 1].key) != INVALID && old(ring[|ring| - 1].value) != None
      ensures entry != null ==> window > 0 && entry == ring[0] && last == blockStart
      ensures entry != null ==> Kept(old(ring), old(window), ring, window, entry)
      ensures entry in old(ring)[..old(window)] ==> entry.value == None
    {
      if window == |ring| {
        BaseAligned(last, window - 1);
        assert ring[window - 1].key == Base(last, window - 1) != INVALID;
      }
      entry := TryInsert(blockStart);
      if entry != null {
        return;
      }
      entry := GrowAndInsert(blockStart, canAlloc);
    }

    method GrowAndInsert(blockStart: nat, canAlloc: bool) returns (entry: Entry?)
      requires Valid() && e < 59 && blockStart < WORD && blockStart % BLOCK_SIZE == 0
      requires window > 0 ==> blockStart == Add64(last, BLOCK_SIZE)
      modifies this
      ensures Valid() && (entry == null <==> !canAlloc)
      ensures entry == null ==> ring == old(ring) && window == old(window) && last == old(last)
      ensures entry != null ==> last == blockStart && window == old(window) + 1 && [entry] + old(ring) <= ring
      ensures entry != null ==> fresh(entry) && Kept(old(ring), old(window), ring, window, null)
    {
      var ok := NewBlockIndex(canAlloc);
      if !ok {
        return null;
      }
      ghost var doubled := ring;
      entry := TryInsert(blockStart);
      assert ring == [entry] + doubled[..|doubled| - 1];
    }

    /** The position behind the tail is free if it was never used or its block was emptied. */
    method TryInsert(blockStart: nat) returns (entry: Entry?)
      requires Valid() && blockStart < WORD && blockStart % BLOCK_SIZE == 0
      requires window > 0 ==> blockStart == Add64(last, BLOCK_SIZE)
      modifies this`ring, this`window, this`last, header`tail, ring[|ring| - 1..]`key
      ensures Valid()
      ensures var found := old(ring[|ring| - 1]);
        if old(found.key) != INVALID && found.value != None then
          entry == null && ring == old(ring) && window == old(window) && last == old(last) &&
            header.tail == old(header.tail) && found.key == old(found.key)
        else
          && entry == found && ring == [found] + old(ring)[..|old(ring)| - 1] && last == blockStart
          && Kept(old(ring), old(window), ring, window, found)
          && window == if old(window) == |ring| then |ring| else old(window) + 1
    {
      NextIsMasked(header.tail, e);
      var newTail := And(header.tail + 1, header.index.Length - 1);
      assert newTail == Pos(header.tail, Pow2(e) - 1, Pow2(e)) && header.index[..][newTail] == ring[|ring| - 1];
      var found := header.index[newTail];
      if found.key != INVALID && found.value != None {
        return null;
      }
      entry := found;
      Reuse(found, newTail, blockStart);
    }

    method Reuse(entry: Entry, newTail: nat, blockStart: nat)
      requires Valid() && blockStart < WORD && blockStart % BLOCK_SIZE == 0
      requires window > 0 ==> blockStart == Add64(last, BLOCK_SIZE)
      requires newTail == Next(header.tail, header.index.Length) && entry == ring[|ring| - 1]
      modifies this`ring, this`window, this`last, header`tail, entry`key
      ensures Valid() && ring == [entry] + old(ring)[..|old(ring)| - 1] && last == blockStart
      ensures Kept(old(ring), old(window), ring, window, entry)
      ensures window == if old(window) == |ring| then |ring| else old(window) + 1
    {
      RotatedRing(header.index[..], header.tail, ring, newTail);
      ghost var w := if window == |ring| then |ring| else window + 1;
      Rekey(entry, blockStart, ring, window, last, [entry] + ring[..|ring| - 1], w);
      header.tail := newTail;
      ring := [entry] + ring[..|ring| - 1];
      window := w;
      last := blockStart;
    }

    /** Gives the entry that comes to the front the next base. */
    method Rekey(entry: Entry, blockStart: nat, ghost was: seq<Entry?>, ghost wasWindow: nat, ghost wasLast: nat,
                 ghost now: seq<Entry?>, ghost nowWindow: nat)
      requires AllDifferent(was) && was != [] && entry == was[|was| - 1] && now == [entry] + was[..|was| - 1]
      requires Bases(was, wasWindow, wasLast) && nowWindow <= wasWindow + 1 && nowWindow <= |was|
      requires wasLast < WORD && blockStart < WORD && (wasWindow > 0 ==> blockStart == Add64(wasLast, BLOCK_SIZE))
      modifies entry`key
      ensures Bases(now, nowWindow, blockStart)
    {
      entry.key := blockStart;
      BasesShift(wasLast, blockStart);
      forall k | 1 <= k < nowWindow ensures now[k] != null && now[k].key == Base(blockStart, k) {
        assert now[k] == was[k - 1] && was[k - 1] != was[|was| - 1];
        assert Base(blockStart, (k - 1) + 1) == Base(wasLast, k - 1);
      }
    }

    /** rewind_block_index_tail: the newest block is taken back. */
    method Rewind()
      requires Valid() && window > 0
      modifies this`ring, this`window, this`last, header`tail
      ensures Valid() && window == old(window) - 1 && ring == old(ring)[1..] + [old(ring)[0]]
    {
      PrevIsMasked(header.tail, e);
      var newTail := And(Sub64(header.tail, 1), header.index.Length - 1);
      RewoundRing(header.index[..], header.tail, ring, newTail);
      header.tail := newTail;
      ring := ring[1..] + [ring[0]];
      window := window - 1;
      last := Base(last, 1);
      BaseAligned(old(last), 1);
      BaseBack(old(last));
      forall k | 0 <= k < window ensures ring[k].key == Base(last, k) {
        BaseShift(last, old(last), k);
      }
    }
  }

  lemma BasesShift(last: nat, next: nat)
    requires last < WORD && next < WORD
    ensures Base(next, 0) == next
    ensures next == Add64(last, BLOCK_SIZE) ==> forall k: nat :: Base(next, k + 1) == Base(last, k)
  {
    ModUnique(next, WORD, 0, next);
    if next == Add64(last, BLOCK_SIZE) {
      forall k: nat ensures Base(next, k + 1) == Base(last, k) {
        BaseShift(last, next, k);
      }
    }
  }

  lemma BaseBack(last: nat)
    requires last < WORD
    ensures last == Add64(Base(last, 1), BLOCK_SIZE)
  {
    Euclid(last - BLOCK_SIZE, WORD);
    ModUnique(Base(last, 1) + BLOCK_SIZE, WORD, 0 - (last - BLOCK_SIZE) / WORD, last);
  }

  function Reversed<T>(s: seq<T>): (r: seq<T>)
    ensures |r| == |s| && forall i :: 0 <= i < |s| ==> r[i] == s[|s| - 1 - i]
  {
    seq(|s|, i requires 0 <= i < |s| => s[|s| - 1 - i])
  }

  lemma ReversedDiffer(es: seq<Entry?>)
    requires AllDifferent(es)
    ensures AllDifferent(Reversed(es))
  {
  }

  /** Behind the old ring, filled in backwards, the new entries continue it. */
  lemma DoubledRing(index: seq<Entry?>, ring: seq<Entry?>, added: seq<Entry?>)
    requires |ring| == |added| > 0 && |index| == 2 * |ring| && AllDifferent(index)
    requires index[..|ring|] == Reversed(ring) && added == Reversed(index[|ring|..])
    ensures IsRing(index, |ring| - 1, ring + added)
  {
    var n, all := |ring|, ring + added;
    forall k: nat | k < 2 * n ensures index[Pos(n - 1, k, 2 * n)] == all[k] {
      if k < n {
        assert index[..n][n - 1 - k] == ring[k];
      } else {
        assert index[n..][2 * n - 1 - k] == added[k - n];
      }
    }
    forall j, k | 0 <= j < k < 2 * n ensures all[j] != all[k] {
      assert index[Pos(n - 1, j, 2 * n)] == all[j] && index[Pos(n - 1, k, 2 * n)] == all[k];
    }
    forall j | 0 <= j < 2 * n ensures all[j] != null {
      assert index[Pos(n - 1, j, 2 * n)] == all[j];
    }
  }

  lemma RotatedRing(index: seq<Entry?>, tail: nat, ring: seq<Entry?>, newTail: nat)
    requires IsRing(index, tail, ring) && newTail == Next(tail, |index|)
    ensures IsRing(index, newTail, [ring[|ring| - 1]] + ring[..|ring| - 1])
  {
    var n, ring' := |ring|, [ring[|ring| - 1]] + ring[..|ring| - 1];
    forall k: nat | k < n ensures index[Pos(newTail, k, n)] == ring'[k] {
      assert Pos(newTail, k, n) == Pos(tail, if k == 0 then n - 1 else k - 1, n);
    }
  }

  lemma RewoundRing(index: seq<Entry?>, tail: nat, ring: seq<Entry?>, newTail: nat)
    requires IsRing(index, tail, ring) && newTail == if |index| == 1 then 0 else Pos(tail, 1, |index|)
    ensures IsRing(index, newTail, ring[1..] + [ring[0]])
  {
    var n, ring' := |ring|, ring[1..] + [ring[0]];
    forall k: nat | k < n ensures index[Pos(newTail, k, n)] == ring'[k] {
      assert Pos(newTail, k, n) == Pos(tail, if k == n - 1 then 0 else k + 1, n);
    }
  }

  /** Puts new entries at positions n.. of an index whose first n entries are old and different. */
  method NewEntries(index: array<Entry?>, n: nat)
    requires n <= index.Length && AllDifferent(index[..n])
    modifies index
    ensures AllDifferent(index[..]) && index[..n] == old(index[..n])
    ensures forall i :: n <= i < index.Length ==> fresh(index[i]) && index[i].key == INVALID && index[i].value == None
  {
    for i := n to index.Length
      invariant AllDifferent(index[..i]) && index[..n] == old(index[..n])
      invariant forall k :: n <= k < i ==> fresh(index[k]) && index[k].key == INVALID && index[k].value == None
    {
      var entry := new Entry();
      index[i] := entry;
      assert index[..i + 1] == index[..i] + [entry];
    }
    assert index[..index.Length] == index[..];
  }
}

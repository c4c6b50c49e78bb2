/**
 The block index of an implicit producer, shared: the producer inserts, withdraws and publishes blocks and
 doubles the index while any number of consumers look up blocks, one load or store at a time.
 */
module IndexRuns {
  import opened Basics
  import opened Modulo
  import opened BlockIndex

  // ------------------------------------------------------------------ the machine

  /** The entry of a block: which block it was last given to, and whether that block is still there. */
  datatype Cell = Unused | Used(number: nat, live: bool)

  /** The first index of a block, in 64 bits. */
  function Word(n: nat): nat {
    BLOCK_SIZE * n % WORD
  }

  function Key(c: Cell): nat {
    if c.Unused? then INVALID else Word(c.number)
  }

  predicate Live(c: Cell) {
    c.Used? && c.live
  }

  /** The cells that the 2^e slots of an index point to; history: the block that slot 0 is for. */
  datatype Ring = Ring(slots: seq<nat>, e: nat, first: int)

  /** An index header: its ring never changes. */
  datatype Index = Index(ring: Ring, tail: nat)

  /** What the producer does next: advance the tail, fill in the block, or take back block i or the tail. */
  datatype Pc = Idle | Keyed(slot: nat) | Placed(cell: nat) | Undo(i: nat) | Rewinding(i: nat)

  /** What a lookup does next; history: the block m whose base was loaded. */
  datatype Look =
    | LoadIndex
    | LoadTail(h: nat)
    | LoadKey(h: nat, tail: nat)
    | LoadCell(h: nat, tail: nat, base: nat, m: nat)
    | Found(h: nat, slot: nat)

  /** A lookup of element d of block n, by a consumer that also has elements of the next `more` blocks. */
  datatype Lookup = Lookup(n: nat, more: nat, d: nat, at: Look)

  /**
   All indexes there have been, the newest last; how many blocks are in the index, and how many of them the
   consumers may know of.
   */
  datatype State = State(cells: seq<Cell>, indexes: seq<Index>, next: nat, published: nat, producer: Pc,
                         lookups: map<nat, Lookup>)

  datatype Action =
    | Insert(canAlloc: bool)
    | Advance
    | Fill
    | Fail
    | StartUndo
    | TakeBack
    | Rewind
    | Publish
    | StartLookup(t: nat, n: nat, more: nat, d: nat)
    | Tick(t: nat)
    | Proceed(t: nat)
    | Return(t: nat)
    | Empty(cell: nat)

  function Init(e: nat): State {
    var c := Pow2(e);
    State(Repeat(Unused, c), [Index(Ring(seq(c, i => i), e, 0), c - 1)], 0, 0, Idle, map[])
  }

  const NO_INDEX := Index(Ring([], 0, 0), 0)

  function Newest(s: State): Index {
    if s.indexes == [] then NO_INDEX else s.indexes[|s.indexes| - 1]
  }

  function WithTail(s: State, tail: nat): State {
    if s.indexes == [] then s else s.(indexes := s.indexes[|s.indexes| - 1 := Newest(s).(tail := tail)])
  }

  function CellAt(s: State, r: Ring, p: int): Cell {
    if 0 <= p < |r.slots| && r.slots[p] < |s.cells| then s.cells[r.slots[p]] else Unused
  }

  function SlotCell(r: Ring, p: int): nat {
    if 0 <= p < |r.slots| then r.slots[p] else 0
  }

  function SetCell(s: State, id: nat, c: Cell): State {
    if id < |s.cells| then s.(cells := s.cells[id := c]) else s
  }

  /** Stores a block, or nothing, in an entry. */
  function SetValue(s: State, id: nat, live: bool): State {
    if id < |s.cells| && s.cells[id].Used? then s.(cells := s.cells[id := s.cells[id].(live := live)]) else s
  }

  /** insert_block_index_entry: takes the slot behind the tail, or makes room for it. */
  function InsertStep(s: State, canAlloc: bool): State {
    var r := Newest(s).ring;
    if !s.producer.Idle? || r.slots == [] then s else
    var slot := And(Newest(s).tail + 1, |r.slots| - 1);
    var c := CellAt(s, r, slot);
    if Key(c) == INVALID || !Live(c) then
      SetCell(s, SlotCell(r, slot), Used(s.next, false)).(producer := Keyed(slot))
    else if canAlloc && r.e < 59 then
      s.(cells := s.cells + Repeat(Unused, |r.slots|),
         indexes := s.indexes + [Index(Doubled(r, Newest(s).tail, |s.cells|, s.next), |r.slots| - 1)])
    else s
  }

  /** new_block_index: the old entries, from the oldest to the newest, and as many new ones. */
  function Doubled(r: Ring, tail: nat, cells: nat, next: nat): Ring
    requires r.slots != []
  {
    var c := |r.slots|;
    Ring(seq(2 * c, i => if 0 <= i < c then r.slots[(tail + 1 + i) % c] else cells + i - c), r.e + 1, next - c)
  }

  /** Which entry a word's is, by the tail and the key that were loaded. */
  function Finds(r: Ring, word: nat, tail: nat, base: nat): nat {
    if r.slots == [] then 0 else SlotCell(r, Locate(word, tail, base, |r.slots|))
  }

  function ProducerStep(s: State, a: Action): State {
    var h := Newest(s);
    match a
    case Insert(canAlloc) => InsertStep(s, canAlloc)
    case Advance =>
      if s.producer.Keyed? then
        var slot := s.producer.slot;
        WithTail(s, slot).(next := s.next + 1, producer := Placed(SlotCell(h.ring, slot)))
      else s
    case Fill =>
      if s.producer.Placed? then SetValue(s, s.producer.cell, true).(producer := Idle) else s
    case Fail => if s.producer.Placed? then s.(producer := Rewinding(s.published)) else s
    case StartUndo =>
      if s.producer.Idle? && s.published < s.next then s.(producer := Undo(s.published)) else s
    case TakeBack =>
      if s.producer.Undo? then
        var i := s.producer.i;
        var id := Finds(h.ring, Word(i), h.tail, Key(CellAt(s, h.ring, h.tail)));
        SetValue(s, id, false).(producer := Rewinding(i + 1))
      else s
    case Rewind =>
      if s.producer.Rewinding? && s.next > 0 && h.ring.slots != [] then
        WithTail(s, And(Sub64(h.tail, 1), |h.ring.slots| - 1))
        .(next := s.next - 1, producer := if s.next - 1 == s.published then Idle else Undo(s.producer.i))
      else s
    case Publish => if s.producer.Idle? then s.(published := s.next) else s
    case _ => s
  }

  /** The block is in the index. */
  predicate InIndex(s: State, n: nat) {
    exists p :: 0 <= p < |Newest(s).ring.slots| && CellAt(s, Newest(s).ring, p) == Used(n, true)
  }

  predicate Concerns(l: Lookup, n: nat) {
    l.n <= n <= l.n + l.more
  }

  predicate LookedUp(s: State, n: nat) {
    exists t :: t in s.lookups && Concerns(s.lookups[t], n)
  }

  /** One load of get_block_index_index_for_index, or the lookup's end. */
  function LookStep(s: State, l: Lookup): Look {
    match l.at
    case LoadIndex => if s.indexes == [] then l.at else LoadTail(|s.indexes| - 1)
    case LoadTail(h) => if h < |s.indexes| then LoadKey(h, s.indexes[h].tail) else l.at
    case LoadKey(h, tail) =>
      if h >= |s.indexes| then l.at else
      var c := CellAt(s, s.indexes[h].ring, tail);
      if c.Used? then LoadCell(h, tail, Key(c), c.number) else l.at
    case LoadCell(h, tail, base, _) =>
      if h < |s.indexes| && s.indexes[h].ring.slots != [] then
        Found(h, Locate(Word(l.n) + l.d, tail, base, |s.indexes[h].ring.slots|))
      else l.at
    case Found(_, _) => l.at
  }

  /** dequeue_bulk goes on with the next slot of the index it has loaded. */
  function ProceedStep(s: State, l: Lookup): Lookup {
    if l.at.Found? && l.more > 0 && l.at.h < |s.indexes| && s.indexes[l.at.h].ring.slots != [] then
      Lookup(l.n + 1, l.more - 1, l.d, Found(l.at.h, And(l.at.slot + 1, |s.indexes[l.at.h].ring.slots| - 1)))
    else l
  }

  /**
   A consumer looks up a block that it has an element of, and the block is emptied only after all of its
   elements were looked up and taken.
   */
  function ConsumerStep(s: State, a: Action): State {
    match a
    case StartLookup(t, n, more, d) =>
      if t !in s.lookups && n + more < s.published && d < BLOCK_SIZE
         && (forall m :: n <= m <= n + more ==> InIndex(s, m)) then
        s.(lookups := s.lookups[t := Lookup(n, more, d, LoadIndex)])
      else s
    case Tick(t) =>
      if t in s.lookups then
        s.(lookups := s.lookups[t := s.lookups[t].(at := LookStep(s, s.lookups[t]))])
      else s
    case Proceed(t) =>
      if t in s.lookups then s.(lookups := s.lookups[t := ProceedStep(s, s.lookups[t])]) else s
    case Return(t) => s.(lookups := s.lookups - {t})
    case Empty(id) =>
      if id < |s.cells| && s.cells[id].Used? && s.cells[id].number < s.published
         && !LookedUp(s, s.cells[id].number) then
        SetValue(s, id, false)
      else s
    case _ => s
  }

  function Step(s: State, a: Action): State {
    if a.StartLookup? || a.Tick? || a.Proceed? || a.Return? || a.Empty? then ConsumerStep(s, a)
    else ProducerStep(s, a)
  }

  function Run(e: nat, acts: seq<Action>): State {
    if acts == [] then Init(e) else Step(Run(e, acts[..|acts| - 1]), acts[|acts| - 1])
  }

  // ------------------------------------------------------------------ slots

  /** The slot of block n. */
  function Slot(r: Ring, n: int): (p: nat)
    ensures p < Pow2(r.e)
  {
    (n - r.first) % Pow2(r.e)
  }

  lemma MultipleSame(a: int, b: int, c: nat)
    requires c > 0
    ensures a % c == b % c <==> (a - b) % c == 0
  {
    Euclid(a, c);
    Euclid(b, c);
    Euclid(a - b, c);
    if a % c == b % c {
      assert c * (a / c - b / c) == c * (a / c) - c * (b / c);
      ModUnique(a - b, c, a / c - b / c, 0);
    }
    if (a - b) % c == 0 {
      var q := (a - b) / c;
      assert c * (b / c + q) == c * (b / c) + c * q;
      ModUnique(a, c, b / c + q, b % c);
    }
  }

  /** Blocks with the same slot in an index have the same slot in every smaller one. */
  lemma SameSlot(r: Ring, r': Ring, a: int, b: int)
    requires Slot(r, a) == Slot(r, b) && r'.e <= r.e
    ensures Slot(r', a) == Slot(r', b)
  {
    MultipleSame(a - r.first, b - r.first, Pow2(r.e));
    Pow2Add(r.e - r'.e, r'.e);
    FactorDivides(a - b, Pow2(r.e - r'.e), Pow2(r'.e));
    MultipleSame(a - r'.first, b - r'.first, Pow2(r'.e));
  }

  lemma FactorDivides(x: int, k: nat, c: nat)
    requires k > 0 && c > 0 && k * c > 0 && x % (k * c) == 0
    ensures x % c == 0
  {
    Euclid(x, k * c);
    var q := x / (k * c);
    assert (k * c) * q == c * (k * q);
    ModUnique(x, c, k * q, 0);
  }

  lemma SlotsDiffer(r: Ring, a: int, b: int)
    requires a < b < a + Pow2(r.e)
    ensures Slot(r, a) != Slot(r, b)
  {
    RemaindersDiffer(a - r.first, b - r.first, Pow2(r.e));
  }

  lemma SlotAgain(r: Ring, n: int)
    ensures Slot(r, n - Pow2(r.e)) == Slot(r, n)
  {
    var c: int := Pow2(r.e);
    MultipleSame(n - c - r.first, n - r.first, c);
    assert (n - c - r.first) - (n - r.first) == -c;
    ModUnique(-c, c, -1, 0);
  }

  lemma SlotBehind(r: Ring, n: int)
    requires r.e <= 63
    ensures Slot(r, n + 1) == And(Slot(r, n) + 1, Pow2(r.e) - 1)
    ensures Slot(r, n) == And(Sub64(Slot(r, n + 1), 1), Pow2(r.e) - 1)
  {
    var c, x := Pow2(r.e), n - r.first;
    Euclid(x, c);
    NextIsMasked(Slot(r, n), r.e);
    if x % c + 1 == c {
      assert c * (x / c + 1) == c * (x / c) + c;
      ModUnique(x + 1, c, x / c + 1, 0);
    } else {
      ModUnique(x + 1, c, x / c, x % c + 1);
    }
    PrevIsMasked(Slot(r, n + 1), r.e);
  }

  /** A lookup by the base of any block that has the slot of the tail lands on the slot of its block. */
  lemma LocateIsSlot(r: Ring, n: nat, d: nat, m: nat)
    requires r.e <= 59 && d < BLOCK_SIZE
    ensures Locate(Word(n) + d, Slot(r, m), Word(m), Pow2(r.e)) == Slot(r, n)
  {
    var t, c, w := Slot(r, m), Pow2(r.e), Pow2(59);
    var k := (m - n) % w;
    Euclid(m - n, w);
    Pow2Values();
    WordBehind(n, m, k);
    WordAligned(m);
    LocateIs(Word(n) + d, Word(m), k, t, r.e);
    var x := if k == 0 then t else t + w - k;
    SlotFrom(r, n, m, x);
    if k == 0 {
      ModUnique(t, c, 0, t);
    }
  }

  lemma WordAligned(m: nat)
    ensures Word(m) < WORD && Word(m) % BLOCK_SIZE == 0
  {
    var q := BLOCK_SIZE * m / WORD;
    assert BLOCK_SIZE * m == WORD * q + Word(m);
    assert Word(m) == BLOCK_SIZE * (m - (WORD / BLOCK_SIZE) * q);
  }

  lemma WordBehind(n: nat, m: nat, k: nat)
    requires k == (m - n) % (WORD / BLOCK_SIZE)
    ensures Base(Word(m), k) == Word(n)
  {
    var w := WORD / BLOCK_SIZE;
    Euclid(m - n, w);
    var q, q1, q2 := (m - n) / w, BLOCK_SIZE * m / WORD, BLOCK_SIZE * n / WORD;
    assert BLOCK_SIZE * m == WORD * q1 + Word(m) && BLOCK_SIZE * n == WORD * q2 + Word(n);
    assert BLOCK_SIZE * (m - n) == WORD * q + BLOCK_SIZE * k;
    ModUnique(Word(m) - BLOCK_SIZE * k, WORD, q + q2 - q1, Word(n));
  }

  lemma SlotFrom(r: Ring, n: nat, m: nat, x: nat)
    requires r.e <= 59
    requires var k := (m - n) % Pow2(59); x == if k == 0 then Slot(r, m) else Slot(r, m) + Pow2(59) - k
    ensures x % Pow2(r.e) == Slot(r, n)
  {
    Pow2Add(59 - r.e, r.e);
    FromTail(n - r.first, m - r.first, Pow2(59 - r.e), Pow2(r.e), Pow2(59), x);
    MultipleSame(x, n - r.first, Pow2(r.e));
  }

  lemma FromTail(y: int, z: int, k: nat, c: nat, w: nat, x: int)
    requires c > 0 && w > 0 && w == k * c
    requires x == z % c + if (z - y) % w == 0 then 0 else w - (z - y) % w
    ensures (x - y) % c == 0
  {
    Euclid(z - y, w);
    Euclid(z, c);
    var q, q1 := (z - y) / w, z / c;
    if (z - y) % w == 0 {
      SumOfMultiples(x - y, k, c, q, q1);
    } else {
      assert w * (q + 1) == w * q + w;
      SumOfMultiples(x - y, k, c, q + 1, q1);
    }
  }

  lemma SumOfMultiples(x: int, r: nat, c: nat, q: int, q1: int)
    requires c > 0 && x == (r * c) * q - c * q1
    ensures x % c == 0
  {
    assert (r * c) * q == c * (r * q);
    assert c * (r * q - q1) == c * (r * q) - c * q1;
    ModUnique(x, c, r * q - q1, 0);
  }

  // ------------------------------------------------------------------ what every step keeps

  /** Every entry is in the slot of the block it was last given to. */
  ghost predicate RingOk(s: State, r: Ring) {
    && r.e <= 59 && |r.slots| == Pow2(r.e)
    && (forall p :: 0 <= p < |r.slots| ==> r.slots[p] < |s.cells|)
    && (forall p {:trigger r.slots[p]} :: 0 <= p < |r.slots| && CellAt(s, r, p).Used? ==>
        Slot(r, CellAt(s, r, p).number) == p)
  }

  ghost predicate AllUsed(s: State, r: Ring) {
    forall p {:trigger r.slots[p]} :: 0 <= p < |r.slots| ==> CellAt(s, r, p).Used?
  }

  /** The cell in the slot of block m. */
  function At(s: State, r: Ring, m: int): Cell {
    CellAt(s, r, Slot(r, m))
  }

  /** The entry is given to block m. */
  predicate Is(c: Cell, m: int) {
    c.Used? && c.number == m
  }

  /** The entry in the slot of each block. */
  function View(s: State, r: Ring): int -> Cell {
    m => At(s, r, m)
  }

  /** While the producer takes blocks back, those from `Low` to `Top` are still there. */
  function Low(published: nat, pc: Pc): nat {
    match pc
    case Undo(i) => i
    case Rewinding(i) => i
    case _ => published
  }

  function Top(next: nat, published: nat, pc: Pc): int {
    match pc
    case Undo(i) => next + i - published
    case Rewinding(i) => next - 1 + i - published
    case Placed(_) => next - 1
    case _ => next
  }

  /** What the newest index says: g gives the entry in each block's slot, `first` the first block it has a slot for. */
  datatype Book = Book(g: int -> Cell, first: int, size: nat, next: nat, published: nat, pc: Pc)

  ghost predicate ProducerOk(b: Book) {
    && b.first <= b.published <= b.next && b.published <= Low(b.published, b.pc)
    && (b.pc.Placed? || b.pc.Undo? || b.pc.Rewinding? ==> b.published < b.next)
    && (b.pc.Keyed? ==> Is(b.g(b.next), b.next) && !b.g(b.next).live)
    && (b.pc.Placed? ==> Is(b.g(b.next - 1), b.next - 1) && !b.g(b.next - 1).live)
    && (b.pc.Rewinding? ==> Is(b.g(b.next - 1), b.next - 1))
  }

  /** No slot is given to a block that is too old, and all are given to some block as far as the index goes. */
  ghost predicate WindowOk(b: Book) {
    && (forall m: nat {:trigger b.g(m)} :: Is(b.g(m), m) ==> m >= b.first && m >= b.next - b.size)
    && (forall m: nat {:trigger b.g(m)} :: b.first <= m < b.next ==> b.g(m).Used?)
  }

  /** Entries of blocks that were taken back are in front of the tail without a gap. */
  ghost predicate StaleOk(b: Book) {
    forall m: nat, j: nat {:trigger b.g(m), b.g(j)} :: Is(b.g(m), m) && b.next <= j <= m ==> Is(b.g(j), j)
  }

  /** The blocks that were not published are there, and nothing else that was not. */
  ghost predicate BlocksOk(b: Book) {
    && (forall n: nat {:trigger b.g(n)} :: b.published <= n < Top(b.next, b.published, b.pc) ==> Is(b.g(n), n))
    && (forall n: nat {:trigger b.g(n)} ::
          Low(b.published, b.pc) <= n < Top(b.next, b.published, b.pc) ==> Live(b.g(n)))
    && (forall m: nat {:trigger b.g(m)} ::
          Is(b.g(m), m) && b.g(m).live ==>
          m < b.published || Low(b.published, b.pc) <= m < Top(b.next, b.published, b.pc))
  }

  ghost predicate BookOk(b: Book) {
    ProducerOk(b) && WindowOk(b) && StaleOk(b) && BlocksOk(b)
  }

  function BookOf(s: State, r: Ring): Book {
    Book(View(s, r), r.first, Pow2(r.e), s.next, s.published, s.producer)
  }

  ghost predicate Apart(r: Ring) {
    forall p, q :: 0 <= p < q < |r.slots| ==> r.slots[p] != r.slots[q]
  }

  /** The producer remembers the right slot or entry. */
  predicate PointsRight(s: State, r: Ring) {
    && (s.producer.Keyed? ==> s.producer.slot == Slot(r, s.next))
    && (s.producer.Placed? ==> s.producer.cell == SlotCell(r, Slot(r, s.next - 1)))
  }

  /** The blocks of the lookup are there, in the slots that the ring has for them. */
  ghost predicate HasBlocks(s: State, r: Ring, l: Lookup) {
    forall m: nat {:trigger At(s, r, m)} :: Concerns(l, m) ==> At(s, r, m) == Used(m, true)
  }

  function RingOf(s: State, h: nat): Ring {
    if h < |s.indexes| then s.indexes[h].ring else NO_INDEX.ring
  }

  /** The ring that the lookup uses, or will. */
  function LookRing(s: State, l: Lookup): Ring {
    if l.at.LoadIndex? then Newest(s).ring else RingOf(s, l.at.h)
  }

  /** A lookup knows an index that has its blocks, and a base that fits the slot it was loaded from. */
  ghost predicate LookOk(s: State, l: Lookup) {
    && l.n + l.more < s.published && l.d < BLOCK_SIZE && HasBlocks(s, LookRing(s, l), l)
    && match l.at
       case LoadIndex => true
       case LoadTail(h) => h < |s.indexes|
       case LoadKey(h, tail) => h < |s.indexes| && CellAt(s, RingOf(s, h), tail).Used?
       case LoadCell(h, tail, base, m) => h < |s.indexes| && base == Word(m) && tail == Slot(RingOf(s, h), m)
       case Found(h, slot) => h < |s.indexes| && slot == Slot(RingOf(s, h), l.n)
  }

  ghost predicate OldOk(s: State, h: Index) {
    RingOk(s, h.ring) && AllUsed(s, h.ring) && h.tail < |h.ring.slots| && h.ring.e <= Newest(s).ring.e
  }

  ghost predicate IndexesOk(s: State) {
    && s.indexes != [] && RingOk(s, Newest(s).ring) && Apart(Newest(s).ring)
    && Newest(s).tail == Slot(Newest(s).ring, s.next - 1)
    && (forall k :: 0 <= k < |s.indexes| - 1 ==> OldOk(s, s.indexes[k]))
  }

  ghost predicate NewestOk(s: State, r: Ring) {
    PointsRight(s, r) && BookOk(BookOf(s, r))
  }

  ghost predicate Inv(s: State) {
    && IndexesOk(s) && NewestOk(s, Newest(s).ring) && LooksOk(s)
  }

  ghost predicate Watched(s: State, c: Cell) {
    c.Used? && c.live && LookedUp(s, c.number)
  }

  /** Used cells stay used, by blocks of the same slot, and nothing that is being looked up changes. */
  ghost predicate CellsKept(s: State, s': State, r: Ring) {
    && |s.cells| <= |s'.cells|
    && (forall id {:trigger s'.cells[id]} :: 0 <= id < |s.cells| && s.cells[id].Used? ==>
          s'.cells[id].Used? && Slot(r, s'.cells[id].number) == Slot(r, s.cells[id].number))
    && (forall id {:trigger s'.cells[id]} :: 0 <= id < |s.cells| && Watched(s, s.cells[id]) ==>
          s'.cells[id] == s.cells[id])
  }

  /** An index that stays in place stays right. */
  lemma RingStays(s: State, s': State, r: Ring, early: Ring)
    requires CellsKept(s, s', r) && RingOk(s, early) && AllUsed(s, early) && early.e <= r.e
    ensures RingOk(s', early) && AllUsed(s', early)
  {
    forall p | 0 <= p < |early.slots|
      ensures CellAt(s', early, p).Used? && Slot(early, CellAt(s', early, p).number) == p
    {
      assert CellAt(s, early, p).Used? && s'.cells[early.slots[p]].Used?;
      SameSlot(r, early, CellAt(s', early, p).number, CellAt(s, early, p).number);
    }
  }

  /** All indexes but the newest are the same, and that keeps its ring. */
  predicate SameRings(s: State, s': State) {
    && s.indexes != [] && |s'.indexes| == |s.indexes| && Newest(s').ring == Newest(s).ring
    && s'.indexes[..|s.indexes| - 1] == s.indexes[..|s.indexes| - 1]
  }

  lemma SameRing(s: State, s': State, k: nat)
    requires SameRings(s, s') && k < |s.indexes|
    ensures s'.indexes[k].ring == s.indexes[k].ring
    ensures k < |s.indexes| - 1 ==> s'.indexes[k] == s.indexes[k]
  {
    assert k < |s.indexes| - 1 ==> s'.indexes[..|s.indexes| - 1][k] == s.indexes[..|s.indexes| - 1][k];
  }

  /** After a step that changes cells and perhaps the newest tail, only the newest index is left to look at. */
  lemma IndexesStay(s: State, s': State, r: Ring)
    requires IndexesOk(s) && SameRings(s, s') && r == Newest(s).ring && CellsKept(s, s', r)
    requires RingOk(s', r) && Newest(s').tail == Slot(r, s'.next - 1)
    ensures IndexesOk(s')
  {
    forall k | 0 <= k < |s.indexes| - 1 ensures OldOk(s', s'.indexes[k]) {
      assert OldOk(s, s.indexes[k]);
      SameRing(s, s', k);
      RingStays(s, s', r, s.indexes[k].ring);
    }
  }

  lemma BlocksStay(s: State, s': State, r: Ring, early: Ring, l: Lookup)
    requires CellsKept(s, s', r) && HasBlocks(s, early, l)
    requires forall m :: Concerns(l, m) ==> LookedUp(s, m)
    ensures HasBlocks(s', early, l)
  {
    forall m: nat | Concerns(l, m) ensures At(s', early, m) == Used(m, true) {
      assert At(s, early, m) == Used(m, true) && LookedUp(s, m);
      assert s'.cells[early.slots[Slot(early, m)]] == s.cells[early.slots[Slot(early, m)]];
    }
  }

  /** What a lookup relies on stays as it is. */
  lemma LookStays(s: State, s': State, t: nat, r: Ring)
    requires t in s.lookups && LookOk(s, s.lookups[t]) && CellsKept(s, s', r)
    requires s.published <= s'.published && |s.indexes| <= |s'.indexes|
    requires forall k {:trigger s'.indexes[k]} :: 0 <= k < |s.indexes| ==> s'.indexes[k].ring == s.indexes[k].ring
    requires s.lookups[t].at.LoadIndex? ==> Newest(s').ring == Newest(s).ring
    ensures LookOk(s', s.lookups[t])
  {
    var l := s.lookups[t];
    BlocksStay(s, s', r, LookRing(s, l), l);
    if l.at.LoadKey? {
      var early := RingOf(s, l.at.h);
      assert s'.cells[early.slots[l.at.tail]].Used?;
    }
  }

  ghost predicate LooksOk(s: State) {
    forall t :: t in s.lookups ==> LookOk(s, s.lookups[t])
  }

  lemma LooksStay(s: State, s': State, r: Ring)
    requires LooksOk(s) && SameRings(s, s') && r == Newest(s).ring && CellsKept(s, s', r)
    requires s'.lookups == s.lookups && s.published <= s'.published
    ensures LooksOk(s')
  {
    forall k | 0 <= k < |s.indexes| ensures s'.indexes[k].ring == s.indexes[k].ring {
      SameRing(s, s', k);
    }
    forall t | t in s.lookups ensures LookOk(s', s.lookups[t]) {
      LookStays(s, s', t, r);
    }
  }

  // ------------------------------------------------------------------ the producer's steps

  /** Storing to the cell of block n changes what is in that slot and in no other. */
  lemma SetAt(s: State, s': State, r: Ring, n: int, c: Cell)
    requires RingOk(s, r) && Apart(r) && s'.cells == s.cells[r.slots[Slot(r, n)] := c]
    ensures forall m: int {:trigger At(s', r, m)} ::
              At(s', r, m) == if Slot(r, m) == Slot(r, n) then c else At(s, r, m)
  {
  }

  lemma SetKeepsRing(s: State, s': State, r: Ring, n: int, c: Cell)
    requires RingOk(s, r) && Apart(r) && s'.cells == s.cells[r.slots[Slot(r, n)] := c]
    requires c.Used? && Slot(r, c.number) == Slot(r, n)
    ensures RingOk(s', r)
  {
    forall p | 0 <= p < |r.slots| && CellAt(s', r, p).Used? ensures Slot(r, CellAt(s', r, p).number) == p {
      assert CellAt(s', r, p) == if p == Slot(r, n) then c else CellAt(s, r, p);
    }
  }

  /** The slot of the next block is free: its entry gets the block's base. */
  lemma KeyedBook(b: Book, b': Book, slot: int -> nat)
    requires BookOk(b) && b.pc.Idle? && !Live(b.g(b.next)) && b' == b.(g := b'.g, pc := b'.pc) && b'.pc.Keyed?
    requires forall m: int {:trigger b'.g(m)} ::
               b'.g(m) == if slot(m) == slot(b.next) then Used(b.next, false) else b.g(m)
    requires forall m: int {:trigger slot(m)} :: slot(m) == slot(b.next) ==> b.g(m) == b.g(b.next)
    ensures BookOk(b')
  {
  }

  lemma AdvancedBook(b: Book, b': Book)
    requires BookOk(b) && b.pc.Keyed? && b' == b.(next := b.next + 1, pc := b'.pc) && b'.pc.Placed?
    requires b.size > 0 && b.g(b.next - b.size) == b.g(b.next)
    ensures BookOk(b')
  {
    forall m: nat | Is(b.g(m), m) ensures m != b.next - b.size {
    }
  }

  lemma FilledBook(b: Book, b': Book, slot: int -> nat)
    requires BookOk(b) && b.pc.Placed? && b' == b.(g := b'.g, pc := Idle)
    requires forall m: int {:trigger b'.g(m)} ::
               b'.g(m) == if slot(m) == slot(b.next - 1) then Used(b.next - 1, true) else b.g(m)
    requires forall m: int {:trigger slot(m)} :: slot(m) == slot(b.next - 1) ==> b.g(m) == b.g(b.next - 1)
    ensures BookOk(b')
  {
  }

  lemma FailedBook(b: Book, b': Book)
    requires BookOk(b) && b.pc.Placed? && b' == b.(pc := Rewinding(b.published))
    ensures BookOk(b')
  {
  }

  lemma UndoingBook(b: Book, b': Book)
    requires BookOk(b) && b.pc.Idle? && b.published < b.next && b' == b.(pc := Undo(b.published))
    ensures BookOk(b')
  {
  }

  lemma TakenBackBook(b: Book, b': Book, slot: int -> nat)
    requires BookOk(b) && b.pc.Undo? && b' == b.(g := b'.g, pc := Rewinding(b.pc.i + 1))
    requires forall m: int {:trigger b'.g(m)} ::
               b'.g(m) == if slot(m) == slot(b.pc.i) then Used(b.pc.i, false) else b.g(m)
    requires forall m: int {:trigger slot(m)} :: slot(m) == slot(b.pc.i) ==> b.g(m) == b.g(b.pc.i)
    ensures BookOk(b')
  {
  }

  lemma RewoundBook(b: Book, b': Book)
    requires BookOk(b) && b.pc.Rewinding?
    requires b' == b.(next := b.next - 1, pc := if b.next - 1 == b.published then Idle else Undo(b.pc.i))
    ensures BookOk(b')
  {
  }

  lemma PublishedBook(b: Book, b': Book)
    requires BookOk(b) && b.pc.Idle? && b' == b.(published := b.next)
    ensures BookOk(b')
  {
  }

  lemma EmptiedBook(b: Book, b': Book, n: nat)
    requires BookOk(b) && n < b.published && b' == b.(g := b'.g)
    requires forall m: int {:trigger b'.g(m)} ::
               b'.g(m) == b.g(m) || (Is(b.g(m), n) && b'.g(m) == Used(n, false))
    ensures BookOk(b')
  {
  }

  lemma SameBook(b: Book, b': Book)
    requires BookOk(b) && b' == b.(g := b'.g) && forall m: int {:trigger b'.g(m)} :: b'.g(m) == b.g(m)
    ensures BookOk(b')
  {
  }

  /** A step that changes no cell, and nothing else but where the producer is. */
  lemma NoCellChanges(s: State, s': State, r: Ring)
    requires Inv(s) && r == Newest(s).ring && s'.cells == s.cells && SameRings(s, s')
    requires s'.lookups == s.lookups && s.published <= s'.published
    requires Newest(s').tail == Slot(r, s'.next - 1) && PointsRight(s', r)
    requires BookOk(BookOf(s', r).(g := View(s, r)))
    ensures Inv(s')
  {
    SameBook(BookOf(s', r).(g := View(s, r)), BookOf(s', r));
    SameCells(s, s', r);
    IndexesStay(s, s', r);
    LooksStay(s, s', r);
  }

  lemma SameCells(s: State, s': State, r: Ring)
    requires RingOk(s, r) && s'.cells == s.cells
    ensures RingOk(s', r) && CellsKept(s, s', r)
  {
    forall p | 0 <= p < |r.slots| && CellAt(s', r, p).Used? ensures Slot(r, CellAt(s', r, p).number) == p {
      assert CellAt(s', r, p) == CellAt(s, r, p);
    }
  }

  lemma AdvanceKeepsInv(s: State, s': State, r: Ring)
    requires Inv(s) && s.producer.Keyed? && r == Newest(s).ring && s' == Step(s, Advance)
    ensures Inv(s')
  {
    SlotAgain(r, s.next);
    AdvancedBook(BookOf(s, r), BookOf(s', r).(g := View(s, r)));
    NoCellChanges(s, s', r);
  }

  lemma FailKeepsInv(s: State, s': State, r: Ring)
    requires Inv(s) && s.producer.Placed? && r == Newest(s).ring && s' == Step(s, Fail)
    ensures Inv(s')
  {
    FailedBook(BookOf(s, r), BookOf(s', r).(g := View(s, r)));
    NoCellChanges(s, s', r);
  }

  lemma StartUndoKeepsInv(s: State, s': State, r: Ring)
    requires Inv(s) && s.producer.Idle? && s.published < s.next && r == Newest(s).ring && s' == Step(s, StartUndo)
    ensures Inv(s')
  {
    UndoingBook(BookOf(s, r), BookOf(s', r).(g := View(s, r)));
    NoCellChanges(s, s', r);
  }

  lemma PublishKeepsInv(s: State, s': State, r: Ring)
    requires Inv(s) && s.producer.Idle? && r == Newest(s).ring && s' == Step(s, Publish)
    ensures Inv(s')
  {
    PublishedBook(BookOf(s, r), BookOf(s', r).(g := View(s, r)));
    NoCellChanges(s, s', r);
  }

  lemma RewindKeepsInv(s: State, s': State, r: Ring)
    requires Inv(s) && s.producer.Rewinding? && r == Newest(s).ring && s' == Step(s, Rewind)
    ensures Inv(s')
  {
    SlotBehind(r, s.next - 2);
    RewoundBook(BookOf(s, r), BookOf(s', r).(g := View(s, r)));
    NoCellChanges(s, s', r);
  }

  /** A step that stores to the cell of block n. */
  lemma CellChanges(s: State, s': State, r: Ring, n: int, c: Cell)
    requires Inv(s) && r == Newest(s).ring
    requires s' == s.(cells := s.cells[r.slots[Slot(r, n)] := c], producer := s'.producer)
    requires c.Used? && Slot(r, c.number) == Slot(r, n) && PointsRight(s', r)
    requires Live(At(s, r, n)) ==> !LookedUp(s, At(s, r, n).number)
    requires BookOk(BookOf(s', r))
    ensures Inv(s')
  {
    SetKeepsRing(s, s', r, n, c);
    CellSet(s, s', r, n, c);
    IndexesStay(s, s', r);
    LooksStay(s, s', r);
  }

  lemma CellSet(s: State, s': State, r: Ring, n: int, c: Cell)
    requires RingOk(s, r) && s'.cells == s.cells[r.slots[Slot(r, n)] := c]
    requires c.Used? && Slot(r, c.number) == Slot(r, n)
    requires Live(At(s, r, n)) ==> !LookedUp(s, At(s, r, n).number)
    ensures CellsKept(s, s', r)
  {
    assert At(s, r, n) == s.cells[r.slots[Slot(r, n)]];
  }

  lemma KeyKeepsInv(s: State, s': State, r: Ring)
    requires Inv(s) && s.producer.Idle? && r == Newest(s).ring && !Live(At(s, r, s.next))
    requires var p := Slot(r, s.next);
             s' == s.(cells := s.cells[r.slots[p] := Used(s.next, false)], producer := Keyed(p))
    ensures Inv(s')
  {
    SetAt(s, s', r, s.next, Used(s.next, false));
    KeyedBook(BookOf(s, r), BookOf(s', r), m => Slot(r, m));
    CellChanges(s, s', r, s.next, Used(s.next, false));
  }

  lemma FillKeepsInv(s: State, s': State, r: Ring)
    requires Inv(s) && s.producer.Placed? && r == Newest(s).ring && s' == Step(s, Fill)
    ensures Inv(s')
  {
    var n, c := s.next - 1, Used(s.next - 1, true);
    SetAt(s, s', r, n, c);
    FilledBook(BookOf(s, r), BookOf(s', r), m => Slot(r, m));
    CellChanges(s, s', r, n, c);
  }

  /** A lookup by the tail's base, or by one that was loaded before, ends at the entry of its block. */
  lemma FindsIs(s: State, r: Ring, n: nat, d: nat, m: nat)
    requires RingOk(s, r) && d < BLOCK_SIZE
    ensures Finds(r, Word(n) + d, Slot(r, m), Word(m)) == SlotCell(r, Slot(r, n))
  {
    LocateIsSlot(r, n, d, m);
  }

  /** Undoing finds the entry of the block it is at. */
  lemma TakesBack(s: State, r: Ring)
    requires Inv(s) && s.producer.Undo? && r == Newest(s).ring
    ensures var i, tail := s.producer.i, Newest(s).tail;
            && Finds(r, Word(i), tail, Key(CellAt(s, r, tail))) == r.slots[Slot(r, i)]
            && At(s, r, i) == Used(i, true) && i >= s.published
  {
    var i, tail := s.producer.i, Newest(s).tail;
    var b := BookOf(s, r);
    assert Is(b.g(i), i) && Live(b.g(i));
    assert b.g(s.next - 1).Used?;
    FindsIs(s, r, i, 0, CellAt(s, r, tail).number);
  }

  lemma TakeBackKeepsInv(s: State, s': State, r: Ring)
    requires Inv(s) && s.producer.Undo? && r == Newest(s).ring && s' == Step(s, TakeBack)
    ensures Inv(s')
  {
    var i := s.producer.i;
    TakesBack(s, r);
    SetAt(s, s', r, i, Used(i, false));
    TakenBackBook(BookOf(s, r), BookOf(s', r), m => Slot(r, m));
    NotLookedUp(s, i);
    CellChanges(s, s', r, i, Used(i, false));
  }

  lemma NotLookedUp(s: State, i: nat)
    requires LooksOk(s) && i >= s.published
    ensures !LookedUp(s, i)
  {
  }

  // ------------------------------------------------------------------ doubling the index

  lemma SlotPlus(r: Ring, n: int, k: nat)
    ensures (Slot(r, n) + k) % Pow2(r.e) == Slot(r, n + k)
  {
    var c, x := Pow2(r.e), n - r.first;
    Euclid(x, c);
    ModUnique(x % c + k - (x + k), c, -(x / c), 0);
    MultipleSame(x % c + k, x + k, c);
  }

  /** Some block of the last `Pow2(r.e)` before n has slot p. */
  lemma SlotOfOne(r: Ring, n: int, p: nat) returns (m: int)
    requires p < Pow2(r.e)
    ensures n - Pow2(r.e) <= m < n && Slot(r, m) == p
  {
    var c, low := Pow2(r.e), n - Pow2(r.e);
    var x := r.first + p - low;
    Euclid(x, c);
    m := low + x % c;
    ModUnique(p, c, 0, p);
    ModUnique(m - (r.first + p), c, -(x / c), 0);
    MultipleSame(m - r.first, p, c);
  }

  /** The slot behind the tail has a live block: the index is full of the last blocks. */
  ghost predicate Full(b: Book) {
    && 0 <= b.next - b.size <= b.published && b.first <= b.next - b.size
    && (forall m: nat {:trigger b.g(m)} :: Is(b.g(m), m) ==> b.next - b.size <= m < b.next)
    && (forall m: nat {:trigger b.g(m)} :: b.next - b.size <= m < b.next ==> b.g(m).Used?)
  }

  lemma FullBook(b: Book)
    requires BookOk(b) && b.pc.Idle? && Live(b.g(b.next)) && b.size > 0
    requires b.g(b.next).number == b.next - b.size && Is(b.g(b.next - b.size), b.next - b.size)
    ensures Full(b)
  {
    assert forall m: nat :: m >= b.next && Is(b.g(m), m) ==> Is(b.g(b.next), b.next);
    assert b.published < b.next - b.size ==> Is(b.g(b.published), b.published);
  }

  /** The oldest block is the only one its slot can be given to while it is live. */
  lemma OldestLeft(s: State, r: Ring)
    requires Inv(s) && s.producer.Idle? && r == Newest(s).ring && Live(At(s, r, s.next))
    ensures Full(BookOf(s, r))
  {
    var b, c := BookOf(s, r), Pow2(r.e);
    var n0 := b.g(s.next).number;
    assert Slot(r, n0) == Slot(r, s.next);
    assert Is(b.g(n0), n0);
    if s.next - c < n0 < s.next {
      SlotsDiffer(r, n0, s.next);
    }
    FullBook(b);
  }

  /** The slots of a full index, from the oldest block to the newest. */
  lemma FullSlot(s: State, r: Ring, m: nat)
    requires RingOk(s, r) && Full(BookOf(s, r)) && s.next - Pow2(r.e) <= m < s.next
    ensures Is(At(s, r, m), m)
  {
    var b := BookOf(s, r);
    assert b.g(m).Used?;
    var m2 := b.g(m).number;
    assert Slot(r, m2) == Slot(r, m);
    assert Is(b.g(m2), m2);
    if m2 < m {
      SlotsDiffer(r, m2, m);
    } else if m < m2 {
      SlotsDiffer(r, m, m2);
    }
  }

  lemma FullUsed(s: State, r: Ring)
    requires RingOk(s, r) && Full(BookOf(s, r))
    ensures AllUsed(s, r)
  {
    forall p | 0 <= p < |r.slots| ensures CellAt(s, r, p).Used? {
      var m := SlotOfOne(r, s.next, p);
      FullSlot(s, r, m);
    }
  }

  ghost predicate Doubles(s: State, s': State, r: Ring, r': Ring) {
    && |r.slots| == Pow2(r.e) && r' == Doubled(r, Slot(r, s.next - 1), |s.cells|, s.next)
    && s'.cells == s.cells + Repeat(Unused, |r.slots|) && s'.next == s.next
  }

  /** The slot that the copying loop is at is that of block m. */
  lemma CopiedSlot(r: Ring, n: nat, p: nat)
    requires n > 0 && p < Pow2(r.e)
    ensures (Slot(r, n - 1) + 1 + p) % Pow2(r.e) == Slot(r, n - Pow2(r.e) + p)
  {
    SlotPlus(r, n - 1, 1 + p);
    SlotAgain(r, n + p);
    assert n + p - Pow2(r.e) == n - Pow2(r.e) + p;
  }

  /** The first half of the doubled index has the old blocks in order, and the second half is unused. */
  lemma DoubledAt(s: State, s': State, r: Ring, r': Ring, p: nat)
    requires RingOk(s, r) && Full(BookOf(s, r)) && Doubles(s, s', r, r') && p < 2 * |r.slots|
    ensures r'.slots[p] < |s'.cells|
    ensures var m := s.next - |r.slots| + p;
            if p < |r.slots| then CellAt(s', r', p) == At(s, r, m) &&
              Is(At(s, r, m), m) else CellAt(s', r', p) == Unused
  {
    var c, m := |r.slots|, s.next - |r.slots| + p;
    if p < c {
      CopiedSlot(r, s.next, p);
      FullSlot(s, r, m);
    }
  }

  lemma DoubledSlot(r: Ring, r': Ring, m: int)
    requires r'.e == r.e + 1 && r'.first <= m < r'.first + Pow2(r.e)
    ensures Slot(r', m) == m - r'.first
  {
    ModUnique(m - r'.first, Pow2(r'.e), 0, m - r'.first);
  }

  lemma DoubledRingOk(s: State, s': State, r: Ring, r': Ring)
    requires RingOk(s, r) && Full(BookOf(s, r)) && Doubles(s, s', r, r') && r.e < 59
    ensures RingOk(s', r')
  {
    forall p | 0 <= p < |r'.slots|
      ensures r'.slots[p] < |s'.cells|
      ensures CellAt(s', r', p).Used? ==> Slot(r', CellAt(s', r', p).number) == p
    {
      DoubledAt(s, s', r, r', p);
      if p < |r.slots| {
        DoubledSlot(r, r', s.next - |r.slots| + p);
      }
    }
  }

  lemma DoubledApart(s: State, s': State, r: Ring, r': Ring)
    requires RingOk(s, r) && Apart(r) && Doubles(s, s', r, r')
    ensures Apart(r')
  {
    var c, n := |r.slots|, s.next - 1;
    forall p, q | 0 <= p < q < |r'.slots| ensures r'.slots[p] != r'.slots[q] {
      if q < c {
        SlotPlus(r, n, 1 + p);
        SlotPlus(r, n, 1 + q);
        SlotsDiffer(r, n + 1 + p, n + 1 + q);
      } else if p < c {
        assert r.slots[(Slot(r, n) + 1 + p) % c] < |s.cells|;
      }
    }
  }

  /** The doubled index has the blocks of the old one. */
  lemma DoubledView(s: State, s': State, r: Ring, r': Ring, m: nat)
    requires RingOk(s, r) && Full(BookOf(s, r)) && Doubles(s, s', r, r')
    ensures if s.next - |r.slots| <= m < s.next then At(s', r', m) == At(s, r, m) else !Is(At(s', r', m), m)
  {
    var low := s.next - |r.slots|;
    DoubledAt(s, s', r, r', Slot(r', m));
    if low <= m < s.next {
      DoubledSlot(r, r', m);
    }
  }

  lemma DoubledBook(b: Book, b': Book)
    requires BookOk(b) && b.pc.Idle? && Full(b)
    requires b' == b.(g := b'.g, first := b.next - b.size, size := 2 * b.size)
    requires forall m: nat {:trigger b'.g(m)} ::
               if b.next - b.size <= m < b.next then b'.g(m) == b.g(m) else !Is(b'.g(m), m)
    ensures BookOk(b')
  {
  }

  ghost predicate Grows(s: State, s': State, r: Ring, r': Ring) {
    && Doubles(s, s', r, r') && s'.indexes == s.indexes + [Index(r', |r.slots| - 1)]
    && s'.published == s.published && s'.producer == s.producer && s'.lookups == s.lookups
  }

  lemma GrowKeepsIndexes(s: State, s': State, r: Ring, r': Ring)
    requires IndexesOk(s) && r == Newest(s).ring && Grows(s, s', r, r') && r.e < 59 && Full(BookOf(s, r))
    ensures IndexesOk(s')
  {
    DoubledRingOk(s, s', r, r');
    DoubledApart(s, s', r, r');
    DoubledSlot(r, r', s.next - 1);
    FullUsed(s, r);
    GrowKeepsCells(s, s', r);
    forall k | 0 <= k < |s.indexes| ensures OldOk(s', s'.indexes[k]) {
      assert k < |s.indexes| - 1 ==> OldOk(s, s.indexes[k]);
      RingStays(s, s', r, s.indexes[k].ring);
    }
  }

  lemma GrowKeepsCells(s: State, s': State, r: Ring)
    requires s'.cells == s.cells + Repeat(Unused, |r.slots|)
    ensures CellsKept(s, s', r)
  {
  }

  lemma GrowKeepsLooks(s: State, s': State, r: Ring, r': Ring)
    requires LooksOk(s) && RingOk(s, r) && s.indexes != [] && r == Newest(s).ring && Grows(s, s', r, r')
    requires Full(BookOf(s, r))
    ensures LooksOk(s')
  {
    GrowKeepsCells(s, s', r);
    forall t | t in s.lookups ensures LookOk(s', s.lookups[t]) {
      var l := s.lookups[t];
      assert LookOk(s, l);
      if l.at.LoadIndex? {
        forall m: nat | Concerns(l, m) ensures At(s', r', m) == Used(m, true) {
          assert Is(BookOf(s, r).g(m), m);
          DoubledView(s, s', r, r', m);
        }
      } else {
        LookStays(s, s', t, r);
      }
    }
  }

  lemma GrowKeepsInv(s: State, s': State, r: Ring, r': Ring)
    requires Inv(s) && s.producer.Idle? && r == Newest(s).ring && Live(At(s, r, s.next)) && r.e < 59
    requires Grows(s, s', r, r')
    ensures Inv(s')
  {
    OldestLeft(s, r);
    GrowKeepsIndexes(s, s', r, r');
    GrowKeepsLooks(s, s', r, r');
    forall m: nat
      ensures if s.next - |r.slots| <= m < s.next then At(s', r', m) == At(s, r, m) else !Is(At(s', r', m), m)
    {
      DoubledView(s, s', r, r', m);
    }
    DoubledBook(BookOf(s, r), BookOf(s', r'));
  }

  lemma InsertKeepsInv(s: State, canAlloc: bool)
    requires Inv(s) && s.producer.Idle?
    ensures Inv(Step(s, Insert(canAlloc)))
  {
    var r, s' := Newest(s).ring, Step(s, Insert(canAlloc));
    NextSlot(s, r);
    KeyOfUsed(At(s, r, s.next));
    if !Live(At(s, r, s.next)) {
      KeyKeepsInv(s, s', r);
    } else if canAlloc && r.e < 59 {
      GrowKeepsInv(s, s', r, Newest(s').ring);
    }
  }

  lemma NextSlot(s: State, r: Ring)
    requires IndexesOk(s) && r == Newest(s).ring
    ensures And(Newest(s).tail + 1, |r.slots| - 1) == Slot(r, s.next)
  {
    SlotBehind(r, s.next - 1);
  }

  /** No block starts at an odd index. */
  lemma KeyOfUsed(c: Cell)
    ensures Key(c) == INVALID <==> c.Unused?
  {
    if c.Used? {
      WordAligned(c.number);
    }
  }

  // ------------------------------------------------------------------ the consumers' steps

  /** How many loads the lookup has made. */
  function Stage(l: Look): nat {
    match l
    case LoadIndex => 0
    case LoadTail(_) => 1
    case LoadKey(_, _) => 2
    case LoadCell(_, _, _, _) => 3
    case Found(_, _) => 4
  }

  /** A lookup's load, and its end. */
  lemma LookGoesOn(s: State, l: Lookup)
    requires Inv(s) && LookOk(s, l)
    ensures LookOk(s, l.(at := LookStep(s, l)))
    ensures !l.at.Found? ==> Stage(LookStep(s, l)) == Stage(l.at) + 1
  {
    var l' := l.(at := LookStep(s, l));
    assert HasBlocks(s, LookRing(s, l), l) ==> HasBlocks(s, LookRing(s, l), l');
    match l.at {
      case LoadIndex =>
      case LoadTail(h) => TailUsed(s, l.n, h);
      case LoadKey(h, tail) =>
        RingAt(s, h);
      case LoadCell(h, tail, base, m) =>
        RingAt(s, h);
        LocateIsSlot(RingOf(s, h), l.n, l.d, m);
      case Found(_, _) =>
    }
  }

  lemma ProceedGoesOn(s: State, l: Lookup)
    requires Inv(s) && LookOk(s, l)
    ensures LookOk(s, ProceedStep(s, l))
  {
    if l.at.Found? && l.more > 0 {
      RingAt(s, l.at.h);
      SlotBehind(RingOf(s, l.at.h), l.n);
      assert forall m :: Concerns(ProceedStep(s, l), m) ==> Concerns(l, m);
    }
  }

  lemma RingAt(s: State, h: nat)
    requires IndexesOk(s) && h < |s.indexes|
    ensures RingOk(s, RingOf(s, h))
  {
    assert h < |s.indexes| - 1 ==> OldOk(s, s.indexes[h]);
  }

  /** While there is a block to look up, the tail's entry is in use. */
  lemma TailUsed(s: State, n: nat, h: nat)
    requires Inv(s) && h < |s.indexes| && At(s, RingOf(s, h), n) == Used(n, true) && n < s.published
    ensures CellAt(s, RingOf(s, h), s.indexes[h].tail).Used?
  {
    if h < |s.indexes| - 1 {
      assert OldOk(s, s.indexes[h]);
    } else {
      var b := BookOf(s, Newest(s).ring);
      assert Is(b.g(n), n);
      assert b.g(s.next - 1).Used?;
    }
  }

  lemma StartKeepsInv(s: State, t: nat, n: nat, more: nat, d: nat)
    requires Inv(s) && t !in s.lookups && n + more < s.published && d < BLOCK_SIZE
    requires forall m :: n <= m <= n + more ==> InIndex(s, m)
    ensures Inv(Step(s, StartLookup(t, n, more, d)))
  {
    var r, l := Newest(s).ring, Lookup(n, more, d, LoadIndex);
    forall m: nat | Concerns(l, m) ensures At(s, r, m) == Used(m, true) {
      assert InIndex(s, m);
      var p :| 0 <= p < |r.slots| && CellAt(s, r, p) == Used(m, true);
      assert r.slots[p] < |s.cells| && Slot(r, m) == p;
    }
    LookupsChange(s, Step(s, StartLookup(t, n, more, d)), r);
  }

  lemma LookSame(s: State, s': State, l: Lookup)
    requires LookOk(s, l) && s'.cells == s.cells && s'.indexes == s.indexes && s'.published == s.published
    ensures LookOk(s', l)
  {
    var r := LookRing(s, l);
    forall m: nat | Concerns(l, m) ensures At(s', r, m) == Used(m, true) {
      assert At(s, r, m) == Used(m, true);
    }
  }

  lemma LookupsChange(s: State, s': State, r: Ring)
    requires Inv(s) && r == Newest(s).ring && s' == s.(lookups := s'.lookups)
    requires forall t :: t in s'.lookups ==> LookOk(s, s'.lookups[t])
    ensures Inv(s')
  {
    forall t | t in s'.lookups ensures LookOk(s', s'.lookups[t]) {
      LookSame(s, s', s'.lookups[t]);
    }
    SameBook(BookOf(s, r), BookOf(s', r));
    SameCells(s, s', r);
    IndexesStay(s, s', r);
  }

  lemma TickKeepsInv(s: State, t: nat)
    requires Inv(s) && t in s.lookups
    ensures Inv(Step(s, Tick(t)))
  {
    LookGoesOn(s, s.lookups[t]);
    LookupsChange(s, Step(s, Tick(t)), Newest(s).ring);
  }

  lemma ProceedKeepsInv(s: State, t: nat)
    requires Inv(s) && t in s.lookups
    ensures Inv(Step(s, Proceed(t)))
  {
    ProceedGoesOn(s, s.lookups[t]);
    LookupsChange(s, Step(s, Proceed(t)), Newest(s).ring);
  }

  lemma EmptiedRing(s: State, s': State, r: Ring, id: nat)
    requires RingOk(s, r) && id < |s.cells| && s.cells[id].Used? && !LookedUp(s, s.cells[id].number)
    requires s'.cells == s.cells[id := Used(s.cells[id].number, false)]
    ensures RingOk(s', r) && CellsKept(s, s', r)
  {
    forall p | 0 <= p < |r.slots| && CellAt(s', r, p).Used? ensures Slot(r, CellAt(s', r, p).number) == p {
      assert CellAt(s', r, p).number == CellAt(s, r, p).number;
    }
  }

  lemma EmptiedView(s: State, s': State, r: Ring, id: nat)
    requires RingOk(s, r) && id < |s.cells| && s.cells[id].Used?
    requires s'.cells == s.cells[id := Used(s.cells[id].number, false)]
    ensures var n := s.cells[id].number;
            forall m: int {:trigger At(s', r, m)} ::
              At(s', r, m) == At(s, r, m) || (Is(At(s, r, m), n) && At(s', r, m) == Used(n, false))
  {
  }

  lemma EmptyKeepsInv(s: State, id: nat)
    requires Inv(s) && id < |s.cells| && s.cells[id].Used?
    requires s.cells[id].number < s.published && !LookedUp(s, s.cells[id].number)
    ensures Inv(Step(s, Empty(id)))
  {
    var s', r, n := Step(s, Empty(id)), Newest(s).ring, s.cells[id].number;
    EmptiedRing(s, s', r, id);
    EmptiedView(s, s', r, id);
    EmptiedBook(BookOf(s, r), BookOf(s', r), n);
    IndexesStay(s, s', r);
    LooksStay(s, s', r);
  }

  // ------------------------------------------------------------------ every run

  lemma InitInv(e: nat)
    requires e <= 59
    ensures Inv(Init(e))
  {
    var s := Init(e);
    var r := Newest(s).ring;
    ModUnique(-1, Pow2(e), -1, Pow2(e) - 1);
    assert forall p :: 0 <= p < |r.slots| ==> CellAt(s, r, p) == Unused;
    assert forall m: int {:trigger At(s, r, m)} :: At(s, r, m) == Unused;
  }

  lemma ProducerKeepsInv(s: State, a: Action)
    requires Inv(s)
    ensures Inv(ProducerStep(s, a))
  {
    var s', r := ProducerStep(s, a), Newest(s).ring;
    match a {
      case Insert(canAlloc) =>
        if s.producer.Idle? {
          InsertKeepsInv(s, canAlloc);
        }
      case Advance =>
        if s.producer.Keyed? {
          AdvanceKeepsInv(s, s', r);
        }
      case Fill =>
        if s.producer.Placed? {
          FillKeepsInv(s, s', r);
        }
      case Fail =>
        if s.producer.Placed? {
          FailKeepsInv(s, s', r);
        }
      case StartUndo =>
        if s.producer.Idle? && s.published < s.next {
          StartUndoKeepsInv(s, s', r);
        }
      case TakeBack =>
        if s.producer.Undo? {
          TakeBackKeepsInv(s, s', r);
        }
      case Rewind =>
        if s.producer.Rewinding? {
          RewindKeepsInv(s, s', r);
        }
      case Publish =>
        if s.producer.Idle? {
          PublishKeepsInv(s, s', r);
        }
      case _ =>
    }
  }

  lemma ConsumerKeepsInv(s: State, a: Action)
    requires Inv(s)
    ensures Inv(ConsumerStep(s, a))
  {
    match a {
      case StartLookup(t, n, more, d) =>
        if t !in s.lookups && n + more < s.published && d < BLOCK_SIZE
           && forall m :: n <= m <= n + more ==> InIndex(s, m)
        {
          StartKeepsInv(s, t, n, more, d);
        }
      case Tick(t) =>
        if t in s.lookups {
          TickKeepsInv(s, t);
        }
      case Proceed(t) =>
        if t in s.lookups {
          ProceedKeepsInv(s, t);
        }
      case Return(t) => LookupsChange(s, ConsumerStep(s, a), Newest(s).ring);
      case Empty(id) =>
        if id < |s.cells| && s.cells[id].Used? && s.cells[id].number < s.published
           && !LookedUp(s, s.cells[id].number)
        {
          EmptyKeepsInv(s, id);
        }
      case _ =>
    }
  }

  /** Every step of the producer and of any consumer keeps all indexes, old and new, in order. */
  lemma StepKeepsInv(s: State, a: Action)
    requires Inv(s)
    ensures Inv(Step(s, a))
  {
    if a.StartLookup? || a.Tick? || a.Proceed? || a.Return? || a.Empty? {
      ConsumerKeepsInv(s, a);
    } else {
      ProducerKeepsInv(s, a);
    }
  }

  lemma {:induction false} RunInv(e: nat, acts: seq<Action>)
    requires e <= 59
    ensures Inv(Run(e, acts))
  {
    if acts == [] {
      InitInv(e);
    } else {
      RunInv(e, acts[..|acts| - 1]);
      StepKeepsInv(Run(e, acts[..|acts| - 1]), acts[|acts| - 1]);
    }
  }

  /** The slot that was found has the entry of the block, which is there, with the element's base as its key. */
  predicate FoundRight(s: State, l: Lookup) {
    && l.at.Found?
    && var c := CellAt(s, RingOf(s, l.at.h), l.at.slot);
       c == Used(l.n, true) && Key(c) == And(Word(l.n) + l.d, WORD - BLOCK_SIZE)
  }

  lemma FoundIsRight(s: State, l: Lookup)
    requires LookOk(s, l) && l.at.Found?
    ensures FoundRight(s, l)
  {
    assert At(s, RingOf(s, l.at.h), l.n) == Used(l.n, true);
    WordAligned(l.n);
    BlockStart(Word(l.n) + l.d, Word(l.n));
  }

  /**
   In every run, a lookup that has found a slot has found its block's: whatever was inserted, taken back,
   published, emptied or moved to a larger index between its loads.
   */
  lemma LookupFindsItsBlock(e: nat, acts: seq<Action>, t: nat)
    requires e <= 59 && t in Run(e, acts).lookups && Run(e, acts).lookups[t].at.Found?
    ensures FoundRight(Run(e, acts), Run(e, acts).lookups[t])
  {
    RunInv(e, acts);
    FoundIsRight(Run(e, acts), Run(e, acts).lookups[t]);
  }

  /**
   In every run, each load of a lookup succeeds, so that the fourth ends it: the tail's entry has a base, and no
   slot is out of range.
   */
  lemma LookupGoesOn(e: nat, acts: seq<Action>, t: nat)
    requires e <= 59 && t in Run(e, acts).lookups && !Run(e, acts).lookups[t].at.Found?
    ensures var s' := Run(e, acts + [Tick(t)]);
            t in s'.lookups && Stage(s'.lookups[t].at) == Stage(Run(e, acts).lookups[t].at) + 1
  {
    RunInv(e, acts);
    RunMore(e, acts, Tick(t));
    LookGoesOn(Run(e, acts), Run(e, acts).lookups[t]);
  }

  lemma RunMore(e: nat, acts: seq<Action>, a: Action)
    ensures Run(e, acts + [a]) == Step(Run(e, acts), a)
  {
    assert (acts + [a])[..|acts|] == acts;
  }

  /** In every run, a block that is taken back is found, and was in the index. */
  lemma UndoFindsItsBlock(e: nat, acts: seq<Action>)
    requires e <= 59 && Run(e, acts).producer.Undo?
    ensures var s := Run(e, acts);
            var r, i, tail := Newest(s).ring, s.producer.i, Newest(s).tail;
            && At(s, r, i) == Used(i, true)
            && Finds(r, Word(i), tail, Key(CellAt(s, r, tail))) == SlotCell(r, Slot(r, i))
  {
    RunInv(e, acts);
    TakesBack(Run(e, acts), Newest(Run(e, acts)).ring);
  }

  /** The producer wants to insert a block, but the slot behind the tail has a live one. */
  predicate Blocked(s: State) {
    s.producer.Idle? && Live(At(s, Newest(s).ring, s.next)) && Newest(s).ring.e < 59
  }

  /** The index has twice the slots, and the one behind the tail was never used. */
  predicate HasRoom(s: State, s': State) {
    var h := Newest(s');
    && |h.ring.slots| == 2 * |Newest(s).ring.slots| > 0
    && CellAt(s', h.ring, And(h.tail + 1, |h.ring.slots| - 1)) == Unused
  }

  /** In every run, doubling the index makes room for the next block. */
  lemma RoomAfterDoubling(e: nat, acts: seq<Action>)
    requires e <= 59 && Blocked(Run(e, acts))
    ensures HasRoom(Run(e, acts), Run(e, acts + [Insert(true)]))
  {
    RunInv(e, acts);
    assert (acts + [Insert(true)])[..|acts|] == acts;
    RoomMade(Run(e, acts), Newest(Run(e, acts)).ring);
  }

  lemma RoomMade(s: State, r: Ring)
    requires Inv(s) && r == Newest(s).ring && Blocked(s)
    ensures HasRoom(s, Step(s, Insert(true)))
  {
    var s' := Step(s, Insert(true));
    InsertGrows(s, s', r);
    OldestLeft(s, r);
    GrowKeepsIndexes(s, s', r, Newest(s').ring);
    NextSlot(s', Newest(s').ring);
    DoubledNext(s, s', r, Newest(s').ring);
  }

  lemma InsertGrows(s: State, s': State, r: Ring)
    requires IndexesOk(s) && r == Newest(s).ring && Blocked(s) && s' == Step(s, Insert(true))
    ensures Grows(s, s', r, Newest(s').ring)
  {
    NextSlot(s, r);
    KeyOfUsed(At(s, r, s.next));
  }

  lemma DoubledNext(s: State, s': State, r: Ring, r': Ring)
    requires RingOk(s, r) && Full(BookOf(s, r)) && Doubles(s, s', r, r')
    ensures CellAt(s', r', Slot(r', s.next)) == Unused
  {
    ModUnique(s.next - r'.first, Pow2(r'.e), 0, |r.slots|);
    DoubledAt(s, s', r, r', |r.slots|);
  }

  // ------------------------------------------------------------------ what the operations achieve

  /** What being in the index means for the newest ring. */
  lemma InIndexAt(s: State, n: nat)
    requires Inv(s)
    ensures InIndex(s, n) <==> At(s, Newest(s).ring, n) == Used(n, true)
  {
    var r := Newest(s).ring;
    if InIndex(s, n) {
      var p :| 0 <= p < |r.slots| && CellAt(s, r, p) == Used(n, true);
      assert r.slots[p] < |s.cells| && Slot(r, n) == p;
    }
  }

  /** A consumer can look up blocks that are published and not emptied, at any time. */
  lemma LookupStarts(e: nat, acts: seq<Action>, t: nat, n: nat, more: nat, d: nat)
    requires t !in Run(e, acts).lookups && n + more < Run(e, acts).published && d < BLOCK_SIZE
    requires forall m :: n <= m <= n + more ==> InIndex(Run(e, acts), m)
    ensures Run(e, acts + [StartLookup(t, n, more, d)]).lookups
            == Run(e, acts).lookups[t := Lookup(n, more, d, LoadIndex)]
  {
    RunMore(e, acts, StartLookup(t, n, more, d));
  }

  /** With the first block found, the consumer goes on to the next one of its blocks. */
  lemma ProceedsToNext(e: nat, acts: seq<Action>, t: nat)
    requires e <= 59 && t in Run(e, acts).lookups
    requires Run(e, acts).lookups[t].at.Found? && Run(e, acts).lookups[t].more > 0
    ensures var l, s' := Run(e, acts).lookups[t], Run(e, acts + [Proceed(t)]);
            && t in s'.lookups && s'.lookups[t].at.Found?
            && s'.lookups[t].n == l.n + 1 && s'.lookups[t].more == l.more - 1
  {
    RunInv(e, acts);
    RunMore(e, acts, Proceed(t));
    var s := Run(e, acts);
    assert LookOk(s, s.lookups[t]);
    RingAt(s, s.lookups[t].at.h);
  }

  /** A lookup that is through takes nothing but itself away. */
  lemma LookupReturns(e: nat, acts: seq<Action>, t: nat)
    ensures Run(e, acts + [Return(t)]) == Run(e, acts).(lookups := Run(e, acts).lookups - {t})
  {
    RunMore(e, acts, Return(t));
  }

  /** A block that nobody is looking up can be emptied, and is in the index no longer. */
  lemma EmptyTakesOut(e: nat, acts: seq<Action>, id: nat)
    requires e <= 59 && id < |Run(e, acts).cells| && Live(Run(e, acts).cells[id])
    requires var s := Run(e, acts); s.cells[id].number < s.published && !LookedUp(s, s.cells[id].number)
    ensures Run(e, acts + [Empty(id)]).cells[id] == Used(Run(e, acts).cells[id].number, false)
  {
    RunMore(e, acts, Empty(id));
  }

  /** The block's entry is the one that is emptied. */
  predicate Empties(s: State, a: Action, n: nat) {
    a.Empty? && a.cell < |s.cells| && s.cells[a.cell].Used? && s.cells[a.cell].number == n
  }

  /** A cell that is stored to, other than the block's, leaves the block where it is. */
  lemma OtherCell(s: State, s': State, r: Ring, n: nat, id: nat, c: Cell)
    requires At(s, r, n) == Used(n, true) && id < |s.cells| && s.cells[id] != Used(n, true)
    requires s'.cells == s.cells[id := c]
    ensures At(s', r, n) == Used(n, true)
  {
  }

  lemma ProducerKeepsPublished(s: State, a: Action, n: nat)
    requires Inv(s) && n < s.published && At(s, Newest(s).ring, n) == Used(n, true)
    ensures At(ProducerStep(s, a), Newest(ProducerStep(s, a)).ring, n) == Used(n, true)
  {
    var s', r := ProducerStep(s, a), Newest(s).ring;
    match a {
      case Insert(canAlloc) =>
        if s.producer.Idle? {
          InsertKeepsPublished(s, canAlloc, n);
        }
      case Fill =>
        if s.producer.Placed? {
          OtherCell(s, s', r, n, s.producer.cell, Used(s.next - 1, true));
        }
      case TakeBack =>
        if s.producer.Undo? {
          TakesBack(s, r);
          OtherCell(s, s', r, n, r.slots[Slot(r, s.producer.i)], Used(s.producer.i, false));
        }
      case _ =>
    }
  }

  lemma InsertKeepsPublished(s: State, canAlloc: bool, n: nat)
    requires Inv(s) && s.producer.Idle? && n < s.published && At(s, Newest(s).ring, n) == Used(n, true)
    ensures var s' := Step(s, Insert(canAlloc)); At(s', Newest(s').ring, n) == Used(n, true)
  {
    var s', r := Step(s, Insert(canAlloc)), Newest(s).ring;
    NextSlot(s, r);
    KeyOfUsed(At(s, r, s.next));
    if !Live(At(s, r, s.next)) {
      OtherCell(s, s', r, n, r.slots[Slot(r, s.next)], Used(s.next, false));
    } else if canAlloc && r.e < 59 {
      OldestLeft(s, r);
      assert Is(BookOf(s, r).g(n), n);
      DoubledView(s, s', r, Newest(s').ring, n);
    }
  }

  /** In every run, a published block stays in the index until its own entry is emptied. */
  lemma PublishedStays(e: nat, acts: seq<Action>, a: Action, n: nat)
    requires e <= 59 && n < Run(e, acts).published && InIndex(Run(e, acts), n) && !Empties(Run(e, acts), a, n)
    ensures n < Run(e, acts + [a]).published && InIndex(Run(e, acts + [a]), n)
  {
    RunInv(e, acts);
    RunMore(e, acts, a);
    RunInv(e, acts + [a]);
    InIndexAt(Run(e, acts), n);
    InIndexAt(Run(e, acts + [a]), n);
    PublishedGrows(Run(e, acts), a);
    StepKeepsPublished(Run(e, acts), a, n);
  }

  lemma StepKeepsPublished(s: State, a: Action, n: nat)
    requires Inv(s) && n < s.published && At(s, Newest(s).ring, n) == Used(n, true) && !Empties(s, a, n)
    ensures At(Step(s, a), Newest(Step(s, a)).ring, n) == Used(n, true)
  {
    if a.Empty? {
      if a.cell < |s.cells| && Step(s, a).cells != s.cells {
        OtherCell(s, Step(s, a), Newest(s).ring, n, a.cell, Step(s, a).cells[a.cell]);
      }
    } else if !(a.StartLookup? || a.Tick? || a.Proceed? || a.Return?) {
      ProducerKeepsPublished(s, a, n);
    }
  }

  lemma PublishedGrows(s: State, a: Action)
    requires Inv(s)
    ensures s.published <= Step(s, a).published
  {
  }

  function Steps(s: State, acts: seq<Action>): State
    decreases acts
  {
    if acts == [] then s else Steps(Step(s, acts[0]), acts[1..])
  }

  lemma OneStep(s: State, a: Action, rest: seq<Action>)
    ensures Steps(s, [a] + rest) == Steps(Step(s, a), rest)
  {
    assert ([a] + rest)[1..] == rest;
  }

  /** The steps of an insertion, with a new index if need be, and of publishing it. */
  function Insertion(s: State): seq<Action> {
    (if Live(At(s, Newest(s).ring, s.next)) then [Insert(true)] else [])
    + ([Insert(false)] + ([Advance] + ([Fill] + ([Publish] + []))))
  }

  /** One block more is in the index and published, and the producer is through. */
  ghost predicate HasInserted(s: State, s': State) {
    s'.producer.Idle? && s'.next == s'.published == s.next + 1 && InIndex(s', s.next)
  }

  /**
   In every run, the producer gets its next block in, and all that it had inserted before are published with it:
   at once if the slot behind the tail is free, and otherwise after doubling the index.
   */
  lemma InsertSucceeds(e: nat, acts: seq<Action>)
    requires e <= 59 && Run(e, acts).producer.Idle?
    requires var s := Run(e, acts); Live(At(s, Newest(s).ring, s.next)) ==> Newest(s).ring.e < 59
    ensures HasInserted(Run(e, acts), Steps(Run(e, acts), Insertion(Run(e, acts))))
  {
    RunInv(e, acts);
    InsertsNext(Run(e, acts));
  }

  lemma InsertsNext(s: State)
    requires Inv(s) && s.producer.Idle? && (Live(At(s, Newest(s).ring, s.next)) ==> Newest(s).ring.e < 59)
    ensures HasInserted(s, Steps(s, Insertion(s)))
  {
    var rest := [Insert(false)] + ([Advance] + ([Fill] + ([Publish] + [])));
    if Live(At(s, Newest(s).ring, s.next)) {
      var s1 := DoublesFirst(s);
      InsertsOne(s1);
      OneStep(s, Insert(true), rest);
    } else {
      InsertsOne(s);
      assert [] + rest == rest;
    }
  }

  lemma DoublesFirst(s: State) returns (s1: State)
    requires Inv(s) && Blocked(s)
    ensures s1 == Step(s, Insert(true)) && Inv(s1) && s1.producer.Idle? && !Live(At(s1, Newest(s1).ring, s1.next))
    ensures s1.next == s.next
  {
    s1 := Step(s, Insert(true));
    RoomMade(s, Newest(s).ring);
    StepKeepsInv(s, Insert(true));
    InsertGrows(s, s1, Newest(s).ring);
    NextSlot(s1, Newest(s1).ring);
  }

  lemma InsertsOne(s: State)
    requires Inv(s) && s.producer.Idle? && !Live(At(s, Newest(s).ring, s.next))
    ensures HasInserted(s, Steps(s, [Insert(false)] + ([Advance] + ([Fill] + ([Publish] + [])))))
  {
    var s1 := KeysOne(s);
    var s2 := AdvancesOne(s1);
    var s3 := FillsOne(s2);
    var s4 := PublishesAll(s3, s.next);
    OneStep(s, Insert(false), [Advance] + ([Fill] + ([Publish] + [])));
    OneStep(s1, Advance, [Fill] + ([Publish] + []));
    OneStep(s2, Fill, [Publish] + []);
    OneStep(s3, Publish, []);
  }

  lemma KeysOne(s: State) returns (s1: State)
    requires Inv(s) && s.producer.Idle? && !Live(At(s, Newest(s).ring, s.next))
    ensures s1 == Step(s, Insert(false)) && Inv(s1) && s1.producer.Keyed?
    ensures s1.next == s.next && s1.published == s.published
  {
    s1 := Step(s, Insert(false));
    NextSlot(s, Newest(s).ring);
    KeyOfUsed(At(s, Newest(s).ring, s.next));
    StepKeepsInv(s, Insert(false));
  }

  lemma AdvancesOne(s: State) returns (s1: State)
    requires Inv(s) && s.producer.Keyed?
    ensures s1 == Step(s, Advance) && Inv(s1) && s1.producer.Placed?
    ensures s1.next == s.next + 1 && s1.published == s.published
  {
    s1 := Step(s, Advance);
    StepKeepsInv(s, Advance);
  }

  lemma FillsOne(s: State) returns (s1: State)
    requires Inv(s) && s.producer.Placed?
    ensures s1 == Step(s, Fill) && Inv(s1) && s1.producer.Idle?
    ensures s1.next == s.next && s1.published == s.published
  {
    s1 := Step(s, Fill);
    StepKeepsInv(s, Fill);
  }

  lemma PublishesAll(s: State, n: nat) returns (s1: State)
    requires Inv(s) && s.producer.Idle? && s.published <= n < s.next
    ensures s1 == Step(s, Publish) && s1.producer.Idle? && s1.next == s1.published == s.next && InIndex(s1, n)
  {
    s1 := Step(s, Publish);
    StepKeepsInv(s, Publish);
    LastIsThere(s, n);
    InIndexAt(s1, n);
  }

  lemma LastIsThere(s: State, n: nat)
    requires Inv(s) && s.producer.Idle? && s.published <= n < s.next
    ensures At(s, Newest(s).ring, n) == Used(n, true)
  {
    var b := BookOf(s, Newest(s).ring);
    assert Is(b.g(n), n) && Live(b.g(n));
  }

  /** An insertion fails, and changes nothing, exactly if the slot is taken and there can be no larger index. */
  lemma InsertFailsIff(e: nat, acts: seq<Action>, canAlloc: bool)
    requires e <= 59 && Run(e, acts).producer.Idle?
    ensures var s := Run(e, acts);
            Run(e, acts + [Insert(canAlloc)]) == s
            <==> Live(At(s, Newest(s).ring, s.next)) && !(canAlloc && Newest(s).ring.e < 59)
  {
    RunInv(e, acts);
    RunMore(e, acts, Insert(canAlloc));
    FailsIff(Run(e, acts), canAlloc);
  }

  lemma FailsIff(s: State, canAlloc: bool)
    requires Inv(s) && s.producer.Idle?
    ensures Step(s, Insert(canAlloc)) == s
       <==> Live(At(s, Newest(s).ring, s.next)) && !(canAlloc && Newest(s).ring.e < 59)
  {
    NextSlot(s, Newest(s).ring);
    KeyOfUsed(At(s, Newest(s).ring, s.next));
  }

  /** The steps that take k blocks back. */
  function TakingBack(k: nat): seq<Action> {
    if k == 0 then [] else [TakeBack] + ([Rewind] + TakingBack(k - 1))
  }

  /** The producer is through, and exactly the published blocks are in the index. */
  ghost predicate HasUndone(s: State, s': State) {
    && s'.producer.Idle? && s'.next == s'.published == s.published
    && forall n: nat :: n >= s.published ==> !InIndex(s', n)
  }

  lemma NoneBeyond(s: State)
    requires Inv(s) && s.producer.Idle? && s.next == s.published
    ensures forall n: nat :: n >= s.published ==> !InIndex(s, n)
  {
    forall n: nat | n >= s.published ensures !InIndex(s, n) {
      InIndexAt(s, n);
      assert BookOf(s, Newest(s).ring).g(n) == At(s, Newest(s).ring, n);
    }
  }

  /** What one round of taking back does to the numbers. */
  lemma OneTakenBack(s: State) returns (s1: State, s2: State)
    requires Inv(s) && s.producer.Undo?
    ensures s1 == Step(s, TakeBack) && s2 == Step(s1, Rewind) && Inv(s2)
    ensures s2.published == s.published && s2.next == s.next - 1
    ensures if s2.next == s.published then s2.producer.Idle? else s2.producer.Undo?
  {
    s1 := Step(s, TakeBack);
    s2 := Step(s1, Rewind);
    StepKeepsInv(s, TakeBack);
    StepKeepsInv(s1, Rewind);
  }

  lemma {:induction false} UndoesAll(s: State, k: nat)
    requires Inv(s) && s.producer.Undo? && k == s.next - s.published
    ensures k > 0 && HasUndone(s, Steps(s, TakingBack(k)))
    decreases k
  {
    var s1, s2 := OneTakenBack(s);
    OneStep(s, TakeBack, [Rewind] + TakingBack(k - 1));
    OneStep(s1, Rewind, TakingBack(k - 1));
    if s2.producer.Undo? {
      UndoesAll(s2, k - 1);
    } else {
      NoneBeyond(s2);
      assert Steps(s2, TakingBack(0)) == s2;
    }
  }

  /** Undoing from here takes back everything that is not published. */
  ghost predicate UndoWorks(s: State) {
    s.published <= s.next && HasUndone(s, Steps(s, [StartUndo] + TakingBack(s.next - s.published)))
  }

  /** In every run, whatever the producer had not published is gone once it has taken it back. */
  lemma {:induction false} UndoSucceeds(e: nat, acts: seq<Action>)
    requires e <= 59 && Run(e, acts).producer.Idle? && Run(e, acts).published < Run(e, acts).next
    ensures UndoWorks(Run(e, acts))
  {
    RunInv(e, acts);
    UndoingWorks(Run(e, acts));
  }

  lemma {:induction false} UndoingWorks(s: State)
    requires Inv(s) && s.producer.Idle? && s.published < s.next
    ensures UndoWorks(s)
  {
    var s1, k := StartsUndo(s);
    OneStep(s, StartUndo, TakingBack(k));
    UndoesAll(s1, k);
  }

  lemma StartsUndo(s: State) returns (s1: State, k: nat)
    requires Inv(s) && s.producer.Idle? && s.published < s.next
    ensures s1 == Step(s, StartUndo) && Inv(s1) && s1.producer.Undo?
    ensures s1.published == s.published && k == s1.next - s1.published == s.next - s.published
  {
    s1, k := Step(s, StartUndo), s.next - s.published;
    StepKeepsInv(s, StartUndo);
  }

  /** Giving up on the block that was inserted last takes back everything that is not published. */
  ghost predicate FailWorks(s: State) {
    s.published < s.next && HasUndone(s, Steps(s, [Fail] + ([Rewind] + TakingBack(s.next - 1 - s.published))))
  }

  /** In every run, a failed insertion is taken back, with all that were inserted since the last publication. */
  lemma {:induction false} FailSucceeds(e: nat, acts: seq<Action>)
    requires e <= 59 && Run(e, acts).producer.Placed?
    ensures FailWorks(Run(e, acts))
  {
    RunInv(e, acts);
    FailingWorks(Run(e, acts));
  }

  lemma {:induction false} FailingWorks(s: State)
    requires Inv(s) && s.producer.Placed?
    ensures FailWorks(s)
  {
    var s1, s2, k := GivesUp(s);
    OneStep(s, Fail, [Rewind] + TakingBack(k));
    OneStep(s1, Rewind, TakingBack(k));
    if k == 0 {
      NoneBeyond(s2);
      assert Steps(s2, TakingBack(0)) == s2;
    } else {
      UndoesAll(s2, k);
    }
  }

  lemma GivesUp(s: State) returns (s1: State, s2: State, k: nat)
    requires Inv(s) && s.producer.Placed?
    ensures s1 == Step(s, Fail) && s2 == Step(s1, Rewind) && Inv(s2) && s2.published == s.published < s.next
    ensures k == s2.next - s2.published == s.next - 1 - s.published
    ensures if k == 0 then s2.producer.Idle? else s2.producer.Undo?
  {
    s1 := Step(s, Fail);
    s2, k := Step(s1, Rewind), s.next - 1 - s.published;
    StepKeepsInv(s, Fail);
    StepKeepsInv(s1, Rewind);
  }
}

/**
 The entity handle table: versioned records, with the freed ones chained through themselves.
 Record 0 is the end marker of that chain.
 */
module Handles {
  import opened Modulo

  datatype Entity = Entity(id: nat, version: nat)

  /** A record either says where its entity is stored, or links to the next freed record. */
  datatype Loc<P> = At(place: P) | Next(id: nat) | Unset

  datatype Slot<P> = Slot(loc: Loc<P>, version: nat)

  datatype Table<P> = Table(slots: seq<Slot<P>>, free: nat)

  const TRANSIENT := 255
  const VERSIONS := 256
  const MAX_IDS := 0x100_0000

  /** handle::recycle, stored in an 8-bit field */
  function Recycle(v: nat): nat {
    (if v + 1 == TRANSIENT then v + 2 else v + 1) % VERSIONS
  }

  /** The version of a record that started at v0 and was freed n times. */
  function VersionAfter(v0: nat, n: nat): (v: nat)
    ensures v0 < TRANSIENT ==> v < TRANSIENT
  {
    if n == 0 then v0 else Recycle(VersionAfter(v0, n - 1))
  }

  lemma {:induction false} VersionCycles(v0: nat, n: nat)
    requires v0 < TRANSIENT
    ensures VersionAfter(v0, n) == (v0 + n) % TRANSIENT
  {
    if n > 0 {
      VersionCycles(v0, n - 1);
      var x := v0 + n - 1;
      Euclid(x, TRANSIENT);
      var q, r := x / TRANSIENT, x % TRANSIENT;
      if r == TRANSIENT - 1 {
        ModUnique(x + 1, TRANSIENT, q + 1, 0);
      } else {
        ModUnique(x + 1, TRANSIENT, q, r + 1);
      }
    }
  }

  predicate Exist<P>(t: Table<P>, e: Entity) {
    e.id < |t.slots| && e.version == t.slots[e.id].version
  }

  // ------------------------------------------------------------------ operations on the table

  /** Takes a record off the chain, or appends one whose version is whatever its memory held. */
  function TakeOne<P>(t: Table<P>, memory: nat -> nat): (r: (Table<P>, nat))
    ensures |t.slots| <= |r.0.slots| && (t.free < |t.slots| ==> r.1 < |r.0.slots|)
  {
    if t.free == 0 then
      (t.(slots := t.slots + [Slot(Unset, memory(|t.slots|))]), |t.slots|)
    else
      (t.(free := if t.free < |t.slots| && t.slots[t.free].loc.Next? then t.slots[t.free].loc.id else 0), t.free)
  }

  function SetPlace<P>(t: Table<P>, id: nat, p: P): Table<P> {
    if id < |t.slots| then t.(slots := t.slots[id := t.slots[id].(loc := At(p))]) else t
  }

  function HandleOf<P>(t: Table<P>, id: nat): Entity {
    Entity(id, if id < |t.slots| then t.slots[id].version else 0)
  }

  /** new_entities for a slice: one record per place, in order. */
  function NewAll<P>(t: Table<P>, places: seq<P>, memory: nat -> nat): (r: (Table<P>, seq<Entity>))
    ensures |r.1| == |places|
  {
    if places == [] then (t, []) else
    var n := |places| - 1;
    var (t1, made) := NewAll(t, places[..n], memory);
    var (t2, id) := TakeOne(t1, memory);
    (SetPlace(t2, id, places[n]), made + [HandleOf(t2, id)])
  }

  /** new_entities without a slice: records are taken but not placed. */
  function NewBare<P>(t: Table<P>, count: nat, memory: nat -> nat): (r: (Table<P>, seq<Entity>))
    ensures |r.1| == count
  {
    if count == 0 then (t, []) else
    var (t1, made) := NewBare(t, count - 1, memory);
    var (t2, id) := TakeOne(t1, memory);
    (t2, made + [HandleOf(t2, id)])
  }

  /** new_prefab: always a new record. */
  function NewPrefab<P>(t: Table<P>, memory: nat -> nat): (Table<P>, Entity) {
    (t.(slots := t.slots + [Slot(Unset, memory(|t.slots|))]), Entity(|t.slots|, memory(|t.slots|)))
  }

  function FreeOne<P>(t: Table<P>, id: nat, next: nat): Table<P> {
    if id < |t.slots| then t.(slots := t.slots[id := Slot(Next(next), Recycle(t.slots[id].version))]) else t
  }

  function Relink<P>(t: Table<P>, ids: seq<nat>, last: nat): (r: Table<P>)
    ensures |r.slots| == |t.slots| && r.free == t.free
    decreases |ids|
  {
    if ids == [] then t
    else Relink(FreeOne(t, ids[0], if |ids| > 1 then ids[1] else last), ids[1..], last)
  }

  /** free_entities: the freed records are chained in slice order in front of the old chain. */
  function FreeAll<P>(t: Table<P>, ids: seq<nat>): Table<P>
    requires ids != []
  {
    Relink(t, ids, t.free).(free := ids[0])
  }

  // ------------------------------------------------------------------ the free chain

  predicate Distinct(l: seq<nat>) {
    forall i, j :: 0 <= i < j < |l| ==> l[i] != l[j]
  }

  function Head(l: seq<nat>, k: int): nat {
    if 0 <= k < |l| then l[k] else 0
  }

  /** The chain that starts at free visits exactly l, never twice, and never record 0. */
  predicate Chained<P>(t: Table<P>, l: seq<nat>) {
    && t.free == Head(l, 0)
    && Distinct(l)
    && forall i :: 0 <= i < |l| ==> 0 < l[i] < |t.slots| && t.slots[l[i]].loc == Next(Head(l, i + 1))
  }

  /** Freeing record 0 cuts the chain there: what was behind it is never handed out again. */
  function Cut(ids: seq<nat>): seq<nat>
  {
    if ids == [] || ids[0] == 0 then [] else [ids[0]] + Cut(ids[1..])
  }

  function FreedChain(ids: seq<nat>, chain: seq<nat>): seq<nat> {
    if 0 in ids then Cut(ids) else ids + chain
  }

  lemma {:induction false} CutIsPrefix(ids: seq<nat>)
    ensures Cut(ids) <= ids && 0 !in Cut(ids)
    ensures |Cut(ids)| < |ids| ==> ids[|Cut(ids)|] == 0
  {
    if ids != [] && ids[0] != 0 {
      CutIsPrefix(ids[1..]);
    }
  }

  lemma {:induction false} RelinkOther<P>(t: Table<P>, ids: seq<nat>, last: nat, id: nat)
    requires id !in ids && id < |t.slots|
    ensures Relink(t, ids, last).slots[id] == t.slots[id]
    decreases |ids|
  {
    if ids != [] {
      RelinkOther(FreeOne(t, ids[0], if |ids| > 1 then ids[1] else last), ids[1..], last, id);
    }
  }

  lemma {:induction false} RelinkAt<P>(t: Table<P>, ids: seq<nat>, last: nat, i: nat)
    requires Distinct(ids) && i < |ids| && ids[i] < |t.slots|
    ensures Relink(t, ids, last).slots[ids[i]]
         == Slot(Next(if i + 1 < |ids| then ids[i + 1] else last), Recycle(t.slots[ids[i]].version))
    decreases |ids|
  {
    var t1 := FreeOne(t, ids[0], if |ids| > 1 then ids[1] else last);
    if i == 0 {
      RelinkOther(t1, ids[1..], last, ids[0]);
    } else {
      assert ids[0] != ids[i];
      RelinkAt(t1, ids[1..], last, i - 1);
    }
  }

  lemma {:induction false} FreeKeepsChain<P>(t: Table<P>, l: seq<nat>, ids: seq<nat>)
    requires Chained(t, l) && ids != [] && Distinct(ids)
    requires forall id :: id in ids ==> id < |t.slots| && id !in l
    ensures Chained(FreeAll(t, ids), FreedChain(ids, l))
  {
    var t', l' := FreeAll(t, ids), FreedChain(ids, l);
    CutIsPrefix(ids);
    forall i, j | 0 <= i < j < |l'| ensures l'[i] != l'[j] {
      if 0 !in ids && i < |ids| <= j {
        assert ids[i] in ids && l[j - |ids|] in l;
      }
    }
    forall i | 0 <= i < |l'|
      ensures 0 < l'[i] < |t'.slots| && t'.slots[l'[i]].loc == Next(Head(l', i + 1))
    {
      FreedLink(t, l, ids, i);
    }
  }

  lemma FreedLink<P>(t: Table<P>, l: seq<nat>, ids: seq<nat>, i: nat)
    requires Chained(t, l) && ids != [] && Distinct(ids)
    requires forall id :: id in ids ==> id < |t.slots| && id !in l
    requires i < |FreedChain(ids, l)|
    ensures var l' := FreedChain(ids, l);
      0 < l'[i] < |t.slots| && FreeAll(t, ids).slots[l'[i]].loc == Next(Head(l', i + 1))
  {
    CutIsPrefix(ids);
    var l' := FreedChain(ids, l);
    if i < |ids| {
      assert l'[i] == ids[i] && ids[i] in ids;
      RelinkAt(t, ids, t.free, i);
    } else {
      assert l'[i] == l[i - |ids|] && l[i - |ids|] in l;
      RelinkOther(t, ids, t.free, l[i - |ids|]);
    }
  }

  lemma TakeKeepsChain<P>(t: Table<P>, l: seq<nat>, memory: nat -> nat)
    requires Chained(t, l)
    ensures var (t', id) := TakeOne(t, memory);
      && Chained(t', if l == [] then [] else l[1..])
      && id == (if l == [] then |t.slots| else l[0])
      && id < |t'.slots|
      && (l == [] ==> t'.slots == t.slots + [Slot(Unset, memory(|t.slots|))])
      && (l != [] ==> t'.slots == t.slots)
  {
    if l != [] {
      assert t.slots[l[0]].loc == Next(Head(l, 1));
    }
  }

  lemma PlaceKeepsChain<P>(t: Table<P>, l: seq<nat>, id: nat, p: P)
    requires Chained(t, l) && id !in l
    ensures Chained(SetPlace(t, id, p), l)
  {
  }

  // ------------------------------------------------------------------ every sequence of operations

  datatype Op<P> =
    | New(places: seq<P>)
    | Bare(count: nat)
    | Prefab
    | Move(id: nat, place: P)
    | Free(ids: seq<nat>)

  /** The table together with its history: the chain, who is live, how often each record was freed. */
  datatype History<P> = History(table: Table<P>, chain: seq<nat>, live: set<nat>, frees: map<nat, nat>)

  function FreeCount(frees: map<nat, nat>, id: nat): nat {
    if id in frees then frees[id] else 0
  }

  function Empty<P>(): History<P> {
    History(Table([], 0), [], {}, map[])
  }

  function Ids(es: seq<Entity>): set<nat> {
    set e | e in es :: e.id
  }

  function Bump(frees: map<nat, nat>, ids: seq<nat>): map<nat, nat> {
    frees + map id | id in ids :: FreeCount(frees, id) + 1
  }

  /** The handles an operation gives out. */
  function Given<P>(h: History<P>, op: Op<P>, memory: nat -> nat): seq<Entity> {
    match op
    case New(places) => NewAll(h.table, places, memory).1
    case Bare(n) => NewBare(h.table, n, memory).1
    case Prefab => [NewPrefab(h.table, memory).1]
    case _ => []
  }

  /** How many records there are after n were taken: those on the chain come first. */
  function SizeAfter(size: nat, chain: seq<nat>, n: nat): nat {
    if n > |chain| then size + n - |chain| else size
  }

  /**
   Only live records are moved or freed, each once, and never an empty slice; an allocation leaves no more
   records than an id of 24 bits can tell apart.  Anything else is not a call.
   */
  predicate Allowed<P>(h: History<P>, op: Op<P>) {
    match op
    case New(places) => SizeAfter(|h.table.slots|, h.chain, |places|) <= MAX_IDS
    case Bare(n) => SizeAfter(|h.table.slots|, h.chain, n) <= MAX_IDS
    case Prefab => |h.table.slots| < MAX_IDS
    case Move(id, _) => id in h.live
    case Free(ids) => ids != [] && Distinct(ids) && forall id :: id in ids ==> id in h.live
  }

  function Drop(l: seq<nat>, n: nat): seq<nat> {
    if n < |l| then l[n..] else []
  }

  function Apply<P>(h: History<P>, op: Op<P>, memory: nat -> nat): History<P> {
    if !Allowed(h, op) then h else
    match op
    case New(places) =>
      var (t, made) := NewAll(h.table, places, memory);
      h.(table := t, chain := Drop(h.chain, |places|), live := h.live + Ids(made))
    case Bare(n) =>
      var (t, made) := NewBare(h.table, n, memory);
      h.(table := t, chain := Drop(h.chain, n), live := h.live + Ids(made))
    case Prefab =>
      var (t, made) := NewPrefab(h.table, memory);
      h.(table := t, live := h.live + {made.id})
    case Move(id, p) => h.(table := SetPlace(h.table, id, p))
    case Free(ids) => FreeStep(h, ids)
  }

  function FreeStep<P>(h: History<P>, ids: seq<nat>): History<P>
    requires ids != []
  {
    History(FreeAll(h.table, ids), FreedChain(ids, h.chain), h.live - (set id | id in ids), Bump(h.frees, ids))
  }

  function Run<P>(ops: seq<Op<P>>, memory: nat -> nat): History<P> {
    if ops == [] then Empty() else Apply(Run(ops[..|ops| - 1], memory), ops[|ops| - 1], memory)
  }

  /** Fresh records start with a version in 0..254. */
  ghost predicate FreshVersions(memory: nat -> nat) {
    forall id :: memory(id) < TRANSIENT
  }

  ghost predicate Inv<P>(h: History<P>, memory: nat -> nat) {
    && Chained(h.table, h.chain)
    && (forall id :: id in h.chain ==> id !in h.live && FreeCount(h.frees, id) > 0)
    && (forall id :: id in h.live ==> id < |h.table.slots|)
    && (forall id :: 0 <= id < |h.table.slots| ==>
          h.table.slots[id].version == VersionAfter(memory(id), FreeCount(h.frees, id)))
    && (forall id :: id >= |h.table.slots| ==> FreeCount(h.frees, id) == 0)
  }

  lemma {:induction false} AppendKeepsInv<P>(h: History<P>, memory: nat -> nat)
    requires Inv(h, memory) && FreshVersions(memory)
    ensures var n := |h.table.slots|;
      var t := h.table.(slots := h.table.slots + [Slot(Unset, memory(n))]);
      && Inv(h.(table := t, live := h.live + {n}), memory)
      && n !in h.live && memory(n) < TRANSIENT
  {
    assert memory(|h.table.slots|) < TRANSIENT;
  }

  lemma {:induction false} PopKeepsInv<P>(h: History<P>, memory: nat -> nat)
    requires Inv(h, memory) && FreshVersions(memory) && h.chain != []
    ensures TakeOne(h.table, memory) == (h.table.(free := Head(h.chain, 1)), h.chain[0])
    ensures Inv(h.(table := h.table.(free := Head(h.chain, 1)), chain := h.chain[1..], live := h.live + {h.chain[0]}),
                memory)
    ensures h.chain[0] !in h.live && h.chain[0] < |h.table.slots| && h.table.slots[h.chain[0]].version < TRANSIENT
  {
    PopChain(h.table, h.chain);
    assert h.chain[0] in h.chain && h.table.slots[h.chain[0]].loc == Next(Head(h.chain, 1));
  }

  lemma PopChain<P>(t: Table<P>, l: seq<nat>)
    requires Chained(t, l) && l != []
    ensures Chained(t.(free := Head(l, 1)), l[1..])
    ensures forall k :: k in l[1..] ==> k in l && k != l[0]
  {
    forall i | 0 <= i < |l[1..]| ensures t.slots[l[1..][i]].loc == Next(Head(l[1..], i + 1)) {
      assert l[1..][i] == l[i + 1];
    }
  }

  /** One record taken: it was not live, it is now, and its version is not the transient mark. */
  lemma {:induction false} TakeKeepsInv<P>(h: History<P>, memory: nat -> nat)
    requires Inv(h, memory) && FreshVersions(memory)
    ensures var (t, id) := TakeOne(h.table, memory);
      && Inv(h.(table := t, chain := Drop(h.chain, 1), live := h.live + {id}), memory)
      && id !in h.live && id < |t.slots| && t.slots[id].version < TRANSIENT
      && |t.slots| == SizeAfter(|h.table.slots|, h.chain, 1)
      && (forall x :: 0 <= x < |h.table.slots| ==> t.slots[x] == h.table.slots[x])
  {
    var (t, id) := TakeOne(h.table, memory);
    if h.chain == [] {
      AppendKeepsInv(h, memory);
      assert t == h.table.(slots := h.table.slots + [Slot(Unset, memory(|h.table.slots|))]);
    } else {
      PopKeepsInv(h, memory);
      assert t == h.table.(free := Head(h.chain, 1));
    }
  }

  lemma PlaceKeepsInv<P>(h: History<P>, id: nat, p: P, memory: nat -> nat)
    requires Inv(h, memory) && id in h.live
    ensures Inv(h.(table := SetPlace(h.table, id, p)), memory)
    ensures SetPlace(h.table, id, p).slots[id] == Slot(At(p), h.table.slots[id].version)
  {
    PlaceKeepsChain(h.table, h.chain, id, p);
  }

  /** What allocating records does: distinct handles, none of them live before, none transient, all accepted. */
  ghost predicate Allocates<P>(h: History<P>, h': History<P>, made: seq<Entity>, memory: nat -> nat) {
    && Inv(h', memory)
    && h'.frees == h.frees && h'.live == h.live + Ids(made)
    && h'.chain == Drop(h.chain, |made|)
    && |h'.table.slots| == SizeAfter(|h.table.slots|, h.chain, |made|)
    && GivenOk(h.live, h'.table, made)
  }

  lemma IdsMore(made: seq<Entity>, e: Entity)
    ensures Ids(made + [e]) == Ids(made) + {e.id}
  {
    assert e in made + [e];
    forall x | x in Ids(made) ensures x in Ids(made + [e]) {
      var e0 :| e0 in made && e0.id == x;
      assert e0 in made + [e];
    }
  }

  lemma DropMore(l: seq<nat>, n: nat)
    ensures Drop(Drop(l, n), 1) == Drop(l, n + 1)
  {
  }

  /** The handles that were given out are of different records, not live before, and accepted. */
  ghost predicate GivenOk<P>(live: set<nat>, t: Table<P>, made: seq<Entity>) {
    && (forall i, j :: 0 <= i < j < |made| ==> made[i].id != made[j].id)
    && (forall i :: 0 <= i < |made| ==> made[i].id !in live && Exist(t, made[i]) && made[i].version < TRANSIENT)
  }

  lemma OneMoreGiven<P>(live: set<nat>, t: Table<P>, t': Table<P>, made: seq<Entity>, id: nat)
    requires GivenOk(live, t, made) && id !in live + Ids(made)
    requires id < |t'.slots| && t'.slots[id].version < TRANSIENT
    requires forall x :: x in Ids(made) && x < |t.slots| ==>
               x < |t'.slots| && t'.slots[x].version == t.slots[x].version
    ensures GivenOk(live, t', made + [HandleOf(t', id)])
  {
    forall i | 0 <= i < |made| ensures made[i].id in Ids(made) {
      assert made[i] in made;
    }
  }

  lemma {:induction false} OneMore<P>(h: History<P>, h1: History<P>, h': History<P>, made: seq<Entity>, id: nat,
                                      memory: nat -> nat)
    requires Allocates(h, h1, made, memory) && Inv(h', memory)
    requires id !in h1.live && id < |h'.table.slots| && h'.table.slots[id].version < TRANSIENT
    requires h'.frees == h1.frees && h'.live == h1.live + {id} && h'.chain == Drop(h1.chain, 1)
    requires |h'.table.slots| == SizeAfter(|h1.table.slots|, h1.chain, 1)
    requires forall x :: x in h1.live && x < |h1.table.slots| ==>
               x < |h'.table.slots| && h'.table.slots[x].version == h1.table.slots[x].version
    ensures Allocates(h, h', made + [HandleOf(h'.table, id)], memory)
  {
    IdsMore(made, HandleOf(h'.table, id));
    DropMore(h.chain, |made|);
    OneMoreGiven(h.live, h1.table, h'.table, made, id);
  }

  lemma IdsFit<P>(h: History<P>, h': History<P>, made: seq<Entity>, memory: nat -> nat)
    requires Allocates(h, h', made, memory) && SizeAfter(|h.table.slots|, h.chain, |made|) <= MAX_IDS
    ensures forall e :: e in made ==> e.id < MAX_IDS
  {
    forall i | 0 <= i < |made| ensures made[i].id < MAX_IDS {
      assert Exist(h'.table, made[i]);
    }
  }

  lemma {:induction false} NewAllocates<P>(h: History<P>, places: seq<P>, memory: nat -> nat)
    requires Inv(h, memory) && FreshVersions(memory) && Allowed(h, New(places))
    ensures Allocates(h, Apply(h, New(places), memory), NewAll(h.table, places, memory).1, memory)
    ensures forall e :: e in NewAll(h.table, places, memory).1 ==> e.id < MAX_IDS
  {
    if places == [] {
      assert h.live + Ids([]) == h.live;
    } else {
      NewAllocates(h, places[..|places| - 1], memory);
      OneMoreNew(h, places, memory);
      IdsFit(h, Apply(h, New(places), memory), NewAll(h.table, places, memory).1, memory);
    }
  }

  /** Taking the next record. */
  function Took<P>(h: History<P>, memory: nat -> nat): History<P> {
    var (t, id) := TakeOne(h.table, memory);
    h.(table := t, chain := Drop(h.chain, 1), live := h.live + {id})
  }

  /** The history after a table operation that has given out `made`. */
  function Gave<P>(h: History<P>, t: Table<P>, made: seq<Entity>): History<P> {
    h.(table := t, chain := Drop(h.chain, |made|), live := h.live + Ids(made))
  }

  lemma GaveOneMore<P>(h: History<P>, t: Table<P>, made: seq<Entity>, memory: nat -> nat)
    ensures var (t', id) := TakeOne(t, memory);
            Took(Gave(h, t, made), memory) == Gave(h, t', made + [HandleOf(t', id)])
  {
    var (t', id) := TakeOne(t, memory);
    IdsMore(made, HandleOf(t', id));
    DropMore(h.chain, |made|);
    assert (h.live + Ids(made)) + {id} == h.live + Ids(made + [HandleOf(t', id)]);
  }

  lemma NewIsTaking<P>(h: History<P>, places: seq<P>, memory: nat -> nat)
    requires Allowed(h, New(places)) && places != []
    ensures var n := |places| - 1;
            var h1 := Apply(h, New(places[..n]), memory);
            var h2, id := Took(h1, memory), TakeOne(h1.table, memory).1;
            && Apply(h, New(places), memory) == h2.(table := SetPlace(h2.table, id, places[n]))
            && NewAll(h.table, places, memory).1
               == NewAll(h.table, places[..n], memory).1 + [HandleOf(h2.table, id)]
  {
    var n := |places| - 1;
    var (t1, made) := NewAll(h.table, places[..n], memory);
    assert Apply(h, New(places[..n]), memory) == Gave(h, t1, made);
    GaveOneMore(h, t1, made, memory);
  }

  lemma BareIsTaking<P>(h: History<P>, count: nat, memory: nat -> nat)
    requires Allowed(h, Bare(count)) && count > 0
    ensures var h1 := Apply(h, Bare(count - 1), memory);
            && Apply(h, Bare(count), memory) == Took(h1, memory)
            && NewBare(h.table, count, memory).1 == NewBare(h.table, count - 1, memory).1
                                    + [HandleOf(Took(h1, memory).table, TakeOne(h1.table, memory).1)]
  {
    var (t1, made) := NewBare(h.table, count - 1, memory);
    assert Apply(h, Bare(count - 1), memory) == Gave(h, t1, made);
    GaveOneMore(h, t1, made, memory);
  }

  lemma OneMoreNew<P>(h: History<P>, places: seq<P>, memory: nat -> nat)
    requires Inv(h, memory) && FreshVersions(memory) && Allowed(h, New(places)) && places != []
    requires var before := places[..|places| - 1];
             Allocates(h, Apply(h, New(before), memory), NewAll(h.table, before, memory).1, memory)
    ensures Allocates(h, Apply(h, New(places), memory), NewAll(h.table, places, memory).1, memory)
  {
    var n := |places| - 1;
    var h1 := Apply(h, New(places[..n]), memory);
    var h2, id := Took(h1, memory), TakeOne(h1.table, memory).1;
    TakeKeepsInv(h1, memory);
    PlaceKeepsInv(h2, id, places[n], memory);
    NewIsTaking(h, places, memory);
    OneMore(h, h1, h2.(table := SetPlace(h2.table, id, places[n])), NewAll(h.table, places[..n], memory).1, id, memory);
  }

  lemma {:induction false} BareAllocates<P>(h: History<P>, count: nat, memory: nat -> nat)
    requires Inv(h, memory) && FreshVersions(memory) && Allowed(h, Bare(count))
    ensures Allocates(h, Apply(h, Bare(count), memory), NewBare(h.table, count, memory).1, memory)
    ensures forall e :: e in NewBare(h.table, count, memory).1 ==> e.id < MAX_IDS
  {
    if count == 0 {
      NoneAllocated(h, memory);
    } else {
      BareAllocates(h, count - 1, memory);
      OneMoreBare(h, count, memory);
    }
  }

  lemma NoneAllocated<P>(h: History<P>, memory: nat -> nat)
    requires Inv(h, memory) && Allowed(h, Bare(0))
    ensures Allocates(h, Apply(h, Bare(0), memory), NewBare(h.table, 0, memory).1, memory)
    ensures NewBare(h.table, 0, memory).1 == []
  {
    assert h.live + Ids([]) == h.live;
  }

  lemma OneMoreBare<P>(h: History<P>, count: nat, memory: nat -> nat)
    requires Inv(h, memory) && FreshVersions(memory) && Allowed(h, Bare(count)) && count > 0
    requires Allocates(h, Apply(h, Bare(count - 1), memory), NewBare(h.table, count - 1, memory).1, memory)
    ensures Allocates(h, Apply(h, Bare(count), memory), NewBare(h.table, count, memory).1, memory)
    ensures forall e :: e in NewBare(h.table, count, memory).1 ==> e.id < MAX_IDS
  {
    var h1 := Apply(h, Bare(count - 1), memory);
    var h2, id := Took(h1, memory), TakeOne(h1.table, memory).1;
    TakeKeepsInv(h1, memory);
    BareIsTaking(h, count, memory);
    OneMore(h, h1, h2, NewBare(h.table, count - 1, memory).1, id, memory);
    IdsFit(h, h2, NewBare(h.table, count, memory).1, memory);
  }

  lemma {:induction false} FreedVersion<P>(h: History<P>, ids: seq<nat>, id: nat, v0: nat)
    requires ids != [] && Distinct(ids) && id < |h.table.slots|
    requires h.table.slots[id].version == VersionAfter(v0, FreeCount(h.frees, id))
    ensures FreeAll(h.table, ids).slots[id].version == VersionAfter(v0, FreeCount(Bump(h.frees, ids), id))
  {
    if id in ids {
      var i :| 0 <= i < |ids| && ids[i] == id;
      RelinkAt(h.table, ids, h.table.free, i);
    } else {
      RelinkOther(h.table, ids, h.table.free, id);
    }
  }

  lemma {:induction false} FreeKeepsInv<P>(h: History<P>, ids: seq<nat>, memory: nat -> nat)
    requires Inv(h, memory) && Allowed(h, Free(ids))
    ensures Inv(FreeStep(h, ids), memory)
  {
    var h' := FreeStep(h, ids);
    FreeKeepsChain(h.table, h.chain, ids);
    CutIsPrefix(ids);
    forall id | 0 <= id < |h.table.slots|
      ensures h'.table.slots[id].version == VersionAfter(memory(id), FreeCount(h'.frees, id))
    {
      FreedVersion(h, ids, id, memory(id));
    }
    forall id | id in h'.chain ensures id !in h'.live && FreeCount(h'.frees, id) > 0 {
      FreedIsDead(h, ids, id, memory);
    }
    forall id | id >= |h'.table.slots| ensures FreeCount(h'.frees, id) == 0 {
      assert id !in ids;
      BumpCount(h.frees, ids, id);
    }
  }

  lemma BumpCount(frees: map<nat, nat>, ids: seq<nat>, id: nat)
    ensures FreeCount(Bump(frees, ids), id) == FreeCount(frees, id) + if id in ids then 1 else 0
  {
  }

  lemma FreedIsDead<P>(h: History<P>, ids: seq<nat>, id: nat, memory: nat -> nat)
    requires Inv(h, memory) && ids != [] && id in FreedChain(ids, h.chain)
    ensures FreeCount(Bump(h.frees, ids), id) > 0 && (id in ids || id !in h.live)
  {
    CutIsPrefix(ids);
  }

  lemma ApplyKeepsInv<P>(h: History<P>, op: Op<P>, memory: nat -> nat)
    requires Inv(h, memory) && FreshVersions(memory)
    ensures Inv(Apply(h, op, memory), memory)
  {
    if Allowed(h, op) {
      match op {
        case New(places) => NewAllocates(h, places, memory);
        case Bare(n) => BareAllocates(h, n, memory);
        case Prefab => AppendKeepsInv(h, memory);
        case Move(id, p) => PlaceKeepsInv(h, id, p, memory);
        case Free(ids) => FreeKeepsInv(h, ids, memory);
      }
    }
  }

  lemma {:induction false} RunInv<P>(ops: seq<Op<P>>, memory: nat -> nat)
    requires FreshVersions(memory)
    ensures Inv(Run(ops, memory), memory)
  {
    if ops != [] {
      RunInv(ops[..|ops| - 1], memory);
      ApplyKeepsInv(Run(ops[..|ops| - 1], memory), ops[|ops| - 1], memory);
    }
  }

  /** A live record can be moved at any time; nothing else changes. */
  lemma MovesOne<P>(ops: seq<Op<P>>, memory: nat -> nat, id: nat, p: P)
    requires FreshVersions(memory) && id in Run(ops, memory).live
    ensures var h, h' := Run(ops, memory), Run(ops + [Move(id, p)], memory);
            && id < |h.table.slots| && h'.table.slots == h.table.slots[id := Slot(At(p), h.table.slots[id].version)]
            && h'.live == h.live && h'.chain == h.chain && h'.table.free == h.table.free
  {
    RunInv(ops, memory);
    assert (ops + [Move(id, p)])[..|ops|] == ops;
  }

  predicate AllFreed<P>(h: History<P>, l: seq<nat>) {
    forall id :: id in l ==> id !in h.live && FreeCount(h.frees, id) > 0
  }

  /** After every sequence of operations the free chain is acyclic and links only freed, dead records. */
  lemma ChainHoldsFreedRecords<P>(ops: seq<Op<P>>, memory: nat -> nat)
    requires FreshVersions(memory)
    ensures exists l :: Chained(Run(ops, memory).table, l) && AllFreed(Run(ops, memory), l)
  {
    RunInv(ops, memory);
    assert AllFreed(Run(ops, memory), Run(ops, memory).chain);
  }

  /**
   After every sequence of operations, the next allocation gives out
   distinct, dead, non-transient, accepted handles.
   */
  lemma GivenHandlesAreFresh<P>(ops: seq<Op<P>>, op: Op<P>, memory: nat -> nat)
    requires FreshVersions(memory) && Allowed(Run(ops, memory), op)
    ensures var h, h' := Run(ops, memory), Run(ops + [op], memory);
      var made := Given(h, op, memory);
      && (forall i, j :: 0 <= i < j < |made| ==> made[i].id != made[j].id)
      && (forall e :: e in made ==>
          e.id !in h.live && e.id < MAX_IDS && e.version < TRANSIENT && Exist(h'.table, e) && e.id in h'.live)
  {
    RunInv(ops, memory);
    var h := Run(ops, memory);
    assert (ops + [op])[..|ops|] == ops;
    match op {
      case New(places) => NewAllocates(h, places, memory);
      case Bare(n) => BareAllocates(h, n, memory);
      case Prefab => AppendKeepsInv(h, memory);
      case _ =>
    }
    var made := Given(h, op, memory);
    assert forall i :: 0 <= i < |made| ==> made[i] in made;
  }

  lemma {:induction false} FreesGrow<P>(ops: seq<Op<P>>, more: seq<Op<P>>, id: nat, memory: nat -> nat)
    ensures FreeCount(Run(ops + more, memory).frees, id) >= FreeCount(Run(ops, memory).frees, id)
    ensures |Run(ops + more, memory).table.slots| >= |Run(ops, memory).table.slots|
    decreases |more|
  {
    if more == [] {
      assert ops + more == ops;
    } else {
      var n := |more| - 1;
      assert (ops + more)[..|ops + more| - 1] == ops + more[..n];
      FreesGrow(ops, more[..n], id, memory);
      SlotsGrow(Run(ops + more[..n], memory), more[n], memory);
    }
  }

  lemma SlotsGrow<P>(h: History<P>, op: Op<P>, memory: nat -> nat)
    ensures |Apply(h, op, memory).table.slots| >= |h.table.slots|
  {
    match op {
      case New(places) => NewAllGrows(h.table, places, memory);
      case Bare(n) => NewBareGrows(h.table, n, memory);
      case _ =>
    }
  }

  lemma {:induction false} NewAllGrows<P>(t: Table<P>, places: seq<P>, memory: nat -> nat)
    ensures |NewAll(t, places, memory).0.slots| >= |t.slots|
  {
    if places != [] {
      NewAllGrows(t, places[..|places| - 1], memory);
    }
  }

  lemma {:induction false} NewBareGrows<P>(t: Table<P>, count: nat, memory: nat -> nat)
    ensures |NewBare(t, count, memory).0.slots| >= |t.slots|
  {
    if count > 0 {
      NewBareGrows(t, count - 1, memory);
    }
  }

  /**
   A handle accepted after some operations is accepted again after any further ones exactly when its
   record has meanwhile been freed a multiple of 255 times.
   */
  lemma AcceptedAgainAfter255<P>(ops: seq<Op<P>>, more: seq<Op<P>>, e: Entity, memory: nat -> nat)
    requires FreshVersions(memory)
    requires Exist(Run(ops, memory).table, e)
    ensures var f := FreeCount(Run(ops + more, memory).frees, e.id) - FreeCount(Run(ops, memory).frees, e.id);
      f >= 0 && (Exist(Run(ops + more, memory).table, e) <==> f % TRANSIENT == 0)
  {
    FreesGrow(ops, more, e.id, memory);
    VersionIs(ops, e.id, memory);
    VersionIs(ops + more, e.id, memory);
    VersionCycles(memory(e.id), FreeCount(Run(ops, memory).frees, e.id));
    VersionCycles(memory(e.id), FreeCount(Run(ops + more, memory).frees, e.id));
    SameResidue(memory(e.id) + FreeCount(Run(ops, memory).frees, e.id),
                memory(e.id) + FreeCount(Run(ops + more, memory).frees, e.id));
  }

  lemma VersionIs<P>(ops: seq<Op<P>>, id: nat, memory: nat -> nat)
    requires FreshVersions(memory) && id < |Run(ops, memory).table.slots|
    ensures Run(ops, memory).table.slots[id].version == VersionAfter(memory(id), FreeCount(Run(ops, memory).frees, id))
  {
    RunInv(ops, memory);
  }

  lemma SameResidue(a: nat, b: nat)
    requires a <= b
    ensures a % TRANSIENT == b % TRANSIENT <==> (b - a) % TRANSIENT == 0
  {
    var q, r := a / TRANSIENT, b / TRANSIENT;
    assert a == TRANSIENT * q + a % TRANSIENT && b == TRANSIENT * r + b % TRANSIENT;
  }

  /** Appending one placed record per place, once the chain is empty. */
  function Grown<P>(t: Table<P>, places: seq<P>, memory: nat -> nat): (r: (Table<P>, seq<Entity>))
    ensures |r.0.slots| == |t.slots| + |places| && r.0.free == t.free && |r.1| == |places|
  {
    if places == [] then (t, []) else
    var n := |places| - 1;
    var (t1, made) := Grown(t, places[..n], memory);
    var v := memory(|t1.slots|);
    (t1.(slots := t1.slots + [Slot(At(places[n]), v)]), made + [Entity(|t1.slots|, v)])
  }

  lemma GrownStep<P>(t: Table<P>, places: seq<P>, i: nat, memory: nat -> nat)
    requires i < |places|
    ensures var (t1, made) := Grown(t, places[..i], memory);
      var v := memory(|t1.slots|);
      Grown(t, places[..i + 1], memory)
        == (t1.(slots := t1.slots + [Slot(At(places[i]), v)]), made + [Entity(|t1.slots|, v)])
  {
    assert places[..i + 1][..i] == places[..i];
  }

  lemma NewAllStep<P>(t: Table<P>, places: seq<P>, memory: nat -> nat, t1: Table<P>, made: seq<Entity>)
    requires places != [] && NewAll(t, places[..|places| - 1], memory) == (t1, made)
    ensures var (t2, id) := TakeOne(t1, memory);
      NewAll(t, places, memory) == (SetPlace(t2, id, places[|places| - 1]), made + [HandleOf(t2, id)])
  {
  }

  /** With the chain used up, the next record is a new one at the end. */
  lemma TakeAtEnd<P>(t: Table<P>, p: P, memory: nat -> nat)
    requires t.free == 0
    ensures var (t2, id) := TakeOne(t, memory);
      && SetPlace(t2, id, p) == t.(slots := t.slots + [Slot(At(p), memory(|t.slots|))])
      && HandleOf(t2, id) == Entity(|t.slots|, memory(|t.slots|))
  {
  }

  lemma GrownLast<P>(t: Table<P>, places: seq<P>, i: nat, memory: nat -> nat)
    requires i < |places|
    ensures var n := |places| - 1;
            var (t2, rest) := Grown(t, places[..n][i..], memory);
            var v := memory(|t2.slots|);
            Grown(t, places[i..], memory)
            == (t2.(slots := t2.slots + [Slot(At(places[n]), v)]), rest + [Entity(|t2.slots|, v)])
  {
    var n := |places| - 1;
    assert places[i..][..n - i] == places[..n][i..] && places[i..][n - i] == places[n];
  }

  lemma {:induction false} GrowIsNewAll<P>(t: Table<P>, places: seq<P>, i: nat, memory: nat -> nat)
    requires i <= |places| && NewAll(t, places[..i], memory).0.free == 0
    ensures var (t1, made) := NewAll(t, places[..i], memory);
      var (t2, rest) := Grown(t1, places[i..], memory);
      NewAll(t, places, memory) == (t2, made + rest)
    decreases |places|
  {
    var (t1, made) := NewAll(t, places[..i], memory);
    if i == |places| {
      assert places[..i] == places && places[i..] == [] && made + [] == made;
    } else {
      var n := |places| - 1;
      assert places[..n][..i] == places[..i];
      GrownLast(t1, places, i, memory);
      GrowIsNewAll(t, places[..n], i, memory);
      var (t2, rest) := Grown(t1, places[..n][i..], memory);
      NewAllStep(t, places, memory, t2, made + rest);
      TakeAtEnd(t2, places[n], memory);
      var e := Entity(|t2.slots|, memory(|t2.slots|));
      assert made + (rest + [e]) == (made + rest) + [e];
    }
  }

  /** Which records an allocation takes: those on the chain, in order, then new ones at the end. */
  function Taken(chain: seq<nat>, size: nat, i: nat): nat {
    if i < |chain| then chain[i] else size + (i - |chain|)
  }

  /** The table t' is t with n records taken, the i-th one placed at places[i], and nothing else changed. */
  ghost predicate Takes<P>(t: Table<P>, chain: seq<nat>, places: seq<P>, t': Table<P>, made: seq<Entity>) {
    && |made| == |places| && Chained(t', Drop(chain, |made|))
    && |t'.slots| == SizeAfter(|t.slots|, chain, |made|)
    && (forall i {:trigger made[i]} :: 0 <= i < |made| ==>
          made[i].id == Taken(chain, |t.slots|, i) && made[i].id < |t'.slots| &&
            t'.slots[made[i].id] == Slot(At(places[i]), made[i].version))
    && OthersStay(t, chain, t', |made|)
  }

  /** Versions stay, and so do the records that are not among the first n of the chain. */
  ghost predicate OthersStay<P>(t: Table<P>, chain: seq<nat>, t': Table<P>, n: nat) {
    && |t'.slots| >= |t.slots|
    && (forall id :: 0 <= id < |t.slots| ==> t'.slots[id].version == t.slots[id].version)
    && (forall id :: 0 <= id < |t.slots| && id !in chain ==> t'.slots[id] == t.slots[id])
    && (forall i :: n <= i < |chain| && chain[i] < |t.slots| ==> t'.slots[chain[i]] == t.slots[chain[i]])
  }

  /** The next record is placed, and no other changes. */
  ghost predicate OneMoreTaken<P>(t: Table<P>, chain: seq<nat>, t1: Table<P>, n: nat, t2: Table<P>, p: P) {
    var id := Taken(chain, |t.slots|, n);
    && Chained(t2, Drop(chain, n + 1)) && id < |t2.slots|
    && |t2.slots| == |t1.slots| + (if n < |chain| then 0 else 1)
    && (forall k :: 0 <= k < |t1.slots| && k != id ==> t2.slots[k] == t1.slots[k])
    && t2.slots[id].loc == At(p) && (id < |t1.slots| ==> t2.slots[id].version == t1.slots[id].version)
  }

  lemma TakesOneMore<P>(t: Table<P>, chain: seq<nat>, places: seq<P>, t1: Table<P>, made: seq<Entity>, t2: Table<P>,
                        p: P)
    requires Chained(t, chain) && Takes(t, chain, places, t1, made) && OneMoreTaken(t, chain, t1, |made|, t2, p)
    ensures var e := HandleOf(t2, Taken(chain, |t.slots|, |made|)); Takes(t, chain, places + [p], t2, made + [e])
  {
    var n, id := |made|, Taken(chain, |t.slots|, |made|);
    var made', places' := made + [HandleOf(t2, id)], places + [p];
    forall i | 0 <= i < |made'|
      ensures made'[i].id == Taken(chain, |t.slots|, i) && made'[i].id < |t2.slots|
      ensures t2.slots[made'[i].id] == Slot(At(places'[i]), made'[i].version)
    {
      if i < n {
        assert made'[i] == made[i] && made[i].id == Taken(chain, |t.slots|, i);
        TakenDiffer(chain, |t.slots|, i, n);
      }
    }
    OthersStayOn(t, chain, t1, n, t2, p);
  }

  lemma OthersStayOn<P>(t: Table<P>, chain: seq<nat>, t1: Table<P>, n: nat, t2: Table<P>, p: P)
    requires Chained(t, chain) && OthersStay(t, chain, t1, n) && OneMoreTaken(t, chain, t1, n, t2, p)
    requires |t1.slots| == SizeAfter(|t.slots|, chain, n)
    ensures OthersStay(t, chain, t2, n + 1)
  {
    var id := Taken(chain, |t.slots|, n);
    forall i | n + 1 <= i < |chain| ensures t2.slots[chain[i]] == t.slots[chain[i]] {
      TakenDiffer(chain, |t.slots|, n, i);
      assert t1.slots[chain[i]] == t.slots[chain[i]];
    }
    forall k | 0 <= k < |t.slots| && k !in chain ensures t2.slots[k] == t.slots[k] {
      assert k != id;
    }
  }

  lemma TakenDiffer(chain: seq<nat>, size: nat, i: nat, j: nat)
    requires Distinct(chain) && i < j && forall k :: 0 <= k < |chain| ==> chain[k] < size
    ensures Taken(chain, size, i) != Taken(chain, size, j)
  {
  }

  /**
   An allocation takes the chain's records in order, then new ones, and
   places them; their ids fit if there is room.
   */
  lemma NewAllTakes<P>(t: Table<P>, chain: seq<nat>, places: seq<P>, memory: nat -> nat)
    requires Chained(t, chain) && SizeAfter(|t.slots|, chain, |places|) <= MAX_IDS
    ensures Takes(t, chain, places, NewAll(t, places, memory).0, NewAll(t, places, memory).1)
    ensures forall i :: 0 <= i < |places| ==> NewAll(t, places, memory).1[i].id < MAX_IDS
  {
    AllTaken(t, chain, places, memory);
    var made := NewAll(t, places, memory).1;
    forall i | 0 <= i < |places| ensures made[i].id < MAX_IDS {
      assert made[i].id < SizeAfter(|t.slots|, chain, |places|);
    }
  }

  lemma {:induction false} AllTaken<P>(t: Table<P>, chain: seq<nat>, places: seq<P>, memory: nat -> nat)
    requires Chained(t, chain)
    ensures Takes(t, chain, places, NewAll(t, places, memory).0, NewAll(t, places, memory).1)
  {
    if places == [] {
      TakesNone(t, chain, places);
    } else {
      AllTaken(t, chain, places[..|places| - 1], memory);
      LastTaken(t, chain, places, memory);
    }
  }

  lemma LastTaken<P>(t: Table<P>, chain: seq<nat>, places: seq<P>, memory: nat -> nat)
    requires Chained(t, chain) && places != []
    requires var before := NewAll(t, places[..|places| - 1], memory);
             Takes(t, chain, places[..|places| - 1], before.0, before.1)
    ensures Takes(t, chain, places, NewAll(t, places, memory).0, NewAll(t, places, memory).1)
  {
    var n := |places| - 1;
    var before := NewAll(t, places[..n], memory);
    var (t2, id) := TakeOne(before.0, memory);
    NewAllStep(t, places, memory, before.0, before.1);
    LastTakes(t, chain, places, before.0, before.1, SetPlace(t2, id, places[n]), before.1 + [HandleOf(t2, id)], memory);
  }

  lemma LastTakes<P>(t: Table<P>, chain: seq<nat>, places: seq<P>, t1: Table<P>, made: seq<Entity>, t': Table<P>,
                     made': seq<Entity>, memory: nat -> nat)
    requires Chained(t, chain) && places != [] && Takes(t, chain, places[..|places| - 1], t1, made)
    requires var (t2, id) := TakeOne(t1, memory);
             t' == SetPlace(t2, id, places[|places| - 1]) && made' == made + [HandleOf(t2, id)]
    ensures Takes(t, chain, places, t', made')
  {
    SplitLast(places);
    NextTakes(t, chain, places[..|places| - 1], places, t1, made, places[|places| - 1], memory);
  }

  lemma SplitLast<P>(l: seq<P>)
    requires l != []
    ensures l == l[..|l| - 1] + [l[|l| - 1]]
  {
  }

  /** The ids an allocation gives out fit their 24 bits if and only if the records do. */
  lemma IdsFitIff<P>(t: Table<P>, chain: seq<nat>, places: seq<P>, memory: nat -> nat)
    requires Chained(t, chain) && |t.slots| <= MAX_IDS
    ensures (forall e :: e in NewAll(t, places, memory).1 ==> e.id < MAX_IDS) <==>
              SizeAfter(|t.slots|, chain, |places|) <= MAX_IDS
  {
    AllTaken(t, chain, places, memory);
    var n, made := |places|, NewAll(t, places, memory).1;
    if n > |chain| {
      assert made[n - 1].id == |t.slots| + n - 1 - |chain| && made[n - 1] in made;
    }
  }

  /** One record more, and the id in the handle is cut to that of record 0. */
  lemma FullTableRepeats<P>(t: Table<P>, p: P, memory: nat -> nat)
    requires Chained(t, []) && |t.slots| == MAX_IDS
    ensures |NewAll(t, [p], memory).1| == 1 && NewAll(t, [p], memory).1[0].id % MAX_IDS == 0
  {
    AllTaken(t, [], [p], memory);
  }

  lemma TakesNone<P>(t: Table<P>, chain: seq<nat>, places: seq<P>)
    requires Chained(t, chain) && places == []
    ensures Takes(t, chain, places, t, [])
  {
    assert Drop(chain, 0) == chain;
  }

  lemma NextTakes<P>(t: Table<P>, chain: seq<nat>, places: seq<P>, all: seq<P>, t1: Table<P>, made: seq<Entity>, p: P,
                     memory: nat -> nat)
    requires Chained(t, chain) && Takes(t, chain, places, t1, made) && all == places + [p]
    ensures var (t2, id) := TakeOne(t1, memory); Takes(t, chain, all, SetPlace(t2, id, p), made + [HandleOf(t2, id)])
  {
    var n := |made|;
    NewOneTakes(t1, Drop(chain, n), p, memory);
    var (t2, id) := TakeOne(t1, memory);
    TakenNext(chain, |t.slots|, n);
    assert id == Taken(chain, |t.slots|, n);
    TakesOneMore(t, chain, places, t1, made, SetPlace(t2, id, p), p);
  }

  lemma TakenNext(chain: seq<nat>, size: nat, n: nat)
    ensures Drop(Drop(chain, n), 1) == Drop(chain, n + 1)
    ensures Taken(Drop(chain, n), size + (if n > |chain| then n - |chain| else 0), 0) == Taken(chain, size, n)
    ensures Drop(chain, n) == [] <==> n >= |chain|
  {
  }

  lemma NewOneTakes<P>(t: Table<P>, l: seq<nat>, p: P, memory: nat -> nat)
    requires Chained(t, l)
    ensures var (t1, id) := TakeOne(t, memory);
      var t2 := SetPlace(t1, id, p);
      && id == Taken(l, |t.slots|, 0) && Chained(t2, Drop(l, 1)) && id < |t2.slots|
      && |t2.slots| == |t.slots| + (if l == [] then 1 else 0)
      && (forall k :: 0 <= k < |t.slots| && k != id ==> t2.slots[k] == t.slots[k])
      && t2.slots[id].loc == At(p) && (id < |t.slots| ==> t2.slots[id].version == t.slots[id].version)
      && HandleOf(t1, id) == HandleOf(t2, id)
  {
    TakeKeepsChain(t, l, memory);
    var (t1, id) := TakeOne(t, memory);
    PlaceKeepsChain(t1, Drop(l, 1), id, p);
  }

  function PlaceAll<P>(t: Table<P>, ids: seq<nat>, places: seq<P>): (r: Table<P>)
    requires |ids| == |places|
    ensures |r.slots| == |t.slots| && r.free == t.free
  {
    if ids == [] then t else
    var n := |ids| - 1;
    SetPlace(PlaceAll(t, ids[..n], places[..n]), ids[n], places[n])
  }

  lemma {:induction false} PlaceAllAt<P>(t: Table<P>, ids: seq<nat>, places: seq<P>)
    requires |ids| == |places| && Distinct(ids)
    ensures forall k :: 0 <= k < |t.slots| ==> PlaceAll(t, ids, places).slots[k].version == t.slots[k].version
    ensures forall k :: 0 <= k < |t.slots| && k !in ids ==> PlaceAll(t, ids, places).slots[k] == t.slots[k]
    ensures forall i :: 0 <= i < |ids| && ids[i] < |t.slots| ==>
              PlaceAll(t, ids, places).slots[ids[i]].loc == At(places[i])
  {
    if ids != [] {
      PlaceAllAt(t, ids[..|ids| - 1], places[..|ids| - 1]);
      assert ids[|ids| - 1] in ids;
    }
  }

  lemma {:induction false} PlaceAllKeepsChain<P>(t: Table<P>, l: seq<nat>, ids: seq<nat>, places: seq<P>)
    requires Chained(t, l) && |ids| == |places| && forall id :: id in ids ==> id !in l
    ensures Chained(PlaceAll(t, ids, places), l)
  {
    if ids != [] {
      PlaceAllKeepsChain(t, l, ids[..|ids| - 1], places[..|ids| - 1]);
      assert ids[|ids| - 1] in ids;
      PlaceKeepsChain(PlaceAll(t, ids[..|ids| - 1], places[..|ids| - 1]), l, ids[|ids| - 1], places[|ids| - 1]);
    }
  }

  // ------------------------------------------------------------------ world::entities

  class Entities<P> {
    var slots: seq<Slot<P>>
    var free: nat
    ghost var chain: seq<nat>
    const memory: nat -> nat   // what the version bits of a record hold before its first use

    ghost function View(): Table<P>
      reads this
    {
      Table(slots, free)
    }

    ghost predicate Valid()
      reads this
    {
      Chained(View(), chain)
    }

    constructor (memory: nat -> nat)
      ensures Valid() && View() == Table([], 0) && chain == [] && this.memory == memory
    {
      slots, free, chain := [], 0, [];
      this.memory := memory;
    }

    /** new_entities(slice): freed records first, then as many new ones as are still needed. */
    method NewEntities(places: seq<P>) returns (dst: seq<Entity>)
      requires Valid() && |slots| + |places| <= MAX_IDS
      modifies this
      ensures Valid() && chain == Drop(old(chain), |places|)
      ensures (View(), dst) == NewAll(old(View()), places, memory)
    {
      var i;
      i, dst := Reuse(places);
      if i < |places| {
        var rest := Grow(places[i..]);
        GrowIsNewAll(old(View()), places, i, memory);
        dst := dst + rest;
      } else {
        assert places[..i] == places;
      }
    }

    /** Hands out freed records until they or the places run out. */
    method Reuse(places: seq<P>) returns (i: nat, dst: seq<Entity>)
      requires Valid()
      modifies this
      ensures i <= |places| && (i == |places| || free == 0)
      ensures Valid() && |slots| == old(|slots|) && chain == Drop(old(chain), i)
      ensures (View(), dst) == NewAll(old(View()), places[..i], memory)
    {
      i, dst := 0, [];
      assert places[..0] == [];
      while i < |places| && free != 0
        invariant 0 <= i <= |places| && |slots| == old(|slots|)
        invariant Valid() && chain == Drop(old(chain), i)
        invariant (View(), dst) == NewAll(old(View()), places[..i], memory)
      {
        assert places[..i + 1][..i] == places[..i];
        var e := ReuseOne(places[i]);
        dst := dst + [e];
        i := i + 1;
      }
    }

    method ReuseOne(p: P) returns (e: Entity)
      requires Valid() && free != 0
      modifies this
      ensures Valid() && |slots| == old(|slots|) && old(chain) != [] && chain == old(chain)[1..]
      ensures var (t, id) := TakeOne(old(View()), memory); View() == SetPlace(t, id, p) && e == HandleOf(t, id)
    {
      TakeKeepsChain(View(), chain, memory);
      assert slots[chain[0]].loc == Next(Head(chain, 1));
      var id := free;
      PlaceKeepsChain(TakeOne(View(), memory).0, chain[1..], id, p);
      free := slots[id].loc.id;
      e := Entity(id, slots[id].version);
      slots := slots[id := slots[id].(loc := At(p))];
      chain := chain[1..];
    }

    /** The fast path: one resize for all the records still needed. */
    method Grow(places: seq<P>) returns (dst: seq<Entity>)
      requires free == 0
      modifies this`slots
      ensures (View(), dst) == Grown(old(View()), places, memory)
    {
      dst := [];
      ghost var n := |slots|;
      var newId := |slots|;
      Extend(|places|);
      assert places[..0] == [];
      var i := 0;
      while i < |places|
        invariant 0 <= i <= |places| && newId == n + i && |slots| == n + |places|
        invariant (Table(slots[..newId], 0), dst) == Grown(old(View()), places[..i], memory)
        invariant forall k :: newId <= k < |slots| ==> slots[k] == Slot(Unset, memory(k))
      {
        GrownStep(old(View()), places, i, memory);
        var e := PlaceNew(newId, places[i]);
        dst := dst + [e];
        i, newId := i + 1, newId + 1;
      }
      assert places[..|places|] == places && slots[..|slots|] == slots;
    }

    method Extend(count: nat)
      modifies this`slots
      ensures |slots| == |old(slots)| + count && slots[..|old(slots)|] == old(slots)
      ensures forall k :: |old(slots)| <= k < |slots| ==> slots[k] == Slot(Unset, memory(k))
    {
      var n := |slots|;
      slots := slots + seq(count, k requires 0 <= k => Slot(Unset, memory(n + k)));
    }

    method PlaceNew(newId: nat, p: P) returns (e: Entity)
      requires newId < |slots| && slots[newId] == Slot(Unset, memory(newId))
      modifies this`slots
      ensures |slots| == old(|slots|) && e == Entity(newId, memory(newId))
      ensures slots[..newId + 1] == old(slots)[..newId] + [Slot(At(p), memory(newId))]
      ensures forall k :: newId < k < |slots| ==> slots[k] == old(slots)[k]
    {
      e := Entity(newId, slots[newId].version);
      slots := slots[newId := slots[newId].(loc := At(p))];
    }

    /** free_entities(slice): the handles of a slice, at least one. */
    method FreeEntities(toFree: seq<nat>)
      requires Valid() && toFree != [] && Distinct(toFree)
      requires forall id :: id in toFree ==> id < |slots| && id !in chain
      modifies this
      ensures Valid() && chain == FreedChain(toFree, old(chain))
      ensures View() == FreeAll(old(View()), toFree)
    {
      FreeKeepsChain(View(), chain, toFree);
      chain := FreedChain(toFree, chain);
      RelinkFreed(toFree);
      free := toFree[0];
    }

    method RelinkFreed(toFree: seq<nat>)
      requires toFree != [] && forall id :: id in toFree ==> id < |slots|
      modifies this`slots
      ensures View() == Relink(old(View()), toFree, free)
    {
      var i := 0;
      while i < |toFree| - 1
        invariant 0 <= i < |toFree| && |slots| == old(|slots|)
        invariant Relink(View(), toFree[i..], free) == Relink(old(View()), toFree, free)
      {
        assert toFree[i..][1..] == toFree[i + 1..] && toFree[i] in toFree;
        slots := slots[toFree[i] := Slot(Next(toFree[i + 1]), Recycle(slots[toFree[i]].version))];
        i := i + 1;
      }
      assert toFree[i..] == [toFree[i]] && toFree[i] in toFree;
      slots := slots[toFree[i] := Slot(Next(free), Recycle(slots[toFree[i]].version))];
    }

    /** move_entities and fill_entities: the records of these handles now say the new places. */
    method Relocate(ids: seq<nat>, places: seq<P>)
      requires Valid() && |ids| == |places| && Distinct(ids)
      requires forall id :: id in ids ==> id < |slots| && id !in chain
      modifies this`slots
      ensures Valid() && View() == PlaceAll(old(View()), ids, places)
    {
      var i := 0;
      while i < |ids|
        invariant 0 <= i <= |ids| && |slots| == old(|slots|)
        invariant View() == PlaceAll(old(View()), ids[..i], places[..i])
      {
        assert ids[..i + 1][..i] == ids[..i] && places[..i + 1][..i] == places[..i] && ids[i] in ids;
        slots := slots[ids[i] := slots[ids[i]].(loc := At(places[i]))];
        i := i + 1;
      }
      assert ids[..|ids|] == ids && places[..|ids|] == places;
      PlaceAllAt(old(View()), ids, places);
      PlaceAllKeepsChain(old(View()), chain, ids, places);
    }
  }
}

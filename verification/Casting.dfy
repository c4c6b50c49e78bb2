/**
 How a structural change or an instantiation maps one archetype's type set to another's.  A component
 that is copied by hand is registered as a pair of neighbouring types: t itself and the pending copy t + 1.
 */
module Casting {
  import opened Basics
  import opened Sets

  datatype EntityType = EntityType(types: seq<nat>, metas: seq<nat>) {
    predicate Ok() {
      Sorted(types) && Sorted(metas)
    }
  }

  const EMPTY := EntityType([], [])

  /** The registered types: those copied by hand, those cleaned by hand, and the cleanup tag. */
  datatype Registry = Registry(manualCopy: set<nat>, manualClean: set<nat>, cleanup: nat) {
    /** The pending copy of a type is never itself copied by hand, nor the cleanup tag. */
    ghost predicate Ok() {
      forall t :: t in manualCopy ==> t + 1 !in manualCopy && t + 1 != cleanup
    }
    predicate IsPending(t: nat) {
      t > 0 && t - 1 in manualCopy
    }
    predicate Copying(types: seq<nat>) {
      exists t :: t in types && IsPending(t)
    }
    predicate Tracked(types: seq<nat>) {
      exists t :: t in types && (t in manualCopy || t in manualClean)
    }
    predicate Cleaning(types: seq<nat>) {
      cleanup in types
    }
    function Instance(t: nat): nat {
      if t in manualCopy then t + 1 else t
    }
    /** No archetype holds a type together with its own pending copy. */
    ghost predicate NoPairs(types: seq<nat>) {
      forall t :: t in types && t in manualCopy ==> t + 1 !in types
    }
  }

  // ------------------------------------------------------------------ the meaning, as a property of membership

  /** Is the original of x, for a pending copy x, in this set? */
  predicate OriginalIn(reg: Registry, types: seq<nat>, x: nat) {
    reg.IsPending(x) && x > 0 && x - 1 in types
  }

  predicate InInstance(reg: Registry, types: seq<nat>, inst: bool, x: nat) {
    if inst then (x in types && x !in reg.manualCopy) || OriginalIn(reg, types, x) else x in types
  }

  predicate InExtended(reg: Registry, types: seq<nat>, extend: seq<nat>, inst: bool, x: nat) {
    InInstance(reg, types, inst, x) || x in extend
  }

  /** Extending an archetype with pending copies completes those whose type is there as well. */
  predicate InCompleted(reg: Registry, g: EntityType, extend: EntityType, inst: bool, x: nat) {
    && InExtended(reg, g.types, extend.types, inst, x)
    && !(reg.Copying(g.types) && extend != EMPTY && reg.IsPending(x)
         && InExtended(reg, g.types, extend.types, inst, x - 1))
  }

  /** Shrinking an archetype with pending copies also interrupts the copy. */
  predicate InShrink(reg: Registry, g: EntityType, shrink: EntityType, x: nat) {
    x in shrink.types || (reg.Copying(g.types) && OriginalIn(reg, shrink.types, x))
  }

  predicate InCasted(reg: Registry, g: EntityType, extend: EntityType, shrink: EntityType, inst: bool, x: nat) {
    InCompleted(reg, g, extend, inst, x) && !InShrink(reg, g, shrink, x)
  }

  /** The same as one formula of set algebra. */
  function Casted(reg: Registry, g: EntityType, extend: EntityType, shrink: EntityType, inst: bool): set<nat> {
    var copying := exists t :: t in g.types && t > 0 && t - 1 in reg.manualCopy;
    var source := set t | t in g.types :: if inst && t in reg.manualCopy then t + 1 else t;
    var grown := source + (set t | t in extend.types);
    var completed := if copying && extend != EMPTY then set t | t in grown && t in reg.manualCopy :: t + 1 else {};
    var interrupted := if copying then set t | t in shrink.types && t in reg.manualCopy :: t + 1 else {};
    grown - completed - (set t | t in shrink.types) - interrupted
  }

  lemma CastedIsInCasted(reg: Registry, g: EntityType, extend: EntityType, shrink: EntityType, inst: bool, x: nat)
    ensures x in Casted(reg, g, extend, shrink, inst) <==> InCasted(reg, g, extend, shrink, inst, x)
  {
    GrownIsInExtended(reg, g, extend, inst, x);
    if x > 0 {
      GrownIsInExtended(reg, g, extend, inst, x - 1);
    }
    assert reg.Copying(g.types) <==> exists t :: t in g.types && t > 0 && t - 1 in reg.manualCopy by {
      assert forall t :: t in g.types ==> (reg.IsPending(t) <==> t > 0 && t - 1 in reg.manualCopy);
    }
  }

  lemma GrownIsInExtended(reg: Registry, g: EntityType, extend: EntityType, inst: bool, x: nat)
    ensures x in (set t | t in g.types :: if inst && t in reg.manualCopy then t + 1 else t) +
              (set t | t in extend.types)
       <==> InExtended(reg, g.types, extend.types, inst, x)
  {
    if inst && x > 0 && x - 1 in g.types && x - 1 in reg.manualCopy {
      var t := x - 1;
      assert t in g.types && (if inst && t in reg.manualCopy then t + 1 else t) == x;
    }
  }

  /** us is ts, with each type that is copied by hand replaced by its pending copy. */
  predicate IsInstance(reg: Registry, ts: seq<nat>, us: seq<nat>) {
    |us| == |ts| && forall i :: 0 <= i < |ts| ==> us[i] == if ts[i] in reg.manualCopy then ts[i] + 1 else ts[i]
  }

  /** So an instance of an archetype with a type that is copied by hand waits for that copy. */
  lemma InstanceIsCopying(reg: Registry, ts: seq<nat>, us: seq<nat>, t: nat)
    requires IsInstance(reg, ts, us) && t in ts && t in reg.manualCopy
    ensures reg.Copying(us) && t + 1 in us
  {
    var i :| 0 <= i < |ts| && ts[i] == t;
    assert us[i] == t + 1 && reg.IsPending(us[i]);
  }

  // ------------------------------------------------------------------ the phases

  /** phase 0: start copying due to instantiation */
  method StartCopying(reg: Registry, types: seq<nat>) returns (d: seq<nat>)
    requires reg.Ok() && Sorted(types) && reg.NoPairs(types)
    ensures Sorted(d) && forall x :: x in d <==> InInstance(reg, types, true, x)
    ensures IsInstance(reg, types, d)
  {
    d := [];
    var i := 0;
    while i < |types|
      invariant 0 <= i <= |types| && |d| == i
      invariant forall k :: 0 <= k < i ==> d[k] == reg.Instance(types[k])
    {
      d := d + [reg.Instance(types[i])];
      i := i + 1;
    }
    forall a, b | 0 <= a < b < |d| ensures d[a] < d[b] {
      assert types[a] in types && types[b] in types && types[a] < types[b];
    }
    forall x ensures x in d <==> InInstance(reg, types, true, x) {
      if InInstance(reg, types, true, x) {
        var y := if x in types && x !in reg.manualCopy then x else x - 1;
        var k :| 0 <= k < |types| && types[k] == y;
        assert d[k] == x;
      }
    }
  }

  /** phase 2: complete copying due to extension, by skipping a type that directly follows its original */
  method CompleteCopying(reg: Registry, types: seq<nat>) returns (d: seq<nat>)
    requires reg.Ok() && Sorted(types)
    ensures Sorted(d) && forall x :: x in d <==> x in types && !OriginalIn(reg, types, x)
  {
    d := [];
    var i := 0;
    while i < |types|
      invariant 0 <= i <= |types| && Sorted(d)
      invariant forall x :: x in d <==> x in types[..i] && !OriginalIn(reg, types, x)
      invariant 0 < i < |types| && reg.IsPending(types[i]) ==> types[i - 1] != types[i] - 1
    {
      assert types[i] !in types[..i];
      assert reg.IsPending(types[i]) ==> types[i] - 1 !in types;
      SortedAppend(d, types[i]);
      d := d + [types[i]];
      if i < |types| - 1 && types[i] in reg.manualCopy && types[i + 1] == types[i] + 1 {
        assert types[i] in types && types[..i + 2] == types[..i] + [types[i], types[i + 1]];
        assert reg.IsPending(types[i + 1]) && types[i + 1] - 1 in types;
        i := i + 1;
      }
      i := i + 1;
    }
    assert types[..i] == types;
  }

  /** phase 3: interrupt copying due to shrinking */
  method InterruptCopying(reg: Registry, shrink: seq<nat>) returns (d: seq<nat>)
    requires Sorted(shrink)
    ensures Ordered(d) && forall x :: x in d <==> x in shrink || OriginalIn(reg, shrink, x)
  {
    d := [];
    var i := 0;
    while i < |shrink|
      invariant 0 <= i <= |shrink| && Ordered(d)
      invariant forall x :: x in d <==> x in shrink[..i] || OriginalIn(reg, shrink[..i], x)
      invariant forall x, k :: x in d && i <= k < |shrink| ==> x <= shrink[k]
    {
      Interrupted(reg, shrink[..i], shrink[i]);
      assert shrink[..i + 1] == shrink[..i] + [shrink[i]];
      OrderedAppend(d, shrink[i]);
      d := d + [shrink[i]];
      if shrink[i] in reg.manualCopy {
        OrderedAppend(d, shrink[i] + 1);
        d := d + [shrink[i] + 1];
      }
      i := i + 1;
    }
    assert shrink[..i] == shrink;
  }

  /** What one more type to shrink adds. */
  lemma Interrupted(reg: Registry, types: seq<nat>, t: nat)
    ensures forall x: nat :: x in types + [t] || OriginalIn(reg, types + [t], x) <==>
              x in types || OriginalIn(reg, types, x) || x == t || (x == t + 1 && t in reg.manualCopy)
  {
  }

  lemma OrderedAppend(s: seq<nat>, x: nat)
    requires Ordered(s) && forall y :: y in s ==> y <= x
    ensures Ordered(s + [x])
  {
    assert forall i :: 0 <= i < |s| ==> s[i] in s;
  }

  /** phases 0 to 2 */
  method GrowTypes(reg: Registry, g: EntityType, extend: EntityType, inst: bool) returns (types: seq<nat>)
    requires reg.Ok() && g.Ok() && extend.Ok() && reg.NoPairs(g.types)
    ensures Sorted(types) && forall x :: x in types <==> InCompleted(reg, g, extend, inst, x)
    ensures inst && extend == EMPTY ==> IsInstance(reg, g.types, types)
  {
    types := g.types;
    if inst && reg.Tracked(g.types) {
      types := StartCopying(reg, types);
    }
    if extend != EMPTY {
      types := Merge(types, extend.types);
    }
    if reg.Copying(g.types) && extend != EMPTY {
      types := CompleteCopying(reg, types);
    }
  }

  /** phases 3 and 4 */
  method ShrinkTypes(reg: Registry, g: EntityType, grown: seq<nat>, shrink: EntityType) returns (types: seq<nat>)
    requires Sorted(grown) && shrink.Ok()
    ensures Sorted(types) && forall x :: x in types <==> x in grown && !InShrink(reg, g, shrink, x)
    ensures shrink == EMPTY ==> types == grown
  {
    types := grown;
    var shrTypes := shrink.types;
    if reg.Copying(g.types) && shrink != EMPTY {
      shrTypes := InterruptCopying(reg, shrTypes);
    }
    if shrink != EMPTY {
      types := Substract(types, shrTypes);
    }
  }

  method CastMetas(g: EntityType, extend: EntityType, shrink: EntityType) returns (metas: seq<nat>)
    requires g.Ok() && extend.Ok() && shrink.Ok()
    ensures Sorted(metas) && forall x :: x in metas <==> (x in g.metas || x in extend.metas) && x !in shrink.metas
    ensures extend == shrink == EMPTY ==> metas == g.metas
  {
    metas := g.metas;
    if extend != EMPTY {
      metas := Merge(metas, extend.metas);
    }
    if shrink != EMPTY {
      metas := Substract(metas, shrink.metas);
    }
  }

  function Elements(types: seq<nat>): set<nat> {
    set t | t in types
  }

  ghost predicate OnlyLeft(reg: Registry, g: EntityType, extend: EntityType, shrink: EntityType, inst: bool, t: nat) {
    && InCasted(reg, g, extend, shrink, inst, t)
    && forall x :: InCasted(reg, g, extend, shrink, inst, x) ==> x == t
  }

  /** world::get_casted, up to looking the resulting type up */
  method GetCasted(reg: Registry, g: EntityType, extend: EntityType, shrink: EntityType, inst: bool)
    returns (r: Option<EntityType>)
    requires reg.Ok() && g.Ok() && extend.Ok() && shrink.Ok() && reg.NoPairs(g.types)
    ensures r.Some? ==> r.value.Ok()
    ensures r.Some? ==> forall x :: x in r.value.types <==> InCasted(reg, g, extend, shrink, inst, x)
    ensures r.Some? ==> Elements(r.value.types) == Casted(reg, g, extend, shrink, inst)
    ensures r.Some? ==> forall x :: x in r.value.metas <==> (x in g.metas || x in extend.metas) && x !in shrink.metas
    ensures r.Some? && inst && extend == shrink == EMPTY ==>
              IsInstance(reg, g.types, r.value.types) && r.value.metas == g.metas
    ensures r.None? <==> reg.Cleaning(g.types) && (inst || exists t :: OnlyLeft(reg, g, extend, shrink, inst, t))
  {
    if inst && reg.Cleaning(g.types) {
      return None;
    }
    var types := GrowTypes(reg, g, extend, inst);
    types := ShrinkTypes(reg, g, types, shrink);
    var metas := CastMetas(g, extend, shrink);
    assert forall x :: x in types <==> InCasted(reg, g, extend, shrink, inst, x);
    forall x: nat ensures x in Elements(types) <==> x in Casted(reg, g, extend, shrink, inst) {
      CastedIsInCasted(reg, g, extend, shrink, inst, x);
    }
    if |types| == 1 {
      assert OnlyLeft(reg, g, extend, shrink, inst, types[0]);
    } else if |types| > 1 {
      assert types[0] in types && types[1] in types && types[0] != types[1];
    }
    if reg.Cleaning(g.types) && |types| == 1 {
      return None;
    }
    return Some(EntityType(types, metas));
  }

  // ------------------------------------------------------------------ the archetype to be cleaned in

  /** What an entity keeps while it waits to be cleaned: the cleanup tag, and what is cleaned by hand. */
  predicate InCleaned(reg: Registry, g: EntityType, x: nat) {
    x == reg.cleanup || (x in g.types && x in reg.manualClean)
  }

  /** The types of the i first types that are cleaned by hand, behind the tag, in order. */
  ghost predicate Picked(reg: Registry, types: seq<nat>, i: nat, d: seq<nat>)
    requires i <= |types|
  {
    && d != [] && d[0] == reg.cleanup
    && (forall x :: x in d[1..] <==> x in types[..i] && x in reg.manualClean)
    && (forall a, b :: 1 <= a < b < |d| ==> d[a] < d[b])
  }

  /** Puts the first element in its place among the others, which are sorted. */
  function SortFirst(d: seq<nat>): (r: seq<nat>)
    requires d != [] && Sorted(d[1..]) && d[0] !in d[1..]
    ensures Sorted(r) && |r| == |d| && forall x :: x in r <==> x in d
  {
    Insert(d[1..], d[0])
  }

  function Insert(l: seq<nat>, x: nat): (r: seq<nat>)
    requires Sorted(l) && x !in l
    ensures Sorted(r) && |r| == |l| + 1 && (forall y :: y in r <==> y == x || y in l)
    ensures l != [] && x > l[0] ==> r[0] == l[0]
  {
    if l == [] || x < l[0] then
      assert forall i :: 0 <= i < |l| ==> l[i] >= l[0];
      [x] + l
    else
      assert l[0] in l && x > l[0];
      var r := Insert(l[1..], x);
      assert forall i :: 0 <= i < |r| ==> r[i] in r && r[i] > l[0];
      [l[0]] + r
  }

  /**
   world::get_cleaning, up to looking the resulting type up.  The cleanup tag itself is not registered as
   cleaned by hand.
   */
  method GetCleaning(reg: Registry, g: EntityType) returns (r: Option<EntityType>)
    requires g.Ok() && reg.cleanup !in reg.manualClean
    ensures r.None? <==> !reg.Cleaning(g.types) && forall t :: t in g.types ==> t !in reg.manualClean
    ensures reg.Cleaning(g.types) ==> r == Some(g)
    ensures r.Some? && !reg.Cleaning(g.types) ==>
      r.value.Ok() && r.value.metas == g.metas && forall x :: x in r.value.types <==> InCleaned(reg, g, x)
    ensures r.Some? && !reg.Cleaning(g.types) ==>
      Elements(r.value.types) == {reg.cleanup} + Elements(g.types) * reg.manualClean
  {
    if reg.Cleaning(g.types) {
      return Some(g);
    }
    if !reg.Tracked(g.types) {
      return None;
    }
    var d := PickAll(reg, g.types);
    if |d| == 1 {
      return None;
    }
    assert d[1] in d[1..];
    r := Some(EntityType(SortFirst(d), g.metas));
    CleanedElements(reg, g, r.value.types);
  }

  /** The cleanup tag, and behind it the types that are cleaned by hand. */
  method PickAll(reg: Registry, types: seq<nat>) returns (d: seq<nat>)
    requires Sorted(types)
    ensures Picked(reg, types, |types|, d) && types[..|types|] == types
    ensures forall x :: x in d <==> x == reg.cleanup || x in d[1..]
  {
    d := [reg.cleanup];
    var i := 0;
    while i < |types|
      invariant 0 <= i <= |types| && Picked(reg, types, i, d)
    {
      PickNext(reg, types, i, d);
      if types[i] in reg.manualClean {
        d := d + [types[i]];
      }
      i := i + 1;
    }
    assert d == [d[0]] + d[1..];
  }

  lemma CleanedElements(reg: Registry, g: EntityType, types: seq<nat>)
    requires forall x :: x in types <==> InCleaned(reg, g, x)
    ensures Elements(types) == {reg.cleanup} + Elements(g.types) * reg.manualClean
  {
  }

  lemma PickNext(reg: Registry, types: seq<nat>, i: nat, d: seq<nat>)
    requires Sorted(types) && i < |types| && Picked(reg, types, i, d)
    ensures Picked(reg, types, i + 1, if types[i] in reg.manualClean then d + [types[i]] else d)
  {
    assert types[..i + 1] == types[..i] + [types[i]];
    assert (d + [types[i]])[1..] == d[1..] + [types[i]];
    forall a | 1 <= a < |d| ensures d[a] < types[i] {
      assert d[a] == d[1..][a - 1] && d[a] in d[1..];
    }
  }

  /** Entities that wait to be cleaned are left alone by a second destruction. */
  method CleanTwice(reg: Registry, g: EntityType) returns (once: Option<EntityType>, twice: Option<EntityType>)
    requires g.Ok() && reg.cleanup !in reg.manualClean
    ensures once.Some? ==> twice == once && reg.Cleaning(once.value.types)
  {
    once := GetCleaning(reg, g);
    if once.Some? {
      assert InCleaned(reg, g, reg.cleanup);
      twice := GetCleaning(reg, once.value);
    } else {
      twice := None;
    }
  }

  // ------------------------------------------------------------------ what casting promises

  /** A plain cast of an archetype without pending copies is (source + extend) - shrink. */
  lemma PlainCast(reg: Registry, g: EntityType, extend: EntityType, shrink: EntityType, x: nat)
    requires !reg.Copying(g.types)
    ensures InCasted(reg, g, extend, shrink, false, x) <==> (x in g.types || x in extend.types) && x !in shrink.types
  {
  }

  /** Shrinking t removes a pending copy of t too, even when the extension asks for it. */
  lemma ShrinkInterrupts(reg: Registry, g: EntityType, extend: EntityType, shrink: EntityType, t: nat)
    requires reg.Ok() && t in shrink.types && t in reg.manualCopy && t + 1 in g.types
    ensures !InCasted(reg, g, extend, shrink, false, t) && !InCasted(reg, g, extend, shrink, false, t + 1)
  {
    assert reg.IsPending(t + 1);
  }

  /**
   Instantiating an archetype and then extending the instance by the hand-copied types it had gives
   back the original archetype.
   */
  method InstantiateThenComplete(reg: Registry, g: EntityType, byHand: seq<nat>) returns (r: Option<EntityType>)
    requires reg.Ok() && g.Ok() && reg.NoPairs(g.types) && !reg.Cleaning(g.types)
    requires Sorted(byHand) && forall x :: x in byHand <==> x in g.types && x in reg.manualCopy
    ensures r == Some(g)
  {
    var instance := GetCasted(reg, g, EMPTY, EMPTY, true);
    var g1 := instance.value;
    CompletedInstance(reg, g, g1, EntityType(byHand, []));
    r := GetCasted(reg, g1, EntityType(byHand, []), EMPTY, false);
    SortedUnique(r.value.types, g.types);
    SortedUnique(r.value.metas, g.metas);
  }

  lemma CompletedInstance(reg: Registry, g: EntityType, g1: EntityType, byHand: EntityType)
    requires reg.Ok() && reg.NoPairs(g.types) && !reg.Cleaning(g.types)
    requires forall x :: x in g1.types <==> InCasted(reg, g, EMPTY, EMPTY, true, x)
    requires forall x :: x in byHand.types <==> x in g.types && x in reg.manualCopy
    ensures reg.NoPairs(g1.types) && !reg.Cleaning(g1.types)
    ensures forall x :: InCasted(reg, g1, byHand, EMPTY, false, x) <==> x in g.types
  {
    forall x: nat ensures InCasted(reg, g1, byHand, EMPTY, false, x) <==> x in g.types {
      if x in byHand.types {
        assert reg.IsPending(x + 1) && InCasted(reg, g, EMPTY, EMPTY, true, x + 1);
      }
      if reg.IsPending(x) && x in g1.types {
        if x - 1 in byHand.types {
          assert byHand != EMPTY;
        }
      }
    }
  }
}

/** Cached archetype queries: what a filter means, and how the caches follow the archetypes that come and go. */
module Queries {
  import opened Sets

  type ArchetypeId = nat

  /** An archetype as a query sees it; its shared types are those it reaches through its meta entities. */
  datatype Archetype = Archetype(id: ArchetypeId, types: seq<nat>, metas: seq<nat>, shared: seq<nat>) {
    predicate Ok() {
      Sorted(types) && Sorted(metas) && Sorted(shared)
    }
  }

  datatype Filter = Filter(
    all: seq<nat>, any: seq<nat>, none: seq<nat>,
    allMetas: seq<nat>, anyMetas: seq<nat>, noneMetas: seq<nat>,
    shared: seq<nat>, owned: seq<nat>) {
    predicate Ok() {
      && Sorted(all) && Sorted(any) && Sorted(none) && Sorted(shared) && Sorted(owned)
      && Sorted(allMetas) && Sorted(anyMetas) && Sorted(noneMetas)
    }
  }

  function Elems(s: seq<nat>): set<nat> {
    set x | x in s
  }

  /**
   What a filter asks for.  Types named in none must not be owned, unless they are also named in
   shared, and must not be shared, unless they are also named in owned.
   */
  predicate Matches(f: Filter, g: Archetype) {
    var own, sh, metas := Elems(g.types), Elems(g.shared), Elems(g.metas);
    && Elems(f.all) <= own + sh
    && (f.any == [] || Elems(f.any) * (own + sh) != {})
    && (Elems(f.none) - Elems(f.shared)) * own == {}
    && (Elems(f.none) - Elems(f.owned)) * sh == {}
    && Elems(f.owned) <= own && Elems(f.shared) <= sh
    && Elems(f.allMetas) <= metas
    && (f.anyMetas == [] || Elems(f.anyMetas) * metas != {})
    && Elems(f.noneMetas) * metas == {}
  }

  /** The same, type by type. */
  lemma MatchesByType(f: Filter, g: Archetype)
    ensures Matches(f, g) <==>
      && (forall t :: t in f.all ==> t in g.types || t in g.shared)
      && (f.any != [] ==> exists t :: t in f.any && (t in g.types || t in g.shared))
      && (forall t :: t in f.none && t in g.types ==> t in f.shared)
      && (forall t :: t in f.none && t in g.shared ==> t in f.owned)
      && (forall t :: t in f.owned ==> t in g.types)
      && (forall t :: t in f.shared ==> t in g.shared)
      && (forall e :: e in f.allMetas ==> e in g.metas)
      && (f.anyMetas != [] ==> exists e :: e in f.anyMetas && e in g.metas)
      && (forall e :: e in f.noneMetas ==> e !in g.metas)
  {
    var own, sh, metas := Elems(g.types), Elems(g.shared), Elems(g.metas);
    ShareIff(f.any, own + sh);
    ShareIff(f.anyMetas, metas);
    WithinIff(f.all, own + sh);
    WithinIff(f.owned, own);
    WithinIff(f.shared, sh);
    WithinIff(f.allMetas, metas);
    ApartIff(f.none, Elems(f.shared), own);
    ApartIff(f.none, Elems(f.owned), sh);
    ApartIff(f.noneMetas, {}, metas);
    assert Elems(f.noneMetas) - {} == Elems(f.noneMetas);
  }

  lemma WithinIff(l: seq<nat>, s: set<nat>)
    ensures Elems(l) <= s <==> forall t :: t in l ==> t in s
  {
    assert forall t :: t in Elems(l) <==> t in l;
  }

  lemma ApartIff(l: seq<nat>, but: set<nat>, s: set<nat>)
    ensures (Elems(l) - but) * s == {} <==> forall t :: t in l && t in s ==> t in but
  {
    if (Elems(l) - but) * s == {} {
      forall t | t in l && t in s ensures t in but {
        assert t in but || t in (Elems(l) - but) * s;
      }
    }
  }

  lemma ShareIff(l: seq<nat>, s: set<nat>)
    ensures Elems(l) * s != {} <==> exists t :: t in l && t in s
  {
    if t :| t in l && t in s {
      assert t in Elems(l) * s;
    }
  }

  method Covers(l: seq<nat>, r: seq<nat>) returns (b: bool)
    requires Sorted(l) && Sorted(r)
    ensures b <==> Elems(r) <= Elems(l)
  {
    b := All(l, r);
    assert forall x :: x in Elems(r) <==> x in r;
  }

  method Meets(l: seq<nat>, r: seq<nat>) returns (b: bool)
    requires Sorted(l) && Sorted(r)
    ensures b <==> Elems(r) * Elems(l) != {}
  {
    b := Any(l, r);
    if b {
      var x :| x in l && x in r;
      assert x in Elems(r) * Elems(l);
    }
  }

  /** archetype_filter::match */
  method Match(f: Filter, g: Archetype) returns (b: bool)
    requires f.Ok() && g.Ok()
    ensures b <==> Matches(f, g)
  {
    var components := Merge(g.types, g.shared);
    assert Elems(components) == Elems(g.types) + Elems(g.shared);
    b := Covers(components, f.all);
    if !b { return; }
    if |f.any| > 0 {
      b := Meets(components, f.any);
      if !b { return; }
    }
    var nonOwned := Substract(f.none, f.shared);
    assert Elems(nonOwned) == Elems(f.none) - Elems(f.shared);
    var nonShared := Substract(f.none, f.owned);
    assert Elems(nonShared) == Elems(f.none) - Elems(f.owned);
    b := Meets(g.types, nonOwned);
    if b { return false; }
    b := Meets(g.shared, nonShared);
    if b { return false; }
    b := Covers(g.types, f.owned);
    if !b { return; }
    b := Covers(g.shared, f.shared);
    if !b { return; }
    b := Covers(g.metas, f.allMetas);
    if !b { return; }
    if |f.anyMetas| > 0 {
      b := Meets(g.metas, f.anyMetas);
      if !b { return; }
    }
    b := Meets(g.metas, f.noneMetas);
    b := !b;
  }

  // ------------------------------------------------------------------ which archetypes a query may see at all

  datatype Builtin = Builtin(disable: nat, cleanup: nat, pending: set<nat>)

  datatype Flags = Flags(includeClean: bool, includeDisabled: bool)

  /** The scan in get_query_cache: it stops at the first pending-copy type it meets. */
  method ScanFlags(bi: Builtin, all: seq<nat>) returns (fl: Flags)
    ensures fl == FlagsOf(bi, all)
  {
    var includeClean, includeDisabled, includeCopy := false, false, false;
    var i := 0;
    while i < |all| && !includeCopy
      invariant 0 <= i <= |all|
      invariant includeCopy ==> i > 0 && all[i - 1] in bi.pending
      invariant forall k :: 0 <= k < (if includeCopy then i - 1 else i) ==> all[k] !in bi.pending
      invariant includeClean <==> bi.cleanup in all[..i]
      invariant includeDisabled <==> bi.disable in all[..i]
    {
      if all[i] == bi.cleanup {
        includeClean := true;
      }
      if all[i] == bi.disable {
        includeDisabled := true;
      }
      if all[i] in bi.pending {
        includeCopy := true;
      }
      assert all[..i + 1] == all[..i] + [all[i]];
      i := i + 1;
    }
    FirstIs(bi, all, i, includeCopy);
    includeCopy := includeCopy || includeClean;
    includeDisabled := includeDisabled || includeCopy;
    fl := Flags(includeClean, includeDisabled);
  }

  /** How much of `all` the scan looks at. */
  function Scanned(bi: Builtin, all: seq<nat>): (n: nat)
    ensures n <= |all|
  {
    if all == [] then 0 else if all[0] in bi.pending then 1 else 1 + Scanned(bi, all[1..])
  }

  function FlagsOf(bi: Builtin, all: seq<nat>): Flags {
    var seen := all[..Scanned(bi, all)];
    var copy := seen != [] && seen[|seen| - 1] in bi.pending;
    Flags(bi.cleanup in seen, bi.disable in seen || copy || bi.cleanup in seen)
  }

  lemma {:induction false} FirstIs(bi: Builtin, all: seq<nat>, i: nat, found: bool)
    requires i <= |all|
    requires found ==> i > 0 && all[i - 1] in bi.pending
    requires forall k :: 0 <= k < (if found then i - 1 else i) ==> all[k] !in bi.pending
    requires found || i == |all|
    ensures Scanned(bi, all) == i
    decreases |all|
  {
    if all != [] && i > 0 && !(all[0] in bi.pending) {
      FirstIs(bi, all[1..], i - 1, found);
    }
  }

  /**
   What the scan decides: disabled archetypes are seen when the filter names disable, cleanup or a pending copy;
   archetypes being cleaned only when it names cleanup and no pending copy that sorts before it, as those of all
   components and buffers do.
   */
  lemma {:induction false} FlagsMeaning(bi: Builtin, all: seq<nat>)
    requires Sorted(all)
    ensures FlagsOf(bi, all).includeClean <==>
            bi.cleanup in all && forall t :: t in all && t in bi.pending ==> t >= bi.cleanup
    ensures FlagsOf(bi, all).includeDisabled <==>
            bi.disable in all || bi.cleanup in all || exists t :: t in all && t in bi.pending
  {
    var n := Scanned(bi, all);
    ScanStops(bi, all);
    assert all == all[..n] + all[n..];
    if n > 0 && all[n - 1] in bi.pending {
      assert all[n - 1] in all;
      assert forall k :: 0 <= k < n ==> all[k] <= all[n - 1];
      assert forall k :: n <= k < |all| ==> all[n - 1] < all[k];
    }
  }

  lemma {:induction false} ScanStops(bi: Builtin, all: seq<nat>)
    ensures var n := Scanned(bi, all);
      && (n == |all| || (n > 0 && all[n - 1] in bi.pending))
      && (forall k :: 0 <= k < n - 1 ==> all[k] !in bi.pending)
      && (n > 0 && all[n - 1] !in bi.pending ==> n == |all|)
  {
    if all != [] && all[0] !in bi.pending {
      ScanStops(bi, all[1..]);
    }
  }

  predicate Passes(bi: Builtin, f: Filter, g: Archetype) {
    && (bi.cleanup in g.types ==> FlagsOf(bi, f.all).includeClean)
    && (bi.disable in g.types ==> FlagsOf(bi, f.all).includeDisabled)
    && Matches(f, g)
  }

  /** What a query sees: matching archetypes, and those being cleaned or disabled only if it asks for them. */
  lemma PassesIff(bi: Builtin, f: Filter, g: Archetype)
    requires Sorted(f.all)
    ensures Passes(bi, f, g) <==>
      && Matches(f, g)
      && (bi.cleanup in g.types ==>
            bi.cleanup in f.all && forall t :: t in f.all && t in bi.pending ==> t >= bi.cleanup)
      && (bi.disable in g.types ==>
            bi.disable in f.all || bi.cleanup in f.all || exists t :: t in f.all && t in bi.pending)
  {
    FlagsMeaning(bi, f.all);
  }

  // ------------------------------------------------------------------ the caches

  datatype Cache = Cache(flags: Flags, archetypes: seq<Archetype>)

  class World {
    const bi: Builtin
    var archetypes: set<Archetype>
    var queries: map<Filter, Cache>

    predicate Distinct(s: seq<Archetype>) {
      forall i, j :: 0 <= i < j < |s| ==> s[i] != s[j]
    }

    /** A cache lists, without repetition, exactly the live archetypes that pass its flags and its filter. */
    ghost predicate Exact(f: Filter, c: Cache, live: set<Archetype>) {
      && c.flags == FlagsOf(bi, f.all)
      && Distinct(c.archetypes)
      && forall g :: g in c.archetypes <==> g in live && Passes(bi, f, g)
    }

    ghost predicate Valid()
      reads this
    {
      && (forall g :: g in archetypes ==> g.Ok())
      && (forall f :: f in queries ==> f.Ok() && Exact(f, queries[f], archetypes))
    }

    constructor (bi: Builtin)
      ensures Valid() && archetypes == {} && queries == map[]
    {
      this.bi := bi;
      archetypes, queries := {}, map[];
    }

    method MatchCache(f: Filter, fl: Flags, g: Archetype) returns (b: bool)
      requires f.Ok() && g.Ok() && fl == FlagsOf(bi, f.all)
      ensures b <==> Passes(bi, f, g)
    {
      if bi.cleanup in g.types && !fl.includeClean {
        return false;
      }
      if bi.disable in g.types && !fl.includeDisabled {
        return false;
      }
      b := Match(f, g);
    }

    /** world::get_query_cache: builds the cache on first use, from the archetypes in whatever order the table gives. */
    method GetQueryCache(f: Filter) returns (c: Cache)
      requires Valid() && f.Ok()
      modifies this`queries
      ensures Valid() && f in queries && queries[f] == c && Exact(f, c, archetypes)
      ensures queries.Keys == old(queries.Keys) + {f} && forall q :: q in old(queries) ==> queries[q] == old(queries[q])
    {
      if f in queries {
        return queries[f];
      }
      c := BuildCache(f);
      queries := queries[f := c];
    }

    method BuildCache(f: Filter) returns (c: Cache)
      requires Valid() && f.Ok()
      ensures Exact(f, c, archetypes)
    {
      var fl := ScanFlags(bi, f.all);
      var listed: seq<Archetype> := [];
      var rest := archetypes;
      while rest != {}
        invariant rest <= archetypes && Distinct(listed)
        invariant forall g :: g in listed <==> g in archetypes - rest && Passes(bi, f, g)
        decreases rest
      {
        var g :| g in rest;
        rest := rest - {g};
        var pass := MatchCache(f, fl, g);
        if pass {
          assert g !in listed;
          listed := listed + [g];
        }
      }
      c := Cache(fl, listed);
    }

    /** One cache's part of update_queries. */
    method UpdateCache(f: Filter, c: Cache, g: Archetype, add: bool, ghost live: set<Archetype>) returns (c': Cache)
      requires f.Ok() && g.Ok() && Exact(f, c, live) && (add <==> g !in live)
      ensures Exact(f, c', if add then live + {g} else live - {g})
    {
      c' := c;
      var pass := MatchCache(f, c.flags, g);
      if pass {
        if add {
          assert g !in c.archetypes;
          c' := c.(archetypes := c.archetypes + [g]);
        } else {
          var j := 0;
          while j < |c.archetypes| && c.archetypes[j] != g
            invariant 0 <= j <= |c.archetypes|
            invariant forall k :: 0 <= k < j ==> c.archetypes[k] != g
          {
            j := j + 1;
          }
          if j == |c.archetypes| {
            return;
          }
          var last := |c.archetypes| - 1;
          RemovedBySwap(c.archetypes, j, g);
          c' := c.(archetypes := c.archetypes[j := c.archetypes[last]][..last]);
        }
      }
    }

    lemma RemovedBySwap(gs: seq<Archetype>, j: nat, g: Archetype)
      requires Distinct(gs) && j < |gs| && gs[j] == g
      ensures var r := gs[j := gs[|gs| - 1]][..|gs| - 1];
        Distinct(r) && forall x :: x in r <==> x in gs && x != g
    {
      var last := |gs| - 1;
      var r := gs[j := gs[last]][..last];
      forall x | x in gs && x != g ensures x in r {
        var k :| 0 <= k < |gs| && gs[k] == x;
        assert if k == last then r[j] == x else r[k] == x;
      }
    }

    /** world::update_queries */
    method UpdateQueries(g: Archetype, add: bool, ghost live: set<Archetype>)
      requires g.Ok() && (add <==> g !in live)
      requires forall f :: f in queries ==> f.Ok() && Exact(f, queries[f], live)
      modifies this`queries
      ensures queries.Keys == old(queries.Keys)
      ensures forall f :: f in queries ==> Exact(f, queries[f], if add then live + {g} else live - {g})
    {
      ghost var live' := if add then live + {g} else live - {g};
      var rest := queries.Keys;
      while rest != {}
        invariant rest <= queries.Keys == old(queries.Keys)
        invariant forall f :: f in queries ==> Exact(f, queries[f], if f in rest then live else live')
        decreases rest
      {
        var f :| f in rest;
        rest := rest - {f};
        var c := UpdateCache(f, queries[f], g, add, live);
        queries := queries[f := c];
      }
    }

    /** world::add_archetype */
    method AddArchetype(g: Archetype)
      requires Valid() && g.Ok() && g !in archetypes
      modifies this
      ensures Valid() && archetypes == old(archetypes) + {g} && queries.Keys == old(queries.Keys)
    {
      UpdateQueries(g, true, archetypes);
      archetypes := archetypes + {g};
    }

    /** the end of world::remove_chunk, when the archetype's last chunk is gone */
    method RemoveArchetype(g: Archetype)
      requires Valid() && g in archetypes
      modifies this
      ensures Valid() && archetypes == old(archetypes) - {g} && queries.Keys == old(queries.Keys)
    {
      ghost var live := archetypes;
      archetypes := archetypes - {g};
      UpdateQueries(g, false, live);
    }
  }
}

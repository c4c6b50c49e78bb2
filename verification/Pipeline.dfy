/**
 The pass scheduler's dependency tracker.  Every shared resource, every component column of an archetype
 and every archetype's entity list has an entry that remembers its last writer and the readers since.  A
 new pass looks at the entries it touches to decide which earlier passes it must wait for.
 Passes are numbered in the order they are created.
 */
module Pipeline {
  import opened Basics

  datatype Key =
    | Resource(id: nat)
    | Component(arch: nat, column: nat)
    | Entities(of: nat)

  datatype Mode = Read | Write | Present

  datatype Access = Access(key: Key, mode: Mode) {
    /** Entity lists are only ever marked as in use; everything else is read or written. */
    predicate Ok() {
      key.Entities? <==> mode == Present
    }
  }

  datatype Entry = Entry(owned: Option<nat>, shared: seq<nat>)

  const FREE := Entry(None, [])

  type Entries = map<Key, Entry>

  function EntryOf(es: Entries, k: Key): Entry {
    if k in es then es[k] else FREE
  }

  // ------------------------------------------------------------------ what registering one access does

  function Alive(l: seq<nat>, expired: set<nat>): (r: seq<nat>)
    ensures forall p :: p in r <==> p in l && p !in expired
  {
    if l == [] then []
    else Alive(l[..|l| - 1], expired) + if l[|l| - 1] in expired then [] else [l[|l| - 1]]
  }

  function Members(l: seq<nat>): set<nat> {
    set p | p in l
  }

  function Owner(e: Entry, expired: set<nat>): set<nat> {
    if e.owned.Some? && e.owned.value !in expired then {e.owned.value} else {}
  }

  function Touch(e: Entry, k: nat, mode: Mode, expired: set<nat>): Entry {
    if mode == Write then Entry(Some(k), []) else e.(shared := Alive(e.shared, expired) + [k])
  }

  /** The passes an access must wait for.  Columns drop readers that have expired, shared resources do not. */
  function Awaited(e: Entry, a: Access, expired: set<nat>): set<nat> {
    match a.mode
    case Read => Owner(e, expired)
    case Present => {}
    case Write =>
      if e.shared == [] then Owner(e, expired)
      else if a.key.Resource? then Members(e.shared)
      else Members(e.shared) - expired
  }

  function Register(es: Entries, k: nat, accesses: seq<Access>, expired: set<nat>): Entries {
    if accesses == [] then es else
    var n := |accesses| - 1;
    var es1 := Register(es, k, accesses[..n], expired);
    es1[accesses[n].key := Touch(EntryOf(es1, accesses[n].key), k, accesses[n].mode, expired)]
  }

  function Dependencies(es: Entries, k: nat, accesses: seq<Access>, expired: set<nat>): set<nat> {
    if accesses == [] then {} else
    var n := |accesses| - 1;
    Dependencies(es, k, accesses[..n], expired)
    + Awaited(EntryOf(Register(es, k, accesses[..n], expired), accesses[n].key), accesses[n], expired)
  }

  predicate AllOk(accesses: seq<Access>) {
    Once(accesses) && forall i :: 0 <= i < |accesses| ==> accesses[i].Ok()
  }

  /** Each entry listed once. */
  predicate Once(accesses: seq<Access>) {
    forall i, j :: 0 <= i < j < |accesses| ==> accesses[i].key != accesses[j].key
  }

  lemma {:induction false} RegisterOther(es: Entries, k: nat, accesses: seq<Access>, expired: set<nat>, key: Key)
    requires forall i :: 0 <= i < |accesses| ==> accesses[i].key != key
    ensures EntryOf(Register(es, k, accesses, expired), key) == EntryOf(es, key)
  {
    if accesses != [] {
      RegisterOther(es, k, accesses[..|accesses| - 1], expired, key);
    }
  }

  lemma {:induction false} RegisterAt(es: Entries, k: nat, accesses: seq<Access>, expired: set<nat>, i: nat)
    requires Once(accesses) && i < |accesses|
    ensures EntryOf(Register(es, k, accesses, expired), accesses[i].key)
         == Touch(EntryOf(es, accesses[i].key), k, accesses[i].mode, expired)
    ensures Awaited(EntryOf(es, accesses[i].key), accesses[i], expired) <= Dependencies(es, k, accesses, expired)
  {
    var n := |accesses| - 1;
    if i < n {
      RegisterAt(es, k, accesses[..n], expired, i);
    } else {
      RegisterOther(es, k, accesses[..n], expired, accesses[n].key);
    }
  }

  lemma {:induction false} DependencyFrom(es: Entries, k: nat, accesses: seq<Access>, expired: set<nat>, d: nat)
    returns (i: nat)
    requires Once(accesses) && d in Dependencies(es, k, accesses, expired)
    ensures i < |accesses| && d in Awaited(EntryOf(es, accesses[i].key), accesses[i], expired)
  {
    var n := |accesses| - 1;
    if d in Dependencies(es, k, accesses[..n], expired) {
      i := DependencyFrom(es, k, accesses[..n], expired, d);
    } else {
      RegisterOther(es, k, accesses[..n], expired, accesses[n].key);
      i := n;
    }
  }

  // ------------------------------------------------------------------ the protocol

  datatype Status = Created | Running | Finished | Expired

  /** The thread that creates passes: free to go on, or blocked in a sync of these entries until these passes finish. */
  datatype Main = Idle | Waiting(passes: set<nat>, keys: set<Key>)

  datatype State = State(uses: seq<seq<Access>>, deps: seq<set<nat>>, status: seq<Status>, entries: Entries,
                         main: Main) {
    predicate Done(p: nat) {
      p < |status| && (status[p] == Finished || status[p] == Expired)
    }
    function Gone(): set<nat> {
      set p | 0 <= p < |status| && status[p] == Expired
    }
  }

  function Init(): State {
    State([], [], [], map[], Idle)
  }

  datatype Step =
    | Create(accesses: seq<Access>)
    | Start(pass: nat)
    | Finish(pass: nat)
    | Expire(pass: nat)
    | Sync(keys: set<Key>)
    | Return

  predicate CanStart(s: State, p: nat) {
    p < |s.status| && p < |s.deps| && s.status[p] == Created && forall d :: d in s.deps[p] ==> s.Done(d)
  }

  predicate Enabled(s: State, a: Step) {
    match a
    case Create(accesses) => s.main.Idle? && AllOk(accesses)
    case Start(p) => CanStart(s, p)
    case Finish(p) => p < |s.status| && s.status[p] == Running
    case Expire(p) => p < |s.status| && s.status[p] == Finished
    case Sync(_) => s.main.Idle?
    case Return => s.main.Waiting? && forall p :: p in s.main.passes ==> s.Done(p)
  }

  /** What a sync of an entry waits for. */
  function Collected(e: Entry, expired: set<nat>): set<nat> {
    if e.shared == [] then Owner(e, expired) else Members(e.shared)
  }

  function CollectedAll(es: Entries, keys: set<Key>, expired: set<nat>): set<nat> {
    set k, p | k in keys && p in Collected(EntryOf(es, k), expired) :: p
  }

  function Apply(s: State, a: Step): State {
    if !Enabled(s, a) then s else
    match a
    case Create(accesses) =>
      s.(uses := s.uses + [accesses], status := s.status + [Created],
         deps := s.deps + [Dependencies(s.entries, |s.deps|, accesses, s.Gone())],
         entries := Register(s.entries, |s.deps|, accesses, s.Gone()))
    case Start(p) => s.(status := s.status[p := Running])
    case Finish(p) => s.(status := s.status[p := Finished])
    case Expire(p) => s.(status := s.status[p := Expired])
    case Sync(keys) =>
      s.(main := Waiting(CollectedAll(s.entries, keys, s.Gone()), keys), entries := s.entries - keys)
    case Return => s.(main := Idle)
  }

  function Run(steps: seq<Step>): State {
    if steps == [] then Init() else Apply(Run(steps[..|steps| - 1]), steps[|steps| - 1])
  }

  // ------------------------------------------------------------------ who waits for whom

  /** q waits for p, directly or through passes between them. */
  predicate Before(deps: seq<set<nat>>, p: nat, q: nat)
    decreases q
  {
    q < |deps| && p < q && (p in deps[q] || exists r :: r in deps[q] && p < r < q && Before(deps, p, r))
  }

  lemma {:induction false} BeforeThen(deps: seq<set<nat>>, p: nat, q: nat, r: nat)
    requires Before(deps, p, q) && Before(deps, q, r)
    ensures Before(deps, p, r)
    decreases r
  {
    if q !in deps[r] {
      var m :| m in deps[r] && q < m < r && Before(deps, q, m);
      BeforeThen(deps, p, q, m);
    }
  }

  lemma {:induction false} BeforeStays(deps: seq<set<nat>>, more: seq<set<nat>>, p: nat, q: nat)
    requires Before(deps, p, q)
    ensures Before(deps + more, p, q)
    decreases q
  {
    if p !in deps[q] {
      var r :| r in deps[q] && p < r < q && Before(deps, p, r);
      BeforeStays(deps, more, p, r);
    }
  }

  predicate Uses(s: State, p: nat, k: Key, write: bool) {
    p < |s.uses| && exists i :: 0 <= i < |s.uses[p]| && s.uses[p][i].key == k && (s.uses[p][i].mode == Write <==> write)
  }

  /** Two passes touch the same entry and at least one of them writes it. */
  predicate Conflict(s: State, p: nat, q: nat, k: Key) {
    (Uses(s, p, k, true) && (Uses(s, q, k, true) || Uses(s, q, k, false))) ||
      (Uses(s, p, k, false) && Uses(s, q, k, true))
  }

  ghost predicate Conflicting(s: State, p: nat, q: nat) {
    exists k :: Conflict(s, p, q, k)
  }

  /** Finished, or the main thread waits for it, directly or not. */
  predicate Settled(s: State, p: nat) {
    s.Done(p) || (s.main.Waiting? && exists d :: d in s.main.passes && (p == d || Before(s.deps, p, d)))
  }

  predicate Ordered(s: State, p: nat, q: nat) {
    Settled(s, p) || Before(s.deps, p, q)
  }

  /** Whoever touched the entry is settled, is recorded in it, or comes before the recorded writer. */
  ghost predicate EntryOk(s: State, k: Key) {
    var e := EntryOf(s.entries, k);
    && (e.owned.Some? ==> Uses(s, e.owned.value, k, true) && !k.Entities?)
    && (forall r :: r in e.shared ==> Uses(s, r, k, false))
    && (forall p: nat :: Uses(s, p, k, true) ==>
        e.owned == Some(p) || Settled(s, p) || (e.owned.Some? && Before(s.deps, p, e.owned.value)))
    && (forall p: nat :: Uses(s, p, k, false) ==>
        p in e.shared || Settled(s, p) || (e.owned.Some? && Before(s.deps, p, e.owned.value)))
    && (forall r :: r in e.shared && e.owned.Some? ==> Ordered(s, e.owned.value, r))
  }

  ghost predicate PassOk(s: State, q: nat) {
    q < |s.deps| == |s.status| && forall d :: d in s.deps[q] ==> d < q && (s.status[q] != Created ==> s.Done(d))
  }

  ghost predicate PairOk(s: State, p: nat, q: nat) {
    forall k :: p < q && Conflict(s, p, q, k) ==> s.Done(p) || Before(s.deps, p, q)
  }

  ghost predicate Inv(s: State) {
    && |s.uses| == |s.deps| == |s.status|
    && (forall q {:trigger PassOk(s, q)} :: 0 <= q < |s.deps| ==> PassOk(s, q))
    && (forall k {:trigger EntryOk(s, k)} :: EntryOk(s, k))
    && (forall p, q {:trigger PairOk(s, p, q)} :: 0 <= p < q < |s.deps| ==> PairOk(s, p, q))
    && (forall p :: 0 <= p < |s.uses| ==> AllOk(s.uses[p]))
    && (s.main.Waiting? ==> forall k :: k in s.main.keys ==> EntryOf(s.entries, k) == FREE)
    && (s.main.Waiting? ==> forall p :: p in s.main.passes ==> p < |s.deps|)
  }

  /** A pass that is before a started one is done. */
  lemma {:induction false} BeforeStarted(s: State, p: nat, q: nat)
    requires Inv(s) && Before(s.deps, p, q) && s.status[q] != Created
    ensures s.Done(p)
    decreases q
  {
    assert PassOk(s, q);
    if p !in s.deps[q] {
      var r :| r in s.deps[q] && p < r < q && Before(s.deps, p, r);
      BeforeStarted(s, p, r);
    }
  }

  // ------------------------------------------------------------------ what every step keeps

  lemma SettledStays(s: State, s': State, p: nat)
    requires Settled(s, p) && s'.main == s.main
    requires forall q: nat :: s.Done(q) ==> s'.Done(q)
    requires forall a: nat, b: nat :: Before(s.deps, a, b) ==> Before(s'.deps, a, b)
    ensures Settled(s', p)
  {
  }

  /** An entry nobody touches stays right as passes go on. */
  lemma EntryStays(s: State, s': State, k: Key)
    requires EntryOk(s, k) && EntryOf(s'.entries, k) == EntryOf(s.entries, k)
    requires forall p: nat :: Settled(s, p) ==> Settled(s', p)
    requires forall a: nat, b: nat :: Before(s.deps, a, b) ==> Before(s'.deps, a, b)
    requires forall p: nat, w :: Uses(s', p, k, w) <==> Uses(s, p, k, w)
    ensures EntryOk(s', k)
  {
  }

  lemma StatusKeepsInv(s: State, s': State)
    requires Inv(s) && s' == s.(status := s'.status) && |s'.status| == |s.status|
    requires forall p: nat :: s.Done(p) ==> s'.Done(p)
    requires forall q: nat, d :: q < |s.deps| && d in s.deps[q] && s'.status[q] != Created ==> s'.Done(d)
    ensures Inv(s')
  {
    forall q | 0 <= q < |s'.deps| ensures PassOk(s', q) {
      assert PassOk(s, q);
    }
    forall p: nat | Settled(s, p) ensures Settled(s', p) {
      SettledStays(s, s', p);
    }
    forall k ensures EntryOk(s', k) {
      assert EntryOk(s, k);
      EntryStays(s, s', k);
    }
    forall p, q | 0 <= p < q < |s'.deps| ensures PairOk(s', p, q) {
      assert PairOk(s, p, q);
      forall k | Conflict(s', p, q, k) ensures s'.Done(p) || Before(s'.deps, p, q) {
        assert Conflict(s, p, q, k);
      }
    }
  }

  lemma StartKeepsInv(s: State, p: nat, st: Status)
    requires Inv(s) && p < |s.status|
    requires (st == Running && CanStart(s, p)) || (st == Finished && s.status[p] == Running) ||
               (st == Expired && s.status[p] == Finished)
    ensures Inv(s.(status := s.status[p := st]))
  {
    forall q: nat, d | q < |s.deps| && d in s.deps[q] && s.status[p := st][q] != Created
      ensures s.(status := s.status[p := st]).Done(d)
    {
      assert PassOk(s, q) && PassOk(s, p);
    }
    StatusKeepsInv(s, s.(status := s.status[p := st]));
  }

  // ------------------------------------------------------------------ creating a pass

  /** The state after pass |s.deps| was created with these accesses. */
  function Added(s: State, accesses: seq<Access>): State {
    s.(uses := s.uses + [accesses], status := s.status + [Created],
       deps := s.deps + [Dependencies(s.entries, |s.deps|, accesses, s.Gone())],
       entries := Register(s.entries, |s.deps|, accesses, s.Gone()))
  }

  /** While the main thread is not blocked, being ordered is transitive. */
  lemma OrderedThen(s: State, p: nat, q: nat, r: nat)
    requires Inv(s) && s.main.Idle? && Ordered(s, p, q) && Ordered(s, q, r)
    ensures Ordered(s, p, r)
  {
    if Before(s.deps, p, q) {
      if s.Done(q) {
        BeforeStarted(s, p, q);
      } else {
        BeforeThen(s.deps, p, q, r);
      }
    }
  }

  /** Passes an access waits for are in front of the new pass, and so is everything in front of them. */
  lemma AwaitedFirst(s: State, accesses: seq<Access>, i: nat, p: nat, d: nat)
    requires Inv(s) && s.main.Idle? && Once(accesses) && i < |accesses|
    requires d in Awaited(EntryOf(s.entries, accesses[i].key), accesses[i], s.Gone()) || s.Done(d)
    requires d < |s.deps| && (p == d || Ordered(s, p, d))
    ensures s.Done(p) || Before(Added(s, accesses).deps, p, |s.deps|)
  {
    RegisterAt(s.entries, |s.deps|, accesses, s.Gone(), i);
    var s' := Added(s, accesses);
    if Before(s.deps, p, d) {
      if s.Done(d) {
        BeforeStarted(s, p, d);
      } else {
        BeforeStays(s.deps, [s'.deps[|s.deps|]], p, d);
        assert Before(s'.deps, p, d);
      }
    }
  }

  /** The new pass waits for every earlier pass it conflicts with on an entry. */
  lemma ConflictsFirst(s: State, accesses: seq<Access>, i: nat, p: nat)
    requires Inv(s) && s.main.Idle? && Once(accesses) && i < |accesses| && accesses[i].Ok()
    requires Uses(s, p, accesses[i].key, true) || (Uses(s, p, accesses[i].key, false) && accesses[i].mode == Write)
    ensures s.Done(p) || Before(Added(s, accesses).deps, p, |s.deps|)
  {
    var k, a, e := accesses[i].key, accesses[i], EntryOf(s.entries, accesses[i].key);
    assert EntryOk(s, k);
    if a.mode == Present {
      EntitiesAreNotWritten(s, p, k);
    }
    if a.mode != Write && p in e.shared {
      NotBoth(s, p, k);
    } else if s.Done(p) {
    } else if p in e.shared {
      AwaitedFirst(s, accesses, i, p, p);
    } else {
      var w := e.owned.value;
      assert p == w || Ordered(s, p, w);
      OwnerFirst(s, accesses, i, p, w);
    }
  }

  lemma EntitiesAreNotWritten(s: State, p: nat, k: Key)
    requires Inv(s) && Uses(s, p, k, true)
    ensures !k.Entities?
  {
    var i :| 0 <= i < |s.uses[p]| && s.uses[p][i].key == k && (s.uses[p][i].mode == Write <==> true);
    assert s.uses[p][i].Ok();
  }

  lemma NotBoth(s: State, p: nat, k: Key)
    requires Inv(s)
    ensures !(Uses(s, p, k, true) && Uses(s, p, k, false))
  {
    if Uses(s, p, k, true) && Uses(s, p, k, false) {
      assert AllOk(s.uses[p]);
      var i :| 0 <= i < |s.uses[p]| && s.uses[p][i].key == k && (s.uses[p][i].mode == Write <==> true);
      var j :| 0 <= j < |s.uses[p]| && s.uses[p][j].key == k && (s.uses[p][j].mode == Write <==> false);
    }
  }

  lemma OwnerFirst(s: State, accesses: seq<Access>, i: nat, p: nat, w: nat)
    requires Inv(s) && s.main.Idle? && Once(accesses) && i < |accesses| && accesses[i].mode != Present
    requires EntryOf(s.entries, accesses[i].key).owned == Some(w) && (p == w || Ordered(s, p, w))
    ensures s.Done(p) || Before(Added(s, accesses).deps, p, |s.deps|)
  {
    var e := EntryOf(s.entries, accesses[i].key);
    assert EntryOk(s, accesses[i].key);
    if accesses[i].mode == Write && e.shared != [] {
      var r := e.shared[0];
      assert Ordered(s, w, r);
      if p != w {
        OrderedThen(s, p, w, r);
      }
      AwaitedFirst(s, accesses, i, p, r);
    } else {
      AwaitedFirst(s, accesses, i, p, w);
    }
  }

  /** What the new state says about old passes, and about the new one. */
  lemma AddedUses(s: State, accesses: seq<Access>, p: nat, k: Key, w: bool)
    requires Inv(s) && AllOk(accesses)
    ensures p != |s.deps| ==> (Uses(Added(s, accesses), p, k, w) <==> Uses(s, p, k, w))
    ensures Uses(Added(s, accesses), |s.deps|, k, w)
       <==> exists i :: 0 <= i < |accesses| && accesses[i].key == k && (accesses[i].mode == Write <==> w)
  {
    assert Added(s, accesses).uses[|s.deps|] == accesses;
  }

  lemma AddedStays(s: State, accesses: seq<Access>)
    requires Inv(s) && s.main.Idle?
    ensures forall a: nat, b: nat :: Before(s.deps, a, b) ==> Before(Added(s, accesses).deps, a, b)
    ensures forall p: nat :: p < |s.deps| ==> (Added(s, accesses).Done(p) <==> s.Done(p))
    ensures forall p: nat :: Settled(s, p) ==> Settled(Added(s, accesses), p)
  {
    var s' := Added(s, accesses);
    forall a: nat, b: nat | Before(s.deps, a, b) ensures Before(s'.deps, a, b) {
      BeforeStays(s.deps, [s'.deps[|s.deps|]], a, b);
    }
  }

  lemma EntryUntouched(s: State, accesses: seq<Access>, k: Key)
    requires Inv(s) && s.main.Idle? && AllOk(accesses) && forall i :: 0 <= i < |accesses| ==> accesses[i].key != k
    ensures EntryOk(Added(s, accesses), k)
  {
    assert EntryOk(s, k);
    RegisterOther(s.entries, |s.deps|, accesses, s.Gone(), k);
    AddedStays(s, accesses);
    forall p: nat, w ensures Uses(Added(s, accesses), p, k, w) <==> Uses(s, p, k, w) {
      AddedUses(s, accesses, p, k, w);
    }
    EntryStays(s, Added(s, accesses), k);
  }

  lemma EntryWritten(s: State, accesses: seq<Access>, i: nat)
    requires Inv(s) && s.main.Idle? && AllOk(accesses) && i < |accesses| && accesses[i].mode == Write
    ensures EntryOk(Added(s, accesses), accesses[i].key)
  {
    var s', n, k := Added(s, accesses), |s.deps|, accesses[i].key;
    RegisterAt(s.entries, n, accesses, s.Gone(), i);
    AddedStays(s, accesses);
    AddedUses(s, accesses, n, k, true);
    assert accesses[i].key == k && accesses[i].Ok();
    forall p: nat, w | Uses(s', p, k, w) && p != n ensures Settled(s', p) || Before(s'.deps, p, n) {
      AddedUses(s, accesses, p, k, w);
      ConflictsFirst(s, accesses, i, p);
    }
    NotBothNew(s, accesses, k);
  }

  lemma NotBothNew(s: State, accesses: seq<Access>, k: Key)
    requires Inv(s) && AllOk(accesses)
    ensures !(Uses(Added(s, accesses), |s.deps|, k, true) && Uses(Added(s, accesses), |s.deps|, k, false))
  {
    AddedUses(s, accesses, |s.deps|, k, true);
    AddedUses(s, accesses, |s.deps|, k, false);
  }

  lemma EntryRead(s: State, accesses: seq<Access>, i: nat)
    requires Inv(s) && s.main.Idle? && AllOk(accesses) && i < |accesses| && accesses[i].mode != Write
    ensures EntryOk(Added(s, accesses), accesses[i].key)
  {
    var s', n, k := Added(s, accesses), |s.deps|, accesses[i].key;
    var e, e' := EntryOf(s.entries, k), EntryOf(s'.entries, k);
    RegisterAt(s.entries, n, accesses, s.Gone(), i);
    AddedStays(s, accesses);
    AddedUses(s, accesses, n, k, false);
    NotBothNew(s, accesses, k);
    assert EntryOk(s, k) && accesses[i].key == k && accesses[i].Ok();
    forall p: nat, w | p != n ensures Uses(s', p, k, w) <==> Uses(s, p, k, w) {
      AddedUses(s, accesses, p, k, w);
    }
    if e.owned.Some? {
      ConflictsFirst(s, accesses, i, e.owned.value);
    }
    forall r | r in e'.shared ensures Uses(s', r, k, false) && (e'.owned.Some? ==> Ordered(s', e'.owned.value, r)) {
    }
  }

  lemma AddedPairs(s: State, accesses: seq<Access>, p: nat)
    requires Inv(s) && s.main.Idle? && AllOk(accesses) && p < |s.deps|
    ensures PairOk(Added(s, accesses), p, |s.deps|)
  {
    var s', n := Added(s, accesses), |s.deps|;
    forall k | Conflict(s', p, n, k) ensures s'.Done(p) || Before(s'.deps, p, n) {
      forall w ensures Uses(s', p, k, w) <==> Uses(s, p, k, w) {
        AddedUses(s, accesses, p, k, w);
      }
      var w: bool :| Uses(s', n, k, w) && (w || Uses(s', p, k, true));
      AddedUses(s, accesses, n, k, w);
      var i :| 0 <= i < |accesses| && accesses[i].key == k && (accesses[i].mode == Write <==> w);
      ConflictsFirst(s, accesses, i, p);
    }
  }

  lemma DependenciesEarlier(s: State, accesses: seq<Access>, d: nat)
    requires Inv(s) && AllOk(accesses) && d in Dependencies(s.entries, |s.deps|, accesses, s.Gone())
    ensures d < |s.deps|
    ensures Conflicting(Added(s, accesses), d, |s.deps|)
  {
    var i := DependencyFrom(s.entries, |s.deps|, accesses, s.Gone(), d);
    var k := accesses[i].key;
    assert EntryOk(s, k);
    var w := EntryOf(s.entries, k).owned == Some(d) && d !in EntryOf(s.entries, k).shared;
    assert Uses(s, d, k, w);
    AddedUses(s, accesses, d, k, w);
    AddedUses(s, accesses, |s.deps|, k, accesses[i].mode == Write);
    assert Conflict(Added(s, accesses), d, |s.deps|, k);
  }

  lemma CreateKeepsInv(s: State, accesses: seq<Access>)
    requires Inv(s) && s.main.Idle? && AllOk(accesses)
    ensures Inv(Added(s, accesses))
  {
    var s', n := Added(s, accesses), |s.deps|;
    AddedStays(s, accesses);
    forall q | 0 <= q < |s'.deps| ensures PassOk(s', q) {
      if q == n {
        forall d | d in s'.deps[q] ensures d < q {
          DependenciesEarlier(s, accesses, d);
        }
      } else {
        assert PassOk(s, q);
      }
    }
    forall k ensures EntryOk(s', k) {
      if i :| 0 <= i < |accesses| && accesses[i].key == k {
        if accesses[i].mode == Write {
          EntryWritten(s, accesses, i);
        } else {
          EntryRead(s, accesses, i);
        }
      } else {
        EntryUntouched(s, accesses, k);
      }
    }
    forall p, q | 0 <= p < q < |s'.deps| ensures PairOk(s', p, q) {
      if q == n {
        AddedPairs(s, accesses, p);
      } else {
        OldPairs(s, accesses, p, q);
      }
    }
  }

  lemma OldPairs(s: State, accesses: seq<Access>, p: nat, q: nat)
    requires Inv(s) && s.main.Idle? && AllOk(accesses) && p < q < |s.deps|
    ensures PairOk(Added(s, accesses), p, q)
  {
    var s' := Added(s, accesses);
    assert PairOk(s, p, q);
    AddedStays(s, accesses);
    forall k | Conflict(s', p, q, k) ensures s'.Done(p) || Before(s'.deps, p, q) {
      forall r: nat, w | r <= q ensures Uses(s', r, k, w) <==> Uses(s, r, k, w) {
        AddedUses(s, accesses, r, k, w);
      }
      assert Conflict(s, p, q, k);
    }
  }

  // ------------------------------------------------------------------ waiting for entries

  lemma SyncSettles(s: State, keys: set<Key>, k: Key, p: nat, w: bool)
    requires Inv(s) && s.main.Idle? && k in keys && Uses(s, p, k, w)
    ensures Settled(Apply(s, Sync(keys)), p)
  {
    var s' := Apply(s, Sync(keys));
    var e := EntryOf(s.entries, k);
    assert EntryOk(s, k);
    assert Collected(e, s.Gone()) <= s'.main.passes;
    if !s.Done(p) && p !in s'.main.passes {
      NotBoth(s, p, k);
      var o := e.owned.value;
      assert p == o || Before(s.deps, p, o);
      if e.shared == [] {
        if s.Done(o) {
          BeforeStarted(s, p, o);
        } else {
          assert o in s'.main.passes;
        }
      } else {
        var r := e.shared[0];
        assert r in s'.main.passes && Ordered(s, o, r);
        if p != o {
          OrderedThen(s, p, o, r);
        }
      }
    }
  }

  lemma SyncKeepsInv(s: State, keys: set<Key>)
    requires Inv(s) && s.main.Idle?
    ensures Inv(Apply(s, Sync(keys)))
  {
    var s' := Apply(s, Sync(keys));
    forall q | 0 <= q < |s'.deps| ensures PassOk(s', q) {
      assert PassOk(s, q);
    }
    forall k ensures EntryOk(s', k) {
      if k in keys {
        forall p: nat, w | Uses(s', p, k, w) ensures Settled(s', p) {
          SyncSettles(s, keys, k, p, w);
        }
      } else {
        assert EntryOk(s, k);
        EntryStays(s, s', k);
      }
    }
    forall p, q | 0 <= p < q < |s'.deps| ensures PairOk(s', p, q) {
      assert PairOk(s, p, q);
      forall k | Conflict(s', p, q, k) ensures s'.Done(p) || Before(s'.deps, p, q) {
        assert Conflict(s, p, q, k);
      }
    }
    forall p | p in s'.main.passes ensures p < |s'.deps| {
      var k :| k in keys && p in Collected(EntryOf(s.entries, k), s.Gone());
      assert EntryOk(s, k);
      assert Uses(s, p, k, true) || Uses(s, p, k, false);
    }
  }

  lemma SettledIsDone(s: State, p: nat)
    requires Inv(s) && Enabled(s, Return) && Settled(s, p)
    ensures s.Done(p)
  {
    if !s.Done(p) {
      var d :| d in s.main.passes && (p == d || Before(s.deps, p, d));
      BeforeStarted(s, p, d);
    }
  }

  lemma ReturnKeepsInv(s: State)
    requires Inv(s) && Enabled(s, Return)
    ensures Inv(Apply(s, Return))
  {
    var s' := Apply(s, Return);
    forall q | 0 <= q < |s'.deps| ensures PassOk(s', q) {
      assert PassOk(s, q);
    }
    forall k ensures EntryOk(s', k) {
      assert EntryOk(s, k);
      forall p: nat | Settled(s, p) ensures Settled(s', p) {
        SettledIsDone(s, p);
      }
      EntryStays(s, s', k);
    }
    forall p, q | 0 <= p < q < |s'.deps| ensures PairOk(s', p, q) {
      assert PairOk(s, p, q);
      forall k | Conflict(s', p, q, k) ensures s'.Done(p) || Before(s'.deps, p, q) {
        assert Conflict(s, p, q, k);
      }
    }
  }

  // ------------------------------------------------------------------ every run

  lemma ApplyKeepsInv(s: State, a: Step)
    requires Inv(s)
    ensures Inv(Apply(s, a))
  {
    if Enabled(s, a) {
      match a {
        case Create(accesses) => CreateKeepsInv(s, accesses);
        case Start(p) => StartKeepsInv(s, p, Running);
        case Finish(p) => StartKeepsInv(s, p, Finished);
        case Expire(p) => StartKeepsInv(s, p, Expired);
        case Sync(keys) => SyncKeepsInv(s, keys);
        case Return => ReturnKeepsInv(s);
      }
    }
  }

  lemma {:induction false} RunInv(steps: seq<Step>)
    ensures Inv(Run(steps))
  {
    if steps == [] {
      forall k ensures EntryOk(Init(), k) {
      }
    } else {
      RunInv(steps[..|steps| - 1]);
      ApplyKeepsInv(Run(steps[..|steps| - 1]), steps[|steps| - 1]);
    }
  }

  /** In no run do two passes that conflict on an entry run at the same time. */
  lemma MutualExclusion(steps: seq<Step>, p: nat, q: nat, k: Key)
    requires var s := Run(steps); p < q < |s.status| && Conflict(s, p, q, k)
    ensures var s := Run(steps); s.status[q] != Created ==> s.Done(p)
  {
    RunInv(steps);
    var s := Run(steps);
    assert PairOk(s, p, q);
    if s.status[q] != Created && !s.Done(p) {
      BeforeStarted(s, p, q);
    }
  }

  /** In every run, passes wait only for earlier passes. */
  lemma WaitsForEarlier(steps: seq<Step>, q: nat, d: nat)
    requires var s := Run(steps); q < |s.deps| && d in s.deps[q]
    ensures d < q
  {
    RunInv(steps);
    assert PassOk(Run(steps), q);
  }

  /** A pass is made to wait only for passes it conflicts with. */
  lemma WaitsOnlyForConflicts(steps: seq<Step>, accesses: seq<Access>, d: nat)
    requires Enabled(Run(steps), Create(accesses))
    requires var s := Run(steps + [Create(accesses)]); d in s.deps[|s.deps| - 1]
    ensures var s := Run(steps + [Create(accesses)]); Conflicting(s, d, |s.deps| - 1)
  {
    RunInv(steps);
    assert (steps + [Create(accesses)])[..|steps|] == steps;
    DependenciesEarlier(Run(steps), accesses, d);
  }

  /** While any pass is unfinished, one is running or can start. */
  lemma SomePassCanGoOn(steps: seq<Step>, p: nat)
    requires p < |Run(steps).status| && !Run(steps).Done(p)
    ensures exists q :: 0 <= q <= p && q < |Run(steps).status| &&
              (Run(steps).status[q] == Running || CanStart(Run(steps), q))
  {
    var s := Run(steps);
    RunInv(steps);
    var q := FirstUnfinished(s, p);
    assert PassOk(s, q);
  }

  // ------------------------------------------------------------------ nothing is held up for longer

  lemma RunMore(steps: seq<Step>, a: Step)
    ensures Run(steps + [a]) == Apply(Run(steps), a)
  {
    assert (steps + [a])[..|steps|] == steps;
  }

  /** In every run, a pass that was created can be started if and only if the passes recorded for it are done. */
  lemma StartsIff(steps: seq<Step>, p: nat)
    requires p < |Run(steps).status| && Run(steps).status[p] == Created
    ensures p < |Run(steps).deps| && |Run(steps + [Start(p)]).status| == |Run(steps).status|
    ensures Run(steps + [Start(p)]).status[p] == Running <==> forall d :: d in Run(steps).deps[p] ==> Run(steps).Done(d)
    ensures forall q: nat :: q < |Run(steps).status| && q != p ==>
              Run(steps + [Start(p)]).status[q] == Run(steps).status[q]
  {
    RunInv(steps);
    RunMore(steps, Start(p));
  }

  /** All passes that the pass conflicts with on an entry, and that were created before it, are done. */
  ghost predicate ConflictsDone(s: State, p: nat) {
    forall d: nat :: d < p && Conflicting(s, d, p) ==> s.Done(d)
  }

  /** A pass whose earlier conflicts are done can be started, whatever other passes are doing. */
  lemma StartsWithoutConflict(steps: seq<Step>, p: nat)
    requires p < |Run(steps).status| && Run(steps).status[p] == Created && ConflictsDone(Run(steps), p)
    ensures |Run(steps + [Start(p)]).status| == |Run(steps).status| && Run(steps + [Start(p)]).status[p] == Running
  {
    RunInv(steps);
    StartsIff(steps, p);
    forall d | d in Run(steps).deps[p] ensures Run(steps).Done(d) {
      assert PassOk(Run(steps), p);
      DependsOnConflicts(steps, p, d);
    }
  }

  /** So passes whose conflicts are done run at the same time. */
  lemma RunTogether(steps: seq<Step>, p: nat, q: nat)
    requires p != q && p < |Run(steps).status| && q < |Run(steps).status|
    requires Run(steps).status[p] == Created && ConflictsDone(Run(steps), p)
    requires Run(steps).status[q] == Created && ConflictsDone(Run(steps), q)
    ensures var s := Run(steps + [Start(p)] + [Start(q)]);
            p < |s.status| && q < |s.status| && s.status[p] == Running && s.status[q] == Running
  {
    StartsWithoutConflict(steps, p);
    StartsIff(steps, p);
    RunMore(steps, Start(p));
    var s, s1 := Run(steps), Run(steps + [Start(p)]);
    forall d: nat | d < q && Conflicting(s1, d, q) ensures s1.Done(d) {
      var k :| Conflict(s1, d, q, k);
      assert Conflict(s, d, q, k);
      assert s.Done(d);
    }
    StartsWithoutConflict(steps + [Start(p)], q);
    StartsIff(steps + [Start(p)], q);
  }

  /** In every run, what is recorded for a pass are earlier passes that it conflicts with. */
  lemma {:induction false} DependsOnConflicts(steps: seq<Step>, p: nat, d: nat)
    requires p < |Run(steps).deps| && d in Run(steps).deps[p]
    ensures Conflicting(Run(steps), d, p)
  {
    if steps != [] {
      var n := |steps| - 1;
      var s, s' := Run(steps[..n]), Run(steps);
      RunInv(steps[..n]);
      if p < |s.deps| {
        DependsOnConflicts(steps[..n], p, d);
        var k :| Conflict(s, d, p, k);
        assert PassOk(s, p);
        UsesStay(s, steps[n], d, k);
        UsesStay(s, steps[n], p, k);
        assert Conflict(s', d, p, k);
      } else {
        DependenciesEarlier(s, steps[n].accesses, d);
      }
    }
  }

  lemma UsesStay(s: State, a: Step, p: nat, k: Key)
    requires p < |s.uses|
    ensures forall w :: Uses(Apply(s, a), p, k, w) <==> Uses(s, p, k, w)
  {
  }

  /** A running pass can finish and a finished one expire, at any time. */
  lemma PassesGoOn(steps: seq<Step>, p: nat)
    requires p < |Run(steps).status|
    ensures Run(steps).status[p] == Running ==>
              Run(steps + [Finish(p)]).status == Run(steps).status[p := Finished]
    ensures Run(steps).status[p] == Finished ==>
              Run(steps + [Expire(p)]).status == Run(steps).status[p := Expired]
  {
    RunMore(steps, Finish(p));
    RunMore(steps, Expire(p));
  }

  /** The main thread creates a pass whenever it is not blocked; the pass has the number behind the last one. */
  lemma Creates(steps: seq<Step>, accesses: seq<Access>)
    requires Run(steps).main.Idle? && AllOk(accesses)
    ensures var s, s' := Run(steps), Run(steps + [Create(accesses)]);
            s'.uses == s.uses + [accesses] && s'.status == s.status + [Created] && s'.main.Idle?
            && |s'.deps| == |s.deps| + 1 && s'.deps[..|s.deps|] == s.deps
  {
    RunMore(steps, Create(accesses));
  }

  /** A sync waits for users of the entries it is about, and for no other pass. */
  lemma SyncsWithUsers(steps: seq<Step>, keys: set<Key>)
    requires Run(steps).main.Idle?
    ensures var s, s' := Run(steps), Run(steps + [Sync(keys)]);
            && s'.main.Waiting? && s'.main.keys == keys && s'.status == s.status
            && forall p :: p in s'.main.passes ==> exists k, w :: k in keys && Uses(s, p, k, w)
  {
    RunInv(steps);
    RunMore(steps, Sync(keys));
    var s, s' := Run(steps), Run(steps + [Sync(keys)]);
    forall p | p in s'.main.passes ensures exists k, w :: k in keys && Uses(s, p, k, w) {
      var k :| k in keys && p in Collected(EntryOf(s.entries, k), s.Gone());
      assert EntryOk(s, k);
      assert Uses(s, p, k, true) || Uses(s, p, k, false);
    }
  }

  /** The sync returns as soon as these passes are done, and no earlier. */
  lemma ReturnsIff(steps: seq<Step>)
    requires Run(steps).main.Waiting?
    ensures Run(steps + [Return]).main.Idle? <==> forall p :: p in Run(steps).main.passes ==> Run(steps).Done(p)
  {
    RunMore(steps, Return);
  }

  lemma FirstUnfinished(s: State, p: nat) returns (q: nat)
    requires p < |s.status| && !s.Done(p)
    ensures q <= p && !s.Done(q) && forall d: nat :: d < q ==> s.Done(d)
  {
    q := 0;
    while s.Done(q)
      invariant q <= p && forall d: nat :: d < q ==> s.Done(d)
      decreases p - q
    {
      q := q + 1;
    }
  }

  function ArchetypeKeys(arch: nat, firstTag: nat): set<Key> {
    (set c | 0 <= c < firstTag :: Component(arch, c)) + {Entities(arch)}
  }

  /** When a sync of an archetype returns, every pass that uses its entity list or one of its columns is done. */
  lemma SyncReturnsAfterAll(steps: seq<Step>, arch: nat, firstTag: nat, p: nat, k: Key, write: bool)
    requires var s := Run(steps);
      Enabled(s, Return) && s.main.keys == ArchetypeKeys(arch, firstTag) && Uses(s, p, k, write)
    requires k == Entities(arch) || (k.Component? && k.arch == arch && k.column < firstTag)
    ensures Run(steps).Done(p)
  {
    var s := Run(steps);
    RunInv(steps);
    assert k in s.main.keys && EntryOk(s, k);
    SettledIsDone(s, p);
  }

  // ------------------------------------------------------------------ the tracker itself

  class Tracker {
    var entries: Entries

    constructor ()
      ensures entries == map[]
    {
      entries := map[];
    }

    /**
     setup_shared_dependency and setup_pass_dependency: registers pass k
     in the entries it touches, one after the other.
     */
    method SetupDependency(k: nat, accesses: seq<Access>, expired: set<nat>) returns (dependencies: set<nat>)
      modifies this
      ensures entries == Register(old(entries), k, accesses, expired)
      ensures dependencies == Dependencies(old(entries), k, accesses, expired)
    {
      dependencies := {};
      var i := 0;
      while i < |accesses|
        invariant 0 <= i <= |accesses|
        invariant entries == Register(old(entries), k, accesses[..i], expired)
        invariant dependencies == Dependencies(old(entries), k, accesses[..i], expired)
      {
        assert accesses[..i + 1][..i] == accesses[..i];
        var awaited := SyncEntry(k, accesses[i], expired);
        dependencies := dependencies + awaited;
        i := i + 1;
      }
      assert accesses[..i] == accesses;
    }

    /** sync_entry and sync_entities */
    method SyncEntry(k: nat, a: Access, expired: set<nat>) returns (awaited: set<nat>)
      modifies this
      ensures entries == old(entries)[a.key := Touch(EntryOf(old(entries), a.key), k, a.mode, expired)]
      ensures awaited == Awaited(EntryOf(old(entries), a.key), a, expired)
    {
      var entry := EntryOf(entries, a.key);
      awaited := {};
      if a.mode == Write {
        if a.key.Resource? {
          awaited := AddAll(entry.shared, {});
        } else {
          awaited := AddAll(entry.shared, expired);
        }
        if entry.shared == [] && entry.owned.Some? && entry.owned.value !in expired {
          awaited := awaited + {entry.owned.value};
        }
        entries := entries[a.key := Entry(Some(k), [])];
      } else {
        if a.mode == Read && entry.owned.Some? && entry.owned.value !in expired {
          awaited := awaited + {entry.owned.value};
        }
        var shared := RemoveExpired(entry.shared, expired);
        entries := entries[a.key := entry.(shared := shared + [k])];
      }
    }

    /** sync_archetype, up to the wait: collects the passes to wait for and forgets them. */
    method SyncArchetype(arch: nat, firstTag: nat, expired: set<nat>) returns (deps: set<nat>)
      modifies this
      ensures deps == CollectedAll(old(entries), ArchetypeKeys(arch, firstTag), expired)
      ensures forall k ::
                EntryOf(entries, k) == if k in ArchetypeKeys(arch, firstTag) then FREE else EntryOf(old(entries), k)
    {
      deps := {};
      ghost var done: set<Key> := {};
      var i := 0;
      while i <= firstTag
        invariant 0 <= i <= firstTag + 1
        invariant done == (set c | 0 <= c < i && c < firstTag :: Component(arch, c)) +
                    if i > firstTag then {Entities(arch)} else {}
        invariant deps == CollectedAll(old(entries), done, expired)
        invariant forall k :: EntryOf(entries, k) == if k in done then FREE else EntryOf(old(entries), k)
      {
        var key := if i < firstTag then Component(arch, i) else Entities(arch);
        var entry := EntryOf(entries, key);
        CollectMore(old(entries), done, key, expired);
        if entry.shared == [] {
          if entry.owned.Some? && entry.owned.value !in expired {
            deps := deps + {entry.owned.value};
          }
        } else {
          var all := AddAll(entry.shared, {});
          deps := deps + all;
        }
        entries := entries[key := FREE];
        done := done + {key};
        i := i + 1;
      }
      assert done == ArchetypeKeys(arch, firstTag);
    }
  }

  lemma CollectMore(es: Entries, keys: set<Key>, k: Key, expired: set<nat>)
    ensures CollectedAll(es, keys + {k}, expired)
              == CollectedAll(es, keys, expired) + Collected(EntryOf(es, k), expired)
  {
    assert forall p :: p in Collected(EntryOf(es, k), expired) ==>
             k in keys + {k} && p in CollectedAll(es, keys + {k}, expired);
  }

  method AddAll(l: seq<nat>, expired: set<nat>) returns (r: set<nat>)
    ensures r == Members(l) - expired
  {
    r := {};
    for i := 0 to |l|
      invariant r == Members(l[..i]) - expired
    {
      if l[i] !in expired {
        r := r + {l[i]};
      }
      assert l[..i + 1] == l[..i] + [l[i]];
    }
    assert l[..|l|] == l;
  }

  method RemoveExpired(l: seq<nat>, expired: set<nat>) returns (r: seq<nat>)
    ensures r == Alive(l, expired)
  {
    r := [];
    for i := 0 to |l|
      invariant r == Alive(l[..i], expired)
    {
      assert l[..i + 1][..i] == l[..i];
      if l[i] !in expired {
        r := r + [l[i]];
      }
    }
    assert l[..|l|] == l;
  }
}

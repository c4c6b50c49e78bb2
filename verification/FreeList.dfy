/**
 The reference-counted lock-free free list that recycles queue blocks.

 Any number of threads interleave at the granularity of one atomic operation.  A state holds the
 shared words (list head, per-node next pointer and reference word), every thread's program counter
 with its local variables, and history that no step reads to decide what to do: a node's role and
 holders, and the list.  Every number names a node and a thread; the maps hold those touched so far.
 */
module FreeList {

  type Tid = nat
  type Node = nat

  datatype Ptr = Null | To(node: Node)

  /** A node's reference word: the 31-bit count and the should-be-on-free-list bit. */
  datatype Refs = Refs(count: int, listed: bool)

  /** Where try_get continues after it had to put a node back itself. */
  datatype Cont = Return | Resume(head: Ptr)

  datatype Pc =
    | Idle
    | Loop(h: Node)                                // top of the loop in try_get
    | TryRef(h: Node, seen: Refs)                  // about to compare-exchange the count
    | Reload                                       // about to reload the list head
    | ReadNext(h: Node)                            // holds a reference, about to read next
    | Swing(h: Node, nxt: Ptr)                     // about to compare-exchange the list head
    | Take(h: Node)                                // won the node, about to drop two references
    | Drop(h: Node, head: Ptr)                     // lost the node, about to drop one reference
    | Mark(n: Node)                                // add: about to set the list bit
    | PutLoad(n: Node, cont: Cont)                 // add_knowing_refcount_is_zero
    | PutNext(n: Node, head: Ptr, cont: Cont)
    | PutRef(n: Node, head: Ptr, cont: Cont)
    | PutCas(n: Node, head: Ptr, cont: Cont)
    | PutBack(n: Node, head: Ptr, cont: Cont)

  datatype Role =
    | Owned(who: Tid)      // handed out; only `who` may add it
    | Waiting              // to be listed by whoever drops the last reference
    | Adding(who: Tid)     // `who` is inserting it, there are no references
    | Linking(who: Tid)    // `who` has published the count and is about to swing the head
    | Listed               // on the list
    | Taken(who: Tid)      // `who` has swung the head past it

  datatype Block = Block(next: Ptr, refs: Refs, role: Role, holders: set<Tid>)

  datatype State = State(head: Ptr, blocks: map<Node, Block>, pcs: map<Tid, Pc>, list: seq<Node>) {
    function At(n: Node): Block {
      if n in blocks then blocks[n] else Block(Null, Refs(0, false), Owned(0), {})
    }
    function Pc(t: Tid): Pc {
      if t in pcs then pcs[t] else Idle
    }
    function Goto(t: Tid, pc: Pc): State {
      this.(pcs := pcs[t := pc])
    }
    function Put(n: Node, b: Block): State {
      this.(blocks := blocks[n := b])
    }
  }

  const Init: State := State(Null, map[], map[], [])

  datatype Action =
    | CallTryGet(t: Tid)
    | CallAdd(t: Tid, n: Node)
    | HandOver(t: Tid, n: Node, to: Tid)
    | Tick(t: Tid)

  // ------------------------------------------------------------------ transitions

  function LoopOn(s: State, t: Tid, head: Ptr): State {
    s.Goto(t, if head.Null? then Idle else Loop(head.node))
  }

  function Continue(s: State, t: Tid, cont: Cont): State {
    if cont.Return? then s.Goto(t, Idle) else LoopOn(s, t, cont.head)
  }

  /** One atomic operation of the thread t, chosen by its program counter. */
  function TickStep(s: State, t: Tid): State {
    match s.Pc(t)
    case Idle => s
    case Loop(h) => s.Goto(t, TryRef(h, s.At(h).refs))
    case TryRef(h, seen) =>
      var b := s.At(h);
      if seen.count == 0 || b.refs != seen then
        s.Goto(t, Reload)
      else
        s.Put(h, b.(refs := Refs(seen.count + 1, seen.listed), holders := b.holders + {t})).Goto(t, ReadNext(h))
    case Reload => LoopOn(s, t, s.head)
    case ReadNext(h) => s.Goto(t, Swing(h, s.At(h).next))
    case Swing(h, nxt) =>
      if s.head == To(h) then
        s.(head := nxt, list := if s.list == [] then [] else s.list[1..])
        .Put(h, s.At(h).(role := Taken(t))).Goto(t, Take(h))
      else
        s.Goto(t, Drop(h, s.head))
    case Take(h) =>
      var b := s.At(h);
      s.Put(h, b.(refs := b.refs.(count := b.refs.count - 2), holders := b.holders - {t}, role := Owned(t)))
       .Goto(t, Idle)
    case Drop(h, head) =>
      var b := s.At(h);
      var b' := b.(refs := b.refs.(count := b.refs.count - 1), holders := b.holders - {t});
      if b.refs == Refs(1, true) then
        s.Put(h, b'.(role := Adding(t))).Goto(t, PutLoad(h, Resume(head)))
      else
        LoopOn(s.Put(h, b'), t, head)
    case Mark(n) =>
      var b := s.At(n);
      var b' := b.(refs := b.refs.(listed := true));
      if b.refs == Refs(0, false) then
        s.Put(n, b'.(role := Adding(t))).Goto(t, PutLoad(n, Return))
      else
        s.Put(n, b'.(role := Waiting)).Goto(t, Idle)
    case PutLoad(n, c) => s.Goto(t, PutNext(n, s.head, c))
    case PutNext(n, head, c) => s.Put(n, s.At(n).(next := head)).Goto(t, PutRef(n, head, c))
    case PutRef(n, head, c) =>
      s.Put(n, s.At(n).(refs := Refs(1, false), role := Linking(t))).Goto(t, PutCas(n, head, c))
    case PutCas(n, head, c) =>
      if s.head == head then
        Continue(s.(head := To(n), list := [n] + s.list).Put(n, s.At(n).(role := Listed)), t, c)
      else
        s.Goto(t, PutBack(n, s.head, c))
    case PutBack(n, head, c) =>
      var b := s.At(n);
      var b' := b.(refs := Refs(b.refs.count - 1, true));
      if b.refs == Refs(1, false) then
        s.Put(n, b'.(role := Adding(t))).Goto(t, PutNext(n, head, c))
      else
        Continue(s.Put(n, b'.(role := Waiting)), t, c)
  }

  /** Actions that are not possible in a state leave it unchanged. */
  function Step(s: State, a: Action): State {
    match a
    case CallTryGet(t) => if s.Pc(t).Idle? then LoopOn(s, t, s.head) else s
    case CallAdd(t, n) => if s.Pc(t).Idle? && s.At(n).role == Owned(t) then s.Goto(t, Mark(n)) else s
    case HandOver(t, n, to) =>
      if s.Pc(t).Idle? && s.At(n).role == Owned(t) then s.Put(n, s.At(n).(role := Owned(to))) else s
    case Tick(t) => TickStep(s, t)
  }

  // ------------------------------------------------------------------ the invariant

  /** A thread counts as a holder of h from its successful increment to its decrement. */
  predicate Holds(pc: Pc, h: Node) {
    match pc
    case ReadNext(n) => n == h
    case Swing(n, _) => n == h
    case Take(n) => n == h
    case Drop(n, _) => n == h
    case _ => false
  }

  predicate HasListBit(r: Role) {
    r.Waiting? || r.Adding?
  }

  /** References that belong to no holder: the list's own, before, while and just after it is listed. */
  function Base(r: Role): nat {
    if r.Linking? || r.Listed? || r.Taken? then 1 else 0
  }

  /** Following next from p visits exactly the nodes of l, in order, and then ends. */
  predicate Chain(s: State, p: Ptr, l: seq<Node>)
    decreases |l|
  {
    if l == [] then p.Null? else p == To(l[0]) && Chain(s, s.At(l[0]).next, l[1..])
  }

  predicate Distinct(l: seq<Node>) {
    forall i, j :: 0 <= i < j < |l| ==> l[i] != l[j]
  }

  predicate InPut(pc: Pc, n: Node) {
    match pc
    case PutLoad(m, _) => m == n
    case PutNext(m, _, _) => m == n
    case PutRef(m, _, _) => m == n
    case _ => false
  }

  predicate InLink(pc: Pc, n: Node) {
    match pc
    case PutCas(m, _, _) => m == n
    case PutBack(m, _, _) => m == n
    case _ => false
  }

  /** Roles that a thread is busy with match that thread's program counter. */
  predicate RoleOk(s: State, n: Node, r: Role) {
    match r
    case Adding(t) => InPut(s.Pc(t), n)
    case Linking(t) => InLink(s.Pc(t), n)
    case Taken(t) => s.Pc(t) == Take(n)
    case _ => true
  }

  ghost predicate BlockOk(s: State, n: Node) {
    var b := s.At(n);
    && b.refs == Refs(Base(b.role) + |b.holders|, HasListBit(b.role))
    && (b.role.Waiting? ==> b.holders != {})
    && (b.role.Adding? ==> b.holders == {})
    && (b.role.Listed? <==> n in s.list)
    && RoleOk(s, n, b.role)
    && forall t :: t in b.holders <==> Holds(s.Pc(t), n)
  }

  predicate ThreadOk(s: State, t: Tid) {
    match s.Pc(t)
    case Swing(h, nxt) => s.At(h).next == nxt
    case Take(h) => s.At(h).role == Taken(t)
    case Mark(n) => s.At(n).role == Owned(t)
    case PutLoad(n, _) => s.At(n).role == Adding(t)
    case PutNext(n, _, _) => s.At(n).role == Adding(t)
    case PutRef(n, head, _) => s.At(n).role == Adding(t) && s.At(n).next == head
    case PutCas(n, head, _) => s.At(n).role == Linking(t) && s.At(n).next == head
    case PutBack(n, _, _) => s.At(n).role == Linking(t)
    case _ => true
  }

  ghost predicate Inv(s: State) {
    && Chain(s, s.head, s.list)
    && Distinct(s.list)
    && (forall n :: BlockOk(s, n))
    && (forall t :: ThreadOk(s, t))
  }

  // ------------------------------------------------------------------ its preservation

  lemma {:induction false} ChainFrame(s: State, s': State, p: Ptr, l: seq<Node>)
    requires Chain(s, p, l)
    requires forall n :: n in l ==> s'.At(n).next == s.At(n).next
    ensures Chain(s', p, l)
    decreases |l|
  {
    if l != [] {
      ChainFrame(s, s', s.At(l[0]).next, l[1..]);
    }
  }

  /** Whether the thread t may end the role r: nobody else is counting on it. */
  predicate MayEnd(r: Role, t: Tid) {
    r.Waiting? || r.Listed? || r.who == t
  }

  predicate Touches(pc: Pc, n: Node) {
    Holds(pc, n) || InPut(pc, n) || InLink(pc, n)
  }

  /** A step of thread t that concerns node n alone keeps every other node and thread in order. */
  lemma {:induction false} Local(s: State, s': State, t: Tid, n: Node)
    requires Inv(s)
    requires forall u :: u != t ==> s'.Pc(u) == s.Pc(u)
    requires forall m :: m != n ==> s'.At(m) == s.At(m)
    requires forall m :: Touches(s.Pc(t), m) || Touches(s'.Pc(t), m) ==> m == n
    requires forall m :: m != n ==> (m in s'.list <==> m in s.list)
    requires s'.At(n).role == s.At(n).role || MayEnd(s.At(n).role, t)
    requires s'.At(n).next == s.At(n).next || s.At(n).role == Adding(t)
    requires BlockOk(s', n) && ThreadOk(s', t)
    ensures forall m :: BlockOk(s', m)
    ensures forall u :: ThreadOk(s', u)
  {
    forall m ensures BlockOk(s', m) {
      assert BlockOk(s, m);
      assert m != n ==> !Touches(s.Pc(t), m) && !Touches(s'.Pc(t), m);
    }
    forall u ensures ThreadOk(s', u) {
      assert ThreadOk(s, u) && BlockOk(s, n);
    }
  }

  predicate RefFails(s: State, t: Tid) {
    s.Pc(t).TryRef? && (s.Pc(t).seen.count == 0 || s.At(s.Pc(t).h).refs != s.Pc(t).seen)
  }

  lemma {:induction false} StepTryRefFails(s: State, t: Tid, s': State)
    requires Inv(s) && RefFails(s, t) && s' == TickStep(s, t)
    ensures Inv(s')
  {
    var n := s.Pc(t).h;
    assert BlockOk(s, n) && ThreadOk(s, t);
    ChainFrame(s, s', s.head, s.list);
    Local(s, s', t, n);
  }

  lemma {:induction false} StepTryRef(s: State, t: Tid, s': State)
    requires Inv(s) && s.Pc(t).TryRef? && !RefFails(s, t) && s' == TickStep(s, t)
    ensures Inv(s')
  {
    var n := s.Pc(t).h;
    assert BlockOk(s, n) && ThreadOk(s, t);
    ChainFrame(s, s', s.head, s.list);
    Local(s, s', t, n);
  }

  lemma {:induction false} StepSwing(s: State, t: Tid, s': State)
    requires Inv(s) && s.Pc(t).Swing? && s' == TickStep(s, t)
    ensures Inv(s')
  {
    var n := s.Pc(t).h;
    assert BlockOk(s, n) && ThreadOk(s, t);
    if s.head == To(n) {
      assert s.list == [n] + s.list[1..];
    }
    ChainFrame(s, s', s'.head, s'.list);
    Local(s, s', t, n);
  }

  lemma {:induction false} StepTake(s: State, t: Tid, s': State)
    requires Inv(s) && (s.Pc(t).Take?) && s' == TickStep(s, t)
    ensures Inv(s')
  {
    var n := s.Pc(t).h;
    assert BlockOk(s, n) && ThreadOk(s, t);
    ChainFrame(s, s', s.head, s.list);
    Local(s, s', t, n);
  }

  lemma {:induction false} StepDrop(s: State, t: Tid, s': State)
    requires Inv(s) && (s.Pc(t).Drop?) && s' == TickStep(s, t)
    ensures Inv(s')
  {
    var n := s.Pc(t).h;
    assert BlockOk(s, n) && ThreadOk(s, t);
    ChainFrame(s, s', s.head, s.list);
    Local(s, s', t, n);
  }

  lemma {:induction false} StepMark(s: State, t: Tid, s': State)
    requires Inv(s) && (s.Pc(t).Mark?) && s' == TickStep(s, t)
    ensures Inv(s')
  {
    var n := s.Pc(t).n;
    assert BlockOk(s, n) && ThreadOk(s, t);
    ChainFrame(s, s', s.head, s.list);
    Local(s, s', t, n);
  }

  lemma {:induction false} StepPut(s: State, t: Tid, s': State)
    requires Inv(s) && (s.Pc(t).PutLoad? || s.Pc(t).PutNext? || s.Pc(t).PutRef?) && s' == TickStep(s, t)
    ensures Inv(s')
  {
    var n := s.Pc(t).n;
    assert BlockOk(s, n) && ThreadOk(s, t);
    ChainFrame(s, s', s.head, s.list);
    Local(s, s', t, n);
  }

  /** The exchange finds the head it expects: the node becomes the first of the list. */
  lemma {:induction false} StepLinked(s: State, t: Tid, s': State)
    requires Inv(s) && s.Pc(t).PutCas? && s.head == s.Pc(t).head && s' == TickStep(s, t)
    ensures Inv(s')
  {
    var n := s.Pc(t).n;
    assert BlockOk(s, n) && ThreadOk(s, t);
    ChainFrame(s, s', s.head, s.list);
    assert s'.list[0] == n && s'.list[1..] == s.list;
    Local(s, s', t, n);
  }

  lemma {:induction false} StepNotLinked(s: State, t: Tid, s': State)
    requires Inv(s) && s.Pc(t).PutCas? && s.head != s.Pc(t).head && s' == TickStep(s, t)
    ensures Inv(s')
  {
    var n := s.Pc(t).n;
    assert BlockOk(s, n) && ThreadOk(s, t);
    ChainFrame(s, s', s.head, s.list);
    Local(s, s', t, n);
  }

  lemma {:induction false} StepPutBack(s: State, t: Tid, s': State)
    requires Inv(s) && (s.Pc(t).PutBack?) && s' == TickStep(s, t)
    ensures Inv(s')
  {
    var n := s.Pc(t).n;
    assert BlockOk(s, n) && ThreadOk(s, t);
    ChainFrame(s, s', s.head, s.list);
    Local(s, s', t, n);
  }

  lemma {:induction false} StepRest(s: State, t: Tid, s': State)
    requires Inv(s) && s' == TickStep(s, t)
    requires s.Pc(t).Idle? || s.Pc(t).Loop? || s.Pc(t).Reload? || s.Pc(t).ReadNext?
    ensures Inv(s')
  {
    var n := if s.Pc(t).ReadNext? then s.Pc(t).h else 0;
    assert BlockOk(s, n) && ThreadOk(s, t);
    ChainFrame(s, s', s.head, s.list);
    Local(s, s', t, n);
  }

  lemma {:induction false} StepCallTryGet(s: State, t: Tid)
    requires Inv(s) && s.Pc(t).Idle?
    ensures Inv(Step(s, CallTryGet(t)))
  {
    var s' := Step(s, CallTryGet(t));
    assert BlockOk(s, 0) && ThreadOk(s, t);
    ChainFrame(s, s', s.head, s.list);
    Local(s, s', t, 0);
  }

  /** The owner of a node adds it or hands it over. */
  lemma {:induction false} StepOwner(s: State, a: Action)
    requires Inv(s) && (a.CallAdd? || a.HandOver?) && s.Pc(a.t).Idle?
    ensures Inv(Step(s, a))
  {
    var s' := Step(s, a);
    assert BlockOk(s, a.n) && ThreadOk(s, a.t);
    ChainFrame(s, s', s.head, s.list);
    Local(s, s', a.t, a.n);
  }

  lemma StepKeepsInv(s: State, a: Action)
    requires Inv(s)
    ensures Inv(Step(s, a))
  {
    if a.Tick? {
      var t, s' := a.t, TickStep(s, a.t);
      match s.Pc(t) {
        case TryRef(_, _) =>
          if RefFails(s, t) {
            StepTryRefFails(s, t, s');
          } else {
            StepTryRef(s, t, s');
          }
        case Swing(_, _) => StepSwing(s, t, s');
        case Take(_) => StepTake(s, t, s');
        case Drop(_, _) => StepDrop(s, t, s');
        case Mark(_) => StepMark(s, t, s');
        case PutLoad(_, _) => StepPut(s, t, s');
        case PutNext(_, _, _) => StepPut(s, t, s');
        case PutRef(_, _, _) => StepPut(s, t, s');
        case PutCas(_, head, _) =>
          if s.head == head {
            StepLinked(s, t, s');
          } else {
            StepNotLinked(s, t, s');
          }
        case PutBack(_, _, _) => StepPutBack(s, t, s');
        case _ => StepRest(s, t, s');
      }
    } else if s.Pc(a.t).Idle? {
      if a.CallTryGet? {
        StepCallTryGet(s, a.t);
      } else {
        StepOwner(s, a);
      }
    }
  }

  // ------------------------------------------------------------------ what every run keeps

  /** The state after a schedule: any threads, any interleaving, any sequence of calls. */
  function Run(acts: seq<Action>): State {
    if acts == [] then Init else Step(Run(acts[..|acts| - 1]), acts[|acts| - 1])
  }

  lemma {:induction false} RunInv(acts: seq<Action>)
    ensures Inv(Run(acts))
  {
    if acts != [] {
      RunInv(acts[..|acts| - 1]);
      StepKeepsInv(Run(acts[..|acts| - 1]), acts[|acts| - 1]);
    }
  }

  /** In every run the list reached from the head is finite and visits no node twice. */
  lemma ListIsAcyclic(acts: seq<Action>)
    ensures var s := Run(acts); exists l :: Chain(s, s.head, l) && Distinct(l)
  {
    RunInv(acts);
    assert Chain(Run(acts), Run(acts).head, Run(acts).list);
  }

  /** While some thread holds a reference to a node, no step of any thread changes the node's next field. */
  lemma NextIsStable(acts: seq<Action>, a: Action, t: Tid, n: Node)
    requires Holds(Run(acts).Pc(t), n)
    ensures Run(acts + [a]).At(n).next == Run(acts).At(n).next
  {
    RunInv(acts);
    var s := Run(acts);
    assert (acts + [a])[..|acts|] == acts;
    assert BlockOk(s, n);
    if a.Tick? {
      assert ThreadOk(s, a.t);
    }
  }

  predicate Returns(s: State, a: Action, n: Node) {
    a.Tick? && s.Pc(a.t) == Take(n)
  }

  predicate Gives(s: State, a: Action, n: Node) {
    a.Tick? && s.Pc(a.t) == Mark(n)
  }

  /**
   try_get hands a node out only when nobody has it: it is off the list, no other thread is about to
   return it, to add it or in the middle of inserting it, and its list bit is clear.
   */
  lemma ReturnedToOneOwner(acts: seq<Action>, a: Action, n: Node)
    requires Returns(Run(acts), a, n)
    ensures var s := Run(acts);
            && !s.At(n).role.Owned? && n !in s.list && !s.At(n).refs.listed
            && (forall u :: u != a.t ==> s.Pc(u) != Take(n) && s.Pc(u) != Mark(n)
                                         && !InPut(s.Pc(u), n) && !InLink(s.Pc(u), n))
    ensures Run(acts + [a]).At(n).role == Owned(a.t) && Run(acts + [a]).Pc(a.t).Idle?
  {
    RunInv(acts);
    var s := Run(acts);
    assert (acts + [a])[..|acts|] == acts;
    assert ThreadOk(s, a.t) && BlockOk(s, n);
    forall u | u != a.t
      ensures s.Pc(u) != Take(n) && s.Pc(u) != Mark(n) && !InPut(s.Pc(u), n) && !InLink(s.Pc(u), n)
    {
      assert ThreadOk(s, u);
    }
  }

  /** From then on it stays with that owner, through every step, until the owner hands it over or adds it. */
  lemma OwnedUntilAdded(acts: seq<Action>, a: Action, n: Node, t: Tid)
    requires Run(acts).At(n).role == Owned(t)
    ensures Gives(Run(acts), a, n) || (a.HandOver? && a.t == t && a.n == n) || Run(acts + [a]).At(n).role == Owned(t)
    ensures Gives(Run(acts), a, n) ==> a.t == t
    ensures !Returns(Run(acts), a, n)
  {
    RunInv(acts);
    var s := Run(acts);
    assert (acts + [a])[..|acts|] == acts;
    assert BlockOk(s, n);
    if a.Tick? {
      assert ThreadOk(s, a.t);
    }
  }

  /** The owner can hand a node over at any time it is not in a call. */
  lemma HandsOver(acts: seq<Action>, t: Tid, n: Node, to: Tid)
    requires Run(acts).Pc(t).Idle? && Run(acts).At(n).role == Owned(t)
    ensures Run(acts + [HandOver(t, n, to)]).At(n).role == Owned(to)
  {
    assert (acts + [HandOver(t, n, to)])[..|acts|] == acts;
  }

  /**
   Nothing is lost: whenever no call is in progress every node is either on the list with exactly one
   reference or in the hands of its owner with none, although an add may have left the insertion to others.
   */
  lemma QuietMeansListedOrOwned(acts: seq<Action>, n: Node)
    requires forall t :: Run(acts).Pc(t).Idle?
    ensures var b := Run(acts).At(n);
            if n in Run(acts).list then b.role == Listed && b.refs == Refs(1, false)
            else b.role.Owned? && b.refs == Refs(0, false)
  {
    RunInv(acts);
    var s := Run(acts);
    assert BlockOk(s, n);
    assert s.At(n).holders == {} by {
      forall t ensures t !in s.At(n).holders {
        assert !Holds(s.Pc(t), n);
      }
    }
  }

  // ------------------------------------------------------------------ what a call achieves

  /** n steps of thread t, the others standing still wherever they are. */
  function Ticks(s: State, t: Tid, n: nat): State
    decreases n
  {
    if n == 0 then s else Ticks(TickStep(s, t), t, n - 1)
  }

  lemma FiveTicks(s: State, t: Tid)
    ensures Ticks(s, t, 5) == TickStep(TickStep(TickStep(TickStep(TickStep(s, t), t), t), t), t)
  {
    var s1 := TickStep(s, t);
    var s2 := TickStep(s1, t);
    var s3 := TickStep(s2, t);
    var s4 := TickStep(s3, t);
    assert Ticks(s4, t, 1) == TickStep(s4, t);
    assert Ticks(s3, t, 2) == TickStep(s4, t);
    assert Ticks(s2, t, 3) == TickStep(s4, t);
    assert Ticks(s1, t, 4) == TickStep(s4, t);
  }

  /** Nothing but thread t and node n is different. */
  ghost predicate OnlyTouched(s: State, s': State, t: Tid, n: Node) {
    && (forall u :: u != t ==> s'.Pc(u) == s.Pc(u))
    && (forall m :: m != n ==> s'.At(m) == s.At(m))
  }

  /** Thread t has come away with the first node of the list. */
  ghost predicate TookFirst(s: State, s': State, t: Tid) {
    && s.list != [] && s'.Pc(t).Idle? && s'.At(s.list[0]).role == Owned(t)
    && s'.list == s.list[1..] && OnlyTouched(s, s', t, s.list[0])
  }

  /** At the top of the loop, with the list's head at hand, a thread that goes on alone takes the first node. */
  lemma TakesHead(s: State, t: Tid)
    requires Inv(s) && s.head.To? && s.Pc(t) == Loop(s.head.node)
    ensures TookFirst(s, Ticks(s, t, 5), t)
  {
    var h := s.head.node;
    assert BlockOk(s, h) && s.list[0] == h;
    var s1 := TickStep(s, t);
    var s2 := TickStep(s1, t);
    var s3 := TickStep(s2, t);
    var s4 := TickStep(s3, t);
    assert s1.Pc(t) == TryRef(h, s.At(h).refs);
    assert s2.Pc(t) == ReadNext(h) && s2.head == s.head;
    assert s3.Pc(t) == Swing(h, s.At(h).next) && s3.head == s.head;
    assert s4.Pc(t) == Take(h) && s4.list == s.list[1..];
    FiveTicks(s, t);
  }

  /**
   In every run, wherever the other threads have stopped: a call of try_get that then runs alone returns the
   first node of the list and leaves the rest, or ends at once if the list is empty.
   */
  lemma TryGetTakesFirst(acts: seq<Action>, t: Tid)
    requires Run(acts).Pc(t).Idle?
    ensures var s := Run(acts);
            var s0 := Step(s, CallTryGet(t));
            if s.list == [] then s0.Pc(t).Idle? && s0.list == [] && s0.head.Null? && s0.blocks == s.blocks
            else TookFirst(s, Ticks(s0, t, 5), t)
  {
    RunInv(acts);
    var s := Run(acts);
    var s0 := Step(s, CallTryGet(t));
    if s.list != [] {
      StepKeepsInv(s, CallTryGet(t));
      TakesHead(s0, t);
    }
  }

  /** Node n is the first of the list, as before otherwise. */
  ghost predicate PutFirst(s: State, s': State, t: Tid, n: Node) {
    && s'.Pc(t).Idle? && s'.list == [n] + s.list && s'.head == To(n)
    && s'.At(n).role == Listed && s'.At(n).refs == Refs(1, false) && OnlyTouched(s, s', t, n)
  }

  /**
   In every run, adding a node that no other thread still refers to puts it in front of the list; otherwise the
   node is left to the last of those threads, and the call ends at once.
   */
  lemma AddPutsFirst(acts: seq<Action>, t: Tid, n: Node)
    requires Run(acts).Pc(t).Idle? && Run(acts).At(n).role == Owned(t)
    ensures var s := Run(acts);
            var s0 := Step(s, CallAdd(t, n));
            if s.At(n).holders == {} then PutFirst(s, Ticks(s0, t, 5), t, n)
            else
              var s1 := TickStep(s0, t);
              s1.Pc(t).Idle? && s1.At(n).role == Waiting && s1.list == s.list && OnlyTouched(s, s1, t, n)
  {
    RunInv(acts);
    var s := Run(acts);
    var s0 := Step(s, CallAdd(t, n));
    assert BlockOk(s, n);
    if s.At(n).holders == {} {
      AddsAlone(s0, t, n);
    }
  }

  lemma AddsAlone(s: State, t: Tid, n: Node)
    requires s.Pc(t) == Mark(n) && s.At(n).refs == Refs(0, false)
    ensures PutFirst(s, Ticks(s, t, 5), t, n)
  {
    var s1 := TickStep(s, t);
    var s2 := TickStep(s1, t);
    var s3 := TickStep(s2, t);
    var s4 := TickStep(s3, t);
    assert s1.Pc(t) == PutLoad(n, Return);
    assert s2.Pc(t) == PutNext(n, s.head, Return);
    assert s3.Pc(t) == PutRef(n, s.head, Return);
    assert s4.Pc(t) == PutCas(n, s.head, Return) && s4.head == s.head;
    FiveTicks(s, t);
  }

  /** A node that was left to others is held by one of them, and whoever drops the last reference inserts it. */
  lemma LeftToLastHolder(acts: seq<Action>, n: Node)
    requires Run(acts).At(n).role == Waiting
    ensures exists t :: Holds(Run(acts).Pc(t), n)
    ensures forall t :: Run(acts).At(n).holders == {t} && Run(acts).Pc(t).Drop? ==>
              var s := Run(acts + [Tick(t)]);
              s.At(n).role == Adding(t) && s.Pc(t).PutLoad? && s.Pc(t).n == n
  {
    RunInv(acts);
    var s := Run(acts);
    assert BlockOk(s, n);
    var t :| t in s.At(n).holders;
    assert Holds(s.Pc(t), n);
    forall u | s.At(n).holders == {u} && s.Pc(u).Drop?
      ensures var s' := Run(acts + [Tick(u)]);
              s'.At(n).role == Adding(u) && s'.Pc(u).PutLoad? && s'.Pc(u).n == n
    {
      assert (acts + [Tick(u)])[..|acts|] == acts;
      assert u in s.At(n).holders;
    }
  }

  // ------------------------------------------------------------------ every call ends

  /** Thread t gets through in at most k steps of its own, if it runs alone. */
  ghost predicate EndsWithin(s: State, t: Tid, k: nat) {
    exists n :: 0 <= n <= k && Ticks(s, t, n).Pc(t).Idle?
  }

  lemma OneMoreTick(s: State, t: Tid, k: nat)
    requires EndsWithin(TickStep(s, t), t, k)
    ensures EndsWithin(s, t, k + 1)
  {
    var n :| 0 <= n <= k && Ticks(TickStep(s, t), t, n).Pc(t).Idle?;
    assert Ticks(s, t, n + 1).Pc(t).Idle?;
  }

  lemma EndsLater(s: State, t: Tid, k: nat, k': nat)
    requires EndsWithin(s, t, k) && k <= k'
    ensures EndsWithin(s, t, k')
  {
  }

  lemma EndsAtOnce(s: State, t: Tid, k: nat)
    requires s.Pc(t).Idle?
    ensures EndsWithin(s, t, k)
  {
    assert Ticks(s, t, 0).Pc(t).Idle?;
  }

  /** A thread that has just loaded the head. */
  lemma LoopEnds(s: State, t: Tid)
    requires Inv(s) && s.Pc(t) == (if s.head.Null? then Idle else Loop(s.head.node))
    ensures EndsWithin(s, t, 5)
  {
    if s.head.Null? {
      EndsAtOnce(s, t, 5);
    } else {
      TakesHead(s, t);
    }
  }

  lemma ReloadEnds(s: State, t: Tid)
    requires Inv(s) && s.Pc(t).Reload?
    ensures EndsWithin(s, t, 6)
  {
    StepKeepsInv(s, Tick(t));
    LoopEnds(TickStep(s, t), t);
    OneMoreTick(s, t, 5);
  }

  /** A thread that has just counted itself in beside other references never has to insert the node itself. */
  lemma ReferencedEnds(s: State, t: Tid)
    requires Inv(s) && s.Pc(t).ReadNext? && s.At(s.Pc(t).h).refs.count >= 2
    ensures EndsWithin(s, t, 8)
  {
    var h := s.Pc(t).h;
    var s1 := TickStep(s, t);
    var s2 := TickStep(s1, t);
    StepKeepsInv(s, Tick(t));
    StepKeepsInv(s1, Tick(t));
    if s.head == To(h) {
      assert s2.Pc(t) == Take(h);
      EndsAtOnce(TickStep(s2, t), t, 5);
    } else {
      assert s2.Pc(t) == Drop(h, s.head) && s2.head == s.head && s2.At(h) == s.At(h);
      StepKeepsInv(s2, Tick(t));
      LoopEnds(TickStep(s2, t), t);
    }
    OneMoreTick(s2, t, 5);
    OneMoreTick(s1, t, 6);
    OneMoreTick(s, t, 7);
  }

  lemma TryRefEnds(s: State, t: Tid)
    requires Inv(s) && s.Pc(t).TryRef?
    ensures EndsWithin(s, t, 9)
  {
    var h := s.Pc(t).h;
    assert BlockOk(s, h);
    StepKeepsInv(s, Tick(t));
    var s1 := TickStep(s, t);
    if s1.Pc(t).Reload? {
      ReloadEnds(s1, t);
      EndsLater(s1, t, 6, 8);
    } else {
      ReferencedEnds(s1, t);
    }
    OneMoreTick(s, t, 8);
  }

  /** A thread at the top of the loop, perhaps with a head that is the head no longer. */
  lemma LoopOnEnds(s: State, t: Tid)
    requires Inv(s) && (s.Pc(t).Loop? || s.Pc(t).Idle?)
    ensures EndsWithin(s, t, 10)
  {
    if s.Pc(t).Idle? {
      EndsAtOnce(s, t, 10);
    } else {
      StepKeepsInv(s, Tick(t));
      TryRefEnds(TickStep(s, t), t);
      OneMoreTick(s, t, 9);
    }
  }

  /** A thread that inserts a node with the head at hand. */
  lemma PutNextEnds(s: State, t: Tid)
    requires Inv(s) && s.Pc(t).PutNext? && s.Pc(t).head == s.head
    ensures EndsWithin(s, t, 13)
  {
    var s1 := TickStep(s, t);
    var s2 := TickStep(s1, t);
    StepKeepsInv(s, Tick(t));
    StepKeepsInv(s1, Tick(t));
    assert s2.Pc(t).PutCas? && s2.Pc(t).head == s2.head;
    StepKeepsInv(s2, Tick(t));
    LoopOnEnds(TickStep(s2, t), t);
    OneMoreTick(s2, t, 10);
    OneMoreTick(s1, t, 11);
    OneMoreTick(s, t, 12);
  }

  lemma PutCasEnds(s: State, t: Tid)
    requires Inv(s) && s.Pc(t).PutCas?
    ensures EndsWithin(s, t, 15)
  {
    var s1 := TickStep(s, t);
    StepKeepsInv(s, Tick(t));
    if s.head == s.Pc(t).head {
      LoopOnEnds(s1, t);
      EndsLater(s1, t, 10, 14);
    } else {
      PutBackEnds(s1, t);
    }
    OneMoreTick(s, t, 14);
  }

  lemma PutBackEnds(s: State, t: Tid)
    requires Inv(s) && s.Pc(t).PutBack? && s.Pc(t).head == s.head
    ensures EndsWithin(s, t, 14)
  {
    var s1 := TickStep(s, t);
    StepKeepsInv(s, Tick(t));
    if s1.Pc(t).PutNext? {
      PutNextEnds(s1, t);
    } else {
      LoopOnEnds(s1, t);
      EndsLater(s1, t, 10, 13);
    }
    OneMoreTick(s, t, 13);
  }

  /** A thread that is inserting a node, with a head that may have changed since. */
  lemma PutEnds(s: State, t: Tid)
    requires Inv(s) && (s.Pc(t).PutLoad? || s.Pc(t).PutNext? || s.Pc(t).PutRef? || s.Pc(t).PutCas?)
    ensures EndsWithin(s, t, 18)
  {
    var s1 := TickStep(s, t);
    StepKeepsInv(s, Tick(t));
    match s.Pc(t) {
      case PutLoad(_, _) =>
        PutNextEnds(s1, t);
        OneMoreTick(s, t, 13);
      case PutNext(_, _, _) =>
        StepKeepsInv(s1, Tick(t));
        PutCasEnds(TickStep(s1, t), t);
        OneMoreTick(s1, t, 15);
        OneMoreTick(s, t, 16);
      case PutRef(_, _, _) =>
        PutCasEnds(s1, t);
        OneMoreTick(s, t, 15);
      case PutCas(_, _, _) => PutCasEnds(s, t);
    }
  }

  lemma DropEnds(s: State, t: Tid)
    requires Inv(s) && s.Pc(t).Drop?
    ensures EndsWithin(s, t, 19)
  {
    var s1 := TickStep(s, t);
    StepKeepsInv(s, Tick(t));
    if s1.Pc(t).PutLoad? {
      PutEnds(s1, t);
    } else {
      LoopOnEnds(s1, t);
      EndsLater(s1, t, 10, 18);
    }
    OneMoreTick(s, t, 18);
  }

  lemma SwingEnds(s: State, t: Tid)
    requires Inv(s) && s.Pc(t).Swing?
    ensures EndsWithin(s, t, 20)
  {
    var s1 := TickStep(s, t);
    StepKeepsInv(s, Tick(t));
    if s1.Pc(t).Drop? {
      DropEnds(s1, t);
    } else {
      EndsAtOnce(TickStep(s1, t), t, 18);
      OneMoreTick(s1, t, 18);
    }
    OneMoreTick(s, t, 19);
  }

  /** In every run, a call that is under way ends in at most 21 steps if no other thread gets in between. */
  lemma EveryCallEnds(acts: seq<Action>, t: Tid)
    ensures EndsWithin(Run(acts), t, 21)
  {
    RunInv(acts);
    var s := Run(acts);
    match s.Pc(t) {
      case Idle => EndsAtOnce(s, t, 21);
      case Loop(_) => LoopOnEnds(s, t);
      case TryRef(_, _) => TryRefEnds(s, t);
      case Reload => ReloadEnds(s, t);
      case ReadNext(_) =>
        StepKeepsInv(s, Tick(t));
        SwingEnds(TickStep(s, t), t);
        OneMoreTick(s, t, 20);
      case Swing(_, _) => SwingEnds(s, t);
      case Take(_) =>
        EndsAtOnce(TickStep(s, t), t, 20);
        OneMoreTick(s, t, 20);
      case Drop(_, _) => DropEnds(s, t);
      case Mark(_) =>
        StepKeepsInv(s, Tick(t));
        MarkEnds(s, t);
      case PutBack(_, _, _) => PutBackAnyEnds(s, t);
      case _ => PutEnds(s, t);
    }
  }

  lemma MarkEnds(s: State, t: Tid)
    requires Inv(s) && s.Pc(t).Mark?
    ensures EndsWithin(s, t, 19)
  {
    var s1 := TickStep(s, t);
    StepKeepsInv(s, Tick(t));
    if s1.Pc(t).PutLoad? {
      PutEnds(s1, t);
    } else {
      EndsAtOnce(s1, t, 18);
    }
    OneMoreTick(s, t, 18);
  }

  lemma PutBackAnyEnds(s: State, t: Tid)
    requires Inv(s) && s.Pc(t).PutBack?
    ensures EndsWithin(s, t, 19)
  {
    var s1 := TickStep(s, t);
    StepKeepsInv(s, Tick(t));
    if s1.Pc(t).PutNext? {
      PutEnds(s1, t);
    } else {
      LoopOnEnds(s1, t);
      EndsLater(s1, t, 10, 18);
    }
    OneMoreTick(s, t, 18);
  }

  // ------------------------------------------------------------------ when try_get gives up

  /** The thread is in try_get, and the next thing it learns is that there was no head. */
  predicate CarriesNull(pc: Pc) {
    match pc
    case Drop(_, head) => head.Null?
    case PutLoad(_, c) => c == Resume(Null)
    case PutNext(_, _, c) => c == Resume(Null)
    case PutRef(_, _, c) => c == Resume(Null)
    case PutCas(_, _, c) => c == Resume(Null)
    case PutBack(_, _, c) => c == Resume(Null)
    case _ => false
  }

  /** The k-th action was a step of t that found the list empty, and t's call has not ended since. */
  ghost predicate SawEmptyAt(acts: seq<Action>, t: Tid, k: nat) {
    && k < |acts| && acts[k] == Tick(t) && Run(acts[..k]).list == []
    && !Run(acts[..k]).Pc(t).Idle? && forall j :: k < j < |acts| ==> !Run(acts[..j]).Pc(t).Idle?
  }

  ghost predicate SawEmpty(acts: seq<Action>, t: Tid) {
    exists k: nat :: SawEmptyAt(acts, t, k)
  }

  lemma SawEmptyThen(acts: seq<Action>, t: Tid, a: Action)
    requires SawEmpty(acts, t) && !Run(acts).Pc(t).Idle?
    ensures SawEmpty(acts + [a], t)
  {
    var k: nat :| SawEmptyAt(acts, t, k);
    var all := acts + [a];
    assert all[..|acts|] == acts && all[..k] == acts[..k];
    forall j | k < j < |all| ensures !Run(all[..j]).Pc(t).Idle? {
      assert j < |acts| ==> all[..j] == acts[..j];
    }
    assert SawEmptyAt(all, t, k);
  }

  lemma SeesEmpty(acts: seq<Action>, t: Tid)
    requires Run(acts).list == [] && !Run(acts).Pc(t).Idle?
    ensures SawEmpty(acts + [Tick(t)], t)
  {
    var all := acts + [Tick(t)];
    assert all[..|acts|] == acts;
    assert SawEmptyAt(all, t, |acts|);
  }

  lemma NullComes(s: State, t: Tid, a: Action)
    requires CarriesNull(Step(s, a).Pc(t)) && !CarriesNull(s.Pc(t))
    ensures a == Tick(t) && s.Pc(t).Swing? && s.head.Null?
  {
  }

  lemma {:induction false} NullWasSeen(acts: seq<Action>, t: Tid)
    requires CarriesNull(Run(acts).Pc(t))
    ensures SawEmpty(acts, t)
  {
    if acts != [] {
      var n := |acts| - 1;
      var s, a := Run(acts[..n]), acts[n];
      assert acts == acts[..n] + [a];
      if CarriesNull(s.Pc(t)) {
        NullWasSeen(acts[..n], t);
        SawEmptyThen(acts[..n], t, a);
      } else {
        RunInv(acts[..n]);
        NullComes(s, t, a);
        SeesEmpty(acts[..n], t);
      }
    }
  }

  /** A step of t that ends its call of try_get: neither in add, nor returning from one. */
  predicate EndsTryGet(s: State, t: Tid) {
    && !s.Pc(t).Idle? && TickStep(s, t).Pc(t).Idle? && !s.Pc(t).Mark?
    && (s.Pc(t).PutCas? || s.Pc(t).PutBack? ==> s.Pc(t).cont.Resume?)
  }

  /**
   In every run, a call of try_get ends either with a node that is the caller's from then on, or after a step
   of that call which found the list empty.
   */
  lemma GivesUpOnlyOnEmpty(acts: seq<Action>, t: Tid)
    requires EndsTryGet(Run(acts), t)
    ensures SawEmpty(acts + [Tick(t)], t)
         || exists n :: Run(acts).Pc(t) == Take(n) && Run(acts + [Tick(t)]).At(n).role == Owned(t)
  {
    RunInv(acts);
    var s := Run(acts);
    assert (acts + [Tick(t)])[..|acts|] == acts;
    if s.Pc(t).Reload? {
      SeesEmpty(acts, t);
    } else if s.Pc(t).Take? {
      assert s.Pc(t) == Take(s.Pc(t).h);
    } else {
      assert CarriesNull(s.Pc(t));
      NullWasSeen(acts, t);
      SawEmptyThen(acts, t, Tick(t));
    }
  }

  // ------------------------------------------------------------------ the 32-bit reference word

  const LISTED_BIT := 0x8000_0000
  const WORDS := 0x1_0000_0000

  function Word(r: Refs): int {
    r.count + if r.listed then LISTED_BIT else 0
  }

  /** Counts below 2^31 pack without interference, so the word operations are the ones on pairs. */
  lemma WordOperations(r: Refs, q: Refs)
    requires 0 <= r.count < LISTED_BIT && 0 <= q.count < LISTED_BIT
    ensures Word(r) % LISTED_BIT == 0 <==> r.count == 0
    ensures Word(r) == Word(q) <==> r == q
    ensures !r.listed ==> (Word(r) + LISTED_BIT) % WORDS == Word(Refs(r.count, true))
    ensures !r.listed && r.count > 0 ==> (Word(r) + (LISTED_BIT - 1)) % WORDS == Word(Refs(r.count - 1, true))
    ensures Word(r) == LISTED_BIT + 1 <==> r == Refs(1, true)
  {
  }

  lemma {:induction false} Small(s: set<nat>, limit: nat)
    requires forall x :: x in s ==> x < limit
    ensures |s| <= limit
  {
    if limit > 0 {
      Small(s - {limit - 1}, limit - 1);
      if limit - 1 in s {
        assert s == (s - {limit - 1}) + {limit - 1};
      } else {
        assert s == s - {limit - 1};
      }
    } else {
      assert s == {};
    }
  }

  /** With fewer than `threads` threads a count stays within 0..threads + 1, so it never reaches the list bit. */
  lemma {:induction false} CountsFit(acts: seq<Action>, threads: nat, n: Node)
    requires forall a :: a in acts ==> a.t < threads
    ensures 0 <= Run(acts).At(n).refs.count <= threads + 1
  {
    RunInv(acts);
    assert BlockOk(Run(acts), n);
    forall t | t in Run(acts).At(n).holders ensures t < threads {
      OnlyActorsMove(acts, t);
    }
    Small(Run(acts).At(n).holders, threads);
  }

  lemma {:induction false} OnlyActorsMove(acts: seq<Action>, t: Tid)
    requires !Run(acts).Pc(t).Idle?
    ensures exists a :: a in acts && a.t == t
  {
    if acts != [] {
      var front, last := acts[..|acts| - 1], acts[|acts| - 1];
      if last.t == t {
        assert last in acts;
      } else {
        OnlyActorsMove(front, t);
        var a :| a in front && a.t == t;
        assert a in acts;
      }
    }
  }
}

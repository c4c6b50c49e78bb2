/**
 How many consumers share one producer's queue: the optimistic dequeue counters.

 Any number of threads interleave at the granularity of one atomic operation on the tail, the head, the
 optimistic count and the overcommit.  A dequeue is a bulk dequeue of at most one element.  History that
 no step reads: for every unit of the optimistic count, which thread added it and what became of it, and
 for every index of the queue, which thread it was handed to.
 */
module Counters {
  import opened Basics

  type Tid = nat

  datatype Fate =
    | Open       // counted, the tail not yet looked at again
    | Won        // there is an element for it, the head not yet advanced
    | Taken      // the head was advanced for it
    | Lost       // there was no element for it, not yet given back
    | Returned   // added to the overcommit

  datatype Unit = Unit(thread: Tid, fate: Fate)

  datatype Pc =
    | Idle
    | LoadOver(tail: nat, max: nat)
    | LoadCount(tail: nat, over: nat, max: nat)
    | Commit(over: nat, desired: nat)
    | Recheck(over: nat, mine: nat, desired: nat)
    | GiveBack(mine: nat, actual: nat, desired: nat)   // fewer elements than hoped for
    | Advance(mine: nat, actual: nat)
    | Undo(mine: nat, desired: nat)                     // no elements after all

  datatype State = State(tail: nat, head: nat, count: nat, over: nat, pcs: map<Tid, Pc>,
                         units: seq<Unit>, handed: seq<Tid>) {
    function Pc(t: Tid): Pc {
      if t in pcs then pcs[t] else Idle
    }
    function Goto(t: Tid, pc: Pc): State {
      this.(pcs := pcs[t := pc])
    }
  }

  const Init: State := State(0, 0, 0, 0, map[], [], [])

  datatype Action =
    | Enqueue(n: nat)                  // the producer has written n elements and publishes them
    | Call(t: Tid, max: nat)
    | Tick(t: Tid)

  function Min(a: int, b: int): int {
    if a < b then a else b
  }

  // ------------------------------------------------------------------ transitions

  /** units a..b meet this fate. */
  function Mark(units: seq<Unit>, a: nat, b: nat, f: Fate): (r: seq<Unit>)
    ensures |r| == |units|
    ensures forall m :: 0 <= m < |units| ==> r[m] == if a <= m < b then units[m].(fate := f) else units[m]
  {
    seq(|units|, m requires 0 <= m < |units| => if a <= m < b then units[m].(fate := f) else units[m])
  }

  /** One atomic operation of the thread t, chosen by its program counter. */
  function TickStep(s: State, t: Tid): State {
    match s.Pc(t)
    case Idle => s
    case LoadOver(tail, max) => s.Goto(t, LoadCount(tail, s.over, max))
    case LoadCount(tail, over, max) =>
      var desired := tail - (s.count - over);
      if desired > 0 then s.Goto(t, Commit(over, Min(desired, max))) else s.Goto(t, Idle)
    case Commit(over, desired) =>
      s.(count := s.count + desired, units := s.units + Repeat(Unit(t, Open), desired))
       .Goto(t, Recheck(over, s.count, desired))
    case Recheck(over, mine, desired) =>
      var actual := s.tail - (mine - over);
      if actual > 0 then
        var a: nat := Min(desired, actual);
        s.(units := Mark(Mark(s.units, mine, mine + a, Won), mine + a, mine + desired, Lost))
         .Goto(t, if a < desired then GiveBack(mine, a, desired) else Advance(mine, a))
      else
        s.(units := Mark(s.units, mine, mine + desired, Lost)).Goto(t, Undo(mine, desired))
    case GiveBack(mine, actual, desired) =>
      s.(over := s.over + (if desired > actual then desired - actual else 0),
         units := Mark(s.units, mine + actual, mine + desired, Returned))
       .Goto(t, Advance(mine, actual))
    case Advance(mine, actual) =>
      s.(head := s.head + actual, units := Mark(s.units, mine, mine + actual, Taken),
         handed := s.handed + Repeat(t, actual))
       .Goto(t, Idle)
    case Undo(mine, desired) =>
      s.(over := s.over + desired, units := Mark(s.units, mine, mine + desired, Returned)).Goto(t, Idle)
  }

  function Apply(s: State, a: Action): State {
    match a
    case Enqueue(n) => s.(tail := s.tail + n)
    case Call(t, max) => if s.Pc(t).Idle? then s.Goto(t, LoadOver(s.tail, max)) else s
    case Tick(t) => TickStep(s, t)
  }

  function Run(actions: seq<Action>): State {
    if actions == [] then Init else Apply(Run(actions[..|actions| - 1]), actions[|actions| - 1])
  }

  // ------------------------------------------------------------------ counting units

  predicate Failed(f: Fate) { f == Lost || f == Returned }

  predicate Succeeded(f: Fate) { f == Won || f == Taken }

  function Fails(units: seq<Unit>): nat {
    if units == [] then 0 else Fails(units[..|units| - 1]) + if Failed(units[|units| - 1].fate) then 1 else 0
  }

  function Wins(units: seq<Unit>): nat {
    if units == [] then 0 else Wins(units[..|units| - 1]) + if Succeeded(units[|units| - 1].fate) then 1 else 0
  }

  function Count(units: seq<Unit>, f: Fate): nat {
    if units == [] then 0 else Count(units[..|units| - 1], f) + if units[|units| - 1].fate == f then 1 else 0
  }

  /** Units failed so far stay failed. */
  predicate Later(units: seq<Unit>, units': seq<Unit>) {
    |units| <= |units'| && forall m :: 0 <= m < |units| && Failed(units[m].fate) ==> Failed(units'[m].fate)
  }

  lemma {:induction false} FailsGrow(units: seq<Unit>, units': seq<Unit>)
    requires Later(units, units')
    ensures Fails(units) <= Fails(units')
    decreases |units'|
  {
    if |units| < |units'| {
      FailsGrow(units, units'[..|units'| - 1]);
    } else if units != [] {
      FailsGrow(units[..|units| - 1], units'[..|units'| - 1]);
    }
  }

  /** units a..b go from fate f to fate g, the others keep theirs. */
  predicate Moves(units: seq<Unit>, units': seq<Unit>, a: nat, b: nat, f: Fate, g: Fate) {
    && |units'| == |units| && f != g
    && forall m :: 0 <= m < |units| ==>
         if a <= m < b then units[m].fate == f && units'[m].fate == g else units'[m].fate == units[m].fate
  }

  lemma {:induction false} CountMoves(units: seq<Unit>, units': seq<Unit>, a: nat, b: nat, f: Fate, g: Fate, c: Fate)
    requires a <= b <= |units| && Moves(units, units', a, b, f, g)
    ensures Count(units', c) == Count(units, c) + Change(f, g, c, b - a)
  {
    if units != [] {
      var n := |units| - 1;
      var a1, b1 := Min(a, n), Min(b, n);
      MovesFront(units, units', a, b, f, g, a1, b1);
      CountMoves(units[..n], units'[..n], a1, b1, f, g, c);
      CountLast(units, units', f, g, c, b1 - a1, b - a);
    }
  }

  lemma MovesFront(units: seq<Unit>, units': seq<Unit>, a: nat, b: nat, f: Fate, g: Fate, a1: nat, b1: nat)
    requires units != [] && a <= b <= |units| && Moves(units, units', a, b, f, g)
    requires a1 == Min(a, |units| - 1) && b1 == Min(b, |units| - 1)
    ensures Moves(units[..|units| - 1], units'[..|units| - 1], a1, b1, f, g)
    ensures var u, u' := units[|units| - 1].fate, units'[|units| - 1].fate;
            (b - a == b1 - a1 + 1 && u == f && u' == g) || (b - a == b1 - a1 && u' == u)
  {
  }

  /** One unit more, that moved or did not. */
  lemma CountLast(units: seq<Unit>, units': seq<Unit>, f: Fate, g: Fate, c: Fate, k: nat, k': nat)
    requires f != g && |units'| == |units| > 0
    requires var n := |units| - 1; Count(units'[..n], c) == Count(units[..n], c) + Change(f, g, c, k)
    requires var u, u' := units[|units| - 1].fate, units'[|units| - 1].fate;
             (k' == k + 1 && u == f && u' == g) || (k' == k && u' == u)
    ensures Count(units', c) == Count(units, c) + Change(f, g, c, k')
  {
  }

  function Change(f: Fate, g: Fate, c: Fate, k: nat): int {
    if c == f then 0 - k else if c == g then k else 0
  }

  lemma {:induction false} CountOpen(units: seq<Unit>, t: Tid, n: nat, c: Fate)
    ensures Count(units + Repeat(Unit(t, Open), n), c) == Count(units, c) + if c == Open then n else 0
  {
    var us := units + Repeat(Unit(t, Open), n);
    if n == 0 {
      assert us == units;
    } else {
      assert us[..|us| - 1] == units + Repeat(Unit(t, Open), n - 1);
      CountOpen(units, t, n - 1, c);
    }
  }

  /** Every unit that found an element found it below the tail. */
  ghost predicate Bounded(units: seq<Unit>, tail: nat) {
    forall m :: 0 <= m < |units| && Succeeded(units[m].fate) ==> m - Fails(units[..m]) < tail
  }

  /** So no more units succeed than there are elements. */
  lemma {:induction false} WinsBounded(units: seq<Unit>, tail: nat)
    requires Bounded(units, tail)
    ensures Wins(units) <= tail && Wins(units) <= |units| - Fails(units)
  {
    if units != [] {
      var n := |units| - 1;
      forall m | 0 <= m < n && Succeeded(units[..n][m].fate) ensures m - Fails(units[..n][..m]) < tail {
        assert units[..n][..m] == units[..m] && units[m] == units[..n][m];
      }
      WinsBounded(units[..n], tail);
    }
  }

  lemma {:induction false} WinsAreCounted(units: seq<Unit>)
    ensures Wins(units) == Count(units, Won) + Count(units, Taken)
    ensures Fails(units) == Count(units, Lost) + Count(units, Returned)
    ensures |units| == Count(units, Open) + Wins(units) + Fails(units)
  {
    if units != [] {
      WinsAreCounted(units[..|units| - 1]);
    }
  }

  // ------------------------------------------------------------------ what every step keeps

  /** units a..b are t's and have this fate. */
  predicate Hold(units: seq<Unit>, t: Tid, a: nat, b: nat, f: Fate) {
    a <= b <= |units| && forall m :: a <= m < b ==> units[m] == Unit(t, f)
  }

  predicate PcOk(units: seq<Unit>, tail: nat, t: Tid, pc: Pc) {
    match pc
    case Idle => true
    case LoadOver(tl, _) => tl <= tail
    case LoadCount(tl, over, _) => tl <= tail && over <= Fails(units)
    case Commit(over, _) => over <= Fails(units)
    case Recheck(over, mine, desired) => Hold(units, t, mine, mine + desired, Open) && over <= Fails(units[..mine])
    case GiveBack(mine, actual, desired) =>
      actual < desired && Hold(units, t, mine, mine + actual, Won) &&
        Hold(units, t, mine + actual, mine + desired, Lost)
    case Advance(mine, actual) => Hold(units, t, mine, mine + actual, Won)
    case Undo(mine, desired) => Hold(units, t, mine, mine + desired, Lost)
  }

  /** The units a thread still has to decide about. */
  predicate Holds(pc: Pc, m: nat) {
    match pc
    case Recheck(_, mine, desired) => mine <= m < mine + desired
    case GiveBack(mine, _, desired) => mine <= m < mine + desired
    case Advance(mine, actual) => mine <= m < mine + actual
    case Undo(mine, desired) => mine <= m < mine + desired
    case _ => false
  }

  ghost predicate Inv(s: State) {
    && |s.units| == s.count && |s.handed| == s.head
    && Count(s.units, Taken) == s.head && Count(s.units, Returned) == s.over
    && Bounded(s.units, s.tail)
    && (forall t {:trigger s.Pc(t)} :: PcOk(s.units, s.tail, t, s.Pc(t)))
    && (forall m :: 0 <= m < |s.units| && s.units[m].fate != Taken && s.units[m].fate != Returned ==>
        Holds(s.Pc(s.units[m].thread), m))
  }

  /** The head never passes the tail. */
  lemma HeadBehindTail(s: State)
    requires Inv(s)
    ensures s.head + Count(s.units, Won) <= s.tail
  {
    WinsBounded(s.units, s.tail);
    WinsAreCounted(s.units);
  }

  /** Only units of thread t have changed, and what had failed has still failed. */
  predicate OnlyBy(units: seq<Unit>, units': seq<Unit>, t: Tid) {
    && Later(units, units')
    && forall m :: 0 <= m < |units| ==>
         units'[m].thread == units[m].thread && (units[m].thread != t ==> units'[m] == units[m])
  }

  lemma OthersKeep(units: seq<Unit>, units': seq<Unit>, tail: nat, tail': nat, t: Tid, u: Tid, pc: Pc)
    requires u != t && tail <= tail' && OnlyBy(units, units', t) && PcOk(units, tail, u, pc)
    ensures PcOk(units', tail', u, pc)
  {
    FailsGrow(units, units');
    if pc.Recheck? {
      FailsGrow(units[..pc.mine], units'[..pc.mine]);
    }
  }

  /** What had found an element below the tail still has. */
  lemma StillBounded(units: seq<Unit>, units': seq<Unit>, tail: nat, tail': nat)
    requires Bounded(units, tail) && tail <= tail' && Later(units, units')
    requires forall m :: 0 <= m < |units'| && Succeeded(units'[m].fate) ==>
               (m < |units| && Succeeded(units[m].fate)) || m - Fails(units'[..m]) < tail'
    ensures Bounded(units', tail')
  {
    forall m | 0 <= m < |units'| && Succeeded(units'[m].fate) ensures m - Fails(units'[..m]) < tail' {
      if m < |units| && Succeeded(units[m].fate) {
        FailsGrow(units[..m], units'[..m]);
      }
    }
  }

  /** Everything but the counters: thread t goes from the state s to s' by changing units of its own. */
  lemma ThreadStep(s: State, s': State, t: Tid, pc: Pc)
    requires Inv(s) && s'.tail == s.tail && s'.pcs == s.pcs[t := pc]
    requires OnlyBy(s.units, s'.units, t) && PcOk(s'.units, s'.tail, t, pc)
    requires forall m :: 0 <= m < |s'.units| && Succeeded(s'.units[m].fate) ==>
               (m < |s.units| && Succeeded(s.units[m].fate)) || m - Fails(s'.units[..m]) < s'.tail
    requires forall m :: 0 <= m < |s'.units| && s'.units[m].fate != Taken && s'.units[m].fate != Returned ==>
               if s'.units[m].thread == t then Holds(pc, m) else m < |s.units|
    requires |s'.units| == s'.count && |s'.handed| == s'.head
    requires Count(s'.units, Taken) == s'.head && Count(s'.units, Returned) == s'.over
    ensures Inv(s')
  {
    StillBounded(s.units, s'.units, s.tail, s'.tail);
    forall u ensures PcOk(s'.units, s'.tail, u, s'.Pc(u)) {
      if u != t {
        assert PcOk(s.units, s.tail, u, s.Pc(u));
        OthersKeep(s.units, s'.units, s.tail, s'.tail, t, u, s.Pc(u));
      }
    }
    forall m | 0 <= m < |s'.units| && s'.units[m].fate != Taken && s'.units[m].fate != Returned
      ensures Holds(s'.Pc(s'.units[m].thread), m)
    {
      if s'.units[m].thread != t {
        assert m < |s.units|;
      }
    }
  }

  lemma CommitKeepsInv(s: State, t: Tid)
    requires Inv(s) && s.Pc(t).Commit?
    ensures Inv(TickStep(s, t))
  {
    var pc, s' := s.Pc(t), TickStep(s, t);
    CountOpen(s.units, t, pc.desired, Taken);
    CountOpen(s.units, t, pc.desired, Returned);
    assert s'.units[..s.count] == s.units;
    assert PcOk(s.units, s.tail, t, pc);
    ThreadStep(s, s', t, s'.Pc(t));
  }

  /** The new tail shows elements for some of the units: they won, the others lost. */
  lemma RecheckKeepsInv(s: State, t: Tid)
    requires Inv(s) && s.Pc(t).Recheck?
    ensures Inv(TickStep(s, t))
  {
    var pc, s' := s.Pc(t), TickStep(s, t);
    assert PcOk(s.units, s.tail, t, pc);
    var mine, end := pc.mine, pc.mine + pc.desired;
    var actual := s.tail - (mine - pc.over);
    var mid: nat := if actual > 0 then mine + Min(pc.desired, actual) else mine;
    DecideKeepsInv(s, s', t, s'.Pc(t), mine, mid, end, pc.over);
  }

  /** t's open units up to mid have won, those up to end have lost. */
  predicate Decided(units: seq<Unit>, units': seq<Unit>, t: Tid, mine: nat, mid: nat, end: nat) {
    && mine <= mid <= end <= |units| == |units'|
    && forall m :: 0 <= m < |units| ==>
         if mine <= m < end then units[m] == Unit(t, Open) && units'[m] == Unit(t, if m < mid then Won else Lost)
         else units'[m] == units[m]
  }

  lemma DecideKeepsInv(s: State, s': State, t: Tid, pc: Pc, mine: nat, mid: nat, end: nat, over: nat)
    requires Inv(s) && Decided(s.units, s'.units, t, mine, mid, end)
    requires over <= Fails(s.units[..mine]) && (mid > mine ==> mid - over <= s.tail)
    requires s' == s.(units := s'.units, pcs := s.pcs[t := pc])
    requires PcOk(s'.units, s.tail, t, pc) && forall m: nat :: Holds(pc, m) <==> mine <= m < end
    requires forall m: nat :: Holds(s.Pc(t), m) ==> mine <= m < end
    ensures Inv(s')
  {
    DecidedCounts(s.units, s'.units, t, mine, mid, end);
    forall m | mine <= m < mid ensures m - Fails(s'.units[..m]) < s.tail {
      FailsGrow(s.units[..mine], s'.units[..m]);
    }
    ThreadStep(s, s', t, pc);
  }

  lemma DecidedCounts(units: seq<Unit>, units': seq<Unit>, t: Tid, mine: nat, mid: nat, end: nat)
    requires Decided(units, units', t, mine, mid, end)
    ensures Count(units', Taken) == Count(units, Taken) && Count(units', Returned) == Count(units, Returned)
  {
    var units1 := Mark(units, mine, mid, Won);
    CountMoves(units, units1, mine, mid, Open, Won, Taken);
    CountMoves(units, units1, mine, mid, Open, Won, Returned);
    CountMoves(units1, units', mid, end, Open, Lost, Taken);
    CountMoves(units1, units', mid, end, Open, Lost, Returned);
  }

  /** Units that were lost are given back, or elements that were won are taken. */
  lemma FinishKeepsInv(s: State, s': State, t: Tid, pc: Pc, a: nat, b: nat, f: Fate, g: Fate)
    requires Inv(s) && a <= b <= |s.units| && ((f == Won && g == Taken) || (f == Lost && g == Returned))
    requires Hold(s.units, t, a, b, f)
    requires s'.units == Mark(s.units, a, b, g) && s'.tail == s.tail && s'.pcs == s.pcs[t := pc] && s'.count == s.count
    requires s'.head == s.head + (if g == Taken then b - a else 0) && |s'.handed| == s'.head
    requires s'.over == s.over + if g == Returned then b - a else 0
    requires PcOk(s'.units, s.tail, t, pc)
    requires forall m :: 0 <= m < |s.units| && !(a <= m < b) && Holds(s.Pc(t), m) ==> Holds(pc, m)
    ensures Inv(s')
  {
    CountMoves(s.units, s'.units, a, b, f, g, Taken);
    CountMoves(s.units, s'.units, a, b, f, g, Returned);
    ThreadStep(s, s', t, pc);
  }

  lemma FinishTick(s: State, t: Tid)
    requires Inv(s) && (s.Pc(t).GiveBack? || s.Pc(t).Advance? || s.Pc(t).Undo?)
    ensures Inv(TickStep(s, t))
  {
    var pc, s' := s.Pc(t), TickStep(s, t);
    assert PcOk(s.units, s.tail, t, pc);
    match pc {
      case GiveBack(mine, actual, desired) =>
        FinishKeepsInv(s, s', t, s'.Pc(t), mine + actual, mine + desired, Lost, Returned);
      case Advance(mine, actual) => FinishKeepsInv(s, s', t, Idle, mine, mine + actual, Won, Taken);
      case Undo(mine, desired) => FinishKeepsInv(s, s', t, Idle, mine, mine + desired, Lost, Returned);
    }
  }

  lemma LoadKeepsInv(s: State, t: Tid)
    requires Inv(s) && (s.Pc(t).Idle? || s.Pc(t).LoadOver? || s.Pc(t).LoadCount?)
    ensures Inv(TickStep(s, t))
  {
    assert PcOk(s.units, s.tail, t, s.Pc(t));
    WinsAreCounted(s.units);
    if !s.Pc(t).Idle? {
      ThreadStep(s, TickStep(s, t), t, TickStep(s, t).Pc(t));
    }
  }

  lemma EnqueueKeepsInv(s: State, n: nat)
    requires Inv(s)
    ensures Inv(s.(tail := s.tail + n))
  {
    var s' := s.(tail := s.tail + n);
    forall u ensures PcOk(s'.units, s'.tail, u, s'.Pc(u)) {
      assert PcOk(s.units, s.tail, u, s.Pc(u));
    }
    forall m | 0 <= m < |s'.units| && s'.units[m].fate != Taken && s'.units[m].fate != Returned
      ensures Holds(s'.Pc(s'.units[m].thread), m)
    {
      assert Holds(s.Pc(s.units[m].thread), m);
    }
  }

  lemma ApplyKeepsInv(s: State, a: Action)
    requires Inv(s)
    ensures Inv(Apply(s, a))
  {
    match a {
      case Enqueue(n) => EnqueueKeepsInv(s, n);
      case Call(t, max) =>
        if s.Pc(t).Idle? {
          ThreadStep(s, Apply(s, a), t, LoadOver(s.tail, max));
        }
      case Tick(t) =>
        if s.Pc(t).Commit? {
          CommitKeepsInv(s, t);
        } else if s.Pc(t).Recheck? {
          RecheckKeepsInv(s, t);
        } else if s.Pc(t).Idle? || s.Pc(t).LoadOver? || s.Pc(t).LoadCount? {
          LoadKeepsInv(s, t);
        } else {
          FinishTick(s, t);
        }
    }
  }

  // ------------------------------------------------------------------ every run

  lemma {:induction false} RunInv(actions: seq<Action>)
    ensures Inv(Run(actions))
  {
    if actions != [] {
      RunInv(actions[..|actions| - 1]);
      ApplyKeepsInv(Run(actions[..|actions| - 1]), actions[|actions| - 1]);
    }
  }

  /** In every interleaving the head stays behind the tail, with room for every element won but not yet taken. */
  lemma HeadNeverPassesTail(actions: seq<Action>)
    ensures Run(actions).head + Count(Run(actions).units, Won) <= Run(actions).tail
  {
    RunInv(actions);
    HeadBehindTail(Run(actions));
  }

  /** The k-th action hands index i to its thread. */
  predicate HandedBy(actions: seq<Action>, k: nat, i: nat) {
    k < |actions| && Run(actions[..k]).head <= i < Run(actions[..k + 1]).head
  }

  lemma {:induction false} HeadGrows(actions: seq<Action>, k: nat)
    requires k <= |actions|
    ensures Run(actions[..k]).head <= Run(actions).head && Run(actions[..k]).tail <= Run(actions).tail
    ensures Run(actions[..k]).handed <= Run(actions).handed
  {
    if k < |actions| {
      var front := actions[..|actions| - 1];
      HeadGrows(front, k);
      assert front[..k] == actions[..k];
    } else {
      assert actions[..k] == actions;
    }
  }

  /** No index is handed out by two actions, and none before it was enqueued. */
  lemma HandedOnce(actions: seq<Action>, j: nat, k: nat, i: nat)
    requires j <= k && HandedBy(actions, j, i) && HandedBy(actions, k, i)
    ensures j == k && i < Run(actions[..k + 1]).tail
  {
    HeadNeverPassesTail(actions[..k + 1]);
    if j < k {
      assert actions[..k][..j + 1] == actions[..j + 1];
      HeadGrows(actions[..k], j + 1);
    }
  }

  /** An index below the head was handed to the thread that made the step. */
  lemma HandedToCaller(actions: seq<Action>, k: nat, i: nat)
    requires HandedBy(actions, k, i)
    ensures actions[k].Tick? && i < |Run(actions).handed| && Run(actions).handed[i] == actions[k].t
  {
    var s, s' := Run(actions[..k]), Run(actions[..k + 1]);
    RunInv(actions[..k]);
    assert actions[..k + 1][..k] == actions[..k] && actions[..k + 1][k] == actions[k];
    assert s' == Apply(s, actions[k]);
    HeadGrows(actions, k + 1);
  }

  /** Every index below the head was handed out by some action. */
  lemma {:induction false} EveryIndexHanded(actions: seq<Action>, i: nat) returns (k: nat)
    requires i < Run(actions).head
    ensures HandedBy(actions, k, i)
  {
    var n := |actions| - 1;
    assert actions[..n + 1] == actions;
    if i < Run(actions[..n]).head {
      k := EveryIndexHanded(actions[..n], i);
      assert actions[..n][..k] == actions[..k] && actions[..n][..k + 1] == actions[..k + 1];
    } else {
      k := n;
    }
  }

  /** No thread has counted itself in without having settled the account. */
  ghost predicate Quiet(s: State) {
    forall t {:trigger s.Pc(t)} :: s.Pc(t).Idle? || s.Pc(t).LoadOver? || s.Pc(t).LoadCount? || s.Pc(t).Commit?
  }

  lemma QuietCounters(s: State)
    requires Inv(s) && Quiet(s)
    ensures s.head == s.count - s.over
  {
    WinsAreCounted(s.units);
    forall f | f != Taken && f != Returned ensures Count(s.units, f) == 0 {
      NoneHas(s.units, f);
    }
  }

  lemma {:induction false} NoneHas(units: seq<Unit>, f: Fate)
    requires forall m :: 0 <= m < |units| ==> units[m].fate != f
    ensures Count(units, f) == 0
  {
    if units != [] {
      NoneHas(units[..|units| - 1], f);
    }
  }

  /** With no dequeue in flight the head is the optimistic count minus the overcommit. */
  lemma QuietHead(actions: seq<Action>)
    requires Quiet(Run(actions))
    ensures Run(actions).head == Run(actions).count - Run(actions).over
  {
    RunInv(actions);
    QuietCounters(Run(actions));
  }

  function Ticks(s: State, t: Tid, n: nat): State {
    if n == 0 then s else TickStep(Ticks(s, t, n - 1), t)
  }

  /** Then a dequeue that runs alone gets as many elements as there are, up to the number it asked for. */
  lemma AloneGetsAll(actions: seq<Action>, t: Tid, max: nat)
    requires Quiet(Run(actions)) && Run(actions).Pc(t) == Idle
    ensures var s := Run(actions);
      var s' := Ticks(Apply(s, Call(t, max)), t, 5);
      && s.head <= s.tail == s'.tail && s'.Pc(t) == Idle
      && s'.head == s.head + Min(max, s.tail - s.head) == s'.count - s'.over
      && s'.handed == s.handed + Repeat(t, Min(max, s.tail - s.head))
  {
    var s := Run(actions);
    RunInv(actions);
    QuietCounters(s);
    HeadBehindTail(s);
    AloneFrom(s, t, max);
  }

  lemma AloneFrom(s: State, t: Tid, max: nat)
    requires s.head == s.count - s.over <= s.tail && s.Pc(t) == Idle
    ensures var s' := Ticks(Apply(s, Call(t, max)), t, 5);
      && s'.Pc(t) == Idle && s'.tail == s.tail
      && s'.head == s.head + Min(max, s.tail - s.head) == s'.count - s'.over
      && s'.handed == s.handed + Repeat(t, Min(max, s.tail - s.head))
  {
    var s0 := Apply(s, Call(t, max));
    var d: nat := Min(s.tail - s.head, max);
    var s1 := TickStep(s0, t);
    var s2 := TickStep(s1, t);
    var s3 := TickStep(s2, t);
    var s4 := TickStep(s3, t);
    assert Ticks(s0, t, 1) == s1;
    assert Ticks(s0, t, 2) == s2;
    assert Ticks(s0, t, 3) == s3;
    assert Ticks(s0, t, 4) == s4;
    assert s1.Pc(t) == LoadCount(s.tail, s.over, max);
    if s.tail != s.head {
      assert s2.Pc(t) == Commit(s.over, d);
      assert s3.Pc(t) == Recheck(s.over, s.count, d);
      assert s4.Pc(t) == Advance(s.count, d);
    } else {
      assert s.handed + Repeat(t, 0) == s.handed;
    }
  }

  // ------------------------------------------------------------------ what a contended call gets

  /** In every run, the recheck lets exactly those units win that find an element below the tail it has loaded. */
  lemma RecheckDecides(actions: seq<Action>, t: Tid, k: nat)
    requires Run(actions).Pc(t).Recheck? && k < Run(actions).Pc(t).desired
    ensures var s, s' := Run(actions), Run(actions + [Tick(t)]);
            var m := s.Pc(t).mine + k;
            && m < |s'.units| && (s'.units[m] == Unit(t, Won) <==> m - s.Pc(t).over < s.tail)
            && (s'.units[m] == Unit(t, Won) || s'.units[m] == Unit(t, Lost))
  {
    RunInv(actions);
    assert (actions + [Tick(t)])[..|actions|] == actions;
    assert PcOk(Run(actions).units, Run(actions).tail, t, Run(actions).Pc(t));
  }

  function Times(l: seq<Tid>, t: Tid): nat {
    if l == [] then 0 else Times(l[..|l| - 1], t) + if l[|l| - 1] == t then 1 else 0
  }

  lemma {:induction false} TimesRepeat(l: seq<Tid>, u: Tid, n: nat, t: Tid)
    ensures Times(l + Repeat(u, n), t) == Times(l, t) + if u == t then n else 0
  {
    var all := l + Repeat(u, n);
    if n == 0 {
      assert all == l;
    } else {
      assert all[..|all| - 1] == l + Repeat(u, n - 1);
      TimesRepeat(l, u, n - 1, t);
    }
  }

  /** The state in which action i is taken. */
  function When(actions: seq<Action>, i: nat): State
    requires i <= |actions|
  {
    Run(actions[..i])
  }

  lemma {:induction false} WhenMore(actions: seq<Action>, a: Action, i: nat)
    requires i <= |actions|
    ensures When(actions + [a], i) == When(actions, i)
  {
    assert (actions + [a])[..i] == actions[..i];
  }

  /** Thread t is in the dequeue of at most max elements that it called with action j. */
  ghost predicate InCall(actions: seq<Action>, j: nat, t: Tid, max: nat) {
    && j < |actions| && actions[j] == Call(t, max) && When(actions, j).Pc(t).Idle?
    && forall i {:trigger When(actions, i)} :: j < i <= |actions| ==> !When(actions, i).Pc(t).Idle?
  }

  /** With action i of this call, the thread loads the overcommit. */
  predicate LoadsOver(actions: seq<Action>, j: nat, t: Tid, i: nat, over: nat) {
    j < i < |actions| && actions[i] == Tick(t) && When(actions, i).Pc(t).LoadOver? && When(actions, i).over == over
  }

  /** With action i of this call, the thread loads the optimistic count, or adds to it. */
  predicate LoadsCount(actions: seq<Action>, j: nat, t: Tid, i: nat, count: nat) {
    && j < i < |actions| && actions[i] == Tick(t) && When(actions, i).count == count
    && (When(actions, i).Pc(t).LoadCount? || When(actions, i).Pc(t).Commit?)
  }

  ghost predicate OverLoaded(actions: seq<Action>, j: nat, t: Tid, over: nat) {
    exists i: nat :: LoadsOver(actions, j, t, i, over)
  }

  ghost predicate CountLoaded(actions: seq<Action>, j: nat, t: Tid, count: nat) {
    exists i: nat :: LoadsCount(actions, j, t, i, count)
  }

  /** The queue has been this long at some time since the call. */
  ghost predicate TailWas(actions: seq<Action>, j: nat, tail: nat) {
    exists i: nat :: j <= i <= |actions| && When(actions, i).tail == tail
  }

  predicate Covers(got: nat, tail: nat, over: nat, count: nat) {
    count + got >= tail + over
  }

  /**
   Since the call, the queue had `tail` elements, and all but `got` of them were claimed: that many units, less
   those given back, had been counted by others.
   */
  ghost predicate Claimed(actions: seq<Action>, j: nat, t: Tid, got: nat) {
    exists tail: nat, over: nat, count: nat {:trigger Covers(got, tail, over, count)} ::
      && TailWas(actions, j, tail) && OverLoaded(actions, j, t, over) && CountLoaded(actions, j, t, count)
      && Covers(got, tail, over, count)
  }

  lemma {:induction false} OverStaysLoaded(actions: seq<Action>, j: nat, t: Tid, over: nat, a: Action)
    requires OverLoaded(actions, j, t, over)
    ensures OverLoaded(actions + [a], j, t, over)
  {
    var i: nat :| LoadsOver(actions, j, t, i, over);
    WhenMore(actions, a, i);
    assert LoadsOver(actions + [a], j, t, i, over);
  }

  lemma {:induction false} CountStaysLoaded(actions: seq<Action>, j: nat, t: Tid, count: nat, a: Action)
    requires CountLoaded(actions, j, t, count)
    ensures CountLoaded(actions + [a], j, t, count)
  {
    var i: nat :| LoadsCount(actions, j, t, i, count);
    WhenMore(actions, a, i);
    assert LoadsCount(actions + [a], j, t, i, count);
  }

  lemma {:induction false} TailStaysSeen(actions: seq<Action>, j: nat, tail: nat, a: Action)
    requires TailWas(actions, j, tail)
    ensures TailWas(actions + [a], j, tail)
  {
    var i: nat :| j <= i <= |actions| && When(actions, i).tail == tail;
    WhenMore(actions, a, i);
  }

  lemma {:induction false} StaysClaimed(actions: seq<Action>, j: nat, t: Tid, got: nat, a: Action)
    requires Claimed(actions, j, t, got)
    ensures Claimed(actions + [a], j, t, got)
  {
    var tail: nat, over: nat, count: nat :|
      && TailWas(actions, j, tail) && OverLoaded(actions, j, t, over) && CountLoaded(actions, j, t, count)
      && Covers(got, tail, over, count);
    TailStaysSeen(actions, j, tail, a);
    OverStaysLoaded(actions, j, t, over, a);
    CountStaysLoaded(actions, j, t, count, a);
  }

  /** What the call's local variables say about the time since. */
  ghost predicate CallOk(actions: seq<Action>, j: nat, t: Tid, max: nat, pc: Pc) {
    match pc
    case Idle => true
    case LoadOver(tail, most) => most == max && TailWas(actions, j, tail)
    case LoadCount(tail, over, most) => most == max && TailWas(actions, j, tail) && OverLoaded(actions, j, t, over)
    case Commit(over, desired) =>
      && desired <= max && OverLoaded(actions, j, t, over) && (desired < max ==> Claimed(actions, j, t, desired))
    case Recheck(over, mine, desired) =>
      && desired <= max && OverLoaded(actions, j, t, over) && CountLoaded(actions, j, t, mine)
      && (desired < max ==> Claimed(actions, j, t, desired))
    case GiveBack(_, actual, desired) => actual < desired <= max && Claimed(actions, j, t, actual)
    case Advance(_, actual) => actual <= max && (actual < max ==> Claimed(actions, j, t, actual))
    case Undo(_, _) => Claimed(actions, j, t, 0)
  }

  lemma CallStaysOk(actions: seq<Action>, j: nat, t: Tid, max: nat, pc: Pc, a: Action)
    requires CallOk(actions, j, t, max, pc)
    ensures CallOk(actions + [a], j, t, max, pc)
  {
    match pc {
      case Idle =>
      case LoadOver(tail, _) => TailStaysSeen(actions, j, tail, a);
      case LoadCount(tail, over, _) =>
        TailStaysSeen(actions, j, tail, a);
        OverStaysLoaded(actions, j, t, over, a);
      case Commit(over, desired) =>
        OverStaysLoaded(actions, j, t, over, a);
        if desired < max {
          StaysClaimed(actions, j, t, desired, a);
        }
      case Recheck(over, mine, desired) =>
        OverStaysLoaded(actions, j, t, over, a);
        CountStaysLoaded(actions, j, t, mine, a);
        if desired < max {
          StaysClaimed(actions, j, t, desired, a);
        }
      case GiveBack(_, actual, _) => StaysClaimed(actions, j, t, actual, a);
      case Advance(_, actual) =>
        if actual < max {
          StaysClaimed(actions, j, t, actual, a);
        }
      case Undo(_, _) => StaysClaimed(actions, j, t, 0, a);
    }
  }

  /** What a step hands to t, if it ends the call; no other step hands t anything. */
  function Gets(pc: Pc): nat {
    if pc.Advance? then pc.actual else 0
  }

  lemma {:induction false} HandsOut(s: State, a: Action, t: Tid)
    ensures Times(Apply(s, a).handed, t) == Times(s.handed, t) + if a == Tick(t) then Gets(s.Pc(t)) else 0
  {
    if a.Tick? && s.Pc(a.t).Advance? {
      var u, n := a.t, s.Pc(a.t).actual;
      TimesRepeat(s.handed, u, n, t);
      assert Apply(s, a).handed == s.handed + Repeat(u, n);
    } else {
      assert Apply(s, a).handed == s.handed;
    }
  }

  /** The call goes on, or ends having got all it asked for, or as many as were not claimed. */
  ghost predicate StepOk(all: seq<Action>, j: nat, t: Tid, max: nat, pc: Pc, pc': Pc) {
    if pc'.Idle? then Gets(pc) <= max && (Gets(pc) < max ==> Claimed(all, j, t, Gets(pc)))
    else CallOk(all, j, t, max, pc') && Gets(pc) == 0
  }

  lemma {:induction false} Now(actions: seq<Action>, a: Action)
    ensures When(actions, |actions|) == When(actions + [a], |actions|) == Run(actions)
    ensures Run(actions + [a]) == Apply(Run(actions), a)
  {
    assert actions[..|actions|] == actions && (actions + [a])[..|actions|] == actions;
  }

  lemma OverIsLoaded(actions: seq<Action>, j: nat, t: Tid)
    requires j < |actions| && Run(actions).Pc(t).LoadOver?
    ensures OverLoaded(actions + [Tick(t)], j, t, Run(actions).over)
  {
    Now(actions, Tick(t));
    assert LoadsOver(actions + [Tick(t)], j, t, |actions|, Run(actions).over);
  }

  lemma CountIsLoaded(actions: seq<Action>, j: nat, t: Tid)
    requires j < |actions| && (Run(actions).Pc(t).LoadCount? || Run(actions).Pc(t).Commit?)
    ensures CountLoaded(actions + [Tick(t)], j, t, Run(actions).count)
  {
    Now(actions, Tick(t));
    assert LoadsCount(actions + [Tick(t)], j, t, |actions|, Run(actions).count);
  }

  lemma TailIsSeen(actions: seq<Action>, j: nat, a: Action)
    requires j <= |actions|
    ensures TailWas(actions + [a], j, Run(actions).tail)
  {
    Now(actions, a);
  }

  /** With this much in the queue, all but `got` are claimed. */
  lemma ClaimedBy(all: seq<Action>, j: nat, t: Tid, got: nat, tail: nat, over: nat, count: nat)
    requires TailWas(all, j, tail) && OverLoaded(all, j, t, over) && CountLoaded(all, j, t, count)
    requires count + got >= tail + over
    ensures Claimed(all, j, t, got)
  {
    assert Covers(got, tail, over, count);
  }

  function Least0(x: int): nat {
    if x < 0 then 0 else x
  }

  lemma {:induction false} LoadCountIsOk(actions: seq<Action>, s: State, j: nat, t: Tid, max: nat)
    requires j < |actions| && s == Run(actions) && CallOk(actions, j, t, max, s.Pc(t)) && s.Pc(t).LoadCount?
    ensures StepOk(actions + [Tick(t)], j, t, max, s.Pc(t), TickStep(s, t).Pc(t))
  {
    var all, tail, over := actions + [Tick(t)], s.Pc(t).tail, s.Pc(t).over;
    var got := Least0(tail - (s.count - over));
    TailStaysSeen(actions, j, tail, Tick(t));
    OverStaysLoaded(actions, j, t, over, Tick(t));
    CountIsLoaded(actions, j, t);
    ClaimedBy(all, j, t, got, tail, over, s.count);
  }

  lemma {:induction false} RecheckIsOk(actions: seq<Action>, s: State, j: nat, t: Tid, max: nat)
    requires j < |actions| && s == Run(actions) && CallOk(actions, j, t, max, s.Pc(t)) && s.Pc(t).Recheck?
    ensures StepOk(actions + [Tick(t)], j, t, max, s.Pc(t), TickStep(s, t).Pc(t))
  {
    var all, pc := actions + [Tick(t)], s.Pc(t);
    var got := Least0(s.tail - (pc.mine - pc.over));
    CallStaysOk(actions, j, t, max, pc, Tick(t));
    TailIsSeen(actions, j, Tick(t));
    ClaimedBy(all, j, t, got, s.tail, pc.over, pc.mine);
    RecheckGoesOn(s, t, got);
  }

  lemma RecheckGoesOn(s: State, t: Tid, found: nat)
    requires s.Pc(t).Recheck? && found == Least0(s.tail - (s.Pc(t).mine - s.Pc(t).over))
    ensures var pc, mine := TickStep(s, t).Pc(t), s.Pc(t).mine;
            if found == 0 then pc.Undo?
              else if found < s.Pc(t).desired then pc == GiveBack(mine, found, s.Pc(t).desired)
            else pc == Advance(mine, s.Pc(t).desired)
  {
  }

  lemma StepIsOk(actions: seq<Action>, s: State, j: nat, t: Tid, max: nat)
    requires j < |actions| && s == Run(actions) && CallOk(actions, j, t, max, s.Pc(t)) && !s.Pc(t).Idle?
    ensures StepOk(actions + [Tick(t)], j, t, max, s.Pc(t), TickStep(s, t).Pc(t))
  {
    match s.Pc(t) {
      case LoadCount(_, _, _) => LoadCountIsOk(actions, s, j, t, max);
      case Recheck(_, _, _) => RecheckIsOk(actions, s, j, t, max);
      case _ =>
        CallStaysOk(actions, j, t, max, s.Pc(t), Tick(t));
        if s.Pc(t).LoadOver? {
          OverIsLoaded(actions, j, t);
        } else if s.Pc(t).Commit? {
          CountIsLoaded(actions, j, t);
        }
    }
  }

  lemma CallGoesOn(front: seq<Action>, s: State, j: nat, t: Tid, max: nat, a: Action)
    requires j < |front| && s == Run(front) && CallOk(front, j, t, max, s.Pc(t)) && !s.Pc(t).Idle?
    requires !Apply(s, a).Pc(t).Idle?
    ensures CallOk(front + [a], j, t, max, Apply(s, a).Pc(t)) && (a == Tick(t) ==> Gets(s.Pc(t)) == 0)
  {
    if a == Tick(t) {
      StepIsOk(front, s, j, t, max);
    } else {
      OthersDoNotMove(s, a, t);
      CallStaysOk(front, j, t, max, s.Pc(t), a);
    }
  }

  lemma OthersDoNotMove(s: State, a: Action, t: Tid)
    requires a != Tick(t) && !s.Pc(t).Idle?
    ensures Apply(s, a).Pc(t) == s.Pc(t)
  {
  }

  lemma {:induction false} CallIsOk(actions: seq<Action>, j: nat, t: Tid, max: nat)
    requires InCall(actions, j, t, max)
    ensures CallOk(actions, j, t, max, Run(actions).Pc(t))
    ensures Times(Run(actions).handed, t) == Times(When(actions, j).handed, t)
    decreases |actions|
  {
    var n := |actions| - 1;
    var front, a := actions[..n], actions[n];
    assert actions == front + [a];
    WhenMore(front, a, j);
    Now(front, a);
    HandsOut(Run(front), a, t);
    if j == n {
      TailIsSeen(front, j, a);
    } else {
      StillInCall(front, a, j, t, max);
      CallIsOk(front, j, t, max);
      CallGoesOn(front, Run(front), j, t, max, a);
    }
  }

  lemma {:induction false} StillInCall(front: seq<Action>, a: Action, j: nat, t: Tid, max: nat)
    requires InCall(front + [a], j, t, max) && j < |front|
    ensures InCall(front, j, t, max) && !Run(front).Pc(t).Idle? && !Apply(Run(front), a).Pc(t).Idle?
  {
    forall i | j <= i <= |front| ensures When(front, i) == When(front + [a], i) {
      WhenMore(front, a, i);
    }
    Now(front, a);
    assert (front + [a])[..|front| + 1] == front + [a];
    assert !When(front + [a], |front|).Pc(t).Idle? && !When(front + [a], |front| + 1).Pc(t).Idle?;
  }

  /**
   In every run, whatever the other threads do meanwhile: a dequeue that comes back with fewer elements than it
   asked for has seen a queue in which all the other elements were claimed by others.
   */
  lemma {:induction false} ShortOnlyIfClaimed(actions: seq<Action>, j: nat, t: Tid, max: nat)
    requires InCall(actions, j, t, max) && Run(actions + [Tick(t)]).Pc(t).Idle?
    ensures var got := Times(Run(actions + [Tick(t)]).handed, t) - Times(When(actions, j).handed, t);
            0 <= got <= max && (got < max ==> Claimed(actions + [Tick(t)], j, t, got))
  {
    CallIsOk(actions, j, t, max);
    Now(actions, Tick(t));
    assert !When(actions, |actions|).Pc(t).Idle?;
    StepIsOk(actions, Run(actions), j, t, max);
    HandsOut(Run(actions), Tick(t), t);
  }

  /** How many steps a call has left at most. */
  function Left(pc: Pc): nat {
    match pc
    case Idle => 0
    case LoadOver(_, _) => 6
    case LoadCount(_, _, _) => 5
    case Commit(_, _) => 4
    case Recheck(_, _, _) => 3
    case GiveBack(_, _, _) => 2
    case Advance(_, _) => 1
    case Undo(_, _) => 1
  }

  /** A call ends after at most six steps of its own, whatever the others do: nobody else moves it. */
  lemma EveryCallEnds(s: State, t: Tid, a: Action)
    requires !s.Pc(t).Idle?
    ensures if a == Tick(t) then Left(Apply(s, a).Pc(t)) < Left(s.Pc(t)) <= 6 else Apply(s, a).Pc(t) == s.Pc(t)
  {
  }

  /** What the producer publishes is there for everybody, and moves nobody. */
  lemma EnqueueAdds(actions: seq<Action>, n: nat)
    ensures Run(actions + [Enqueue(n)]) == Run(actions).(tail := Run(actions).tail + n)
  {
    Now(actions, Enqueue(n));
  }
}

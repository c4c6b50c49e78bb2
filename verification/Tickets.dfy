/**
 The ticket queue: tickets are called one at a time, in the order they were taken, when the ticket before
 them is done.  Its records form a doubly linked list that ends in a sentinel.
 */
module Tickets {

  // ------------------------------------------------------------------ the queue as a value

  /** The tickets not yet finished, in order; all that were ever called; and in which order. */
  datatype View<!T> = View(linked: seq<T>, called: set<T>, log: seq<T>)

  predicate IsFirst<T(==)>(l: seq<T>, t: T) {
    l != [] && l[0] == t
  }

  function Call<T>(v: View<T>, t: T): View<T> {
    v.(called := v.called + {t}, log := v.log + [t])
  }

  /** take: the new tickets queue up behind; with nobody in front, the first of them is called. */
  function Taken<T>(v: View<T>, more: seq<T>): View<T> {
    var v1 := v.(linked := v.linked + more);
    if v.linked == [] && more != [] then Call(v1, more[0]) else v1
  }

  function Without<T(==)>(l: seq<T>, t: T): seq<T> {
    if l == [] then [] else if l[0] == t then l[1..] else [l[0]] + Without(l[1..], t)
  }

  /** done: the ticket leaves; if it was the first, the one behind it is called. */
  function Finished<T(==)>(v: View<T>, t: T): View<T> {
    var v1 := v.(linked := Without(v.linked, t));
    if IsFirst(v.linked, t) && |v.linked| > 1 then Call(v1, v.linked[1]) else v1
  }

  /** l' is l without element i. */
  predicate Drops<T(==)>(l: seq<T>, i: nat, l': seq<T>) {
    i < |l| && |l'| == |l| - 1 && forall k :: 0 <= k < |l'| ==> l'[k] == l[if k < i then k else k + 1]
  }

  lemma {:induction false} WithoutAt<T>(l: seq<T>, i: nat)
    requires i < |l| && forall j :: 0 <= j < i ==> l[j] != l[i]
    ensures Drops(l, i, Without(l, l[i]))
  {
    if i > 0 {
      WithoutAt(l[1..], i - 1);
    }
  }

  lemma FinishedDrops<T>(v: View<T>, t: T) returns (i: nat)
    requires t in v.linked && forall j, k :: 0 <= j < k < |v.linked| ==> v.linked[j] != v.linked[k]
    ensures i < |v.linked| && v.linked[i] == t && Drops(v.linked, i, Finished(v, t).linked)
  {
    i :| 0 <= i < |v.linked| && v.linked[i] == t;
    WithoutAt(v.linked, i);
  }

  lemma DropsMembers<T>(l: seq<T>, i: nat, l': seq<T>)
    requires Drops(l, i, l') && forall j, k :: 0 <= j < k < |l| ==> l[j] != l[k]
    ensures forall u :: u in l' <==> u in l && u != l[i]
  {
    forall u | u in l && u != l[i] ensures u in l' {
      var j :| 0 <= j < |l| && l[j] == u;
      assert l'[if j < i then j else j - 1] == u;
    }
    forall u | u in l' ensures u in l && u != l[i] {
      var j :| 0 <= j < |l'| && l'[j] == u;
    }
  }

  lemma DropsDistinct<T>(l: seq<T>, i: nat, l': seq<T>)
    requires Drops(l, i, l') && forall j, k :: 0 <= j < k < |l| ==> l[j] != l[k]
    ensures forall j, k :: 0 <= j < k < |l'| ==> l'[j] != l'[k]
  {
  }

  // ------------------------------------------------------------------ the callbacks

  /** The queue with its callbacks: those kept for a ticket until its call, and those that were run, and for whom. */
  datatype Desk<!T> = Desk(view: View<T>, kept: map<T, seq<nat>>, ran: seq<(T, nat)>)

  function Kept<T(==)>(d: Desk<T>, t: T): seq<nat> {
    if t in d.kept then d.kept[t] else []
  }

  function Tagged<T>(t: T, fs: seq<nat>): seq<(T, nat)> {
    seq(|fs|, i requires 0 <= i < |fs| => (t, fs[i]))
  }

  function Calling<T(==)>(d: Desk<T>, t: T): Desk<T> {
    Desk(Call(d.view, t), d.kept[t := []], d.ran + Tagged(t, Kept(d, t)))
  }

  /** take, with the callbacks of the ticket it calls */
  function Queueing<T(==)>(d: Desk<T>, more: seq<T>): Desk<T> {
    var d1 := d.(view := d.view.(linked := d.view.linked + more));
    if d.view.linked == [] && more != [] then Calling(d1, more[0]) else d1
  }

  /** done, with the callbacks of the ticket it calls */
  function Leaving<T(==)>(d: Desk<T>, t: T): Desk<T> {
    var d1 := d.(view := d.view.(linked := Without(d.view.linked, t)));
    if IsFirst(d.view.linked, t) && |d.view.linked| > 1 then Calling(d1, d.view.linked[1]) else d1
  }

  /** onCall */
  function Asking<T(==)>(d: Desk<T>, t: T, f: nat): Desk<T> {
    if t in d.view.called then d.(ran := d.ran + [(t, f)]) else d.(kept := d.kept[t := Kept(d, t) + [f]])
  }

  datatype Op<!T> = Take(more: seq<T>) | OnCall(ticket: T, f: nat) | Done(ticket: T)

  function Serve<T(==)>(d: Desk<T>, op: Op<T>): Desk<T> {
    match op
    case Take(more) => Queueing(d, more)
    case OnCall(t, f) => Asking(d, t, f)
    case Done(t) => Leaving(d, t)
  }

  function Served<T(==)>(ops: seq<Op<T>>): Desk<T> {
    if ops == [] then Desk(View([], {}, []), map[], []) else Serve(Served(ops[..|ops| - 1]), ops[|ops| - 1])
  }

  /** The callbacks that were asked for on ticket t, in order. */
  function Asked<T(==)>(ops: seq<Op<T>>, t: T): seq<nat> {
    if ops == [] then [] else
    var op := ops[|ops| - 1];
    Asked(ops[..|ops| - 1], t) + if op.OnCall? && op.ticket == t then [op.f] else []
  }

  /** The callbacks that were run for ticket t, in order. */
  function RanFor<T(==)>(ran: seq<(T, nat)>, t: T): seq<nat> {
    if ran == [] then [] else
    RanFor(ran[..|ran| - 1], t) + if ran[|ran| - 1].0 == t then [ran[|ran| - 1].1] else []
  }

  lemma {:induction false} RanMore<T>(ran: seq<(T, nat)>, u: T, fs: seq<nat>, t: T)
    ensures RanFor(ran + Tagged(u, fs), t) == RanFor(ran, t) + if u == t then fs else []
  {
    var all, n := ran + Tagged(u, fs), |fs| - 1;
    if fs == [] {
      assert all == ran;
    } else {
      assert all[..|all| - 1] == ran + Tagged(u, fs[..n]);
      RanMore(ran, u, fs[..n], t);
      assert fs == fs[..n] + [fs[n]];
    }
  }

  /** Of the callbacks asked for on t, those of a called ticket were run, and those of any other are kept. */
  ghost predicate AllOnce<T>(d: Desk<T>, asked: seq<nat>, t: T) {
    if t in d.view.called then RanFor(d.ran, t) == asked && Kept(d, t) == []
    else RanFor(d.ran, t) == [] && Kept(d, t) == asked
  }

  lemma CallingOnce<T>(d: Desk<T>, u: T, asked: seq<nat>, t: T)
    requires AllOnce(d, asked, t)
    ensures AllOnce(Calling(d, u), asked, t)
  {
    RanMore(d.ran, u, Kept(d, u), t);
  }

  lemma ServesOnce<T>(d: Desk<T>, op: Op<T>, asked: seq<nat>, t: T)
    requires AllOnce(d, asked, t)
    ensures AllOnce(Serve(d, op), asked + if op.OnCall? && op.ticket == t then [op.f] else [], t)
  {
    match op {
      case Take(more) =>
        if d.view.linked == [] && more != [] {
          CallingOnce(d.(view := d.view.(linked := d.view.linked + more)), more[0], asked, t);
        }
      case Done(u) =>
        if IsFirst(d.view.linked, u) && |d.view.linked| > 1 {
          CallingOnce(d.(view := d.view.(linked := Without(d.view.linked, u))), d.view.linked[1], asked, t);
        }
      case OnCall(u, f) =>
        RanMore(d.ran, u, [f], t);
        assert Tagged(u, [f]) == [(u, f)];
    }
  }

  /**
   After any sequence of take, onCall and done every callback of a ticket that was called has run exactly once,
   in the order asked for, and none of a ticket that was not.
   */
  lemma {:induction false} CallbacksRunOnce<T>(ops: seq<Op<T>>, t: T)
    ensures AllOnce(Served(ops), Asked(ops, t), t)
  {
    if ops != [] {
      CallbacksRunOnce(ops[..|ops| - 1], t);
      ServesOnce(Served(ops[..|ops| - 1]), ops[|ops| - 1], Asked(ops[..|ops| - 1], t), t);
    }
  }

  // ------------------------------------------------------------------ the linked records

  class Record {
    var next: Record?
    var prev: Record?
    var isCalled: bool
    var isDone: bool
    var onCall: seq<nat>   // the callbacks to run once the ticket is called

    constructor ()
      ensures next == prev == null && !isCalled && !isDone && onCall == []
    {
      next, prev, isCalled, isDone, onCall := null, null, false, false, [];
    }

    method Unlink()
      requires next != this && prev != this
      modifies this`next, this`prev
      modifies (if prev == null then {} else {prev})`next, (if next == null then {} else {next})`prev
      ensures next == prev == null
      ensures old(prev) != null ==> old(prev).next == old(next)
      ensures old(next) != null ==> old(next).prev == old(prev)
    {
      if prev != null {
        prev.next := next;
      }
      if next != null {
        next.prev := prev;
      }
      prev, next := null, null;
    }
  }

  /** Of a list with new records behind it, only the first is called, if it is not new. */
  lemma NoneCalled(l: seq<Record>, more: seq<Record>)
    requires OnlyFirstCalled(l) && forall i :: 0 <= i < |more| ==> !more[i].isCalled
    ensures forall i :: 0 <= i < |l + more| ==> ((l + more)[i].isCalled <==> i == 0 && l != [])
  {
    forall i | 0 <= i < |l + more| ensures (l + more)[i].isCalled <==> i == 0 && l != [] {
      assert (l + more)[i] == if i < |l| then l[i] else more[i - |l|];
    }
  }

  /** Without the first one of the list none is called; without another one the first still is. */
  lemma DropsCalled(l: seq<Record>, i: nat, l': seq<Record>)
    requires OnlyFirstCalled(l) && Drops(l, i, l')
    ensures forall k :: 0 <= k < |l'| ==> (l'[k].isCalled <==> k == 0 && i > 0)
  {
  }

  function Before(l: seq<Record>, i: int): Record? {
    if 0 <= i < |l| then l[i] else null
  }

  function Behind(l: seq<Record>, i: int, tail: Record): Record {
    if 0 <= i < |l| then l[i] else tail
  }

  /** The records of l are linked in order, first to last. */
  ghost predicate Chained(l: seq<Record>, tail: Record)
    reads l`next, l`prev
  {
    && (forall i, j :: 0 <= i < j < |l| ==> l[i] != l[j]) && tail !in l
    && (forall i {:trigger l[i].prev} :: 0 <= i < |l| ==> l[i].prev == Before(l, i - 1))
    && (forall i {:trigger l[i].next} :: 0 <= i < |l| ==> l[i].next == Behind(l, i + 1, tail))
  }

  ghost predicate OnlyFirstCalled(l: seq<Record>)
    reads l`isCalled
  {
    forall i {:trigger l[i].isCalled} :: 0 <= i < |l| ==> (l[i].isCalled <==> i == 0)
  }

  function Untagged(ran: seq<(Record, nat)>): seq<nat> {
    seq(|ran|, i requires 0 <= i < |ran| => ran[i].1)
  }

  /** The records know whether they were called, and keep what is kept for them. */
  ghost predicate KeepsAll(d: Desk<Record>)
    reads d.kept.Keys`isCalled, d.kept.Keys`onCall
  {
    forall r {:trigger r.onCall} {:trigger r.isCalled} :: r in d.kept ==>
      (r.isCalled <==> r in d.view.called) && r.onCall == d.kept[r]
  }

  class Queue {
    const tail: Record
    var scheduled: seq<nat>       // callbacks handed to the scheduler, in order
    ghost var desk: Desk<Record>

    /** The list is in order, each record knows what is kept for it, and nothing is asked of the sentinel. */
    ghost predicate Sound()
      reads this, tail`prev, tail`onCall
      reads desk.view.linked`next, desk.view.linked`prev, desk.kept.Keys`isCalled, desk.kept.Keys`onCall
    {
      && Chained(desk.view.linked, tail) && tail !in desk.kept && tail.onCall == []
      && tail.prev == Before(desk.view.linked, |desk.view.linked| - 1)
      && (forall r :: r in desk.view.linked ==> r in desk.kept)
      && KeepsAll(desk) && scheduled == Untagged(desk.ran)
    }

    /** What the lock protects: besides, the first ticket is called, and no other. */
    ghost predicate Valid()
      reads this, tail`prev, tail`onCall
      reads desk.view.linked`next, desk.view.linked`prev, desk.view.linked`isCalled
      reads desk.kept.Keys`isCalled, desk.kept.Keys`onCall
    {
      Sound() && OnlyFirstCalled(desk.view.linked)
    }

    constructor ()
      ensures Valid() && fresh(tail) && desk == Desk(View([], {}, []), map[], []) && scheduled == []
    {
      tail := new Record();
      scheduled, desk := [], Desk(View([], {}, []), map[], []);
    }

    /** callAndUnlock */
    method CallRecord(r: Record)
      modifies r`isCalled, r`onCall, this`scheduled
      ensures r.isCalled && (if old(r.isCalled) then r.onCall == old(r.onCall) else r.onCall == [])
      ensures scheduled == if old(r.isCalled) then old(scheduled) else old(scheduled) + old(r.onCall)
    {
      if r.isCalled {
        return;
      }
      r.isCalled := true;
      scheduled := scheduled + r.onCall;
      r.onCall := [];
    }

    /** onCall: runs f at once if the ticket was called already. */
    method OnCall(r: Record, f: nat)
      requires Valid() && r in desk.kept
      modifies this`desk, this`scheduled, r`onCall
      ensures Valid() && desk == Asking(old(desk), r, f)
      ensures r.isCalled ==> scheduled == old(scheduled) + [f] && r.onCall == old(r.onCall)
      ensures !r.isCalled ==> scheduled == old(scheduled) && r.onCall == old(r.onCall) + [f]
    {
      desk := Asking(desk, r, f);
      if r.isCalled {
        scheduled := scheduled + [f];
      } else {
        r.onCall := r.onCall + [f];
      }
    }

    /** The unlocked part of take: n new records linked to each other. */
    method Loan(n: nat) returns (more: seq<Record>)
      requires n > 0
      ensures |more| == n && fresh(more) && Chained(more, tail)
      ensures forall i :: 0 <= i < n ==> !more[i].isCalled && !more[i].isDone && more[i].onCall == []
    {
      var first := new Record();
      more := [first];
      var last := first;
      while |more| < n
        invariant 0 < |more| <= n && fresh(more) && last == more[|more| - 1] && tail !in more
        invariant forall i, j :: 0 <= i < j < |more| ==> more[i] != more[j]
        invariant forall i {:trigger more[i].prev} :: 0 <= i < |more| ==> more[i].prev == Before(more, i - 1)
        invariant forall i {:trigger more[i].next} :: 0 <= i < |more| ==> more[i].next == Before(more, i + 1)
        invariant forall i :: 0 <= i < |more| ==> !more[i].isCalled && !more[i].isDone && more[i].onCall == []
      {
        var rec := new Record();
        last.next := rec;
        rec.prev := last;
        last := rec;
        more := more + [rec];
      }
      last.next := tail;
    }

    /** The same, as the queue's history sees it: no callback is kept for the new records. */
    method Borrow(n: nat) returns (more: seq<Record>)
      requires Valid() && n > 0
      modifies this`desk
      ensures Valid() && |more| == n && fresh(more) && Chained(more, tail)
      ensures forall i :: 0 <= i < n ==> !more[i].isCalled && !more[i].isDone && more[i].onCall == []
      ensures desk == old(desk).(kept := old(desk).kept + map r | r in more :: [])
      ensures forall r :: r in more ==> r in desk.kept && r !in desk.view.linked
    {
      more := Loan(n);
      desk := desk.(kept := desk.kept + map r | r in more :: []);
    }

    /** The part of take under the lock: what is left of the batch queues up. */
    method Link(more: seq<Record>)
      requires Valid() && more != [] && Chained(more, tail)
      requires forall r :: r in more ==> r in desk.kept && r !in desk.view.linked && !r.isCalled
      modifies this`desk, this`scheduled, tail`prev, desk.view.linked`next
      modifies more[..1]`prev, more[..1]`isCalled, more[..1]`onCall
      ensures Valid() && desk == Queueing(old(desk), more) && desk.view == Taken(old(desk.view), more)
      ensures scheduled == if old(desk.view.linked) == [] then old(scheduled) + old(more[0].onCall) else old(scheduled)
    {
      assert more[..1] == [more[0]];
      Hook(more);
      if more[0].prev == null {
        CallNext(more[0]);
      }
    }

    method Hook(more: seq<Record>)
      requires Valid() && more != [] && Chained(more, tail)
      requires forall r :: r in more ==> r in desk.kept && r !in desk.view.linked && !r.isCalled
      modifies this`desk, tail`prev, desk.view.linked`next, more[..1]`prev
      ensures var l := old(desk.view.linked);
              && Sound() && desk == old(desk).(view := old(desk.view).(linked := l + more))
              && more[0].prev == Before(l, |l| - 1)
              && forall i :: 0 <= i < |l + more| ==> ((l + more)[i].isCalled <==> i == 0 && l != [])
    {
      ghost var l := desk.view.linked;
      Join(l, more);
      desk := desk.(view := desk.view.(linked := l + more));
      NoneCalled(l, more);
    }

    /** Links the new records in behind the last one. */
    method Join(ghost l: seq<Record>, more: seq<Record>)
      requires Chained(l, tail) && tail.prev == Before(l, |l| - 1)
      requires Chained(more, tail) && more != [] && forall i :: 0 <= i < |more| ==> more[i] !in l
      modifies tail`prev, l`next, more[..1]`prev
      ensures Chained(l + more, tail) && tail.prev == more[|more| - 1]
      ensures more[0].prev == Before(l, |l| - 1)
    {
      var first, last := more[0], more[|more| - 1];
      first.prev := tail.prev;
      tail.prev := last;
      if first.prev != null {
        first.prev.next := first;
      }
      ghost var all := l + more;
      forall i | 0 <= i < |all|
        ensures all[i].prev == Before(all, i - 1) && all[i].next == Behind(all, i + 1, tail)
      {
        if i < |l| {
          assert all[i] == l[i] && old(l[i].next) == Behind(l, i + 1, tail) && old(l[i].prev) == Before(l, i - 1);
        } else {
          var m := i - |l|;
          assert all[i] == more[m] && old(more[m].next) == Behind(more, m + 1, tail) &&
                   old(more[m].prev) == Before(more, m - 1);
        }
      }
    }

    /** done: the exchange of the flag */
    method Exchange(r: Record) returns (was: bool)
      modifies r`isDone
      ensures was == old(r.isDone) && r.isDone
    {
      was := r.isDone;
      r.isDone := true;
    }

    /** done: the part under the lock, for the one caller that found the flag clear */
    method Finish(r: Record)
      requires Valid() && r in desk.view.linked
      modifies this`desk, this`scheduled, tail`prev, desk.view.linked`next, desk.view.linked`prev
      modifies Next(desk.view.linked, r)`isCalled, Next(desk.view.linked, r)`onCall
      ensures Valid() && desk == Leaving(old(desk), r) && desk.view == Finished(old(desk.view), r)
      ensures r.next == r.prev == null
      ensures scheduled == if IsFirst(old(desk.view.linked), r) && |old(desk.view.linked)| > 1
                           then old(scheduled) + old(desk.view.linked[1].onCall) else old(scheduled)
      ensures tail.isCalled <==> old(tail.isCalled) || old(desk.view.linked) == [r]
    {
      ghost var i := FinishedDrops(desk.view, r);
      assert r.prev == Before(desk.view.linked, i as int - 1);
      assert r.next == Behind(desk.view.linked, i + 1, tail);
      var callNext := if r.prev == null && r.next != null then r.next else null;
      Unhook(r, i, Without(desk.view.linked, r));
      if callNext != null {
        CallNext(callNext);
      }
    }

    method Unhook(r: Record, ghost i: nat, ghost l': seq<Record>)
      requires Valid() && i < |desk.view.linked| && desk.view.linked[i] == r && Drops(desk.view.linked, i, l')
      modifies this`desk, tail`prev, desk.view.linked`next, desk.view.linked`prev
      ensures Sound() && r.next == r.prev == null
      ensures desk == old(desk).(view := old(desk.view).(linked := l'))
      ensures forall k :: 0 <= k < |l'| ==> (l'[k].isCalled <==> k == 0 && i > 0)
    {
      ghost var l := desk.view.linked;
      DropsMembers(l, i, l');
      DropsCalled(l, i, l');
      Leave(r, i, l, l');
      Relist(l');
    }

    /** The list is now this one. */
    ghost method Relist(l: seq<Record>)
      requires Chained(l, tail) && tail !in desk.kept && tail.onCall == [] && tail.prev == Before(l, |l| - 1)
      requires (forall r :: r in l ==> r in desk.kept) && KeepsAll(desk) && scheduled == Untagged(desk.ran)
      modifies this`desk
      ensures Sound() && desk == old(desk).(view := old(desk.view).(linked := l))
    {
      desk := desk.(view := desk.view.(linked := l));
    }

    /** What a done on this record may call: the one behind the first record, or else the sentinel. */
    ghost function Next(l: seq<Record>, r: Record): set<Record> {
      if IsFirst(l, r) then {Behind(l, 1, tail)} else {}
    }

    /** Calls the first record of the list, or the sentinel of an empty one. */
    method CallNext(r: Record)
      requires Sound() && (r == tail || (r in desk.kept && !r.isCalled))
      modifies r`isCalled, r`onCall, this`scheduled, this`desk
      ensures Sound()
      ensures desk == if r == tail then old(desk) else Calling(old(desk), r)
      ensures scheduled == old(scheduled) + old(r.onCall) && r.isCalled
    {
      CallRecord(r);
      if r != tail {
        desk := Calling(desk, r);
      }
    }

    method Leave(r: Record, ghost i: nat, ghost l: seq<Record>, ghost l': seq<Record>)
      requires Chained(l, tail) && tail.prev == Before(l, |l| - 1)
      requires i < |l| && l[i] == r && Drops(l, i, l')
      modifies tail`prev, l`next, l`prev
      ensures Chained(l', tail) && tail.prev == Before(l', |l'| - 1)
      ensures r.next == r.prev == null
    {
      Bypass(r, i, l);
      BridgedChain(l, i, l', tail);
      DropsLast(l, i, l');
    }

    method Bypass(r: Record, ghost i: nat, ghost l: seq<Record>)
      requires Chained(l, tail) && tail.prev == Before(l, |l| - 1) && i < |l| && l[i] == r
      modifies tail`prev, l`next, l`prev
      ensures Bridged(l, i, tail) && r.next == r.prev == null
      ensures tail.prev == Before(l, if i + 1 == |l| then i - 1 else |l| - 1)
    {
      assert r.prev == Before(l, i - 1);
      assert r.next == Behind(l, i + 1, tail);
      assert i + 1 < |l| ==> l[i + 1].prev == r;
      assert i > 0 ==> l[i - 1].next == r;
      r.Unlink();
    }
  }

  /** The neighbours of element i point to each other. */
  ghost predicate Bridged(l: seq<Record>, i: nat, tail: Record)
    reads l`next, l`prev
  {
    && (forall o {:trigger l[o].prev} :: 0 <= o < |l| && o != i ==>
        l[o].prev == Before(l, if o == i + 1 then i - 1 else o - 1))
    && (forall o {:trigger l[o].next} :: 0 <= o < |l| && o != i ==>
        l[o].next == Behind(l, if o + 1 == i then i + 1 else o + 1, tail))
  }

  /** Neighbours in the shortened list, as neighbours in the original one. */
  lemma DropsNeighbours(l: seq<Record>, i: nat, l': seq<Record>, tail: Record, k: nat, o: nat)
    requires Drops(l, i, l') && k < |l'| && o == (if k < i then k else k + 1)
    ensures l'[k] == l[o] && Before(l', k - 1) == Before(l, if o == i + 1 then i - 1 else o - 1)
    ensures Behind(l', k + 1, tail) == Behind(l, if o + 1 == i then i + 1 else o + 1, tail)
  {
  }

  lemma DropsLast(l: seq<Record>, i: nat, l': seq<Record>)
    requires Drops(l, i, l')
    ensures Before(l', |l'| - 1) == Before(l, if i + 1 == |l| then i - 1 else |l| - 1)
  {
  }

  lemma BridgedChain(l: seq<Record>, i: nat, l': seq<Record>, tail: Record)
    requires Drops(l, i, l') && Bridged(l, i, tail) && tail !in l && forall j, k :: 0 <= j < k < |l| ==> l[j] != l[k]
    ensures Chained(l', tail)
  {
    DropsDistinct(l, i, l');
    DropsMembers(l, i, l');
    forall k | 0 <= k < |l'| ensures l'[k].prev == Before(l', k - 1) && l'[k].next == Behind(l', k + 1, tail) {
      var o := if k < i then k else k + 1;
      DropsNeighbours(l, i, l', tail, k, o);
      assert l[o].prev == Before(l, if o == i + 1 then i - 1 else o - 1);
    }
  }
}

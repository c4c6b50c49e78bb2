/**
 What goes wrong when done gets the lock for a ticket before its take has linked it, at an end of its batch: in
 every such case there is a way to go on, with nothing else out of order, to a ticket called wrongly or not at all.
 */
module TicketFailures {
  import opened Tickets
  import opened TicketRuns
  import Runs

  // ------------------------------------------------------------------ done before the link

  /** All tickets but t are in the queue or its batch until done has had the lock. */
  ghost predicate DoneExcept(s: State, t: nat) {
    && t in s.flagged && t !in s.finishing
    && forall u: nat {:trigger s.recs[u].place} ::
         u < |s.recs| && u != t ==> (s.recs[u].place.Left? <==> u in s.flagged && u !in s.finishing)
  }

  /**
   Ticket t has been done, but still stands in its batch or in the queue;
   nothing behind it in the queue is called.
   */
  ghost predicate StuckAt(s: State, t: nat) {
    && Represents(s, t) && !s.recs[t].place.Left? && DoneExcept(s, t)
    && (t in s.rank ==> forall u :: u in s.view.called ==> u in s.rank && s.rank[u] <= s.rank[t])
  }

  /** The last ticket that a take under way has handed out, before it points to anything new. */
  ghost predicate IsNewest(s: State, th: nat, t: nat) {
    th in s.batches && BatchOk(s, th, NOBODY) && t == Last(s.batches[th].chain) && s.batches[th].pending == Nil
  }

  /** It does not point to the tail yet, or it is alone and there is no queue. */
  ghost predicate BlocksOthers(s: State, th: nat, t: nat) {
    IsNewest(s, th, t) && (s.batches[th].closed ==> s.view.linked == [] && |s.batches[th].chain| == 1)
  }

  /** done on the last ticket handed out so far finds no next record, and unlinks it from nothing but the one before. */
  lemma EarlyDoneSticks(s: State, t: nat, th: nat)
    requires Inv(s) && t in s.finishing && BlocksOthers(s, th, t)
    ensures StuckAt(Apply(s, Lock(t)), t) && Apply(s, Lock(t)).view == s.view
  {
    EarlyEffect(s, t, th);
    EarlyRepresents(s, Apply(s, Lock(t)), th, t);
  }

  /** A done at an end of its batch changes pointers, and its own flag, and nothing else. */
  ghost predicate OnlyPointers(s: State, s': State, t: nat) {
    && |s'.recs| == |s.recs| && s'.view == s.view && s'.batches == s.batches && s'.rank == s.rank
    && s'.queued == s.queued
    && s'.flagged == s.flagged && s'.finishing == s.finishing - {t}
  }

  lemma EarlyEffect(s: State, t: nat, th: nat)
    requires Inv(s) && t in s.finishing && BlocksOthers(s, th, t)
    ensures var s' := Apply(s, Lock(t));
      && OnlyPointers(s, s', t) && s'.tailPrev == s.tailPrev
      && Joined(s.recs, s'.recs, s.batches[th].chain, |s.batches[th].chain| - 1)
  {
    var c := s.batches[th].chain;
    var i := |c| - 1;
    assert NextOk(s.recs, c, i, After(s.batches[th]), NOBODY) && PrevOk(s.recs, c, i, NOBODY);
    UnlinkJoins(s.recs, c, i, After(s.batches[th]), NOBODY);
    assert Apply(s, Lock(t)).recs == UnlinkRecs(s.recs, t);
  }

  lemma EarlyRepresents(s: State, s': State, th: nat, t: nat)
    requires Represents(s, NOBODY) && BlocksOthers(s, th, t)
    requires OnlyPointers(s, s', t) && s'.tailPrev == s.tailPrev && t in s.flagged
    requires Joined(s.recs, s'.recs, s.batches[th].chain, |s.batches[th].chain| - 1)
    ensures Represents(s', t)
  {
    EarlyQueue(s, s', th, t);
    EarlyBatch(s, s', th, t);
    forall u: nat | u in s'.batches ensures BatchOk(s', u, t) {
      if u != th {
        EarlyOther(s, s', th, t, u);
      }
    }
    forall u: nat | u < |s'.recs| ensures IsThere(s', u) {
      assert IsThere(s, u);
    }
    RankKept(s.recs, s'.recs, s.view, s.rank, s.queued);
  }

  lemma EarlyDoneSticksIn(before: seq<Step>, t: nat, th: nat)
    requires HarmlessFrom(Init(), before) && t in Run(before).finishing && BlocksOthers(Run(before), th, t)
    ensures StuckAt(Apply(Run(before), Lock(t)), t)
  {
    RunInv(before);
    EarlyDoneSticks(Run(before), t, th);
  }

  lemma EarlyBatch(s: State, s': State, th: nat, t: nat)
    requires IsNewest(s, th, t) && (s.batches[th].closed ==> |s.batches[th].chain| == 1)
    requires s'.batches == s.batches && Joined(s.recs, s'.recs, s.batches[th].chain, |s.batches[th].chain| - 1)
    ensures BatchOk(s', th, t)
  {
    var c, after := s.batches[th].chain, After(s.batches[th]);
    forall k: nat | k < |c| ensures NextOk(s'.recs, c, k, after, t) && PrevOk(s'.recs, c, k, t) {
      assert NextOk(s.recs, c, k, after, NOBODY) && PrevOk(s.recs, c, k, NOBODY);
      assert NextOk(s.recs, c, |c| - 1, after, NOBODY);
    }
  }

  lemma EarlyQueue(s: State, s': State, th: nat, t: nat)
    requires Represents(s, NOBODY) && IsNewest(s, th, t)
    requires s'.view == s.view && s'.tailPrev == s.tailPrev
    requires Joined(s.recs, s'.recs, s.batches[th].chain, |s.batches[th].chain| - 1)
    ensures QueueOk(s', t)
  {
    assert BatchOk(s, th, NOBODY);
    var l := s.view.linked;
    assert NextOk(s.recs, s.batches[th].chain, |s.batches[th].chain| - 1, After(s.batches[th]), NOBODY);
    assert t !in l;
    forall k | 0 <= k < |l| ensures SamePointers(s.recs, s'.recs, l[k]) && s'.recs[l[k]].place == Linked {
    }
    ChainKept(s.recs, s'.recs, l, Tail, NOBODY);
    StillChain(s'.recs, l, Tail, t);
  }

  lemma EarlyOther(s: State, s': State, th: nat, t: nat, u: nat)
    requires Represents(s, NOBODY) && IsNewest(s, th, t) && u != th && u in s.batches
    requires s'.batches == s.batches && Joined(s.recs, s'.recs, s.batches[th].chain, |s.batches[th].chain| - 1)
    ensures BatchOk(s', u, t)
  {
    assert BatchOk(s, th, NOBODY) && BatchOk(s, u, NOBODY);
    var l := s.batches[u].chain;
    assert NextOk(s.recs, s.batches[th].chain, |s.batches[th].chain| - 1, After(s.batches[th]), NOBODY);
    forall k | 0 <= k < |l| ensures SamePointers(s.recs, s'.recs, l[k]) && s'.recs[l[k]].place == Taking(u) {
    }
    ChainKept(s.recs, s'.recs, l, After(s.batches[u]), NOBODY);
    StillChain(s'.recs, l, After(s.batches[u]), t);
  }

  /** A chain without the stuck ticket is a chain all the same. */
  lemma StillChain(recs: seq<Rec>, l: seq<nat>, after: Ptr, t: nat)
    requires IsChain(recs, l, after, NOBODY) && t !in l
    ensures IsChain(recs, l, after, t)
  {
    forall k: nat | k < |l| ensures NextOk(recs, l, k, after, t) && PrevOk(recs, l, k, t) {
      assert NextOk(recs, l, k, after, NOBODY) && PrevOk(recs, l, k, NOBODY);
    }
  }

  lemma StaysStuck(s: State, a: Step, t: nat)
    requires StuckAt(s, t) && Harmless(s, a)
    ensures StuckAt(Apply(s, a), t)
  {
    var s' := Apply(s, a);
    match a {
      case Point(th) =>
        PointRepresents(s, th, t);
        PointPlacesStay(s, th);
      case Hand(th) =>
        if th in s.batches {
          assert BatchOk(s, th, t);
        }
        HandRepresents(s, th, t);
        HandOthers(s, th, t);
      case Close(th) => CloseRepresents(s, th, t);
      case Link(th) =>
        if th in s.batches && s.batches[th].closed {
          assert BatchOk(s, th, t);
          LinkHasEffect(s, th, t);
          LinkStaysStuck(s, s', th, t);
        }
      case Exchange(u) => ExchangeStaysStuck(s, u, t);
      case Lock(u) =>
        if u in s.finishing {
          LockStaysStuck(s, u, t);
        }
    }
  }

  lemma LinkStaysStuck(s: State, s': State, th: nat, t: nat)
    requires StuckAt(s, t) && LinkEffect(s, s', th)
    ensures StuckAt(s', t)
  {
    LinkRepresents(s, s', th, t);
    LinkStuckRank(s, s', th, t);
    LinkDone(s, s', th, t);
  }

  lemma LinkDone(s: State, s': State, th: nat, t: nat)
    requires Represents(s, t) && DoneExcept(s, t) && LinkEffect(s, s', th)
    ensures DoneExcept(s', t) && (t < |s.recs| && !s.recs[t].place.Left? ==> !s'.recs[t].place.Left?)
  {
    assert BatchOk(s, th, t);
    forall u: nat | u < |s.recs| ensures s'.recs[u].place.Left? <==> s.recs[u].place.Left? {
    }
  }

  lemma LinkStuckRank(s: State, s': State, th: nat, t: nat)
    requires StuckAt(s, t) && LinkEffect(s, s', th)
    ensures t in s'.rank ==> forall u :: u in s'.view.called ==> u in s'.rank && s'.rank[u] <= s'.rank[t]
  {
    var c := s.batches[th].chain;
    assert BatchOk(s, th, t) && IsThere(s, t);
    LinkedRank(s.recs, s'.recs, s.view, c, s.rank, s.queued);
    if t in c {
      var k :| 0 <= k < |c| && c[k] == t;
      RankedIs(s.rank, c, s.queued);
    }
  }

  lemma ExchangeStaysStuck(s: State, u: nat, t: nat)
    requires StuckAt(s, t)
    ensures StuckAt(Apply(s, Exchange(u)), t)
  {
    var s' := Apply(s, Exchange(u));
    forall th: nat | th in s'.batches ensures BatchOk(s', th, t) {
      assert BatchOk(s, th, t);
    }
    forall v: nat | v < |s'.recs| ensures IsThere(s', v) {
      assert IsThere(s, v);
    }
  }

  lemma LeaveStaysStuck(s: State, s': State, u: nat, i: nat, t: nat)
    requires StuckAt(s, t) && LeaveQueue(s, s', u, i, t) && u in s.finishing
    ensures StuckAt(s', t)
  {
    assert IsThere(s, t);
    LeaveQueueRepresents(s, s', u, i, t);
    CallsSecond(s, s.view.linked, i, Tail, t);
  }

  lemma LockStaysStuck(s: State, u: nat, t: nat)
    requires StuckAt(s, t) && u in s.finishing && Harmless(s, Lock(u))
    ensures StuckAt(Apply(s, Lock(u)), t)
  {
    var s' := Apply(s, Lock(u));
    assert IsThere(s, u);
    match s.recs[u].place {
      case Linked =>
        FinishesLinked(s, u);
        var i := LockLeavesQueue(s, s', u, t);
        LeaveStaysStuck(s, s', u, i, t);
      case Taking(th) =>
        assert BatchOk(s, th, t);
        FinishesInside(s, u, th);
        var i := LockLeavesBatch(s, s', u, th, t);
        LeaveBatchRepresents(s, s', u, th, i, t);
    }
  }

  lemma {:induction false} StuckForGood(s: State, steps: seq<Step>, t: nat)
    requires StuckAt(s, t) && HarmlessFrom(s, steps)
    ensures StuckAt(From(s, steps), t)
  {
    if steps != [] {
      var n := |steps| - 1;
      Runs.AllOkPrefix(Apply, Harmless, s, steps, n);
      StuckForGood(s, steps[..n], t);
      StaysStuck(From(s, steps[..n]), steps[n], t);
    }
  }

  /**
   If done gets the lock for the newest ticket of a take that does not point it to anything yet, or that it has
   pointed to the tail of an empty queue alone, then whatever happens next, no ticket linked behind it is ever called.
   */
  lemma NoneBehindIsCalled(before: seq<Step>, th: nat, t: nat, after: seq<Step>, u: nat)
    requires HarmlessFrom(Init(), before) && t in Run(before).finishing && BlocksOthers(Run(before), th, t)
    requires HarmlessFrom(Apply(Run(before), Lock(t)), after)
    ensures var s := From(Apply(Run(before), Lock(t)), after);
      && t < |s.recs| && !s.recs[t].place.Left?
      && (t in s.rank && u in s.rank && s.rank[t] < s.rank[u] ==> u !in s.view.called)
  {
    EarlyDoneSticksIn(before, t, th);
    StuckForGood(Apply(Run(before), Lock(t)), after, t);
  }

  /** The record that the first ticket of a batch points to: the second, or the one borrowed to be. */
  function Second(b: Batch): Ptr
    requires b.chain != []
  {
    if |b.chain| > 1 then To(b.chain[1]) else b.pending
  }

  /**
   If it gets the lock for the first ticket of a batch, and there is a
   second one, that is called though it is not linked.
   */
  lemma NextIsCalledUnlinked(before: seq<Step>, th: nat, t: nat)
    requires HarmlessFrom(Init(), before) && t in Run(before).finishing && th in Run(before).batches
    requires var b := Run(before).batches[th]; b.chain != [] && t == b.chain[0] && Second(b).To?
    ensures var s := Apply(Run(before), Lock(t));
      var u := Second(Run(before).batches[th]).id;
      u < |s.recs| && !WasLinked(s.recs[u].place) && u !in s.rank && u in s.view.called
  {
    RunInv(before);
    SecondIsCalled(Run(before), th, t);
  }

  lemma SecondIsCalled(s: State, th: nat, t: nat)
    requires Inv(s) && t in s.finishing && th in s.batches
    requires s.batches[th].chain != [] && t == s.batches[th].chain[0] && Second(s.batches[th]).To?
    ensures var s', u := Apply(s, Lock(t)), Second(s.batches[th]).id;
      u < |s'.recs| && !WasLinked(s'.recs[u].place) && u !in s'.rank && u in s'.view.called
  {
    var c := s.batches[th].chain;
    assert BatchOk(s, th, NOBODY);
    assert NextOk(s.recs, c, 0, After(s.batches[th]), NOBODY) && PrevOk(s.recs, c, 0, NOBODY);
    assert CallNext(s.recs[t]) == Second(s.batches[th]);
  }

  /**
   If it gets the lock between the unlocked write to the last ticket and the link, the tail forgets the queue: it
   goes back to the ticket before it in the batch, or to nothing.
   */
  lemma TailIsLost(before: seq<Step>, th: nat, t: nat)
    requires HarmlessFrom(Init(), before) && t in Run(before).finishing && IsNewest(Run(before), th, t)
    requires Run(before).batches[th].closed
    ensures var s, s' := Run(before), Apply(Run(before), Lock(t));
      var c := s.batches[th].chain;
      && s'.view == s.view && s'.tailPrev == (if |c| == 1 then Nil else To(c[|c| - 2]))
      && (QueueOk(s', NOBODY) ==> |c| == 1 && s.view.linked == [])
  {
    RunInv(before);
    TailForgets(Run(before), th, t);
  }

  lemma TailForgets(s: State, th: nat, t: nat)
    requires Inv(s) && t in s.finishing && IsNewest(s, th, t) && s.batches[th].closed
    ensures var s' := Apply(s, Lock(t));
      var c := s.batches[th].chain;
      && s'.view == s.view && s'.tailPrev == (if |c| == 1 then Nil else To(c[|c| - 2]))
      && (QueueOk(s', NOBODY) ==> |c| == 1 && s.view.linked == [])
  {
    var c := s.batches[th].chain;
    assert NextOk(s.recs, c, |c| - 1, Tail, NOBODY) && PrevOk(s.recs, c, |c| - 1, NOBODY);
    UnlinkJoins(s.recs, c, |c| - 1, Tail, NOBODY);
    AtTheEnd(s, t, th);
    LastOnes(s, th);
  }

  lemma LastOnes(s: State, th: nat)
    requires Inv(s) && th in s.batches && BatchOk(s, th, NOBODY)
    ensures var c, l := s.batches[th].chain, s.view.linked; |c| > 1 && l != [] ==> c[|c| - 2] != Last(l)
  {
    var c, l := s.batches[th].chain, s.view.linked;
    assert |c| > 1 ==> s.recs[c[|c| - 2]].place == Taking(th);
    assert l != [] ==> s.recs[Last(l)].place == Linked;
  }

  // ------------------------------------------------------------------ emptying the queue in front of a ticket

  ghost predicate FrontAt(s: State, l: seq<nat>, i: nat, x: nat)
    requires i < |l|
  {
    && l[i] < |s.recs| && l[i] != x && l[i] in s.rank && s.recs[l[i]].place == Linked
    && (l[i] !in s.flagged || l[i] in s.finishing)
    && s.recs[l[i]].prev == (if i == 0 then Nil else To(l[i - 1]))
    && var n := s.recs[l[i]].next;
       if i + 1 < |l| then n == To(l[i + 1]) else n != To(x) && (n.To? ==> n.id !in l)
  }

  /**
   Ticket x waits uncalled, all that wait in front of it are those of l, and they are linked to each other: when
   they are done, nobody calls x.
   */
  ghost predicate Front(s: State, l: seq<nat>, x: nat) {
    && (forall i, j :: 0 <= i < j < |l| ==> l[i] != l[j])
    && (forall i: nat {:trigger FrontAt(s, l, i, x)} :: i < |l| ==> FrontAt(s, l, i, x))
    && Waits(s, x) && x !in s.view.called && (forall v :: v in s.finishing ==> v in s.flagged)
    && (forall v: nat {:trigger Waits(s, v)} :: Waits(s, v) && s.rank[v] < s.rank[x] ==> v in l)
  }

  lemma HarmlessThen(s: State, a: Step, rest: seq<Step>)
    requires Harmless(s, a) && HarmlessFrom(Apply(s, a), rest)
    ensures HarmlessFrom(s, [a] + rest) && From(s, [a] + rest) == From(Apply(s, a), rest)
  {
    Runs.AllOkThen(Apply, Harmless, s, a, rest);
  }

  /** Done for everything in front of x, one by one; then x is the first that waits, and is not called. */
  lemma {:induction false} Drain(s: State, l: seq<nat>, x: nat) returns (steps: seq<Step>)
    requires Front(s, l, x)
    ensures HarmlessFrom(s, steps) && !CallsRight(From(s, steps))
    decreases |l|
  {
    if l == [] {
      steps := [];
      FirstIsUncalled(s, x);
    } else {
      assert FrontAt(s, l, 0, x);
      if l[0] in s.finishing {
        FirstLeaves(s, l, x);
        var rest := Drain(Apply(s, Lock(l[0])), l[1..], x);
        HarmlessThen(s, Lock(l[0]), rest);
        steps := [Lock(l[0])] + rest;
      } else {
        var s1 := Apply(s, Exchange(l[0]));
        FrontFlagged(s, l, x);
        assert FrontAt(s1, l, 0, x);
        FirstLeaves(s1, l, x);
        var rest := Drain(Apply(s1, Lock(l[0])), l[1..], x);
        HarmlessThen(s1, Lock(l[0]), rest);
        HarmlessThen(s, Exchange(l[0]), [Lock(l[0])] + rest);
        steps := [Exchange(l[0])] + ([Lock(l[0])] + rest);
      }
    }
  }

  lemma FirstIsUncalled(s: State, x: nat)
    requires Front(s, [], x)
    ensures !CallsRight(s)
  {
    assert IsFirstWaiting(s, x);
  }

  lemma FrontFlagged(s: State, l: seq<nat>, x: nat)
    requires Front(s, l, x) && l != [] && l[0] !in s.flagged
    ensures Front(Apply(s, Exchange(l[0])), l, x) && l[0] in Apply(s, Exchange(l[0])).finishing
  {
    var s' := Apply(s, Exchange(l[0]));
    assert FrontAt(s, l, 0, x);
    forall i: nat | i < |l| ensures FrontAt(s', l, i, x) {
      assert FrontAt(s, l, i, x);
    }
    forall v: nat | Waits(s', v) && s'.rank[v] < s'.rank[x] ensures v in l {
      assert Waits(s, v);
    }
  }

  lemma FirstLeaves(s: State, l: seq<nat>, x: nat)
    requires Front(s, l, x) && l != [] && l[0] in s.finishing
    ensures Front(Apply(s, Lock(l[0])), l[1..], x) && Harmless(s, Lock(l[0]))
  {
    var s', v := Apply(s, Lock(l[0])), l[0];
    assert FrontAt(s, l, 0, x) && (|l| > 1 ==> FrontAt(s, l, 1, x));
    FirstUnlinked(s, v);
    forall i: nat | i < |l[1..]| ensures FrontAt(s', l[1..], i, x) {
      assert FrontAt(s, l, i + 1, x) && l[i + 1] != v;
    }
    forall u: nat | Waits(s', u) && s'.rank[u] < s'.rank[x] ensures u in l[1..] {
      assert Waits(s, u) && u != v;
    }
  }

  /** What the locked part of done does for a linked ticket with nobody in front of it. */
  lemma FirstUnlinked(s: State, v: nat)
    requires v in s.finishing && v < |s.recs| && s.recs[v].place == Linked && s.recs[v].prev == Nil
    requires s.recs[v].next != To(v)
    ensures var s', n := Apply(s, Lock(v)), s.recs[v].next;
      && |s'.recs| == |s.recs| && s'.rank == s.rank && s'.flagged == s.flagged && s'.finishing == s.finishing - {v}
      && s'.view.called <= s.view.called + (if n.To? then {n.id} else {})
      && forall r: nat {:trigger s'.recs[r]} :: r < |s.recs| && r != v ==>
           s'.recs[r] == if n == To(r) then s.recs[r].(prev := Nil) else s.recs[r]
  {
  }

  // ------------------------------------------------------------------ ways to go on

  lemma HarmlessAppend(s: State, pre: seq<Step>, rest: seq<Step>)
    requires HarmlessFrom(s, pre) && HarmlessFrom(From(s, pre), rest)
    ensures HarmlessFrom(s, pre + rest) && From(s, pre + rest) == From(From(s, pre), rest)
  {
    Runs.AllOkAppend(Apply, Harmless, s, pre, rest);
  }

  lemma ThreeParts(s: State, a: seq<Step>, s': State, b: seq<Step>, s'': State, c: seq<Step>) returns (steps: seq<Step>)
    requires s' == From(s, a) && HarmlessFrom(s, a) && s'' == From(s', b) && HarmlessFrom(s', b) && HarmlessFrom(s'', c)
    ensures HarmlessFrom(s, steps) && From(s, steps) == From(s'', c)
  {
    HarmlessAppend(s', b, c);
    HarmlessAppend(s, a, b + c);
    steps := a + (b + c);
  }

  /** Taking a ticket never gets the lock of a done. */
  lemma NoLocks(s: State, steps: seq<Step>)
    requires forall k :: 0 <= k < |steps| ==> !steps[k].Lock?
    ensures HarmlessFrom(s, steps)
  {
  }

  lemma {:induction false} SomeOther(used: set<nat>) returns (n: nat)
    ensures forall u :: u in used ==> u < n
    decreases |used|
  {
    if used == {} {
      n := 0;
    } else {
      var u :| u in used;
      var m := SomeOther(used - {u});
      n := if m <= u then u + 1 else m;
      assert forall v :: v in used ==> v == u || v in used - {u};
    }
  }

  function TakeOne(other: nat): seq<Step> {
    [Hand(other), Close(other), Link(other)]
  }

  /** What a take of one ticket does, whatever the tail points to. */
  lemma OneTaken(s: State, other: nat)
    requires other !in s.batches && |s.recs| !in s.view.called
    ensures var s', x := From(s, TakeOne(other)), |s.recs|;
      && |s'.recs| == x + 1 && s'.view.linked == s.view.linked + [x] && s'.flagged == s.flagged
      && s'.finishing == s.finishing
      && s'.rank == s.rank[x := s.queued] && s'.queued == s.queued + 1 && s'.batches == s.batches
      && s'.tailPrev == To(x)
      && s'.view.called == (if s.tailPrev == Nil then s.view.called + {x} else s.view.called)
      && s'.recs[x].place == Linked
      && forall r: nat {:trigger s'.recs[r]} :: r < x ==>
           s'.recs[r] == if s.tailPrev == To(r) then s.recs[r].(next := To(x)) else s.recs[r]
  {
    var s2 := Apply(Apply(s, Hand(other)), Close(other));
    OneHanded(s, other);
    OneLinked(s, s2, other);
    Runs.FromThree(Apply, s, Hand(other), Close(other), Link(other));
  }

  /** The state of a take of one ticket before its link. */
  ghost predicate IsHanded(s: State, s': State, other: nat) {
    && s'.recs == s.recs + [Rec(Tail, Nil, Taking(other))] && s'.tailPrev == s.tailPrev && s'.view == s.view
    && s'.batches == s.batches[other := Batch([|s.recs|], Nil, true)]
    && s'.flagged == s.flagged && s'.finishing == s.finishing && s'.rank == s.rank && s'.queued == s.queued
  }

  lemma OneHanded(s: State, other: nat)
    requires other !in s.batches
    ensures IsHanded(s, Apply(Apply(s, Hand(other)), Close(other)), other)
  {
    var x := |s.recs|;
    var s1 := Apply(s, Hand(other));
    assert s1.batches[other] == Batch([x], Nil, false);
    var s2 := Apply(s1, Close(other));
    assert s2.batches[other] == Batch([x], Nil, true) && s2.recs == s.recs + [Rec(Tail, Nil, Taking(other))];
  }

  lemma OneLinked(s: State, s2: State, other: nat)
    requires IsHanded(s, s2, other) && other !in s.batches && |s.recs| !in s.view.called
    ensures var s', x := Apply(s2, Link(other)), |s.recs|;
      && |s'.recs| == x + 1 && s'.view.linked == s.view.linked + [x] && s'.flagged == s.flagged
      && s'.finishing == s.finishing
      && s'.rank == s.rank[x := s.queued] && s'.queued == s.queued + 1 && s'.batches == s.batches
      && s'.tailPrev == To(x)
      && s'.view.called == (if s.tailPrev == Nil then s.view.called + {x} else s.view.called)
      && s'.recs[x].place == Linked
      && forall r: nat {:trigger s'.recs[r]} :: r < x ==>
           s'.recs[r] == if s.tailPrev == To(r) then s.recs[r].(next := To(x)) else s.recs[r]
  {
    var x, s' := |s.recs|, Apply(s2, Link(other));
    assert s'.recs == LinkRecs(s2.recs, s.tailPrev, [x]);
    assert Ranked(s.rank, [x][..0], s.queued) == s.rank;
    assert s'.batches == s.batches;
  }

  /** The end of the batch without a chance to leave. */
  lemma AtTheEnd(s: State, t: nat, th: nat)
    requires Inv(s) && t in s.finishing && th in s.batches && s.batches[th].chain != []
    requires t == s.batches[th].chain[0] || t == Last(s.batches[th].chain)
    ensures t < |s.recs|
    ensures var s' := Apply(s, Lock(t));
      && s'.recs == UnlinkRecs(s.recs, t) && s'.tailPrev == UnlinkTail(s.recs, s.tailPrev, t)
      && s'.view == CallTo(s.view, CallNext(s.recs[t]))
      && |s'.recs| == |s.recs| && s'.batches == s.batches && s'.rank == s.rank && s'.queued == s.queued
      && s'.flagged == s.flagged && s'.finishing == s.finishing - {t}
  {
    assert BatchOk(s, th, NOBODY);
  }

  // ------------------------------------------------------------------ before the last ticket points to anything

  /** In the end the ticket behind the stuck one waits with everything in front of it done, and is not called. */
  lemma BlockedFails(s: State, t: nat, th: nat) returns (steps: seq<Step>)
    requires Inv(s) && t in s.finishing && BlocksOthers(s, th, t)
    ensures HarmlessFrom(Apply(s, Lock(t)), steps) && !CallsRight(From(Apply(s, Lock(t)), steps))
  {
    EarlyDoneSticks(s, t, th);
    AtTheEnd(s, t, th);
    steps := StuckFails(Apply(s, Lock(t)), t, th);
  }

  lemma StuckFails(s: State, t: nat, th: nat) returns (steps: seq<Step>)
    requires StuckAt(s, t) && th in s.batches && s.batches[th].pending == Nil
    requires s.batches[th].chain != [] && t == Last(s.batches[th].chain)
    ensures HarmlessFrom(s, steps) && !CallsRight(From(s, steps))
  {
    var n := SomeOther(s.batches.Keys);
    var s2 := BatchLinked(s, th, t);
    var s3 := TakenBehind(s2, n, t);
    var rest := StuckDrains(s3, t, |s2.recs|);
    steps := ThreeParts(s, [Close(th), Link(th)], s2, TakeOne(n), s3, rest);
  }

  lemma StuckDrains(s: State, t: nat, x: nat) returns (steps: seq<Step>)
    requires StuckAt(s, t) && x !in s.flagged
    requires var l := s.view.linked; |l| >= 2 && l[|l| - 2] == t && l[|l| - 1] == x
    ensures HarmlessFrom(s, steps) && !CallsRight(From(s, steps))
  {
    var f := s.view.linked[..|s.view.linked| - 2];
    assert s.view.linked == f + [t, x];
    StuckFront(s, t, x, f);
    steps := Drain(s, f, x);
  }

  lemma BatchLinked(s: State, th: nat, t: nat) returns (s': State)
    requires StuckAt(s, t) && th in s.batches && s.batches[th].pending == Nil && s.batches[th].chain != []
    ensures s' == From(s, [Close(th), Link(th)]) && StuckAt(s', t) && HarmlessFrom(s, [Close(th), Link(th)])
    ensures s'.view.linked == s.view.linked + s.batches[th].chain && s'.batches == s.batches - {th}
    ensures s'.view.linked != [] && Last(s'.view.linked) == Last(s.batches[th].chain) && s'.flagged == s.flagged
  {
    assert BatchOk(s, th, t);
    CloseRepresents(s, th, t);
    ClosedOrNot(s, th);
    var s1 := Apply(s, Close(th));
    assert BatchOk(s1, th, t);
    LinkHasEffect(s1, th, t);
    s' := Apply(s1, Link(th));
    assert s'.batches == s.batches - {th};
    TwoSteps(s, Close(th), Link(th));
    NoLocks(s, [Close(th), Link(th)]);
    StuckForGood(s, [Close(th), Link(th)], t);
  }

  lemma ClosedOrNot(s: State, th: nat)
    requires th in s.batches && s.batches[th].pending == Nil && s.batches[th].chain != []
    ensures var s' := Apply(s, Close(th));
      && s'.batches == s.batches[th := s.batches[th].(closed := true)] && s'.view == s.view && s'.flagged == s.flagged
  {
  }

  lemma TwoSteps(s: State, a: Step, b: Step)
    ensures From(s, [a, b]) == Apply(Apply(s, a), b)
  {
    Runs.FromThree(Apply, s, a, b, a);
  }

  /** A ticket taken right behind the stuck one. */
  lemma TakenBehind(s: State, other: nat, t: nat) returns (s': State)
    requires StuckAt(s, t) && other !in s.batches && s.view.linked != [] && Last(s.view.linked) == t
    ensures s' == From(s, TakeOne(other)) && HarmlessFrom(s, TakeOne(other)) && StuckAt(s', t)
    ensures var l := s'.view.linked; |l| >= 2 && l[|l| - 2] == t && l[|l| - 1] == |s.recs|
    ensures |s.recs| !in s'.flagged
  {
    s' := From(s, TakeOne(other));
    NewTicket(s, t);
    OneTaken(s, other);
    NoLocks(s, TakeOne(other));
    StuckForGood(s, TakeOne(other), t);
  }

  lemma NewTicket(s: State, t: nat)
    requires StuckAt(s, t)
    ensures |s.recs| !in s.view.called && |s.recs| !in s.flagged
  {
  }

  /** The stuck ticket t and one behind it, x, are the last in the queue, and f is what is in front of them. */
  ghost predicate StuckBetween(s: State, t: nat, x: nat, f: seq<nat>) {
    StuckAt(s, t) && x !in s.flagged && s.view.linked == f + [t, x]
  }

  lemma StuckFront(s: State, t: nat, x: nat, f: seq<nat>)
    requires StuckBetween(s, t, x, f)
    ensures Front(s, f, x)
  {
    forall i: nat | i < |f| ensures FrontAt(s, f, i, x) {
      StuckFrontAt(s, t, x, f, i);
    }
    StuckOrder(s, t, x, f);
    forall v: nat | Waits(s, v) && s.rank[v] < s.rank[x] ensures v in f {
      StuckWaits(s, t, x, f, v);
    }
  }

  lemma StuckFrontAt(s: State, t: nat, x: nat, f: seq<nat>, i: nat)
    requires StuckBetween(s, t, x, f) && i < |f|
    ensures FrontAt(s, f, i, x)
  {
    var l := s.view.linked;
    assert NextOk(s.recs, l, i, Tail, t) && PrevOk(s.recs, l, i, t);
    assert l[i] == f[i] && (i > 0 ==> l[i - 1] == f[i - 1]) && l[i + 1] == if i + 1 < |f| then f[i + 1] else t;
    assert l[|f|] == t && l[|f| + 1] == x && forall k :: 0 <= k < |f| ==> f[k] == l[k];
  }

  lemma StuckOrder(s: State, t: nat, x: nat, f: seq<nat>)
    requires StuckBetween(s, t, x, f)
    ensures Waits(s, x) && x !in s.view.called && (forall v :: v in s.finishing ==> v in s.flagged)
    ensures forall i, j :: 0 <= i < j < |f| ==> f[i] != f[j]
  {
    var l := s.view.linked;
    assert l[|f|] == t && l[|f| + 1] == x && s.rank[t] < s.rank[x];
    assert forall i :: 0 <= i < |f| ==> l[i] == f[i];
  }

  lemma StuckWaits(s: State, t: nat, x: nat, f: seq<nat>, v: nat)
    requires StuckBetween(s, t, x, f) && Waits(s, v) && x in s.rank && s.rank[v] < s.rank[x]
    ensures v in f
  {
    var l := s.view.linked;
    assert IsThere(s, v) && v != t;
    var i :| 0 <= i < |l| && l[i] == v;
    assert l[|f| + 1] == x && (i < |f| ==> f[i] == v);
  }

  // ------------------------------------------------------------------
  // between the write to the last ticket and the link

  /** The queue's tickets are linked to each other and wait. */
  lemma QueueWaits(s: State, i: nat)
    requires Inv(s) && i < |s.view.linked|
    ensures var l, v := s.view.linked, s.view.linked[i];
      && v < |s.recs| && s.recs[v].place == Linked && v in s.rank && s.rank[v] < s.queued
      && (v !in s.flagged || v in s.finishing)
      && s.recs[v].prev == (if i == 0 then Nil else To(l[i - 1]))
      && s.recs[v].next == (if i + 1 < |l| then To(l[i + 1]) else Tail)
  {
    assert NextOk(s.recs, s.view.linked, i, Tail, NOBODY) && PrevOk(s.recs, s.view.linked, i, NOBODY);
  }

  /** Tickets that waited before are those of the queue. */
  lemma WaitedBefore(s: State, v: nat)
    requires Inv(s) && v in s.rank && (v !in s.flagged || v in s.finishing)
    ensures v in s.view.linked
  {
    assert Waits(s, v);
    WaitingAreQueued(s, v);
  }

  /** The last ticket of a closed batch of several: its first ticket will point back into the batch. */
  ghost predicate IsLastOfSeveral(s: State, th: nat, t: nat) {
    IsNewest(s, th, t) && s.batches[th].closed && |s.batches[th].chain| > 1
  }

  /** After the link the batch's first ticket is not called, whatever waits in front of it. */
  lemma FirstIsNotCalled(s: State, t: nat, th: nat)
    requires Inv(s) && t in s.finishing && IsLastOfSeveral(s, th, t)
    ensures var s', c := From(Apply(s, Lock(t)), [Link(th)]), s.batches[th].chain;
      && s'.view.linked == s.view.linked + c && s'.view.called == s.view.called && c[0] !in s.view.called
      && s'.rank == Ranked(s.rank, c, s.queued) && s'.flagged == s.flagged && s'.finishing == s.finishing - {t}
      && |s'.recs| == |s.recs|
      && forall r: nat {:trigger s'.recs[r]} :: r < |s.recs| && r !in c ==> s'.recs[r] == s.recs[r]
  {
    var c := s.batches[th].chain;
    assert BatchOk(s, th, NOBODY);
    AtTheEnd(s, t, th);
    TailForgets(s, th, t);
    UnlinkJoins(s.recs, c, |c| - 1, Tail, NOBODY);
    assert PrevOk(s.recs, c, |c| - 1, NOBODY) && NextOk(s.recs, c, |c| - 1, Tail, NOBODY);
    var s1 := Apply(s, Lock(t));
    LinkedBehind(s1, th, c[|c| - 2]);
    OneStep(s1, Link(th));
  }

  lemma OneStep(s: State, a: Step)
    ensures From(s, [a]) == Apply(s, a)
  {
    Runs.AllOkOne(Apply, Harmless, s, a);
  }

  lemma LinkedBehind(s: State, th: nat, w: nat)
    requires th in s.batches && s.batches[th].chain != [] && s.batches[th].closed && s.tailPrev == To(w)
    requires w in s.batches[th].chain
    ensures var s', c := Apply(s, Link(th)), s.batches[th].chain;
      && s'.view.linked == s.view.linked + c && s'.view.called == s.view.called && |s'.recs| == |s.recs|
      && s'.rank == Ranked(s.rank, c, s.queued) && s'.flagged == s.flagged && s'.finishing == s.finishing
      && forall r: nat {:trigger s'.recs[r]} :: r < |s.recs| && r !in c ==> s'.recs[r] == s.recs[r]
  {
    var s', c := Apply(s, Link(th)), s.batches[th].chain;
    assert s'.recs == LinkRecs(s.recs, s.tailPrev, c);
  }

  /**
   So after a done on the last ticket of several, between that write and the link, the link leaves the batch's
   first ticket uncalled: with an empty queue it is the first in the queue.
   */
  lemma FirstStaysUncalled(before: seq<Step>, th: nat, t: nat)
    requires HarmlessFrom(Init(), before) && t in Run(before).finishing && IsLastOfSeveral(Run(before), th, t)
    ensures var s, s' := Run(before), From(Apply(Run(before), Lock(t)), [Link(th)]);
      var c := s.batches[th].chain;
      && s'.view.linked == s.view.linked + c && c[0] !in s'.view.called && c[0] != t && c[0] !in s.flagged - s.finishing
      && (s.view.linked == [] ==> s'.view.linked[0] == c[0])
  {
    RunInv(before);
    FirstIsNotCalled(Run(before), t, th);
    assert Run(before).recs[Run(before).batches[th].chain[0]].place == Taking(th);
  }

  lemma LastOfSeveralFails(s: State, t: nat, th: nat) returns (steps: seq<Step>)
    requires Inv(s) && t in s.finishing && IsLastOfSeveral(s, th, t)
    ensures HarmlessFrom(Apply(s, Lock(t)), steps) && !CallsRight(From(Apply(s, Lock(t)), steps))
  {
    var s1 := Apply(s, Lock(t));
    FirstIsNotCalled(s, t, th);
    FrontOfBatch(s, From(s1, [Link(th)]), t, th);
    NoLocks(s1, [Link(th)]);
    var rest := Drain(From(s1, [Link(th)]), s.view.linked, s.batches[th].chain[0]);
    HarmlessAppend(s1, [Link(th)], rest);
    steps := [Link(th)] + rest;
  }

  lemma FrontOfBatch(s: State, s': State, t: nat, th: nat)
    requires Inv(s) && t in s.finishing && IsLastOfSeveral(s, th, t)
    requires var c := s.batches[th].chain;
      && s'.view.called == s.view.called && c[0] !in s.view.called
      && s'.rank == Ranked(s.rank, c, s.queued) && s'.flagged == s.flagged && s'.finishing == s.finishing - {t}
      && |s'.recs| == |s.recs|
      && forall r: nat {:trigger s'.recs[r]} :: r < |s.recs| && r !in c ==> s'.recs[r] == s.recs[r]
    ensures Front(s', s.view.linked, s.batches[th].chain[0])
  {
    var c, l := s.batches[th].chain, s.view.linked;
    assert BatchOk(s, th, NOBODY);
    RankedIs(s.rank, c, s.queued);
    RankedBehind(s.rank, c, s.queued);
    forall i: nat | i < |l| ensures FrontAt(s', l, i, c[0]) {
      QueueWaits(s, i);
    }
    forall v: nat | Waits(s', v) && s'.rank[v] < s'.rank[c[0]] ensures v in l {
      assert v in s.rank;
      WaitedBefore(s, v);
    }
    assert s.recs[c[0]].place == Taking(th);
  }

  /** Tickets are numbered from n on. */
  lemma RankedBehind(rank: map<nat, nat>, l: seq<nat>, n: nat)
    requires forall i, j :: 0 <= i < j < |l| ==> l[i] != l[j]
    ensures forall t :: t in l ==> t in Ranked(rank, l, n) && Ranked(rank, l, n)[t] >= n
  {
    RankedIs(rank, l, n);
    forall t | t in l ensures Ranked(rank, l, n)[t] >= n {
      var i :| 0 <= i < |l| && l[i] == t;
    }
  }

  /**
   The only ticket of a closed batch, with a queue in front of it: the next one taken is called while the first one
   in the queue still waits.
   */
  lemma LoneOneOvertaken(s: State, t: nat, th: nat, other: nat)
    requires Inv(s) && t in s.finishing && IsNewest(s, th, t) && s.batches[th].closed
    requires |s.batches[th].chain| == 1 && s.view.linked != [] && other !in s.batches
    ensures var s', x := From(Apply(s, Lock(t)), TakeOne(other)), |s.recs|;
      var first := s.view.linked[0];
      && Waits(s', first) && Waits(s', x) && s'.rank[first] < s'.rank[x]
      && first in s'.view.called && x in s'.view.called
  {
    AtTheEnd(s, t, th);
    TailForgets(s, th, t);
    OneTaken(Apply(s, Lock(t)), other);
    QueueWaits(s, 0);
    assert s.view.linked[0] != t by {
      assert s.recs[t].place == Taking(th);
    }
  }

  lemma DoneLetsOvertake(before: seq<Step>, th: nat, t: nat, other: nat)
    requires HarmlessFrom(Init(), before) && t in Run(before).finishing && IsNewest(Run(before), th, t)
    requires Run(before).batches[th].closed && |Run(before).batches[th].chain| == 1
    requires Run(before).view.linked != [] && other !in Run(before).batches
    ensures var s, s' := Run(before), From(Apply(Run(before), Lock(t)), TakeOne(other));
      var first, x := s.view.linked[0], |s.recs|;
      && Waits(s', first) && Waits(s', x) && s'.rank[first] < s'.rank[x]
      && first in s'.view.called && x in s'.view.called
  {
    RunInv(before);
    LoneOneOvertaken(Run(before), t, th, other);
  }

  lemma LoneOneFails(s: State, t: nat, th: nat) returns (steps: seq<Step>)
    requires Inv(s) && t in s.finishing && IsNewest(s, th, t) && s.batches[th].closed
    requires |s.batches[th].chain| == 1 && s.view.linked != []
    ensures HarmlessFrom(Apply(s, Lock(t)), steps) && !CallsRight(From(Apply(s, Lock(t)), steps))
  {
    var n := SomeOther(s.batches.Keys);
    steps := TakeOne(n);
    LoneOneOvertaken(s, t, th, n);
    NoLocks(Apply(s, Lock(t)), steps);
    assert !IsFirstWaiting(From(Apply(s, Lock(t)), steps), |s.recs|);
  }

  // ------------------------------------------------------------------ between the two writes of a hand-out

  /** The last ticket of a batch of several points to a borrowed record that does not point back yet. */
  ghost predicate IsInWindow(s: State, th: nat, t: nat) {
    && th in s.batches && BatchOk(s, th, NOBODY) && |s.batches[th].chain| > 1
    && t == Last(s.batches[th].chain) && s.batches[th].pending.To?
  }

  /** How the records look, but for t, the one that was done, and u, the next one, once take has linked the batch. */
  ghost predicate Shifted(recs: seq<Rec>, recs': seq<Rec>, l: seq<nat>, c: seq<nat>, u: nat)
    requires |c| > 1
  {
    && |recs| <= |recs'|
    && forall r: nat {:trigger recs'[r]} :: r < |recs| && r != Last(c) && r != u ==>
         recs'[r] == Rec(if r == c[|c| - 2] then To(u) else if l != [] && r == Last(l) then To(c[0]) else recs[r].next,
                         if r != c[0] then recs[r].prev else if l == [] then Nil else To(Last(l)),
                         if r in c then Linked else recs[r].place)
  }

  /** The done joins its neighbours; then take overwrites the pointer of the next one with what it knows. */
  lemma WindowHanded(s: State, t: nat, th: nat) returns (s3: State)
    requires Inv(s) && t in s.finishing && IsInWindow(s, th, t)
    ensures HandedOver(s, s3, th, s.batches[th].chain, s.batches[th].pending.id)
    ensures s3 == From(Apply(s, Lock(t)), [Hand(th), Close(th)])
    ensures s3.flagged == s.flagged && s3.finishing == s.finishing - {t}
  {
    var c, u := s.batches[th].chain, s.batches[th].pending.id;
    assert NextOk(s.recs, c, |c| - 1, To(u), NOBODY) && PrevOk(s.recs, c, |c| - 1, NOBODY);
    AtTheEnd(s, t, th);
    var s1 := Apply(s, Lock(t));
    JoinedInWindow(s.recs, c, u);
    assert s.recs[u] == Rec(Nil, Nil, Borrowed(th)) && u !in c;
    PointsBack(s1, th);
    s3 := Apply(Apply(s1, Hand(th)), Close(th));
    TwoSteps(s1, Hand(th), Close(th));
  }

  lemma JoinedInWindow(recs: seq<Rec>, c: seq<nat>, u: nat)
    requires IsChain(recs, c, To(u), NOBODY) && |c| > 1 && u < |recs| && u !in c
    ensures var recs', t, w := UnlinkRecs(recs, Last(c)), Last(c), c[|c| - 2];
      && forall r: nat {:trigger recs'[r]} :: r < |recs| && r != t ==>
           recs'[r] == if r == w then recs[r].(next := To(u)) else if r == u then recs[r].(prev := To(w)) else recs[r]
    ensures forall tailPrev :: UnlinkTail(recs, tailPrev, Last(c)) == tailPrev
  {
    assert NextOk(recs, c, |c| - 1, To(u), NOBODY) && PrevOk(recs, c, |c| - 1, NOBODY);
  }

  /** Handing out the borrowed record, and pointing it to the tail, whatever the batch's pointers are. */
  lemma PointsBack(s: State, th: nat)
    requires th in s.batches && s.batches[th].chain != [] && !s.batches[th].closed
    requires s.batches[th].pending.To? && s.batches[th].pending.id < |s.recs|
    ensures var s', b := Apply(Apply(s, Hand(th)), Close(th)), s.batches[th];
      && s'.recs == s.recs[b.pending.id := Rec(Tail, To(Last(b.chain)), Taking(th))]
      && s'.batches == s.batches[th := Batch(b.chain + [b.pending.id], Nil, true)]
      && s'.tailPrev == s.tailPrev && s'.view == s.view && s'.rank == s.rank && s'.queued == s.queued
      && s'.flagged == s.flagged && s'.finishing == s.finishing
  {
    var b := s.batches[th];
    var s1 := Apply(s, Hand(th));
    assert s1.batches[th] == Batch(b.chain + [b.pending.id], Nil, false) &&
             Last(b.chain + [b.pending.id]) == b.pending.id;
  }

  /** What take leaves behind once it has handed out the borrowed record u. */
  ghost predicate HandedOver(s: State, s3: State, th: nat, c: seq<nat>, u: nat)
    requires |c| > 1
  {
    && s3.tailPrev == s.tailPrev && s3.view == s.view && s3.batches == s.batches[th := Batch(c + [u], Nil, true)]
    && s3.rank == s.rank && s3.queued == s.queued
    && |s3.recs| == |s.recs| && u < |s.recs| && s3.recs[u] == Rec(Tail, To(Last(c)), Taking(th))
    && forall r: nat {:trigger s3.recs[r]} :: r < |s.recs| && r != Last(c) && r != u ==>
         s3.recs[r] == if r == c[|c| - 2] then s.recs[r].(next := To(u)) else s.recs[r]
  }

  ghost predicate ApartFrom(s: State, c: seq<nat>, u: nat)
    requires |c| > 1
  {
    var l := s.view.linked;
    && u < |s.recs| && u !in c && u !in l && Last(c) !in l && c[0] != Last(c) && (l != [] ==> Last(l) != c[|c| - 2])
    && s.tailPrev == (if l == [] then Nil else To(Last(l)))
  }

  /** The state after the link of that batch. */
  ghost predicate LinkedOver(s: State, s4: State, th: nat, c: seq<nat>, u: nat)
    requires |c| > 1
  {
    && s4.rank == Ranked(s.rank, c + [u], s.queued) && s4.queued == s.queued + |c| + 1 && s4.batches == s.batches - {th}
    && s4.tailPrev == To(u)
    && s4.view.called <= s.view.called + {c[0]}
    && u < |s4.recs| == |s.recs| && s4.recs[u] == Rec(Tail, To(Last(c)), Linked)
    && Shifted(s.recs, s4.recs, s.view.linked, c, u)
  }

  lemma WindowLinked(s: State, s3: State, th: nat, c: seq<nat>, u: nat)
    requires |c| > 1 && HandedOver(s, s3, th, c, u) && ApartFrom(s, c, u) && th in s.batches
    ensures var s4 := Apply(s3, Link(th));
            LinkedOver(s, s4, th, c, u) && s4.flagged == s3.flagged && s4.finishing == s3.finishing
  {
    LinkInWindow(s.recs, s3.recs, s.view.linked, s.tailPrev, c, u);
    LinkFields(s3, th, c + [u]);
    assert (c + [u])[0] == c[0];
  }

  /** Done for u: it goes by the stale pointer to t, which the tail points to from then on. */
  lemma StaleDone(s: State, s4: State, th: nat, c: seq<nat>, u: nat)
    requires |c| > 1 && LinkedOver(s, s4, th, c, u) && ApartFrom(s, c, u) && u !in s4.flagged && Last(c) < |s.recs|
    ensures var s6 := From(s4, [Exchange(u), Lock(u)]);
      && HarmlessFrom(s4, [Exchange(u), Lock(u)])
      && s6.rank == s4.rank && s6.queued == s4.queued && s6.batches == s4.batches && s6.view.called == s4.view.called
      && s6.tailPrev == To(Last(c)) && s6.flagged == s4.flagged + {u} && s6.finishing == s4.finishing - {u}
      && |s6.recs| == |s.recs| && Shifted(s.recs, s6.recs, s.view.linked, c, u)
  {
    var s5 := Apply(s4, Exchange(u));
    StaleUnlinked(s5, u, Last(c));
    var s6 := Apply(s5, Lock(u));
    TwoSteps(s4, Exchange(u), Lock(u));
    OneStep(s5, Lock(u));
    Runs.AllOkOne(Apply, Harmless, s5, Lock(u));
    Runs.AllOkThen(Apply, Harmless, s4, Exchange(u), [Lock(u)]);
    assert [Exchange(u)] + [Lock(u)] == [Exchange(u), Lock(u)];
  }

  lemma StaleUnlinked(s: State, u: nat, t: nat)
    requires u in s.finishing && u < |s.recs| && t < |s.recs| && t != u && s.recs[u] == Rec(Tail, To(t), Linked)
    ensures var s' := Apply(s, Lock(u));
      && |s'.recs| == |s.recs| && s'.rank == s.rank && s'.queued == s.queued && s'.flagged == s.flagged
      && s'.finishing == s.finishing - {u} && s'.batches == s.batches && s'.tailPrev == To(t)
      && s'.view.called == s.view.called
      && forall r: nat {:trigger s'.recs[r]} :: r < |s.recs| && r != t && r != u ==> s'.recs[r] == s.recs[r]
  {
  }

  lemma LinkFields(s: State, th: nat, c: seq<nat>)
    requires th in s.batches && s.batches[th] == Batch(c, Nil, true) && c != []
    ensures var s' := Apply(s, Link(th));
      && s'.recs == LinkRecs(s.recs, s.tailPrev, c) && s'.tailPrev == To(Last(c)) && s'.batches == s.batches - {th}
      && s'.flagged == s.flagged && s'.finishing == s.finishing && s'.rank == Ranked(s.rank, c, s.queued)
      && s'.queued == s.queued + |c| && s'.view.linked == s.view.linked + c && s'.view.called <= s.view.called + {c[0]}
      && s'.view == (var v := s.view.(linked := s.view.linked + c);
                     if s.tailPrev == Nil then CallTo(v, To(c[0])) else v)
  {
  }

  lemma WindowApart(s: State, t: nat, th: nat)
    requires Inv(s) && IsInWindow(s, th, t)
    ensures ApartFrom(s, s.batches[th].chain, s.batches[th].pending.id)
  {
    var l, c := s.view.linked, s.batches[th].chain;
    assert forall i :: 0 <= i < |c| ==> s.recs[c[i]].place == Taking(th);
    assert forall i :: 0 <= i < |l| ==> s.recs[l[i]].place == Linked;
  }

  lemma LinkInWindow(recs: seq<Rec>, recs3: seq<Rec>, l: seq<nat>, tailPrev: Ptr, c: seq<nat>, u: nat)
    requires |c| > 1 && |recs3| == |recs| && u < |recs| && u !in c && u !in l && Last(c) !in l && c[0] != Last(c)
    requires tailPrev == if l == [] then Nil else To(Last(l))
    requires recs3[u].next == Tail && recs3[u].prev == To(Last(c)) && (l != [] ==> Last(l) != c[|c| - 2])
    requires forall r: nat {:trigger recs3[r]} :: r < |recs| && r != Last(c) && r != u ==>
      recs3[r] == if r == c[|c| - 2] then recs[r].(next := To(u)) else recs[r]
    ensures var recs4 := LinkRecs(recs3, tailPrev, c + [u]);
      Shifted(recs, recs4, l, c, u) && recs4[u] == Rec(Tail, To(Last(c)), Linked)
  {
    var recs4 := LinkRecs(recs3, tailPrev, c + [u]);
    assert u in c + [u];
  }

  /** The pointers in front of the last ticket, once the batch is linked. */
  lemma ShiftedFront(s: State, s': State, t: nat, th: nat, i: nat, x: nat)
    requires Inv(s) && t in s.finishing && IsInWindow(s, th, t) && x == |s.recs|
    requires var c, u := s.batches[th].chain, s.batches[th].pending.id;
      && Shifted(s.recs, s'.recs, s.view.linked, c, u) && s'.flagged == s.flagged + {u}
      && s'.finishing == s.finishing - {t}
      && (forall v :: v in s.rank || v in c ==> v in s'.rank)
      && i < |s.view.linked + c[..|c| - 1]|
    ensures FrontAt(s', s.view.linked + s.batches[th].chain[..|s.batches[th].chain| - 1], i, x)
  {
    var l, c, u := s.view.linked, s.batches[th].chain, s.batches[th].pending.id;
    WindowApart(s, t, th);
    if i < |l| {
      QueueWaits(s, i);
      QueueShifted(s, s', t, th, i, x);
    } else {
      BatchShifted(s, s', t, th, i - |l|, x);
    }
  }

  lemma QueueShifted(s: State, s': State, t: nat, th: nat, i: nat, x: nat)
    requires Inv(s) && t in s.finishing && IsInWindow(s, th, t) && x == |s.recs|
    requires var c, u := s.batches[th].chain, s.batches[th].pending.id;
      && Shifted(s.recs, s'.recs, s.view.linked, c, u) && s'.flagged == s.flagged + {u}
      && s'.finishing == s.finishing - {t}
      && (forall v :: v in s.rank || v in c ==> v in s'.rank)
      && i < |s.view.linked|
    ensures FrontAt(s', s.view.linked + s.batches[th].chain[..|s.batches[th].chain| - 1], i, x)
  {
    var l, c, u := s.view.linked, s.batches[th].chain, s.batches[th].pending.id;
    var f := l + c[..|c| - 1];
    WindowApart(s, t, th);
    QueueWaits(s, i);
    assert f[i] == l[i] && (i > 0 ==> f[i - 1] == l[i - 1]);
    assert f[i + 1] == if i + 1 < |l| then l[i + 1] else c[0];
    assert l[i] !in c && l[i] != u by {
      assert forall k :: 0 <= k < |c| ==> s.recs[c[k]].place == Taking(th);
    }
  }

  lemma BatchShifted(s: State, s': State, t: nat, th: nat, k: nat, x: nat)
    requires Inv(s) && t in s.finishing && IsInWindow(s, th, t) && x == |s.recs|
    requires var c, u := s.batches[th].chain, s.batches[th].pending.id;
      && Shifted(s.recs, s'.recs, s.view.linked, c, u) && s'.flagged == s.flagged + {u}
      && s'.finishing == s.finishing - {t}
      && (forall v :: v in s.rank || v in c ==> v in s'.rank)
      && k < |c| - 1
    ensures var l := s.view.linked;
      FrontAt(s', l + s.batches[th].chain[..|s.batches[th].chain| - 1], |l| + k, x)
  {
    var l, c, u := s.view.linked, s.batches[th].chain, s.batches[th].pending.id;
    WindowApart(s, t, th);
    BatchWaits(s, t, th, k);
    WithoutLast(l, c, k);
    assert u !in l + c[..|c| - 1];
  }

  /** Neighbours in the queue with all of a batch but its last ticket behind it. */
  lemma WithoutLast(l: seq<nat>, c: seq<nat>, k: nat)
    requires k < |c| - 1
    ensures var f := l + c[..|c| - 1];
      && f[|l| + k] == c[k] && (k > 0 ==> f[|l| + k - 1] == c[k - 1])
      && (k + 1 < |c| - 1 ==> f[|l| + k + 1] == c[k + 1])
      && (k == 0 && l != [] ==> f[|l| - 1] == Last(l))
  {
    JoinedLists(l, c[..|c| - 1], k);
  }

  lemma JoinedLists(l: seq<nat>, c: seq<nat>, k: nat)
    requires k < |c|
    ensures var f := l + c;
      && f[|l| + k] == c[k] && (k > 0 ==> f[|l| + k - 1] == c[k - 1]) && (k + 1 < |c| ==> f[|l| + k + 1] == c[k + 1])
      && (k == 0 && l != [] ==> f[|l| - 1] == Last(l))
  {
  }

  lemma BatchWaits(s: State, t: nat, th: nat, k: nat)
    requires Inv(s) && t in s.finishing && IsInWindow(s, th, t) && k < |s.batches[th].chain| - 1
    ensures var c, u := s.batches[th].chain, s.batches[th].pending.id;
      && c[k] < |s.recs| && c[k] != t && c[k] != u && c[k] !in s.view.linked
      && (c[k] !in s.flagged || c[k] in s.finishing) && (k > 0 ==> c[k] != c[0])
      && (k + 1 < |c| - 1 ==> c[k] != c[|c| - 2])
      && s.recs[c[k]].prev == (if k == 0 then Nil else To(c[k - 1])) && s.recs[c[k]].next == To(c[k + 1])
  {
    var c := s.batches[th].chain;
    assert NextOk(s.recs, c, k, After(s.batches[th]), NOBODY) && PrevOk(s.recs, c, k, NOBODY);
    assert s.recs[c[k]].place == Taking(th);
  }

  /** What those steps lead to: x waits behind t, which has left, and the tail points to x. */
  ghost predicate WindowEnd(s: State, s': State, t: nat, c: seq<nat>, u: nat, x: nat)
    requires |c| > 1
  {
    && Shifted(s.recs, s'.recs, s.view.linked, c, u) && s'.flagged == s.flagged + {u}
    && s'.finishing == s.finishing - {t}
    && s'.rank == Ranked(s.rank, c + [u], s.queued)[x := s.queued + |c| + 1]
    && s'.view.called <= s.view.called + {c[0]} && s'.tailPrev == To(x)
  }

  lemma WindowFront(s: State, s': State, t: nat, th: nat, x: nat)
    requires Inv(s) && t in s.finishing && IsInWindow(s, th, t) && x == |s.recs|
    requires WindowEnd(s, s', t, s.batches[th].chain, s.batches[th].pending.id, x)
    ensures Front(s', s.view.linked + s.batches[th].chain[..|s.batches[th].chain| - 1], x)
  {
    var c, u := s.batches[th].chain, s.batches[th].pending.id;
    var f := s.view.linked + c[..|c| - 1];
    WindowRanks(s, s', t, th, x);
    WindowFacts(s, t, th);
    forall i: nat | i < |f| ensures FrontAt(s', f, i, x) {
      ShiftedFront(s, s', t, th, i, x);
    }
    FrontDistinct(s, t, th);
    forall v: nat | Waits(s', v) && s'.rank[v] < s'.rank[x] ensures v in f {
      WindowWaits(s, s', t, th, x, v);
    }
  }

  lemma WindowFacts(s: State, t: nat, th: nat)
    requires Inv(s) && t in s.finishing && IsInWindow(s, th, t)
    ensures var c := s.batches[th].chain;
      && c[0] < |s.recs| && |s.recs| !in s.view.called && |s.recs| !in s.flagged
      && (forall v :: v in s.finishing ==> v in s.flagged)
      && s.batches[th].pending.id !in s.flagged && s.batches[th].pending.id !in s.finishing
  {
    WindowApart(s, t, th);
  }

  lemma WindowRanks(s: State, s': State, t: nat, th: nat, x: nat)
    requires Inv(s) && t in s.finishing && IsInWindow(s, th, t) && x == |s.recs|
    requires WindowEnd(s, s', t, s.batches[th].chain, s.batches[th].pending.id, x)
    ensures var c, u := s.batches[th].chain, s.batches[th].pending.id;
      && (forall v :: v in s.rank || v in c ==> v in s'.rank) && x in s'.rank
      && (forall v :: v in s'.rank && v != x ==> v in s.rank || v in c || v == u)
  {
    var c, u := s.batches[th].chain, s.batches[th].pending.id;
    WindowApart(s, t, th);
    assert forall i, j :: 0 <= i < j < |c + [u]| ==> (c + [u])[i] != (c + [u])[j];
    RankedIs(s.rank, c + [u], s.queued);
    forall v | v in c ensures v in c + [u] {
    }
    forall v | v in c + [u] ensures v in c || v == u {
    }
  }

  lemma WindowWaits(s: State, s': State, t: nat, th: nat, x: nat, v: nat)
    requires Inv(s) && t in s.finishing && IsInWindow(s, th, t) && x == |s.recs|
    requires WindowEnd(s, s', t, s.batches[th].chain, s.batches[th].pending.id, x) && Waits(s', v) && v != x
    ensures v in s.view.linked + s.batches[th].chain[..|s.batches[th].chain| - 1]
  {
    var c := s.batches[th].chain;
    WindowRanks(s, s', t, th, x);
    if v in s.rank {
      WaitedBefore(s, v);
    } else {
      var i :| 0 <= i < |c| && c[i] == v;
      assert v == c[..|c| - 1][i];
    }
  }

  lemma FrontDistinct(s: State, t: nat, th: nat)
    requires Inv(s) && IsInWindow(s, th, t)
    ensures var c := s.batches[th].chain;
      var f := s.view.linked + c[..|c| - 1];
      forall i, j :: 0 <= i < j < |f| ==> f[i] != f[j]
  {
    var c := s.batches[th].chain;
    assert forall i :: 0 <= i < |c| ==> s.recs[c[i]].place == Taking(th);
    assert forall i :: 0 <= i < |s.view.linked| ==> s.recs[s.view.linked[i]].place == Linked;
  }

  lemma WindowFails(s: State, t: nat, th: nat) returns (steps: seq<Step>)
    requires Inv(s) && t in s.finishing && IsInWindow(s, th, t)
    ensures HarmlessFrom(Apply(s, Lock(t)), steps) && !CallsRight(From(Apply(s, Lock(t)), steps))
  {
    var s1, c, u := Apply(s, Lock(t)), s.batches[th].chain, s.batches[th].pending.id;
    var n := SomeOther(s.batches.Keys);
    var pre := [Hand(th), Close(th)] + ([Link(th)] + ([Exchange(u), Lock(u)] + TakeOne(n)));
    var s9 := WindowGoesOn(s, t, th, n, pre);
    WindowFront(s, s9, t, th, |s.recs|);
    var rest := Drain(s9, s.view.linked + c[..|c| - 1], |s.recs|);
    HarmlessAppend(s1, pre, rest);
    steps := pre + rest;
  }

  /**
   The steps after such a done: the next ticket is handed out, linked and done, and another one is taken.  That
   one waits behind a ticket that has left.
   */
  lemma WindowGoesOn(s: State, t: nat, th: nat, n: nat, pre: seq<Step>) returns (s9: State)
    requires Inv(s) && t in s.finishing && IsInWindow(s, th, t) && n !in s.batches
    requires var u := s.batches[th].pending.id;
      pre == [Hand(th), Close(th)] + ([Link(th)] + ([Exchange(u), Lock(u)] + TakeOne(n)))
    ensures s9 == From(Apply(s, Lock(t)), pre) && HarmlessFrom(Apply(s, Lock(t)), pre)
    ensures WindowEnd(s, s9, t, s.batches[th].chain, s.batches[th].pending.id, |s.recs|)
  {
    WindowApart(s, t, th);
    WindowFacts(s, t, th);
    var s3 := WindowHanded(s, t, th);
    var c, u := s.batches[th].chain, s.batches[th].pending.id;
    s9 := HandedGoesOn(s, Apply(s, Lock(t)), s3, t, th, c, u, n, [Exchange(u), Lock(u)] + TakeOne(n), pre);
  }

  lemma HandedGoesOn(s: State, s1: State, s3: State, t: nat, th: nat, c: seq<nat>, u: nat, n: nat, rest: seq<Step>,
                     pre: seq<Step>)
    returns (s9: State)
    requires rest == [Exchange(u), Lock(u)] + TakeOne(n) && pre == [Hand(th), Close(th)] + ([Link(th)] + rest)
    requires |c| > 1 && ApartFrom(s, c, u) && HandedOver(s, s3, th, c, u) && th in s.batches && n !in s.batches
    requires t == Last(c) && t < |s.recs| && c[0] < |s.recs| && |s.recs| !in s.view.called
    requires s3 == From(s1, [Hand(th), Close(th)]) && s3.flagged == s.flagged && s3.finishing == s.finishing - {t}
    requires u !in s.flagged && u !in s.finishing
    ensures s9 == From(s1, pre) && HarmlessFrom(s1, pre)
    ensures WindowEnd(s, s9, t, c, u, |s.recs|)
  {
    WindowLinked(s, s3, th, c, u);
    s9 := StaleTaken(s, Apply(s3, Link(th)), th, c, u, n, rest);
    FiveParts(s1, s3, th, rest, pre);
    EndReached(s, Apply(s3, Link(th)), s9, t, th, c, u);
  }

  lemma EndReached(s: State, s4: State, s9: State, t: nat, th: nat, c: seq<nat>, u: nat)
    requires |c| > 1 && LinkedOver(s, s4, th, c, u)
    requires s4.flagged == s.flagged && s4.finishing == s.finishing - {t}
    requires Shifted(s.recs, s9.recs, s.view.linked, c, u) && s9.flagged == s4.flagged + {u}
    requires s9.finishing == s4.finishing
    requires s9.rank == s4.rank[|s.recs| := s4.queued] && s9.view.called == s4.view.called
    requires s9.tailPrev == To(|s.recs|)
    ensures WindowEnd(s, s9, t, c, u, |s.recs|)
  {
  }

  lemma FiveParts(s1: State, s3: State, th: nat, rest: seq<Step>, pre: seq<Step>)
    requires pre == [Hand(th), Close(th)] + ([Link(th)] + rest)
    requires s3 == From(s1, [Hand(th), Close(th)]) && HarmlessFrom(Apply(s3, Link(th)), rest)
    ensures HarmlessFrom(s1, pre) && From(s1, pre) == From(Apply(s3, Link(th)), rest)
  {
    OneStep(s3, Link(th));
    NoLocks(s1, [Hand(th), Close(th)]);
    NoLocks(s3, [Link(th)]);
    HarmlessAppend(s3, [Link(th)], rest);
    HarmlessAppend(s1, [Hand(th), Close(th)], [Link(th)] + rest);
  }

  lemma StaleTaken(s: State, s4: State, th: nat, c: seq<nat>, u: nat, n: nat, rest: seq<Step>) returns (s9: State)
    requires rest == [Exchange(u), Lock(u)] + TakeOne(n)
    requires |c| > 1 && LinkedOver(s, s4, th, c, u) && ApartFrom(s, c, u) && u !in s4.flagged && Last(c) < |s.recs|
    requires n !in s.batches && |s.recs| !in s.view.called && c[0] < |s.recs| && u !in s4.finishing
    ensures s9 == From(s4, rest) && HarmlessFrom(s4, rest)
    ensures Shifted(s.recs, s9.recs, s.view.linked, c, u) && s9.flagged == s4.flagged + {u}
    ensures s9.finishing == s4.finishing
    ensures s9.rank == s4.rank[|s.recs| := s4.queued] && s9.view.called == s4.view.called && s9.tailPrev == To(|s.recs|)
  {
    StaleDone(s, s4, th, c, u);
    var s6 := From(s4, [Exchange(u), Lock(u)]);
    assert |s6.recs| !in s6.view.called && n !in s6.batches;
    OneTaken(s6, n);
    NoLocks(s6, TakeOne(n));
    HarmlessAppend(s4, [Exchange(u), Lock(u)], TakeOne(n));
    s9 := From(s6, TakeOne(n));
    StillShifted(s.recs, s6.recs, s9.recs, s.view.linked, c, u, |s.recs|);
  }

  lemma StillShifted(recs: seq<Rec>, recs': seq<Rec>, recs'': seq<Rec>, l: seq<nat>, c: seq<nat>, u: nat, x: nat)
    requires |c| > 1 && Shifted(recs, recs', l, c, u) && |recs'| == |recs| <= |recs''|
    requires forall r: nat {:trigger recs''[r]} :: r < |recs| ==>
      recs''[r] == if Last(c) == r then recs'[r].(next := To(x)) else recs'[r]
    ensures Shifted(recs, recs'', l, c, u)
  {
  }

  // ------------------------------------------------------------------ when calls stay right

  /** A done that gets the lock at an end of a batch has a way to go on to a wrong call, whatever its place. */
  lemma HarmfulFails(s: State, t: nat) returns (steps: seq<Step>)
    requires Inv(s) && t in s.finishing && !Harmless(s, Lock(t))
    ensures HarmlessFrom(Apply(s, Lock(t)), steps) && !CallsRight(From(Apply(s, Lock(t)), steps))
  {
    assert IsThere(s, t);
    var th := s.recs[t].place.thread;
    var b := s.batches[th];
    assert BatchOk(s, th, NOBODY);
    if t == b.chain[0] && Second(b).To? {
      SecondIsCalled(s, th, t);
      steps := [];
    } else if b.pending.To? {
      steps := WindowFails(s, t, th);
    } else if b.closed && |b.chain| > 1 {
      steps := LastOfSeveralFails(s, t, th);
    } else if b.closed && s.view.linked != [] {
      steps := LoneOneFails(s, t, th);
    } else {
      steps := BlockedFails(s, t, th);
    }
  }

  /**
   After a run in which calls were right, a done that gets the lock keeps them right, whatever harmless steps
   follow, if and only if its ticket is linked or has neighbours in its batch on both sides.
   */
  lemma RightIff(before: seq<Step>, t: nat)
    requires HarmlessFrom(Init(), before) && t in Run(before).finishing
    ensures Harmless(Run(before), Lock(t)) <==>
      forall after :: HarmlessFrom(Apply(Run(before), Lock(t)), after) ==>
        CallsRight(From(Apply(Run(before), Lock(t)), after))
  {
    RunInv(before);
    var s := Run(before);
    if Harmless(s, Lock(t)) {
      LockKeepsInv(s, t);
      forall after | HarmlessFrom(Apply(s, Lock(t)), after) ensures CallsRight(From(Apply(s, Lock(t)), after)) {
        InvFrom(Apply(s, Lock(t)), after);
        InvCallsRight(From(Apply(s, Lock(t)), after));
      }
    } else {
      var after := HarmfulFails(s, t);
    }
  }

  // ------------------------------------------------------------------ two examples

  lemma FromBoth(s: State, a: seq<Step>, s': State, b: seq<Step>, s'': State)
    requires From(s, a) == s' && From(s', b) == s''
    ensures From(s, a + b) == s''
  {
    Runs.FromAppend(Apply, s, a, b);
  }

  function Alone(recs: seq<Rec>, b: Batch, flagged: set<nat>, finishing: set<nat>): State {
    State(recs, Nil, map[0 := b], View([], {}, []), flagged, finishing, map[], 0)
  }

  /** take(2, f) with an f that calls done on the first ticket at once. */
  function TakeTwo(): seq<Step> {
    [Hand(0), Exchange(0), Lock(0)] + ([Point(0), Hand(0), Close(0)] + [Link(0)])
  }

  /** The states it goes through. */
  function TwoState(n: nat): State {
    var alone, front := Rec(Nil, Nil, Taking(0)), Rec(To(1), Nil, Taking(0));
    if n == 0 then Init()
    else if n == 1 then Alone([alone], Batch([0], Nil, false), {}, {})
    else if n == 2 then Alone([alone], Batch([0], Nil, false), {0}, {0})
    else if n == 3 then Alone([alone], Batch([0], Nil, false), {0}, {})
    else if n == 4 then Alone([front, Rec(Nil, Nil, Borrowed(0))], Batch([0], To(1), false), {0}, {})
    else if n == 5 then Alone([front, Rec(Nil, To(0), Taking(0))], Batch([0, 1], Nil, false), {0}, {})
    else if n == 6 then Alone([front, Rec(Tail, To(0), Taking(0))], Batch([0, 1], Nil, true), {0}, {})
    else
      State([Rec(To(1), Nil, Linked), Rec(Tail, To(0), Linked)], To(1), map[], View([0, 1], {0}, [0]),
            {0}, {}, map[0 := 0, 1 := 1], 2)
  }

  lemma TwoBegins()
    ensures Apply(TwoState(0), Hand(0)) == TwoState(1) && Apply(TwoState(1), Exchange(0)) == TwoState(2)
    ensures Apply(TwoState(2), Lock(0)) == TwoState(3)
  {
  }

  lemma TwoHandsOut()
    ensures Apply(TwoState(3), Point(0)) == TwoState(4) && Apply(TwoState(4), Hand(0)) == TwoState(5)
  {
    assert SetNext(TwoState(3).recs, To(0), To(1)) + [Rec(Nil, Nil, Borrowed(0))] == TwoState(4).recs;
    assert TwoState(4).recs[1 := Rec(Nil, To(0), Taking(0))] == TwoState(5).recs && [0] + [1] == [0, 1];
  }

  lemma TwoCloses()
    ensures Apply(TwoState(5), Close(0)) == TwoState(6)
  {
    assert SetNext(TwoState(5).recs, To(1), Tail) == TwoState(6).recs;
  }

  lemma FirstView(c: seq<nat>)
    requires c != []
    ensures var v := View([], {}, []); CallTo(v.(linked := v.linked + c), To(c[0])) == View(c, {c[0]}, [c[0]])
  {
    assert [] + c == c && {} + {c[0]} == {c[0]} && [] + [c[0]] == [c[0]];
  }

  lemma OnlyOne(batches: map<nat, Batch>, th: nat)
    requires batches.Keys == {th}
    ensures batches - {th} == map[]
  {
  }

  lemma TwoLinks()
    ensures Apply(TwoState(6), Link(0)) == TwoState(7)
  {
    TwoLinkRecs();
    RankedPairs();
    LinkFields(TwoState(6), 0, [0, 1]);
    FirstView([0, 1]);
    OnlyOne(TwoState(6).batches, 0);
  }

  lemma TwoLinkRecs()
    ensures LinkRecs(TwoState(6).recs, Nil, [0, 1]) == TwoState(7).recs
  {
  }

  lemma RankedPairs()
    ensures Ranked(map[], [0, 1], 0) == map[0 := 0, 1 := 1]
  {
    assert [0, 1][..1] == [0] && [0][..0] == [];
    assert Ranked(map[], [0], 0) == map[0 := 0];
  }

  lemma TwoRuns()
    ensures From(Init(), [Hand(0), Exchange(0)]) == TwoState(2)
    ensures From(Init(), [Hand(0), Exchange(0), Lock(0)]) == TwoState(3)
  {
    TwoBegins();
    TwoSteps(Init(), Hand(0), Exchange(0));
    Runs.FromThree(Apply, Init(), Hand(0), Exchange(0), Lock(0));
  }

  lemma TwoGoesOn()
    ensures From(TwoState(3), [Point(0), Hand(0), Close(0)] + [Link(0)]) == TwoState(7)
  {
    TwoHandsOut();
    TwoCloses();
    TwoLinks();
    Runs.FromThree(Apply, TwoState(3), Point(0), Hand(0), Close(0));
    OneStep(TwoState(6), Link(0));
    FromBoth(TwoState(3), [Point(0), Hand(0), Close(0)], TwoState(6), [Link(0)], TwoState(7));
  }

  /** With no done under way, the first ticket is done and the second one waits. */
  lemma TakeTwoEnds()
    ensures Run(TakeTwo()) == TwoState(7)
  {
    TwoRuns();
    TwoGoesOn();
    FromBoth(Init(), [Hand(0), Exchange(0), Lock(0)], TwoState(3),
             [Point(0), Hand(0), Close(0)] + [Link(0)], TwoState(7));
  }

  /** The first ticket's done is over before the second one is there. */
  lemma TwoBlocks()
    ensures Inv(TwoState(2)) && BlocksOthers(TwoState(2), 0, 0) && 0 in TwoState(2).finishing
  {
    TwoRuns();
    NoLocks(Init(), [Hand(0), Exchange(0)]);
    RunInv([Hand(0), Exchange(0)]);
    assert BatchOk(TwoState(2), 0, NOBODY);
  }

  lemma TwoSticksAtOnce()
    ensures StuckAt(TwoState(3), 0)
  {
    TwoBlocks();
    EarlyDoneSticks(TwoState(2), 0, 0);
    TwoBegins();
  }

  lemma TwoReady()
    ensures StuckAt(TwoState(7), 0)
  {
    TwoGoesOn();
    TwoStaysStuck([Point(0), Hand(0), Close(0)] + [Link(0)], TwoState(7));
  }

  lemma TwoRanks()
    ensures var s := TwoState(7); 0 in s.rank && 1 in s.rank && s.rank[0] < s.rank[1]
  {
  }

  lemma TwoStaysStuck(steps: seq<Step>, s: State)
    requires s == From(TwoState(3), steps) && forall k :: 0 <= k < |steps| ==> !steps[k].Lock?
    ensures StuckAt(s, 0)
  {
    TwoSticksAtOnce();
    NoLocks(TwoState(3), steps);
    StuckForGood(TwoState(3), steps, 0);
  }

  /** The second ticket waits for ever. */
  lemma TakeTwoSticks(after: seq<Step>)
    requires HarmlessFrom(Run(TakeTwo()), after)
    ensures 1 !in From(Run(TakeTwo()), after).view.called
  {
    TwoReady();
    TwoRanks();
    TakeTwoEnds();
    OneNeverCalled(Run(TakeTwo()), after);
  }

  lemma OneNeverCalled(s: State, after: seq<Step>)
    requires StuckAt(s, 0) && HarmlessFrom(s, after) && 0 in s.rank && 1 in s.rank && s.rank[0] < s.rank[1]
    ensures 1 !in From(s, after).view.called
  {
    StuckForGood(s, after, 0);
    RanksStay(s, after, 0);
  }

  lemma {:induction false} RanksStay(s: State, steps: seq<Step>, t: nat)
    requires StuckAt(s, t) && HarmlessFrom(s, steps)
    ensures forall u :: u in s.rank ==> u in From(s, steps).rank && From(s, steps).rank[u] == s.rank[u]
  {
    if steps != [] {
      var n := |steps| - 1;
      Runs.AllOkPrefix(Apply, Harmless, s, steps, n);
      RanksStay(s, steps[..n], t);
      StuckForGood(s, steps[..n], t);
      RankStays(From(s, steps[..n]), steps[n], t);
    }
  }

  lemma RankStays(s: State, a: Step, t: nat)
    requires StuckAt(s, t)
    ensures forall u :: u in s.rank ==> u in Apply(s, a).rank && Apply(s, a).rank[u] == s.rank[u]
  {
    match a {
      case Link(th) =>
        if th in s.batches && s.batches[th].closed {
          assert BatchOk(s, th, t);
          RankedIs(s.rank, s.batches[th].chain, s.queued);
        }
      case _ =>
    }
  }

  /**
   take(3, f) on an empty queue, with a done on the second ticket while take has pointed it to the third but not
   back; then done for the third and the first ticket, and one more take.
   */
  function TakeThree(): seq<Step> {
    [Hand(0), Point(0), Hand(0)] + ([Point(0), Exchange(1), Lock(1)] + AfterWindow())
  }

  function AfterWindow(): seq<Step> {
    [Hand(0), Close(0), Link(0)] + ([Exchange(2), Lock(2)] + ([Exchange(0), Lock(0)] + TakeOne(1)))
  }

  function Three(first: Rec, second: Rec, third: Rec, chain: seq<nat>, pending: Ptr, closed: bool,
                 flagged: set<nat>, finishing: set<nat>): State {
    Alone([first, second, third], Batch(chain, pending, closed), flagged, finishing)
  }

  function ThreeLinked(first: Rec, third: Rec, next: Ptr, tailPrev: Ptr, view: View<nat>, flagged: set<nat>,
                       finishing: set<nat>): State {
    State([first, Rec(next, Nil, Linked), third], tailPrev, map[], view, flagged, finishing,
          map[0 := 0, 1 := 1, 2 := 2], 3)
  }

  /** The states it goes through: until the batch is linked, */
  function HandingThree(n: nat): State
    requires n <= 8
  {
    var T, B := Taking(0), Borrowed(0);
    if n == 0 then Init()
    else if n == 1 then Alone([Rec(Nil, Nil, T)], Batch([0], Nil, false), {}, {})
    else if n == 2 then Alone([Rec(To(1), Nil, T), Rec(Nil, Nil, B)], Batch([0], To(1), false), {}, {})
    else if n == 3 then Alone([Rec(To(1), Nil, T), Rec(Nil, To(0), T)], Batch([0, 1], Nil, false), {}, {})
    else if n == 4 then Three(Rec(To(1), Nil, T), Rec(To(2), To(0), T), Rec(Nil, Nil, B), [0, 1], To(2), false, {}, {})
    else if n == 5 then Three(Rec(To(1), Nil, T), Rec(To(2), To(0), T), Rec(Nil, Nil, B), [0, 1], To(2), false, {1},
                              {1})
    else if n == 6 then Three(Rec(To(2), Nil, T), Rec(Nil, Nil, T), Rec(Nil, To(0), B), [0, 1], To(2), false, {1}, {})
    else if n == 7 then Three(Rec(To(2), Nil, T), Rec(Nil, Nil, T), Rec(Nil, To(1), T), [0, 1, 2], Nil, false, {1}, {})
    else Three(Rec(To(2), Nil, T), Rec(Nil, Nil, T), Rec(Tail, To(1), T), [0, 1, 2], Nil, true, {1}, {})
  }

  /** and after that. */
  function DoneThree(n: nat): State
    requires 9 <= n <= 16
  {
    var first, gone := Rec(To(2), Nil, Linked), Rec(Nil, Nil, Left);
    if n == 9 then ThreeLinked(first, Rec(Tail, To(1), Linked), Nil, To(2), View([0, 1, 2], {0}, [0]), {1}, {})
    else if n == 10 then ThreeLinked(first, Rec(Tail, To(1), Linked), Nil, To(2), View([0, 1, 2], {0}, [0]), {1, 2},
                                     {2})
    else if n == 11 then ThreeLinked(first, gone, Tail, To(1), View([0, 1], {0}, [0]), {1, 2}, {})
    else if n == 12 then ThreeLinked(first, gone, Tail, To(1), View([0, 1], {0}, [0]), {0, 1, 2}, {0})
    else if n == 13 then ThreeLinked(gone, gone, Tail, To(1), View([1], {0, 2}, [0, 2]), {0, 1, 2}, {})
    else
      var s := DoneThree(13);
      if n == 14 then s.(recs := s.recs + [Rec(Nil, Nil, Taking(1))], batches := map[1 := Batch([3], Nil, false)])
      else if n == 15 then s.(recs := s.recs + [Rec(Tail, Nil, Taking(1))], batches := map[1 := Batch([3], Nil, true)])
      else
        State([gone, Rec(To(3), Nil, Linked), gone, Rec(Tail, To(1), Linked)], To(3), map[],
              View([1, 3], {0, 2}, [0, 2]),
              {0, 1, 2}, {}, map[0 := 0, 1 := 1, 2 := 2, 3 := 3], 4)
  }

  lemma ThreeBegins()
    ensures Apply(HandingThree(0), Hand(0)) == HandingThree(1) && Apply(HandingThree(1), Point(0)) == HandingThree(2)
    ensures Apply(HandingThree(2), Hand(0)) == HandingThree(3)
  {
    assert SetNext(HandingThree(1).recs, To(0), To(1)) + [Rec(Nil, Nil, Borrowed(0))] == HandingThree(2).recs;
    assert HandingThree(2).recs[1 := Rec(Nil, To(0), Taking(0))] == HandingThree(3).recs && [0] + [1] == [0, 1];
  }

  lemma ThreeInWindow()
    ensures Apply(HandingThree(3), Point(0)) == HandingThree(4)
    ensures Apply(HandingThree(4), Exchange(1)) == HandingThree(5)
    ensures Apply(HandingThree(5), Lock(1)) == HandingThree(6)
  {
    assert SetNext(HandingThree(3).recs, To(1), To(2)) + [Rec(Nil, Nil, Borrowed(0))] == HandingThree(4).recs;
    assert UnlinkRecs(HandingThree(5).recs, 1) == HandingThree(6).recs;
  }

  lemma ThreeHandsOut()
    ensures Apply(HandingThree(6), Hand(0)) == HandingThree(7) && Apply(HandingThree(7), Close(0)) == HandingThree(8)
  {
    assert HandingThree(6).recs[2 := Rec(Nil, To(1), Taking(0))] == HandingThree(7).recs && [0, 1] + [2] == [0, 1, 2];
    assert SetNext(HandingThree(7).recs, To(2), Tail) == HandingThree(8).recs;
  }

  lemma ThreeLinks()
    ensures Apply(HandingThree(8), Link(0)) == DoneThree(9)
  {
    ThreeLinkRecs();
    RankedTriple();
    LinkFields(HandingThree(8), 0, [0, 1, 2]);
    FirstView([0, 1, 2]);
    OnlyOne(HandingThree(8).batches, 0);
    var s := Apply(HandingThree(8), Link(0));
    assert s.recs == DoneThree(9).recs && s.view == DoneThree(9).view && s.rank == DoneThree(9).rank;
  }

  lemma ThreeLinkRecs()
    ensures LinkRecs(HandingThree(8).recs, Nil, [0, 1, 2]) == DoneThree(9).recs
  {
  }

  lemma RankedTriple()
    ensures Ranked(map[], [0, 1, 2], 0) == map[0 := 0, 1 := 1, 2 := 2]
  {
    assert [0, 1, 2][..2] == [0, 1];
    RankedPairs();
  }

  lemma ThirdDone()
    ensures Apply(DoneThree(9), Exchange(2)) == DoneThree(10) && Apply(DoneThree(10), Lock(2)) == DoneThree(11)
  {
    assert UnlinkRecs(DoneThree(10).recs, 2)[2 := Rec(Nil, Nil, Left)] == DoneThree(11).recs;
    assert Without([0, 1, 2], 2) == [0, 1];
  }

  lemma FirstDone()
    ensures Apply(DoneThree(11), Exchange(0)) == DoneThree(12) && Apply(DoneThree(12), Lock(0)) == DoneThree(13)
  {
    assert UnlinkRecs(DoneThree(12).recs, 0)[0 := Rec(Nil, Nil, Left)] == DoneThree(13).recs;
  }

  lemma OneMoreTaken()
    ensures Apply(DoneThree(13), Hand(1)) == DoneThree(14) && Apply(DoneThree(14), Close(1)) == DoneThree(15)
  {
    assert SetNext(DoneThree(14).recs, To(3), Tail) == DoneThree(15).recs;
  }

  lemma OneMoreLinked()
    ensures Apply(DoneThree(15), Link(1)) == DoneThree(16)
  {
    OneMoreLinkRecs();
    assert [3][..0] == [];
    LinksOne(DoneThree(15), DoneThree(16).recs);
    assert DoneThree(15).rank[3 := 3] == DoneThree(16).rank && [1] + [3] == [1, 3];
  }

  lemma OneMoreLinkRecs()
    ensures LinkRecs(DoneThree(15).recs, To(1), [3]) == DoneThree(16).recs
  {
  }

  /** The locked part of the take of ticket 3, behind ticket 1. */
  lemma LinksOne(s: State, recs: seq<Rec>)
    requires s.batches == map[1 := Batch([3], Nil, true)] && s.tailPrev == To(1) && recs == LinkRecs(s.recs, To(1), [3])
    ensures Apply(s, Link(1)) ==
      s.(recs := recs, tailPrev := To(3), view := s.view.(linked := s.view.linked + [3]), batches := map[],
         rank := s.rank[3 := s.queued], queued := s.queued + 1)
  {
    assert s.batches - {1} == map[] && [3][..0] == [];
    assert Ranked(s.rank, [], s.queued) == s.rank;
  }

  lemma WindowRuns()
    ensures From(Init(), [Hand(0), Point(0), Hand(0)]) == HandingThree(3)
    ensures From(HandingThree(3), [Point(0), Exchange(1), Lock(1)]) == HandingThree(6)
  {
    ThreeBegins();
    Runs.FromThree(Apply, Init(), Hand(0), Point(0), Hand(0));
    ThreeInWindow();
    Runs.FromThree(Apply, HandingThree(3), Point(0), Exchange(1), Lock(1));
  }

  lemma LinkedRuns()
    ensures From(HandingThree(6), [Hand(0), Close(0), Link(0)]) == DoneThree(9)
  {
    ThreeHandsOut();
    ThreeLinks();
    Runs.FromThree(Apply, HandingThree(6), Hand(0), Close(0), Link(0));
  }

  lemma DoneRuns()
    ensures From(DoneThree(9), [Exchange(2), Lock(2)]) == DoneThree(11)
    ensures From(DoneThree(11), [Exchange(0), Lock(0)]) == DoneThree(13)
  {
    ThirdDone();
    TwoSteps(DoneThree(9), Exchange(2), Lock(2));
    FirstDone();
    TwoSteps(DoneThree(11), Exchange(0), Lock(0));
  }

  lemma OneMoreRuns()
    ensures From(DoneThree(13), TakeOne(1)) == DoneThree(16)
  {
    OneMoreTaken();
    OneMoreLinked();
    Runs.FromThree(Apply, DoneThree(13), Hand(1), Close(1), Link(1));
  }

  lemma AfterWindowRuns()
    ensures From(HandingThree(6), AfterWindow()) == DoneThree(16)
  {
    LinkedRuns();
    DoneRuns();
    OneMoreRuns();
    var a, b, c := [Hand(0), Close(0), Link(0)], [Exchange(2), Lock(2)], [Exchange(0), Lock(0)];
    FromBoth(DoneThree(11), c, DoneThree(13), TakeOne(1), DoneThree(16));
    FromBoth(DoneThree(9), b, DoneThree(11), c + TakeOne(1), DoneThree(16));
    FromBoth(HandingThree(6), a, DoneThree(9), b + (c + TakeOne(1)), DoneThree(16));
  }

  lemma TakeThreeEnds()
    ensures Run(TakeThree()) == DoneThree(16)
  {
    WindowRuns();
    AfterWindowRuns();
    var a, b := [Hand(0), Point(0), Hand(0)], [Point(0), Exchange(1), Lock(1)];
    FromBoth(HandingThree(3), b, HandingThree(6), AfterWindow(), DoneThree(16));
    FromBoth(Init(), a, HandingThree(3), b + AfterWindow(), DoneThree(16));
  }

  /** The last ticket is the only one that waits, no done is under way, and it is not called. */
  lemma TakeThreeLosesOne()
    ensures var s := Run(TakeThree());
      s.finishing == {} && Waits(s, 3) && 3 !in s.view.called && forall t :: t in s.rank && Waits(s, t) ==> t == 3
  {
    TakeThreeEnds();
    LastWaitsAlone();
  }

  lemma LastWaitsAlone()
    ensures var s := DoneThree(16);
      s.finishing == {} && Waits(s, 3) && 3 !in s.view.called && forall t :: t in s.rank && Waits(s, t) ==> t == 3
  {
  }
}

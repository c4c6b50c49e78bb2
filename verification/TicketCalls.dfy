/**
 What take and done achieve, from any state that a run in which calls are right has reached, with other takes and
 done calls under way.
 */
module TicketCalls {
  import opened Tickets
  import opened TicketRuns
  import Runs

  // ------------------------------------------------------------------ take

  /** The steps of a take of n tickets, up to handing out the last one. */
  function HandingSteps(th: nat, n: nat): seq<Step> {
    if n == 0 then [] else if n == 1 then [Hand(th)] else HandingSteps(th, n - 1) + [Point(th), Hand(th)]
  }

  function TakeSteps(th: nat, n: nat): seq<Step> {
    HandingSteps(th, n) + [Close(th), Link(th)]
  }

  /** The n numbers from x on. */
  function Numbers(x: nat, n: nat): (l: seq<nat>)
    ensures |l| == n && forall i :: 0 <= i < n ==> l[i] == x + i
  {
    seq(n, i requires 0 <= i < n => x + i)
  }

  /** Nobody is called or linked meanwhile, and no other take sees a change. */
  ghost predicate OnlyBatch(s: State, s': State, th: nat, b: Batch) {
    && s'.view == s.view && s'.tailPrev == s.tailPrev && s'.flagged == s.flagged && s'.finishing == s.finishing
    && s'.rank == s.rank && s'.queued == s.queued && s'.batches == s.batches[th := b]
  }

  /** n tickets were handed out. */
  ghost predicate HandedOut(s: State, s': State, th: nat, n: nat) {
    |s'.recs| == |s.recs| + n && OnlyBatch(s, s', th, Batch(Numbers(|s.recs|, n), Nil, false))
  }

  lemma HandsFirst(s: State, th: nat) returns (s': State)
    requires th !in s.batches
    ensures s' == Apply(s, Hand(th)) && HandedOut(s, s', th, 1)
  {
    s' := Apply(s, Hand(th));
    assert [|s.recs|] == Numbers(|s.recs|, 1);
  }

  lemma HandsNext(s: State, s0: State, th: nat, n: nat) returns (s1: State, s2: State)
    requires n > 0 && HandedOut(s, s0, th, n)
    ensures s1 == Apply(s0, Point(th)) && s2 == Apply(s1, Hand(th)) && HandedOut(s, s2, th, n + 1)
  {
    s1 := Apply(s0, Point(th));
    assert s1.batches[th] == Batch(Numbers(|s.recs|, n), To(|s.recs| + n), false);
    s2 := Apply(s1, Hand(th));
    assert Numbers(|s.recs|, n) + [|s.recs| + n] == Numbers(|s.recs|, n + 1);
  }

  lemma {:induction false} HandsOut(s: State, th: nat, n: nat)
    requires th !in s.batches && n > 0
    ensures HandedOut(s, From(s, HandingSteps(th, n)), th, n)
  {
    if n == 1 {
      var s' := HandsFirst(s, th);
      Runs.AllOkOne(Apply, Harmless, s, Hand(th));
    } else {
      HandsOut(s, th, n - 1);
      HandsOneMore(s, th, n - 1, HandingSteps(th, n - 1));
    }
  }

  lemma {:induction false} HandsOneMore(s: State, th: nat, n: nat, steps: seq<Step>)
    requires n > 0 && HandedOut(s, From(s, steps), th, n)
    ensures HandedOut(s, From(s, steps + [Point(th), Hand(th)]), th, n + 1)
  {
    var s0 := From(s, steps);
    var s1, s2 := HandsNext(s, s0, th, n);
    Runs.FromThree(Apply, s0, Point(th), Hand(th), Hand(th));
    Runs.FromAppend(Apply, s, steps, [Point(th), Hand(th)]);
  }

  lemma Closes(s: State, s0: State, th: nat, n: nat) returns (s1: State)
    requires n > 0 && HandedOut(s, s0, th, n)
    ensures s1 == Apply(s0, Close(th)) && |s1.recs| == |s.recs| + n
    ensures OnlyBatch(s, s1, th, Batch(Numbers(|s.recs|, n), Nil, true))
  {
    s1 := Apply(s0, Close(th));
  }

  lemma Links(s: State, s1: State, th: nat, n: nat) returns (s2: State)
    requires n > 0 && OnlyBatch(s, s1, th, Batch(Numbers(|s.recs|, n), Nil, true)) && th !in s.batches
    ensures s2 == Apply(s1, Link(th)) && s2.view.linked == s.view.linked + Numbers(|s.recs|, n)
    ensures s2.batches == s.batches && s2.flagged == s.flagged && s2.finishing == s.finishing
  {
    s2 := Apply(s1, Link(th));
  }

  lemma {:induction false} HandingIsHarmless(s: State, th: nat, n: nat)
    ensures HarmlessFrom(s, TakeSteps(th, n))
  {
    var steps := TakeSteps(th, n);
    NoneLocks(th, n);
    forall k: nat | k < |steps| ensures Runs.OkAt(Apply, Harmless, s, steps, k) {
      assert !steps[k].Lock?;
    }
  }

  lemma {:induction false} NoneLocks(th: nat, n: nat)
    ensures forall k :: 0 <= k < |HandingSteps(th, n)| ==> !HandingSteps(th, n)[k].Lock?
  {
    if n > 1 {
      NoneLocks(th, n - 1);
    }
  }

  /** n new tickets are in the queue behind the others, in order, and of those that wait the first one is called. */
  ghost predicate HasTaken(s: State, s': State, n: nat) {
    && s'.view.linked == s.view.linked + Numbers(|s.recs|, n)
    && s'.batches == s.batches && s'.flagged == s.flagged && s'.finishing == s.finishing && CallsRight(s')
    && (forall i: nat :: i < |s'.view.linked| ==> (s'.view.linked[i] in s'.view.called <==> i == 0))
  }

  /**
   A take whose steps are not interrupted, at any point of such a run, queues up as many new tickets as it was asked
   for, whatever other takes and done calls are under way; with nobody in front, the first of them is called.
   */
  lemma TakeQueues(before: seq<Step>, th: nat, n: nat)
    requires HarmlessFrom(Init(), before) && th !in Run(before).batches && n > 0
    ensures HasTaken(Run(before), From(Run(before), TakeSteps(th, n)), n)
  {
    RunInv(before);
    TakeQueuesFrom(Run(before), th, n);
  }

  lemma TakeQueuesFrom(s: State, th: nat, n: nat)
    requires Inv(s) && th !in s.batches && n > 0
    ensures HasTaken(s, From(s, TakeSteps(th, n)), n)
  {
    HandsOut(s, th, n);
    var s0 := From(s, HandingSteps(th, n));
    var s1 := Closes(s, s0, th, n);
    var s2 := Links(s, s1, th, n);
    Runs.FromThree(Apply, s0, Close(th), Link(th), Link(th));
    Runs.FromAppend(Apply, s, HandingSteps(th, n), [Close(th), Link(th)]);
    HandingIsHarmless(s, th, n);
    InvFrom(s, TakeSteps(th, n));
    InvCallsRight(s2);
    OnlyFirstIsCalled(s2);
  }

  lemma OnlyFirstIsCalled(s: State)
    requires Inv(s)
    ensures forall i: nat :: i < |s.view.linked| ==> (s.view.linked[i] in s.view.called <==> i == 0)
  {
  }

  // ------------------------------------------------------------------ done

  /** The ticket has left the queue, for good; of those that wait the first one is called. */
  ghost predicate HasLeft(s: State, s': State, t: nat) {
    && s'.view.linked == Without(s.view.linked, t) && t in s'.flagged && t !in s'.finishing && s'.batches == s.batches
    && CallsRight(s')
    && (forall i: nat :: i < |s'.view.linked| ==> (s'.view.linked[i] in s'.view.called <==> i == 0))
  }

  lemma Exchanges(s: State, t: nat) returns (s1: State)
    requires Inv(s) && t < |s.recs| && !s.recs[t].place.Borrowed? && t !in s.flagged
    ensures s1 == Apply(s, Exchange(t)) && Inv(s1) && t in s1.finishing && t in s1.flagged
    ensures s1.recs == s.recs && s1.view == s.view && s1.batches == s.batches
  {
    s1 := Apply(s, Exchange(t));
    StepKeepsInv(s, Exchange(t));
  }

  /** The first done on a ticket in the queue takes it out, and calls the next one if the ticket was up. */
  lemma DoneTakesOut(before: seq<Step>, t: nat)
    requires HarmlessFrom(Init(), before) && t in Run(before).view.linked && t !in Run(before).flagged
    ensures HasLeft(Run(before), From(Run(before), [Exchange(t), Lock(t)]), t)
  {
    RunInv(before);
    DoneTakesOutFrom(Run(before), t);
  }

  lemma DoneTakesOutFrom(s: State, t: nat)
    requires Inv(s) && t in s.view.linked && t !in s.flagged
    ensures HasLeft(s, From(s, [Exchange(t), Lock(t)]), t)
  {
    assert t < |s.recs| && s.recs[t].place == Linked by {
      var i :| 0 <= i < |s.view.linked| && s.view.linked[i] == t;
    }
    var s1 := Exchanges(s, t);
    FinishesLinked(s1, t);
    StepKeepsInv(s1, Lock(t));
    Runs.FromThree(Apply, s, Exchange(t), Lock(t), Lock(t));
    InvCallsRight(Apply(s1, Lock(t)));
    OnlyFirstIsCalled(Apply(s1, Lock(t)));
  }

  /** A done that had to wait for the lock takes the ticket out when it gets it. */
  lemma LockTakesOut(before: seq<Step>, t: nat)
    requires HarmlessFrom(Init(), before) && t in Run(before).view.linked && t in Run(before).finishing
    ensures HasLeft(Run(before), Apply(Run(before), Lock(t)), t)
  {
    RunInv(before);
    LockTakesOutFrom(Run(before), t);
  }

  lemma LockTakesOutFrom(s: State, t: nat)
    requires Inv(s) && t in s.view.linked && t in s.finishing
    ensures HasLeft(s, Apply(s, Lock(t)), t)
  {
    assert t < |s.recs| && s.recs[t].place == Linked by {
      var i :| 0 <= i < |s.view.linked| && s.view.linked[i] == t;
    }
    FinishesLinked(s, t);
    StepKeepsInv(s, Lock(t));
    InvCallsRight(Apply(s, Lock(t)));
    OnlyFirstIsCalled(Apply(s, Lock(t)));
  }

  /** A done on a ticket with neighbours on both sides in its batch takes it out of the batch, and calls nobody. */
  lemma DoneTakesOutOfBatch(before: seq<Step>, t: nat, th: nat)
    requires HarmlessFrom(Init(), before) && t < |Run(before).recs| && t !in Run(before).flagged
    requires var s := Run(before);
             s.recs[t].place == Taking(th) && th in s.batches && Inside(s.batches[th].chain, t)
    ensures var s, s' := Run(before), From(Run(before), [Exchange(t), Lock(t)]);
            var b := s.batches[th];
            && s'.view.linked == s.view.linked && s'.view.called == s.view.called
            && t in s'.flagged && t !in s'.finishing
            && s'.batches == s.batches[th := b.(chain := Without(b.chain, t))] && CallsRight(s')
  {
    RunInv(before);
    var s := Run(before);
    var s1 := Exchanges(s, t);
    FinishesInside(s1, t, th);
    InsideCallsNobody(s1, t, th);
    StepKeepsInv(s1, Lock(t));
    Runs.FromThree(Apply, s, Exchange(t), Lock(t), Lock(t));
    InvCallsRight(Apply(s1, Lock(t)));
  }

  lemma InsideCallsNobody(s: State, t: nat, th: nat)
    requires Inv(s) && th in s.batches && t < |s.recs| && Inside(s.batches[th].chain, t)
    ensures CallNext(s.recs[t]) == Nil
  {
    var c := s.batches[th].chain;
    assert BatchOk(s, th, NOBODY);
    var i :| 0 <= i < |c| && c[i] == t;
    assert PrevOk(s.recs, c, i, NOBODY);
  }

  /** A second done on a ticket does nothing. */
  lemma SecondDoneDoesNothing(s: State, t: nat)
    requires t in s.flagged
    ensures Apply(s, Exchange(t)) == s && (t !in s.finishing ==> Apply(s, Lock(t)) == s)
  {
  }
}

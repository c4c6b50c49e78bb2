/**
 The ticket queue in every interleaving of takes and done calls: the pointers of the records, changed by take
 without and with the lock, and by done under it.
 */
module TicketRuns {
  import opened Tickets
  import Runs

  // ------------------------------------------------------------------ the records as values

  /** What a record's next or prev points to. */
  datatype Ptr = Nil | Tail | To(id: nat)

  /**
   Whether take has borrowed the record for a ticket that it has not handed out yet, is still handing out the
   ticket's batch, or has linked it; and whether the ticket has left.
   */
  datatype Place = Borrowed(thread: nat) | Taking(thread: nat) | Linked | Left

  datatype Rec = Rec(next: Ptr, prev: Ptr, place: Place)

  /**
   The tickets of a take under way, without those that left from inside; the record borrowed for the next one,
   to which the last already points; and whether the last points to the tail.
   */
  datatype Batch = Batch(chain: seq<nat>, pending: Ptr, closed: bool)

  /**
   Tickets are numbered in the order their records are borrowed, and every take under way counts as a thread of
   its own; `flagged` tickets have seen done, `finishing` ones wait for the lock.  `rank` numbers the tickets in
   the order they were linked.
   */
  datatype State =
    State(recs: seq<Rec>, tailPrev: Ptr, batches: map<nat, Batch>, view: View<nat>,
          flagged: set<nat>, finishing: set<nat>, rank: map<nat, nat>, queued: nat)

  /** Single writes where take works without the lock, whole critical sections where there is one. */
  datatype Step =
    | Point(thread: nat)      // take lets the last record of the batch point to a new one
    | Hand(thread: nat)       // take lets that one point back, and gives its ticket to the caller
    | Close(thread: nat)      // take lets the last record point to the tail
    | Link(thread: nat)       // the part of take under the lock
    | Exchange(ticket: nat)   // done() sets the flag, and goes no further if it was set
    | Lock(ticket: nat)       // the rest of done(), under the lock

  function Init(): State {
    State([], Nil, map[], View([], {}, []), {}, {}, map[], 0)
  }

  function Last(l: seq<nat>): nat
    requires l != []
  {
    l[|l| - 1]
  }

  function SetNext(recs: seq<Rec>, p: Ptr, v: Ptr): (r: seq<Rec>)
    ensures |r| == |recs|
  {
    if p.To? && p.id < |recs| then recs[p.id := recs[p.id].(next := v)] else recs
  }

  function SetPrev(recs: seq<Rec>, p: Ptr, v: Ptr): (r: seq<Rec>)
    ensures |r| == |recs|
  {
    if p.To? && p.id < |recs| then recs[p.id := recs[p.id].(prev := v)] else recs
  }

  /** callAndUnlock; a call of the tail is seen by nobody. */
  function CallTo(v: View<nat>, p: Ptr): View<nat> {
    if p.To? && p.id !in v.called then Call(v, p.id) else v
  }

  function PointOn(s: State, th: nat): State {
    if th in s.batches && s.batches[th].chain != [] && s.batches[th].pending == Nil && !s.batches[th].closed then
      var b, id := s.batches[th], |s.recs|;
      s.(recs := SetNext(s.recs, To(Last(b.chain)), To(id)) + [Rec(Nil, Nil, Borrowed(th))],
         batches := s.batches[th := b.(pending := To(id))])
    else s
  }

  /** The first ticket of a take needs no pointers. */
  function HandOut(s: State, th: nat): State {
    if th !in s.batches then
      s.(recs := s.recs + [Rec(Nil, Nil, Taking(th))], batches := s.batches[th := Batch([|s.recs|], Nil, false)])
    else
      var b := s.batches[th];
      if b.chain != [] && b.pending.To? && b.pending.id < |s.recs| then
        var id := b.pending.id;
        s.(recs := s.recs[id := Rec(s.recs[id].next, To(Last(b.chain)), Taking(th))],
           batches := s.batches[th := b.(chain := b.chain + [id], pending := Nil)])
      else s
  }

  function CloseBatch(s: State, th: nat): State {
    if th in s.batches && s.batches[th].chain != [] && s.batches[th].pending == Nil && !s.batches[th].closed then
      var b := s.batches[th];
      s.(recs := SetNext(s.recs, To(Last(b.chain)), Tail), batches := s.batches[th := b.(closed := true)])
    else s
  }

  function Placed(recs: seq<Rec>, l: seq<nat>, place: Place): (r: seq<Rec>)
    ensures |r| == |recs|
  {
    seq(|recs|, t requires 0 <= t < |recs| => if t in l then recs[t].(place := place) else recs[t])
  }

  /** Numbers the tickets of l from n on. */
  function Ranked(rank: map<nat, nat>, l: seq<nat>, n: nat): map<nat, nat> {
    if l == [] then rank else Ranked(rank, l[..|l| - 1], n)[Last(l) := n + |l| - 1]
  }

  /** The new records queue up behind the last one. */
  function LinkRecs(recs: seq<Rec>, tailPrev: Ptr, chain: seq<nat>): (r: seq<Rec>)
    requires chain != []
    ensures |r| == |recs|
  {
    var joined := SetPrev(recs, To(chain[0]), tailPrev);
    Placed(if tailPrev == Nil then joined else SetNext(joined, tailPrev, To(chain[0])), chain, Linked)
  }

  function LinkBatch(s: State, th: nat): State {
    if th in s.batches && s.batches[th].chain != [] && s.batches[th].closed then
      var chain := s.batches[th].chain;
      var v := s.view.(linked := s.view.linked + chain);
      s.(recs := LinkRecs(s.recs, s.tailPrev, chain),
         tailPrev := To(Last(chain)),
         view := if s.tailPrev == Nil then CallTo(v, To(chain[0])) else v,
         batches := s.batches - {th}, rank := Ranked(s.rank, chain, s.queued), queued := s.queued + |chain|)
    else s
  }

  /** unlink: the neighbours are joined, the tail's prev among them. */
  function UnlinkRecs(recs: seq<Rec>, t: nat): (r: seq<Rec>)
    requires t < |recs|
    ensures |r| == |recs|
  {
    var first := SetNext(recs, recs[t].prev, recs[t].next);
    var joined := SetPrev(first, first[t].next, first[t].prev);
    joined[t := joined[t].(next := Nil, prev := Nil)]
  }

  function UnlinkTail(recs: seq<Rec>, tailPrev: Ptr, t: nat): Ptr
    requires t < |recs|
  {
    var first := SetNext(recs, recs[t].prev, recs[t].next);
    if first[t].next == Tail then first[t].prev else tailPrev
  }

  function Unlink(s: State, t: nat): State
    requires t < |s.recs|
  {
    s.(recs := UnlinkRecs(s.recs, t), tailPrev := UnlinkTail(s.recs, s.tailPrev, t))
  }

  /** Where the ticket leaves from: the queue, or the inside of its batch; at an end of its batch it stays. */
  function Leave(s: State, t: nat): State
    requires t < |s.recs|
  {
    match s.recs[t].place
    case Linked => s.(view := s.view.(linked := Without(s.view.linked, t)),
                      recs := s.recs[t := s.recs[t].(place := Left)])
    case Taking(th) =>
      if th in s.batches && Inside(s.batches[th].chain, t) then
        s.(batches := s.batches[th := s.batches[th].(chain := Without(s.batches[th].chain, t))],
           recs := s.recs[t := s.recs[t].(place := Left)])
      else s
    case _ => s
  }

  predicate Inside(l: seq<nat>, t: nat) {
    |l| >= 2 && t in l && t != l[0] && t != Last(l)
  }

  /** The part of done under the lock. */
  function Finish(s: State, t: nat): State
    requires t < |s.recs|
  {
    var callNext := if s.recs[t].prev == Nil then s.recs[t].next else Nil;
    var s' := Leave(Unlink(s, t), t);
    s'.(view := CallTo(s'.view, callNext), finishing := s.finishing - {t})
  }

  function Apply(s: State, a: Step): State {
    match a
    case Point(th) => PointOn(s, th)
    case Hand(th) => HandOut(s, th)
    case Close(th) => CloseBatch(s, th)
    case Link(th) => LinkBatch(s, th)
    case Exchange(t) =>
      if t < |s.recs| && !s.recs[t].place.Borrowed? && t !in s.flagged then
        s.(flagged := s.flagged + {t}, finishing := s.finishing + {t})
      else s
    case Lock(t) => if t in s.finishing && t < |s.recs| then Finish(s, t) else s
  }

  function From(s: State, steps: seq<Step>): State {
    Runs.From(Apply, s, steps)
  }

  function Run(steps: seq<Step>): State {
    From(Init(), steps)
  }

  /** done gets the lock for a ticket that is linked, or has neighbours in its batch on both sides. */
  predicate Harmless(s: State, a: Step) {
    a.Lock? && a.ticket in s.finishing && a.ticket < |s.recs| ==>
      match s.recs[a.ticket].place
      case Borrowed(_) => false
      case Linked => true
      case Left => true
      case Taking(th) => th in s.batches && Inside(s.batches[th].chain, a.ticket)
  }

  ghost predicate HarmlessFrom(s: State, steps: seq<Step>) {
    Runs.AllOk(Apply, Harmless, s, steps)
  }

  // ------------------------------------------------------------------ chains of records

  /** No ticket is stuck. */
  const NOBODY := -1

  /** Element i points to the one behind it; nothing is sure of the stuck ticket's pointers, or of one to it. */
  ghost predicate NextOk(recs: seq<Rec>, l: seq<nat>, i: nat, after: Ptr, stuck: int)
    requires i < |l| && l[i] < |recs|
  {
    var n := recs[l[i]].next;
    l[i] == stuck || if i + 1 == |l| then n == after else n == To(l[i + 1]) || (l[i + 1] == stuck && n == Nil)
  }

  ghost predicate PrevOk(recs: seq<Rec>, l: seq<nat>, i: nat, stuck: int)
    requires i < |l| && l[i] < |recs|
  {
    l[i] == stuck || recs[l[i]].prev == if i == 0 then Nil else To(l[i - 1])
  }

  ghost predicate IsChain(recs: seq<Rec>, l: seq<nat>, after: Ptr, stuck: int) {
    && (forall i, j :: 0 <= i < j < |l| ==> l[i] != l[j])
    && (forall i :: 0 <= i < |l| ==> l[i] < |recs|)
    && (forall i: nat {:trigger NextOk(recs, l, i, after, stuck)} :: i < |l| ==> NextOk(recs, l, i, after, stuck))
    && (forall i: nat {:trigger PrevOk(recs, l, i, stuck)} :: i < |l| ==> PrevOk(recs, l, i, stuck))
  }

  ghost predicate SamePointers(recs: seq<Rec>, recs': seq<Rec>, t: nat) {
    t < |recs| && t < |recs'| && recs'[t].next == recs[t].next && recs'[t].prev == recs[t].prev
  }

  lemma ChainKept(recs: seq<Rec>, recs': seq<Rec>, l: seq<nat>, after: Ptr, stuck: int)
    requires IsChain(recs, l, after, stuck) && forall i :: 0 <= i < |l| ==> SamePointers(recs, recs', l[i])
    ensures IsChain(recs', l, after, stuck)
  {
    forall i: nat | i < |l| ensures NextOk(recs', l, i, after, stuck) && PrevOk(recs', l, i, stuck) {
      assert SamePointers(recs, recs', l[i]) && NextOk(recs, l, i, after, stuck) && PrevOk(recs, l, i, stuck);
    }
  }

  /** Nothing of a record changes but what must. */
  ghost predicate SameRec(recs: seq<Rec>, recs': seq<Rec>, t: nat) {
    t < |recs| && t < |recs'| && recs'[t] == recs[t]
  }

  /** The element between i - 1 and i + 1 is taken out, the neighbours pointing to each other. */
  ghost predicate Joined(recs: seq<Rec>, recs': seq<Rec>, l: seq<nat>, i: nat)
    requires i < |l| && l[i] < |recs|
  {
    && |recs'| == |recs|
    && forall t: nat {:trigger recs'[t]} :: t < |recs| ==>
         recs'[t] == Rec(if t == l[i] then Nil else if i > 0 && t == l[i - 1] then recs[l[i]].next else recs[t].next,
                         if t == l[i] then Nil else if recs[l[i]].next == To(t) then recs[l[i]].prev else recs[t].prev,
                         recs[t].place)
  }

  lemma UnlinkJoins(recs: seq<Rec>, l: seq<nat>, i: nat, after: Ptr, stuck: int)
    requires IsChain(recs, l, after, stuck) && i < |l| && l[i] != stuck && (after.To? ==> i + 1 < |l|)
    ensures Joined(recs, UnlinkRecs(recs, l[i]), l, i)
    ensures forall tailPrev ::
              UnlinkTail(recs, tailPrev, l[i]) == if after == Tail && i + 1 == |l| then recs[l[i]].prev else tailPrev
  {
    assert NextOk(recs, l, i, after, stuck) && PrevOk(recs, l, i, stuck);
  }

  lemma JoinedNext(recs: seq<Rec>, recs': seq<Rec>, l: seq<nat>, i: nat, l': seq<nat>, k: nat, after: Ptr, stuck: int)
    requires IsChain(recs, l, after, stuck) && Drops(l, i, l') && l[i] != stuck && Joined(recs, recs', l, i) && k < |l'|
    ensures NextOk(recs', l', k, after, stuck)
  {
    var o := if k < i then k else k + 1;
    assert NextOk(recs, l, o, after, stuck) && NextOk(recs, l, i, after, stuck);
  }

  lemma JoinedPrev(recs: seq<Rec>, recs': seq<Rec>, l: seq<nat>, i: nat, l': seq<nat>, k: nat, after: Ptr, stuck: int)
    requires IsChain(recs, l, after, stuck) && Drops(l, i, l') && l[i] != stuck && (after.To? ==> i + 1 < |l|)
    requires Joined(recs, recs', l, i) && k < |l'|
    ensures PrevOk(recs', l', k, stuck)
  {
    var o := if k < i then k else k + 1;
    assert PrevOk(recs, l, o, stuck) && PrevOk(recs, l, i, stuck) && NextOk(recs, l, i, after, stuck);
  }

  /** Unlinking an element that is not stuck joins its neighbours; nothing outside the chain moves. */
  lemma Unlinked(recs: seq<Rec>, recs': seq<Rec>, l: seq<nat>, i: nat, l': seq<nat>, after: Ptr, stuck: int)
    requires IsChain(recs, l, after, stuck) && Drops(l, i, l') && l[i] != stuck && (after.To? ==> i + 1 < |l|)
    requires Joined(recs, recs', l, i)
    ensures IsChain(recs', l', after, stuck)
    ensures forall t: nat {:trigger SameRec(recs, recs', t)} :: t < |recs| && t !in l ==> SameRec(recs, recs', t)
  {
    forall k: nat | k < |l'|
      ensures l'[k] < |recs'| && NextOk(recs', l', k, after, stuck) && PrevOk(recs', l', k, stuck)
    {
      JoinedNext(recs, recs', l, i, l', k, after, stuck);
      JoinedPrev(recs, recs', l, i, l', k, after, stuck);
    }
    assert NextOk(recs, l, i, after, stuck);
  }

  // ------------------------------------------------------------------ what every step keeps

  function After(b: Batch): Ptr {
    if b.closed then Tail else b.pending
  }

  ghost predicate AllPlaced(recs: seq<Rec>, l: seq<nat>, p: Place) {
    forall i :: 0 <= i < |l| ==> l[i] < |recs| && recs[l[i]].place == p
  }

  ghost predicate IsPending(recs: seq<Rec>, p: Ptr, th: nat) {
    p.To? && p.id < |recs| && recs[p.id] == Rec(Nil, Nil, Borrowed(th))
  }

  ghost predicate BatchOk(s: State, th: nat, stuck: int)
    requires th in s.batches
  {
    var b := s.batches[th];
    && b.chain != [] && IsChain(s.recs, b.chain, After(b), stuck) && AllPlaced(s.recs, b.chain, Taking(th))
    && (b.pending == Nil || (IsPending(s.recs, b.pending, th) && !b.closed))
  }

  ghost predicate QueueOk(s: State, stuck: int) {
    && IsChain(s.recs, s.view.linked, Tail, stuck) && AllPlaced(s.recs, s.view.linked, Linked)
    && s.tailPrev == if s.view.linked == [] then Nil else To(Last(s.view.linked))
  }

  /** A ticket is where its place says. */
  ghost predicate IsThere(s: State, t: nat)
    requires t < |s.recs|
  {
    match s.recs[t].place
    case Linked => t in s.view.linked
    case Borrowed(th) => th in s.batches && s.batches[th].pending == To(t)
    case Taking(th) => th in s.batches && t in s.batches[th].chain
    case Left => true
  }

  predicate WasLinked(p: Place) {
    p.Linked? || p.Left?
  }

  ghost predicate RankOk(recs: seq<Rec>, v: View<nat>, rank: map<nat, nat>, queued: nat) {
    && (forall t :: t in rank ==> t < |recs| && WasLinked(recs[t].place) && rank[t] < queued)
    && (forall i :: 0 <= i < |v.linked| ==> v.linked[i] in rank)
    && (forall i, j :: 0 <= i < j < |v.linked| ==> rank[v.linked[i]] < rank[v.linked[j]])
    && (forall t :: t in v.called ==> t in rank)
  }

  ghost predicate FlagsOk(s: State, stuck: int) {
    && (forall t :: t in s.finishing ==> t in s.flagged && t != stuck)
    && (forall t :: t in s.flagged ==> t < |s.recs| && !s.recs[t].place.Borrowed?)
    && (forall t :: t in s.finishing ==> !s.recs[t].place.Left?)
    && (forall t: nat {:trigger s.recs[t].place} :: t < |s.recs| && s.recs[t].place.Left? ==> t in s.flagged)
    && (stuck >= 0 ==> stuck < |s.recs| && stuck in s.flagged)
  }

  /** The records represent the queue and the batches. */
  ghost predicate Represents(s: State, stuck: int) {
    && QueueOk(s, stuck) && RankOk(s.recs, s.view, s.rank, s.queued) && FlagsOk(s, stuck)
    && (forall th: nat {:trigger BatchOk(s, th, stuck)} :: th in s.batches ==> BatchOk(s, th, stuck))
    && (forall t: nat {:trigger IsThere(s, t)} :: t < |s.recs| ==> IsThere(s, t))
  }

  /** Does a take other than th's work on this record? */
  predicate OfOther(p: Place, th: int) {
    (p.Taking? || p.Borrowed?) && p.thread != th
  }

  /** The batches but th's, and their records, stay. */
  ghost predicate OthersStay(s: State, s': State, th: int) {
    && (forall t: nat {:trigger SameRec(s.recs, s'.recs, t)} ::
          t < |s.recs| && OfOther(s.recs[t].place, th) ==> SameRec(s.recs, s'.recs, t))
    && (forall u: nat {:trigger s'.batches[u]} :: u != th && u in s'.batches ==>
        u in s.batches && s'.batches[u] == s.batches[u])
  }

  lemma BatchesKept(s: State, s': State, th: int, stuck: int)
    requires Represents(s, stuck) && OthersStay(s, s', th)
    ensures forall u: nat {:trigger BatchOk(s', u, stuck)} :: u != th && u in s'.batches ==> BatchOk(s', u, stuck)
  {
    forall u: nat | u != th && u in s'.batches ensures BatchOk(s', u, stuck) {
      assert BatchOk(s, u, stuck) && s'.batches[u] == s.batches[u];
      var l := s.batches[u].chain;
      forall i | 0 <= i < |l| ensures SamePointers(s.recs, s'.recs, l[i]) && s'.recs[l[i]].place == s.recs[l[i]].place {
        assert SameRec(s.recs, s'.recs, l[i]);
      }
      ChainKept(s.recs, s'.recs, l, After(s.batches[u]), stuck);
      if s.batches[u].pending.To? {
        assert SameRec(s.recs, s'.recs, s.batches[u].pending.id);
      }
    }
  }

  /** Only records of one batch change. */
  ghost predicate OnlyBatch(s: State, s': State, th: nat) {
    && s'.view.linked == s.view.linked && s'.tailPrev == s.tailPrev && OthersStay(s, s', th)
    && (forall t: nat {:trigger SameRec(s.recs, s'.recs, t)} :: t < |s.recs| && s.recs[t].place == Linked ==>
        SameRec(s.recs, s'.recs, t))
  }

  lemma OthersKept(s: State, s': State, th: nat, stuck: int)
    requires Represents(s, stuck) && OnlyBatch(s, s', th)
    ensures QueueOk(s', stuck)
    ensures forall u: nat {:trigger BatchOk(s', u, stuck)} :: u != th && u in s'.batches ==> BatchOk(s', u, stuck)
  {
    var l := s.view.linked;
    forall i | 0 <= i < |l| ensures SamePointers(s.recs, s'.recs, l[i]) && s'.recs[l[i]].place == s.recs[l[i]].place {
      assert SameRec(s.recs, s'.recs, l[i]);
    }
    ChainKept(s.recs, s'.recs, l, Tail, stuck);
    BatchesKept(s, s', th, stuck);
  }

  lemma RankKept(recs: seq<Rec>, recs': seq<Rec>, v: View<nat>, rank: map<nat, nat>, queued: nat)
    requires RankOk(recs, v, rank, queued) && |recs| <= |recs'|
    requires forall t :: 0 <= t < |recs| ==> (WasLinked(recs[t].place) ==> recs'[t].place == recs[t].place)
    ensures RankOk(recs', v, rank, queued)
  {
  }

  lemma PointRepresents(s: State, th: nat, stuck: int)
    requires Represents(s, stuck)
    ensures Represents(Apply(s, Point(th)), stuck)
  {
    var s' := Apply(s, Point(th));
    if s' != s {
      assert BatchOk(s, th, stuck);
      PointedBatch(s, th, stuck);
      OthersKept(s, s', th, stuck);
      forall t: nat | t < |s'.recs| ensures IsThere(s', t) {
        PointPlaces(s, th, t);
      }
      RankKept(s.recs, s'.recs, s.view, s.rank, s.queued);
    }
  }

  lemma PointPlaces(s: State, th: nat, t: nat)
    requires t < |Apply(s, Point(th)).recs| && (t < |s.recs| ==> IsThere(s, t))
    requires th in s.batches && s.batches[th].chain != [] && s.batches[th].pending == Nil && !s.batches[th].closed
    ensures IsThere(Apply(s, Point(th)), t)
  {
  }

  lemma PointedBatch(s: State, th: nat, stuck: int)
    requires th in s.batches && BatchOk(s, th, stuck) && s.batches[th].pending == Nil && !s.batches[th].closed
    ensures BatchOk(Apply(s, Point(th)), th, stuck)
  {
    var l, recs := s.batches[th].chain, Apply(s, Point(th)).recs;
    forall i: nat | i < |l| ensures NextOk(recs, l, i, To(|s.recs|), stuck) && PrevOk(recs, l, i, stuck) {
      assert NextOk(s.recs, l, i, Nil, stuck) && PrevOk(s.recs, l, i, stuck);
    }
  }

  lemma HandRepresents(s: State, th: nat, stuck: int)
    requires Represents(s, stuck)
    ensures Represents(Apply(s, Hand(th)), stuck)
  {
    var s' := Apply(s, Hand(th));
    if th in s.batches {
      assert BatchOk(s, th, stuck);
    }
    if s'.recs != s.recs {
      HandedOut(s, th, stuck);
      HandOthers(s, th, stuck);
      forall t: nat | t < |s'.recs| ensures IsThere(s', t) {
        HandPlaces(s, th, t, stuck);
      }
      RankKept(s.recs, s'.recs, s.view, s.rank, s.queued);
    }
  }

  lemma HandOthers(s: State, th: nat, stuck: int)
    requires Represents(s, stuck)
    ensures var s' := Apply(s, Hand(th));
      && QueueOk(s', stuck)
      && (forall u: nat {:trigger BatchOk(s', u, stuck)} :: u != th && u in s'.batches ==> BatchOk(s', u, stuck))
      && |s.recs| <= |s'.recs|
      && forall t :: 0 <= t < |s.recs| && !s.recs[t].place.Borrowed? ==> s'.recs[t].place == s.recs[t].place
  {
    if th in s.batches {
      assert BatchOk(s, th, stuck);
    }
    OthersKept(s, Apply(s, Hand(th)), th, stuck);
  }

  lemma HandPlaces(s: State, th: nat, t: nat, stuck: int)
    requires Represents(s, stuck) && t < |Apply(s, Hand(th)).recs|
    ensures IsThere(Apply(s, Hand(th)), t)
  {
    var s' := Apply(s, Hand(th));
    if th in s.batches {
      assert BatchOk(s, th, stuck);
    }
    if t < |s.recs| {
      assert IsThere(s, t);
      if s'.recs[t].place != s.recs[t].place {
        assert Last(s'.batches[th].chain) == t;
      }
    } else {
      assert s'.batches[th].chain == [t];
    }
  }

  /** A chain that points to a new record, which points back now. */
  lemma Extended(recs: seq<Rec>, l: seq<nat>, id: nat, th: nat, stuck: int)
    requires IsChain(recs, l, To(id), stuck) && l != [] && IsPending(recs, To(id), th) && id !in l && id != stuck
    ensures IsChain(recs[id := Rec(Nil, To(Last(l)), Taking(th))], l + [id], Nil, stuck)
  {
    var recs', l' := recs[id := Rec(Nil, To(Last(l)), Taking(th))], l + [id];
    forall i: nat | i < |l'| ensures NextOk(recs', l', i, Nil, stuck) && PrevOk(recs', l', i, stuck) {
      if i < |l| {
        assert NextOk(recs, l, i, To(id), stuck) && PrevOk(recs, l, i, stuck);
      }
    }
  }

  lemma HandedOut(s: State, th: nat, stuck: int)
    requires th in s.batches ==> BatchOk(s, th, stuck) && s.batches[th].pending.To?
    requires stuck < |s.recs| && (stuck >= 0 ==> !s.recs[stuck].place.Borrowed?)
    ensures BatchOk(Apply(s, Hand(th)), th, stuck)
  {
    var s' := Apply(s, Hand(th));
    if th in s.batches {
      var b := s.batches[th];
      assert b.pending.id !in b.chain;
      Extended(s.recs, b.chain, b.pending.id, th, stuck);
      assert s'.batches[th].chain == b.chain + [b.pending.id];
    } else {
      var id := |s.recs|;
      assert s'.batches[th].chain == [id];
      assert NextOk(s'.recs, [id], 0, Nil, stuck) && PrevOk(s'.recs, [id], 0, stuck);
    }
  }

  lemma CloseRepresents(s: State, th: nat, stuck: int)
    requires Represents(s, stuck)
    ensures Represents(Apply(s, Close(th)), stuck)
  {
    var s' := Apply(s, Close(th));
    if s' != s {
      assert BatchOk(s, th, stuck);
      ClosedBatch(s, th, stuck);
      OthersKept(s, s', th, stuck);
      forall t: nat | t < |s'.recs| ensures IsThere(s', t) {
        assert IsThere(s, t);
      }
    }
  }

  lemma ClosedBatch(s: State, th: nat, stuck: int)
    requires th in s.batches && BatchOk(s, th, stuck) && s.batches[th].pending == Nil
    ensures BatchOk(Apply(s, Close(th)), th, stuck)
  {
    var s' := Apply(s, Close(th));
    var l := s.batches[th].chain;
    forall i: nat | i < |l| ensures NextOk(s'.recs, l, i, Tail, stuck) && PrevOk(s'.recs, l, i, stuck) {
      assert NextOk(s.recs, l, i, After(s.batches[th]), stuck) && PrevOk(s.recs, l, i, stuck);
    }
  }

  /** What linking chain c behind queue l changes. */
  ghost predicate Joins(recs: seq<Rec>, recs': seq<Rec>, l: seq<nat>, c: seq<nat>)
    requires c != []
  {
    && |recs'| == |recs|
    && forall t: nat {:trigger recs'[t]} :: t < |recs| ==>
         recs'[t] == Rec(if l != [] && t == Last(l) then To(c[0]) else recs[t].next,
                         if t != c[0] then recs[t].prev else if l == [] then Nil else To(Last(l)),
                         if t in c then Linked else recs[t].place)
  }

  lemma LinkJoins(recs: seq<Rec>, tailPrev: Ptr, l: seq<nat>, c: seq<nat>)
    requires c != [] && tailPrev == if l == [] then Nil else To(Last(l))
    ensures Joins(recs, LinkRecs(recs, tailPrev, c), l, c)
  {
  }

  lemma JoinedChain(recs: seq<Rec>, recs': seq<Rec>, l: seq<nat>, c: seq<nat>, stuck: int)
    requires IsChain(recs, l, Tail, stuck) && IsChain(recs, c, Tail, stuck) && c != [] && Joins(recs, recs', l, c)
    requires forall i :: 0 <= i < |l| ==> l[i] !in c
    ensures IsChain(recs', l + c, Tail, stuck)
  {
    var all := l + c;
    forall i: nat | i < |all|
      ensures all[i] < |recs'| && NextOk(recs', all, i, Tail, stuck) && PrevOk(recs', all, i, stuck)
    {
      if i < |l| {
        assert all[i] == l[i] && NextOk(recs, l, i, Tail, stuck) && PrevOk(recs, l, i, stuck);
      } else {
        assert all[i] == c[i - |l|] && NextOk(recs, c, i - |l|, Tail, stuck) && PrevOk(recs, c, i - |l|, stuck);
      }
    }
  }

  /** What the locked part of take does to a closed batch. */
  ghost predicate LinkEffect(s: State, s': State, th: nat) {
    && th in s.batches && s.batches[th].chain != [] && s.batches[th].closed
    && var c := s.batches[th].chain;
    var v := s.view.(linked := s.view.linked + c);
    && Joins(s.recs, s'.recs, s.view.linked, c)
    && s'.tailPrev == To(Last(c)) && s'.batches == s.batches - {th}
    && s'.view == (if s.view.linked == [] && c[0] !in v.called then Call(v, c[0]) else v)
    && s'.rank == Ranked(s.rank, c, s.queued) && s'.queued == s.queued + |c|
    && s'.flagged == s.flagged && s'.finishing == s.finishing
  }

  lemma LinkHasEffect(s: State, th: nat, stuck: int)
    requires QueueOk(s, stuck) && th in s.batches && s.batches[th].closed && BatchOk(s, th, stuck)
    ensures LinkEffect(s, Apply(s, Link(th)), th)
  {
    LinkJoins(s.recs, s.tailPrev, s.view.linked, s.batches[th].chain);
  }

  lemma LinkedQueue(s: State, s': State, th: nat, stuck: int)
    requires QueueOk(s, stuck) && LinkEffect(s, s', th) && BatchOk(s, th, stuck)
    ensures QueueOk(s', stuck)
  {
    var l, c := s.view.linked, s.batches[th].chain;
    JoinedChain(s.recs, s'.recs, l, c, stuck);
    assert s'.view.linked == l + c;
  }

  lemma {:induction false} RankedIs(rank: map<nat, nat>, l: seq<nat>, n: nat)
    requires forall i, j :: 0 <= i < j < |l| ==> l[i] != l[j]
    ensures forall t :: t in Ranked(rank, l, n) <==> t in rank || t in l
    ensures forall t :: t in rank && t !in l ==> Ranked(rank, l, n)[t] == rank[t]
    ensures forall i :: 0 <= i < |l| ==> Ranked(rank, l, n)[l[i]] == n + i
  {
    if l != [] {
      var m := |l| - 1;
      RankedIs(rank, l[..m], n);
      assert l == l[..m] + [l[m]];
    }
  }

  lemma LinkedRank(recs: seq<Rec>, recs': seq<Rec>, v: View<nat>, c: seq<nat>, rank: map<nat, nat>, queued: nat)
    requires RankOk(recs, v, rank, queued) && c != [] && Joins(recs, recs', v.linked, c)
    requires forall i :: 0 <= i < |c| ==> c[i] < |recs| && recs[c[i]].place.Taking?
    requires forall i, j :: 0 <= i < j < |c| ==> c[i] != c[j]
    ensures RankOk(recs', v.(linked := v.linked + c), Ranked(rank, c, queued), queued + |c|)
    ensures c[0] in Ranked(rank, c, queued)
    ensures forall t :: t in rank ==> t in Ranked(rank, c, queued) && Ranked(rank, c, queued)[t] == rank[t]
    ensures forall t :: t in Ranked(rank, c, queued) && t !in rank ==> t in c && Ranked(rank, c, queued)[t] >= queued
  {
    var rank' := Ranked(rank, c, queued);
    RankedIs(rank, c, queued);
    forall t | t in rank ensures t !in c {
    }
    forall t | t in rank'
      ensures t < |recs'| && WasLinked(recs'[t].place) && rank'[t] < queued + |c|
      ensures (t !in rank ==> rank'[t] >= queued) {
      if t in c {
        var i :| 0 <= i < |c| && c[i] == t;
      }
    }
    QueueRanks(v.linked, c, rank, rank', queued);
    assert c[0] in c;
  }

  lemma QueueRanks(l: seq<nat>, c: seq<nat>, rank: map<nat, nat>, rank': map<nat, nat>, queued: nat)
    requires forall i :: 0 <= i < |l| ==>
               l[i] in rank && rank[l[i]] < queued && l[i] in rank' && rank'[l[i]] == rank[l[i]]
    requires forall i, j :: 0 <= i < j < |l| ==> rank[l[i]] < rank[l[j]]
    requires forall i :: 0 <= i < |c| ==> c[i] in rank' && rank'[c[i]] == queued + i
    ensures forall i :: 0 <= i < |l + c| ==> (l + c)[i] in rank'
    ensures forall i, j :: 0 <= i < j < |l + c| ==> rank'[(l + c)[i]] < rank'[(l + c)[j]]
  {
    var all := l + c;
    forall i | 0 <= i < |all|
      ensures all[i] in rank' && rank'[all[i]] == if i < |l| then rank[l[i]] else queued + i - |l|
    {
      assert all[i] == if i < |l| then l[i] else c[i - |l|];
    }
  }

  lemma RankCalled(recs: seq<Rec>, v: View<nat>, rank: map<nat, nat>, queued: nat, t: nat)
    requires RankOk(recs, v, rank, queued) && t in rank
    ensures RankOk(recs, Call(v, t), rank, queued)
  {
  }

  lemma LinkEffectRank(s: State, s': State, th: nat, stuck: int)
    requires RankOk(s.recs, s.view, s.rank, s.queued) && LinkEffect(s, s', th) && BatchOk(s, th, stuck)
    ensures RankOk(s'.recs, s'.view, s'.rank, s'.queued)
  {
    var c := s.batches[th].chain;
    var v := s.view.(linked := s.view.linked + c);
    LinkedRank(s.recs, s'.recs, s.view, c, s.rank, s.queued);
    RankCalled(s'.recs, v, s'.rank, s'.queued, c[0]);
  }

  lemma LinkRepresents(s: State, s': State, th: nat, stuck: int)
    requires Represents(s, stuck) && LinkEffect(s, s', th)
    ensures Represents(s', stuck)
  {
    assert BatchOk(s, th, stuck);
    LinkedQueue(s, s', th, stuck);
    LinkEffectRank(s, s', th, stuck);
    LinkOthers(s, s', th, stuck);
    forall t: nat | t < |s'.recs| ensures IsThere(s', t) {
      assert IsThere(s, t);
      LinkPlaces(s, s', th, t, stuck);
    }
  }

  lemma LinkPlaces(s: State, s': State, th: nat, t: nat, stuck: int)
    requires LinkEffect(s, s', th) && BatchOk(s, th, stuck) && t < |s.recs| && IsThere(s, t)
    ensures IsThere(s', t)
  {
  }

  lemma LinkOthers(s: State, s': State, th: nat, stuck: int)
    requires Represents(s, stuck) && LinkEffect(s, s', th)
    ensures forall u: nat {:trigger BatchOk(s', u, stuck)} :: u in s'.batches ==> BatchOk(s', u, stuck)
  {
    assert BatchOk(s, th, stuck);
    assert OthersStay(s, s', th);
    BatchesKept(s, s', th, stuck);
  }

  /** Which record done calls next. */
  function CallNext(r: Rec): Ptr {
    if r.prev == Nil then r.next else Nil
  }

  /** What is the same whichever list a ticket leaves. */
  ghost predicate LeaveEffect(s: State, s': State, t: nat, l: seq<nat>, i: nat, l': seq<nat>, after: Ptr, stuck: int) {
    && t < |s.recs| == |s'.recs| && i < |l| && l[i] == t && Drops(l, i, l') && IsChain(s'.recs, l', after, stuck)
    && s'.recs[t].place == Left
    && (forall u: nat {:trigger s'.recs[u]} :: u < |s.recs| && u != t ==> s'.recs[u].place == s.recs[u].place)
    && (forall u: nat {:trigger SameRec(s.recs, s'.recs, u)} :: u < |s.recs| && u !in l ==> SameRec(s.recs, s'.recs, u))
    && s'.tailPrev == (if after == Tail && i + 1 == |l| then s.recs[t].prev else s.tailPrev)
    && s'.rank == s.rank && s'.queued == s.queued && s'.flagged == s.flagged && s'.finishing == s.finishing - {t}
    && s'.view.called == CallTo(s.view, CallNext(s.recs[t])).called
    && s'.view.log == CallTo(s.view, CallNext(s.recs[t])).log
  }

  ghost predicate LeaveQueue(s: State, s': State, t: nat, i: nat, stuck: int) {
    LeaveEffect(s, s', t, s.view.linked, i, s'.view.linked, Tail, stuck) && s'.batches == s.batches
  }

  ghost predicate LeaveBatch(s: State, s': State, t: nat, th: nat, i: nat, stuck: int) {
    && th in s.batches && th in s'.batches
    && s'.batches == s.batches[th := s.batches[th].(chain := s'.batches[th].chain)]
    && 0 < i < |s.batches[th].chain| - 1 && s'.view.linked == s.view.linked
    && LeaveEffect(s, s', t, s.batches[th].chain, i, s'.batches[th].chain, After(s.batches[th]), stuck)
  }

  lemma LeavesChain(s: State, t: nat, l: seq<nat>, after: Ptr, stuck: int) returns (i: nat)
    requires IsChain(s.recs, l, after, stuck) && t in l && t != stuck && t < |s.recs| && (after.To? ==> t != Last(l))
    ensures var recs := UnlinkRecs(s.recs, t);
      var recs' := recs[t := recs[t].(place := Left)];
      var l' := Without(l, t);
      && i < |l| && l[i] == t && Drops(l, i, l') && IsChain(recs', l', after, stuck) && recs'[t].place == Left
      && (forall u: nat {:trigger recs'[u]} :: u < |s.recs| && u != t ==> recs'[u].place == s.recs[u].place)
      && (forall u: nat {:trigger SameRec(s.recs, recs', u)} :: u < |s.recs| && u !in l ==> SameRec(s.recs, recs', u))
      && UnlinkTail(s.recs, s.tailPrev, t) == (if after == Tail && i + 1 == |l| then s.recs[t].prev else s.tailPrev)
  {
    i :| 0 <= i < |l| && l[i] == t;
    WithoutAt(l, i);
    var l', recs := Without(l, t), UnlinkRecs(s.recs, t);
    UnlinkJoins(s.recs, l, i, after, stuck);
    Unlinked(s.recs, recs, l, i, l', after, stuck);
    var recs' := recs[t := recs[t].(place := Left)];
    DropsMembers(l, i, l');
    forall k | 0 <= k < |l'| ensures SamePointers(recs, recs', l'[k]) {
    }
    ChainKept(recs, recs', l', after, stuck);
    forall u: nat | u < |s.recs| && u !in l ensures SameRec(s.recs, recs', u) {
      assert SameRec(s.recs, recs, u);
    }
  }

  /** What the locked part of done does besides taking the ticket out of its list. */
  ghost predicate Finishes(s: State, s': State, t: nat)
    requires t < |s.recs|
  {
    var recs := UnlinkRecs(s.recs, t);
    && s'.recs == recs[t := recs[t].(place := Left)] && s'.tailPrev == UnlinkTail(s.recs, s.tailPrev, t)
    && s'.rank == s.rank && s'.queued == s.queued && s'.flagged == s.flagged && s'.finishing == s.finishing - {t}
    && s'.view.called == CallTo(s.view, CallNext(s.recs[t])).called
    && s'.view.log == CallTo(s.view, CallNext(s.recs[t])).log
  }

  lemma FinishesLinked(s: State, t: nat)
    requires t in s.finishing && t < |s.recs| && s.recs[t].place == Linked
    ensures var s' := Apply(s, Lock(t));
            Finishes(s, s', t) && s'.view.linked == Without(s.view.linked, t) && s'.batches == s.batches
  {
  }

  lemma FinishesInside(s: State, t: nat, th: nat)
    requires th in s.batches && t in s.finishing && t < |s.recs| && s.recs[t].place == Taking(th)
    requires Inside(s.batches[th].chain, t)
    ensures var s' := Apply(s, Lock(t));
      && Finishes(s, s', t) && s'.view.linked == s.view.linked
      && s'.batches == s.batches[th := s.batches[th].(chain := Without(s.batches[th].chain, t))]
  {
  }

  lemma LockLeavesQueue(s: State, s': State, t: nat, stuck: int) returns (i: nat)
    requires QueueOk(s, stuck) && t < |s.recs| && s.recs[t].place == Linked && IsThere(s, t) && t != stuck
    requires Finishes(s, s', t) && s'.view.linked == Without(s.view.linked, t) && s'.batches == s.batches
    ensures LeaveQueue(s, s', t, i, stuck)
  {
    i := LeavesChain(s, t, s.view.linked, Tail, stuck);
  }

  lemma LockLeavesBatch(s: State, s': State, t: nat, th: nat, stuck: int) returns (i: nat)
    requires th in s.batches && BatchOk(s, th, stuck) && t < |s.recs| && t != stuck && Inside(s.batches[th].chain, t)
    requires Finishes(s, s', t) && s'.view.linked == s.view.linked
    requires s'.batches == s.batches[th := s.batches[th].(chain := Without(s.batches[th].chain, t))]
    ensures LeaveBatch(s, s', t, th, i, stuck)
  {
    i := LeavesChain(s, t, s.batches[th].chain, After(s.batches[th]), stuck);
  }

  /** The record called next by a linked ticket that leaves is the second in the queue; otherwise there is none. */
  lemma CallsSecond(s: State, l: seq<nat>, i: nat, after: Ptr, stuck: int)
    requires IsChain(s.recs, l, after, stuck) && i < |l| && l[i] != stuck && (after.To? ==> |l| > 1)
    ensures CallNext(s.recs[l[i]]).To? ==> i == 0 && |l| > 1 && CallNext(s.recs[l[i]]) == To(l[1])
    ensures i == 0 && |l| > 1 && l[1] != stuck ==> CallNext(s.recs[l[i]]) == To(l[1])
  {
    assert NextOk(s.recs, l, i, after, stuck) && PrevOk(s.recs, l, i, stuck);
  }

  lemma LeaveQueueRepresents(s: State, s': State, t: nat, i: nat, stuck: int)
    requires Represents(s, stuck) && LeaveQueue(s, s', t, i, stuck) && t in s.finishing
    ensures Represents(s', stuck)
  {
    var l, l' := s.view.linked, s'.view.linked;
    CallsSecond(s, l, i, Tail, stuck);
    DropsMembers(l, i, l');
    assert PrevOk(s.recs, l, i, stuck);
    BatchesKept(s, s', -1, stuck);
    LeaveQueueRank(s, s', t, i, stuck);
    forall u: nat | u < |s'.recs| ensures IsThere(s', u) {
      assert IsThere(s, u);
    }
  }

  lemma LeaveQueueRank(s: State, s': State, t: nat, i: nat, stuck: int)
    requires QueueOk(s, stuck) && RankOk(s.recs, s.view, s.rank, s.queued) && LeaveQueue(s, s', t, i, stuck)
    requires t != stuck
    ensures RankOk(s'.recs, s'.view, s'.rank, s'.queued)
  {
    CallsSecond(s, s.view.linked, i, Tail, stuck);
  }

  lemma LeaveBatchRepresents(s: State, s': State, t: nat, th: nat, i: nat, stuck: int)
    requires Represents(s, stuck) && LeaveBatch(s, s', t, th, i, stuck) && t in s.finishing
    ensures Represents(s', stuck) && s'.view == s.view
  {
    assert BatchOk(s, th, stuck);
    var l, l' := s.batches[th].chain, s'.batches[th].chain;
    CallsSecond(s, l, i, After(s.batches[th]), stuck);
    DropsMembers(l, i, l');
    OthersKept(s, s', th, stuck);
    LeftBatchOk(s, s', t, th, i, stuck);
    forall u: nat | u < |s'.recs| ensures IsThere(s', u) {
      assert IsThere(s, u);
    }
  }

  lemma LeftBatchOk(s: State, s': State, t: nat, th: nat, i: nat, stuck: int)
    requires th in s.batches && BatchOk(s, th, stuck) && LeaveBatch(s, s', t, th, i, stuck)
    ensures BatchOk(s', th, stuck)
  {
    DropsMembers(s.batches[th].chain, i, s'.batches[th].chain);
    if s.batches[th].pending.To? {
      assert SameRec(s.recs, s'.recs, s.batches[th].pending.id);
    }
  }

  // ------------------------------------------------------------------ runs in which done comes after the link

  /** Tickets are called in the order linked; those linked and called are the first alone. */
  ghost predicate CallsOk(v: View<nat>, rank: map<nat, nat>) {
    && (forall t :: t in v.log <==> t in v.called) && (forall t :: t in v.called ==> t in rank)
    && (forall i, j :: 0 <= i < j < |v.log| ==> v.log[i] in rank && v.log[j] in rank && rank[v.log[i]] < rank[v.log[j]])
    && (v.linked != [] ==>
          && v.linked[0] in v.called && v.linked[0] in rank
          && forall t :: t in v.called ==> rank[t] <= rank[v.linked[0]])
  }

  /** Every ticket is in the queue or its batch until done has had the lock. */
  ghost predicate DoneOk(s: State) {
    forall t: nat {:trigger s.recs[t].place} :: t < |s.recs| ==>
      (s.recs[t].place.Left? <==> t in s.flagged && t !in s.finishing)
  }

  ghost predicate Inv(s: State) {
    Represents(s, NOBODY) && CallsOk(s.view, s.rank) && DoneOk(s)
  }

  lemma HandKeepsInv(s: State, th: nat)
    requires Inv(s)
    ensures Inv(Apply(s, Hand(th)))
  {
    HandRepresents(s, th, NOBODY);
    HandOthers(s, th, NOBODY);
    if th in s.batches {
      assert BatchOk(s, th, NOBODY);
    }
    HandDone(s, Apply(s, Hand(th)), th);
  }

  lemma HandDone(s: State, s': State, th: nat)
    requires FlagsOk(s, NOBODY) && DoneOk(s) && s' == Apply(s, Hand(th))
    requires th in s.batches ==> BatchOk(s, th, NOBODY)
    ensures DoneOk(s')
  {
  }

  lemma PointKeepsInv(s: State, th: nat)
    requires Inv(s)
    ensures Inv(Apply(s, Point(th)))
  {
    PointRepresents(s, th, NOBODY);
    var s' := Apply(s, Point(th));
    assert forall t: nat :: t < |s.recs| ==> s'.recs[t].place == s.recs[t].place;
  }

  lemma CloseKeepsInv(s: State, th: nat)
    requires Inv(s)
    ensures Inv(Apply(s, Close(th)))
  {
    CloseRepresents(s, th, NOBODY);
    var s' := Apply(s, Close(th));
    assert forall t: nat :: t < |s.recs| ==> s'.recs[t].place == s.recs[t].place;
  }

  lemma LinkCalls(v: View<nat>, v': View<nat>, c: seq<nat>, rank: map<nat, nat>, rank': map<nat, nat>, queued: nat)
    requires CallsOk(v, rank) && c != [] && c[0] !in rank
    requires forall t :: t in rank ==> t in rank' && rank'[t] == rank[t] && rank[t] < queued
    requires c[0] in rank' && rank'[c[0]] >= queued
    requires v' == var v1 := v.(linked := v.linked + c); if v.linked == [] then Call(v1, c[0]) else v1
    ensures CallsOk(v', rank')
  {
    assert forall i :: 0 <= i < |v.log| ==> v.log[i] in v.log;
  }

  lemma LinkKeepsCalls(s: State, s': State, th: nat)
    requires Inv(s) && LinkEffect(s, s', th)
    ensures CallsOk(s'.view, s'.rank)
  {
    var c := s.batches[th].chain;
    assert BatchOk(s, th, NOBODY);
    LinkedRank(s.recs, s'.recs, s.view, c, s.rank, s.queued);
    LinkCalls(s.view, s'.view, c, s.rank, s'.rank, s.queued);
  }

  lemma LinkKeepsInv(s: State, th: nat)
    requires Inv(s)
    ensures Inv(Apply(s, Link(th)))
  {
    if th in s.batches && s.batches[th].closed {
      assert BatchOk(s, th, NOBODY);
      LinkHasEffect(s, th, NOBODY);
      var s' := Apply(s, Link(th));
      LinkRepresents(s, s', th, NOBODY);
      LinkKeepsCalls(s, s', th);
    }
  }

  lemma ExchangeKeepsInv(s: State, t: nat)
    requires Inv(s)
    ensures Inv(Apply(s, Exchange(t)))
  {
    var s' := Apply(s, Exchange(t));
    forall th: nat | th in s'.batches ensures BatchOk(s', th, NOBODY) {
      assert BatchOk(s, th, NOBODY);
    }
    forall u: nat | u < |s'.recs| ensures IsThere(s', u) {
      assert IsThere(s, u);
    }
  }

  lemma LeaveCalls(v: View<nat>, v': View<nat>, i: nat, rank: map<nat, nat>)
    requires CallsOk(v, rank) && Drops(v.linked, i, v'.linked)
    requires forall i, j :: 0 <= i < j < |v.linked| ==>
               v.linked[i] in rank && v.linked[j] in rank && rank[v.linked[i]] < rank[v.linked[j]]
    requires var next := if i == 0 && |v.linked| > 1 then To(v.linked[1]) else Nil;
      v'.called == CallTo(v, next).called && v'.log == CallTo(v, next).log
    ensures CallsOk(v', rank)
  {
    assert forall i :: 0 <= i < |v.log| ==> v.log[i] in v.log;
  }

  lemma LeaveKeepsInv(s: State, s': State, t: nat, i: nat)
    requires Inv(s) && LeaveQueue(s, s', t, i, NOBODY) && t in s.finishing
    ensures Inv(s')
  {
    LeaveQueueRepresents(s, s', t, i, NOBODY);
    CallsSecond(s, s.view.linked, i, Tail, NOBODY);
    LeaveCalls(s.view, s'.view, i, s.rank);
  }

  lemma LockLinkedKeepsInv(s: State, t: nat)
    requires Inv(s) && t in s.finishing && s.recs[t].place == Linked
    ensures Inv(Apply(s, Lock(t)))
  {
    assert IsThere(s, t);
    FinishesLinked(s, t);
    var i := LockLeavesQueue(s, Apply(s, Lock(t)), t, NOBODY);
    LeaveKeepsInv(s, Apply(s, Lock(t)), t, i);
  }

  lemma LockInsideKeepsInv(s: State, t: nat, th: nat)
    requires Inv(s) && t in s.finishing && s.recs[t].place == Taking(th) && th in s.batches
    requires Inside(s.batches[th].chain, t)
    ensures Inv(Apply(s, Lock(t)))
  {
    assert BatchOk(s, th, NOBODY);
    FinishesInside(s, t, th);
    var s' := Apply(s, Lock(t));
    var i := LockLeavesBatch(s, s', t, th, NOBODY);
    LeaveBatchRepresents(s, s', t, th, i, NOBODY);
  }

  lemma LockKeepsInv(s: State, t: nat)
    requires Inv(s) && Harmless(s, Lock(t))
    ensures Inv(Apply(s, Lock(t)))
  {
    if t in s.finishing {
      match s.recs[t].place {
        case Linked => LockLinkedKeepsInv(s, t);
        case Taking(th) => LockInsideKeepsInv(s, t, th);
        case _ =>
      }
    }
  }

  lemma StepKeepsInv(s: State, a: Step)
    requires Inv(s) && Harmless(s, a)
    ensures Inv(Apply(s, a))
  {
    match a {
      case Point(th) => PointKeepsInv(s, th);
      case Hand(th) => HandKeepsInv(s, th);
      case Close(th) => CloseKeepsInv(s, th);
      case Link(th) => LinkKeepsInv(s, th);
      case Exchange(t) => ExchangeKeepsInv(s, t);
      case Lock(t) => LockKeepsInv(s, t);
    }
  }

  lemma {:induction false} RunInv(steps: seq<Step>)
    requires HarmlessFrom(Init(), steps)
    ensures Inv(Run(steps))
  {
    if steps != [] {
      var n := |steps| - 1;
      Runs.AllOkPrefix(Apply, Harmless, Init(), steps, n);
      RunInv(steps[..n]);
      StepKeepsInv(Run(steps[..n]), steps[n]);
    }
  }

  /** Of the tickets in the queue exactly the first is called, and none that take has not linked yet. */
  lemma ExactlyFirstCalled(steps: seq<Step>, t: nat)
    requires HarmlessFrom(Init(), steps) && t < |Run(steps).recs|
    ensures var s := Run(steps);
      && (t in s.view.linked ==> (t in s.view.called <==> t == s.view.linked[0]))
      && (!WasLinked(s.recs[t].place) ==> t !in s.view.called)
  {
    RunInv(steps);
    var v := Run(steps).view;
    if t in v.linked {
      var i :| 0 <= i < |v.linked| && v.linked[i] == t;
    }
  }

  /** Tickets are called in the order linked, none twice, and none while one before it is unfinished. */
  lemma CalledInOrder(steps: seq<Step>)
    requires HarmlessFrom(Init(), steps)
    ensures var s := Run(steps);
      && (forall i, j :: 0 <= i < j < |s.view.log| ==>
            s.view.log[i] in s.rank && s.view.log[j] in s.rank && s.rank[s.view.log[i]] < s.rank[s.view.log[j]])
      && (forall t, u :: t in s.view.log && u in s.rank && t in s.rank && s.rank[u] < s.rank[t] ==> u !in s.view.linked)
  {
    RunInv(steps);
    var s := Run(steps);
    forall t, i | t in s.view.called && 0 <= i < |s.view.linked| ensures s.rank[t] <= s.rank[s.view.linked[i]] {
    }
  }

  /**
   Nothing gets stuck: with no done() under way, a ticket in the queue
   means that a called one has not seen done().
   */
  lemma SomeTicketIsUp(steps: seq<Step>, t: nat)
    requires HarmlessFrom(Init(), steps) && Run(steps).finishing == {} && t in Run(steps).view.linked
    ensures var s := Run(steps);
      var first := s.view.linked[0];
      && first in s.view.called && first !in s.flagged && first in s.rank && t in s.rank && s.rank[first] <= s.rank[t]
  {
    RunInv(steps);
    var s := Run(steps);
    var i :| 0 <= i < |s.view.linked| && s.view.linked[i] == t;
    assert s.recs[s.view.linked[0]].place == Linked;
  }

  /** A ticket is in the queue, or on its way there, exactly until done has had the lock for it. */
  lemma NoTicketLost(steps: seq<Step>, t: nat)
    requires HarmlessFrom(Init(), steps) && t < |Run(steps).recs|
    ensures var s := Run(steps);
      t !in s.flagged || t in s.finishing <==> t in s.view.linked || OnItsWay(s, t)
  {
    RunInv(steps);
    assert IsThere(Run(steps), t);
  }

  /** The ticket is in the batch of a take under way, or the next one to be handed out there. */
  ghost predicate OnItsWay(s: State, t: nat)
    requires t < |s.recs|
  {
    var p := s.recs[t].place;
    && (p.Taking? || p.Borrowed?) && p.thread in s.batches
    && if p.Taking? then t in s.batches[p.thread].chain else s.batches[p.thread].pending == To(t)
  }

  // ------------------------------------------------------------------ what callers see

  /** The ticket is linked, and done has not finished for it. */
  predicate Waits(s: State, t: nat) {
    t in s.rank && (t !in s.flagged || t in s.finishing)
  }

  predicate IsFirstWaiting(s: State, t: nat)
    requires t in s.rank
  {
    forall u :: u in s.rank && Waits(s, u) ==> s.rank[t] <= s.rank[u]
  }

  /** No ticket is called before its link, and of those that wait exactly the one linked first is called. */
  ghost predicate CallsRight(s: State) {
    && (forall t :: t in s.view.called ==> t in s.rank)
    && (forall t: nat {:trigger Waits(s, t)} :: Waits(s, t) ==> (t in s.view.called <==> IsFirstWaiting(s, t)))
  }

  lemma WaitingAreQueued(s: State, t: nat)
    requires Inv(s)
    ensures Waits(s, t) <==> t in s.view.linked
  {
    if Waits(s, t) {
      assert IsThere(s, t) && WasLinked(s.recs[t].place) && !s.recs[t].place.Left?;
    }
  }

  lemma InvCallsRight(s: State)
    requires Inv(s)
    ensures CallsRight(s)
  {
    forall t: nat | Waits(s, t) ensures t in s.view.called <==> IsFirstWaiting(s, t) {
      WaitingAreQueued(s, t);
      FirstIsCalled(s, t);
    }
  }

  lemma FirstIsCalled(s: State, t: nat)
    requires Inv(s) && t in s.view.linked
    ensures t in s.view.called <==> IsFirstWaiting(s, t)
  {
    var l := s.view.linked;
    var i :| 0 <= i < |l| && l[i] == t;
    WaitingAreQueued(s, l[0]);
    assert l[0] in l;
    if i == 0 {
      forall u | u in s.rank && Waits(s, u) ensures s.rank[t] <= s.rank[u] {
        WaitingAreQueued(s, u);
        var j :| 0 <= j < |l| && l[j] == u;
      }
    }
  }

  lemma {:induction false} InvFrom(s: State, steps: seq<Step>)
    requires Inv(s) && HarmlessFrom(s, steps)
    ensures Inv(From(s, steps))
  {
    if steps != [] {
      var n := |steps| - 1;
      Runs.AllOkPrefix(Apply, Harmless, s, steps, n);
      InvFrom(s, steps[..n]);
      StepKeepsInv(From(s, steps[..n]), steps[n]);
    }
  }

  /** Every done is called for a ticket whose take has returned, or is about to: it has been linked. */
  ghost predicate DoneAfterTake(steps: seq<Step>) {
    forall k :: 0 <= k < |steps| && steps[k].Exchange? ==> steps[k].ticket in Run(steps[..k]).rank
  }

  /** Then it never gets the lock too early, and calls are right in every interleaving. */
  lemma {:induction false} DoneAfterTakeIsRight(steps: seq<Step>)
    requires DoneAfterTake(steps)
    ensures HarmlessFrom(Init(), steps) && CallsRight(Run(steps))
    ensures forall t :: t in Run(steps).finishing ==> t < |Run(steps).recs| && Run(steps).recs[t].place == Linked
  {
    if steps != [] {
      var n := |steps| - 1;
      DoneBefore(steps, n);
      DoneAfterTakeIsRight(steps[..n]);
      RunInv(steps[..n]);
      assert steps == steps[..n] + [steps[n]];
      Runs.AllOkMore(Apply, Harmless, Init(), steps[..n], steps[n]);
      FinishingLinked(Run(steps[..n]), steps[n]);
    }
    RunInv(steps);
    InvCallsRight(Run(steps));
  }

  lemma DoneBefore(steps: seq<Step>, n: nat)
    requires DoneAfterTake(steps) && n <= |steps|
    ensures DoneAfterTake(steps[..n])
    ensures n < |steps| && steps[n].Exchange? ==> steps[n].ticket in Run(steps[..n]).rank
  {
    forall k | 0 <= k < n && steps[..n][k].Exchange? ensures steps[..n][k].ticket in Run(steps[..n][..k]).rank {
      assert steps[..n][..k] == steps[..k] && steps[k].ticket in Run(steps[..k]).rank;
    }
  }

  lemma FinishingLinked(s: State, a: Step)
    requires Inv(s) && forall t :: t in s.finishing ==> t < |s.recs| && s.recs[t].place == Linked
    requires a.Exchange? ==> a.ticket in s.rank
    ensures var s' := Apply(s, a); forall t :: t in s'.finishing ==> t < |s'.recs| && s'.recs[t].place == Linked
  {
    var s' := Apply(s, a);
    match a {
      case Point(th) => PointPlacesStay(s, th);
      case Hand(th) =>
        if th in s.batches {
          assert BatchOk(s, th, NOBODY);
        }
        HandOthers(s, th, NOBODY);
      case Close(th) =>
      case Link(th) =>
        if th in s.batches && s.batches[th].closed {
          assert BatchOk(s, th, NOBODY);
          LinkHasEffect(s, th, NOBODY);
        }
      case Exchange(t) =>
      case Lock(t) =>
        if t in s.finishing {
          assert IsThere(s, t);
          FinishesLinked(s, t);
          var i := LockLeavesQueue(s, s', t, NOBODY);
        }
    }
  }

  lemma PointPlacesStay(s: State, th: nat)
    ensures var s' := Apply(s, Point(th));
      && |s.recs| <= |s'.recs| && s'.finishing == s.finishing
      && forall t :: 0 <= t < |s.recs| ==> s'.recs[t].place == s.recs[t].place
  {
  }

  /**
   A harmless critical section of done reads and writes the pointers of its ticket and one each of its neighbours;
   none of them is a pointer that a take under way may write without the lock: the next of its last record and
   the prev of the one it has borrowed.
   */
  lemma CriticalSectionsApart(s: State, t: nat, th: nat)
    requires Inv(s) && t in s.finishing && Harmless(s, Lock(t)) && th in s.batches && s.batches[th].chain != []
    ensures var last, next := Last(s.batches[th].chain), s.batches[th].pending;
      t != last && To(t) != next && s.recs[t].prev != To(last) && (next == Nil || s.recs[t].next != next)
  {
    assert BatchOk(s, th, NOBODY) && IsThere(s, t);
    match s.recs[t].place {
      case Linked => NeighboursWithin(s.recs, s.view.linked, Tail, t);
      case Taking(u) =>
        assert BatchOk(s, u, NOBODY);
        NeighboursWithin(s.recs, s.batches[u].chain, After(s.batches[u]), t);
    }
  }

  lemma NeighboursWithin(recs: seq<Rec>, l: seq<nat>, after: Ptr, t: nat)
    requires IsChain(recs, l, after, NOBODY) && t in l && (after.To? ==> t != Last(l))
    ensures recs[t].prev == Nil || (recs[t].prev.To? && recs[t].prev.id in l && recs[t].prev.id != Last(l))
    ensures recs[t].next.To? ==> recs[t].next.id in l
  {
    var i :| 0 <= i < |l| && l[i] == t;
    assert NextOk(recs, l, i, after, NOBODY) && PrevOk(recs, l, i, NOBODY);
  }
}

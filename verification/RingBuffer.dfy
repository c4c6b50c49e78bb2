/**
 The ring buffer: two ever-growing counters over a fixed array.  First as an object used by one thread,
 then shared by one producer and one consumer that interleave at every load, element copy and publication.
 */
module RingBuffer {
  import opened Modulo

  function Min(a: nat, b: nat): nat {
    if a < b then a else b
  }

  /** Where position i of the stream is kept. */
  function Slot(i: nat, capacity: nat): (s: nat)
    requires capacity > 0
    ensures s < capacity
  {
    i % capacity
  }

  /** Positions up to the end of the array lie behind each other. */
  lemma SlotPlus(i: nat, j: nat, capacity: nat)
    requires capacity > 0 && Slot(i, capacity) + j < capacity
    ensures Slot(i + j, capacity) == Slot(i, capacity) + j
  {
    Euclid(i, capacity);
    ModUnique(i + j, capacity, i / capacity, i % capacity + j);
  }

  /** The elements at positions r..w of the stream. */
  function Stored<T>(slots: seq<T>, r: nat, w: nat): (c: seq<T>)
    requires |slots| > 0 && r <= w
    ensures |c| == w - r && forall i :: 0 <= i < w - r ==> c[i] == slots[Slot(r + i, |slots|)]
  {
    seq(w - r, i requires 0 <= i < w - r => slots[Slot(r + i, |slots|)])
  }

  /** slots' holds `part` from slot index on, and is otherwise like slots. */
  predicate Written<T(==)>(slots: seq<T>, index: nat, part: seq<T>, slots': seq<T>) {
    && |slots'| == |slots| && index + |part| <= |slots|
    && forall k :: 0 <= k < |slots| ==> slots'[k] == if index <= k < index + |part| then part[k - index] else slots[k]
  }

  /** Writing behind the last element, into free slots, appends. */
  lemma StoredAppend<T>(slots: seq<T>, r: nat, w: nat, part: seq<T>, slots': seq<T>)
    requires |slots| > 0 && r <= w && w + |part| <= r + |slots| && Written(slots, Slot(w, |slots|), part, slots')
    ensures Stored(slots', r, w + |part|) == Stored(slots, r, w) + part
  {
    var n, index := |slots|, Slot(w, |slots|);
    forall i | 0 <= i < w - r + |part| ensures Stored(slots', r, w + |part|)[i] == (Stored(slots, r, w) + part)[i] {
      if i >= w - r {
        SlotPlus(w, i - (w - r), n);
      } else if index <= Slot(r + i, n) < index + |part| {
        var j := Slot(r + i, n) - index;
        SlotPlus(w, j, n);
        RemaindersDiffer(r + i, w + j, n);
      }
    }
  }

  /** Reading elements in one piece takes them from the front. */
  lemma StoredFront<T>(slots: seq<T>, r: nat, w: nat, n: nat)
    requires |slots| > 0 && r + n <= w && Slot(r, |slots|) + n <= |slots|
    ensures var index := Slot(r, |slots|); Stored(slots, r, w) == slots[index..index + n] + Stored(slots, r + n, w)
  {
    var index := Slot(r, |slots|);
    var c := slots[index..index + n] + Stored(slots, r + n, w);
    forall i | 0 <= i < w - r ensures Stored(slots, r, w)[i] == c[i] {
      if i < n {
        SlotPlus(r, i, |slots|);
      } else {
        assert c[i] == Stored(slots, r + n, w)[i - n];
      }
    }
  }

  // ------------------------------------------------------------------ used by one thread

  class Ring<T> {
    const data: array<T>
    var readIndex: nat
    var writeIndex: nat

    ghost predicate Valid()
      reads this
    {
      data.Length > 0 && readIndex <= writeIndex <= readIndex + data.Length
    }

    /** What was pushed and not yet popped, in order. */
    ghost function Contents(): (c: seq<T>)
      requires Valid()
      reads this, data
      ensures |c| == writeIndex - readIndex
    {
      Stored(data[..], readIndex, writeIndex)
    }

    constructor (data: array<T>)
      requires data.Length > 0
      ensures Valid() && this.data == data && Contents() == []
    {
      this.data, readIndex, writeIndex := data, 0, 0;
    }

    /** The slot of a position, and how many of `available` elements lie in one piece from there. */
    method Ptr(position: nat, available: nat, wanted: nat) returns (index: nat, count: nat)
      requires data.Length > 0
      ensures index == Slot(position, data.Length) && index + count <= data.Length
      ensures count <= wanted && count <= available && (count == 0 ==> wanted == 0 || available == 0)
      ensures count == wanted || count == available || index + count == data.Length
    {
      index := position % data.Length;
      var spaceUntilEnd := data.Length - index;
      var continuous := Min(available, spaceUntilEnd);
      count := Min(wanted, continuous);
    }

    /** push_range: stores as much of the source as there is room for, around the end of the array if need be. */
    method PushRange(source: seq<T>) returns (written: nat)
      requires Valid()
      modifies this`writeIndex, data
      ensures Valid() && written == Min(|source|, data.Length - |old(Contents())|)
      ensures Contents() == old(Contents()) + source[..written]
    {
      written := 0;
      ghost var was := Contents();
      var more := true;
      while more
        invariant Valid() && 0 <= written <= |source| && readIndex == old(readIndex)
        invariant Contents() == was + source[..written]
        invariant !more ==> written == Min(|source|, data.Length - |was|)
        decreases more, |source| - written
      {
        var index, batch := Ptr(writeIndex, data.Length - (writeIndex - readIndex), |source| - written);
        if batch == 0 {
          return;
        }
        var part := source[written..written + batch];
        Store(index, part);
        assert source[..written + batch] == source[..written] + part;
        Assoc(was, source[..written], part);
        written := written + batch;
        more := written != |source|;
      }
    }

    /** memcpy and write_ptr_update */
    method Store(index: nat, part: seq<T>)
      requires Valid() && index == Slot(writeIndex, data.Length) && index + |part| <= data.Length
      requires writeIndex + |part| <= readIndex + data.Length
      modifies this`writeIndex, data
      ensures Valid() && Contents() == old(Contents()) + part
    {
      forall j | 0 <= j < |part| {
        data[index + j] := part[j];
      }
      StoredAppend(old(data[..]), readIndex, writeIndex, part, data[..]);
      writeIndex := writeIndex + |part|;
    }

    /** pop_range: hands out as many elements as asked for and available. */
    method PopRange(wanted: nat) returns (out: seq<T>)
      requires Valid()
      modifies this`readIndex
      ensures Valid() && |out| == Min(wanted, |old(Contents())|)
      ensures old(Contents()) == out + Contents()
    {
      out := [];
      ghost var was := Contents();
      var more := true;
      while more
        invariant Valid() && |out| <= wanted
        invariant was == out + Contents()
        invariant !more ==> |out| == Min(wanted, |was|)
        decreases more, wanted - |out|
      {
        var index, batch := Ptr(readIndex, writeIndex - readIndex, wanted - |out|);
        if batch == 0 {
          return;
        }
        var part := Load(index, batch);
        Assoc(out, part, Contents());
        out := out + part;
        more := |out| != wanted;
      }
    }

    /** memcpy and read_ptr_update */
    method Load(index: nat, n: nat) returns (part: seq<T>)
      requires Valid() && index == Slot(readIndex, data.Length) && index + n <= data.Length
      requires n <= writeIndex - readIndex
      modifies this`readIndex
      ensures Valid() && |part| == n && old(Contents()) == part + Contents()
    {
      StoredFront(data[..], readIndex, writeIndex, n);
      assert data[index..index + n] == data[..][index..index + n];
      part := data[index..index + n];
      readIndex := readIndex + n;
    }
  }

  lemma Assoc<T>(a: seq<T>, b: seq<T>, c: seq<T>)
    ensures a + (b + c) == (a + b) + c
  {
  }

  // ------------------------------------------------------------------ one producer, one consumer

  /** The producer, inside push_range: which elements, how many are already published, the batch being copied. */
  datatype Producer<T> =
    | PIdle
    | PLoad(source: seq<T>, written: nat)
    | PCopy(source: seq<T>, written: nat, batch: nat, copied: nat)

  datatype Consumer =
    | CIdle
    | CLoad(wanted: nat, read: nat)
    | CCopy(wanted: nat, read: nat, batch: nat, copied: nat)

  /** `sent` is what the producer has copied in so far, `received` what the consumer has copied out. */
  datatype State<T> = State(slots: seq<T>, read: nat, write: nat, prod: Producer<T>, cons: Consumer, sent: seq<T>,
                            received: seq<T>)

  datatype Action<T> = Push(source: seq<T>) | Pop(wanted: nat) | Produce | Consume

  function Batch(capacity: nat, position: nat, available: int, wanted: int): nat
    requires capacity > 0
  {
    if available <= 0 || wanted <= 0 then 0 else Min(wanted, Min(available, capacity - Slot(position, capacity)))
  }

  /** One atomic operation of the producer: load the read index, copy one element, or publish. */
  function ProduceStep<T>(s: State<T>): State<T>
    requires |s.slots| > 0
  {
    var n := |s.slots|;
    match s.prod
    case PIdle => s
    case PLoad(source, written) =>
      var batch := Batch(n, s.write, n - (s.write - s.read), |source| - written);
      s.(prod := if batch == 0 then PIdle else PCopy(source, written, batch, 0))
    case PCopy(source, written, batch, copied) =>
      if copied < batch && written + copied < |source| && Slot(s.write, n) + copied < n then
        s.(slots := s.slots[Slot(s.write, n) + copied := source[written + copied]],
           sent := s.sent + [source[written + copied]],
           prod := PCopy(source, written, batch, copied + 1))
      else
        s.(write := s.write + batch,
           prod := if written + batch == |source| then PIdle else PLoad(source, written + batch))
  }

  function ConsumeStep<T>(s: State<T>): State<T>
    requires |s.slots| > 0
  {
    var n := |s.slots|;
    match s.cons
    case CIdle => s
    case CLoad(wanted, read) =>
      var batch := Batch(n, s.read, s.write - s.read, wanted - read);
      s.(cons := if batch == 0 then CIdle else CCopy(wanted, read, batch, 0))
    case CCopy(wanted, read, batch, copied) =>
      if copied < batch && Slot(s.read, n) + copied < n then
        s.(received := s.received + [s.slots[Slot(s.read, n) + copied]], cons := CCopy(wanted, read, batch, copied + 1))
      else
        s.(read := s.read + batch, cons := if read + batch == wanted then CIdle else CLoad(wanted, read + batch))
  }

  function Apply<T>(s: State<T>, a: Action<T>): (s': State<T>)
    requires |s.slots| > 0
    ensures |s'.slots| == |s.slots|
  {
    match a
    case Push(source) => if s.prod.PIdle? then s.(prod := PLoad(source, 0)) else s
    case Pop(wanted) => if s.cons.CIdle? then s.(cons := CLoad(wanted, 0)) else s
    case Produce => ProduceStep(s)
    case Consume => ConsumeStep(s)
  }

  function Run<T>(slots: seq<T>, actions: seq<Action<T>>): (s: State<T>)
    requires |slots| > 0
    ensures |s.slots| == |slots|
  {
    if actions == [] then State(slots, 0, 0, PIdle, CIdle, [], [])
    else Apply(Run(slots, actions[..|actions| - 1]), actions[|actions| - 1])
  }

  function Copied<T>(p: Producer<T>): nat {
    if p.PCopy? then p.copied else 0
  }

  function CopiedOut(c: Consumer): nat {
    if c.CCopy? then c.copied else 0
  }

  /** The producer's batch is a piece of free slots. */
  predicate ProducerOk<T>(s: State<T>)
    requires |s.slots| > 0
  {
    match s.prod
    case PIdle => true
    case PLoad(source, written) => written <= |source|
    case PCopy(source, written, batch, copied) =>
      && copied <= batch && batch > 0 && written + batch <= |source|
      && s.write + batch <= s.read + |s.slots| && Slot(s.write, |s.slots|) + batch <= |s.slots|
  }

  /** The consumer's batch is a piece of published elements. */
  predicate ConsumerOk<T>(s: State<T>)
    requires |s.slots| > 0
  {
    match s.cons
    case CIdle => true
    case CLoad(wanted, read) => read <= wanted
    case CCopy(wanted, read, batch, copied) =>
      && copied <= batch && batch > 0 && read + batch <= wanted
      && s.read + batch <= s.write && Slot(s.read, |s.slots|) + batch <= |s.slots|
  }

  ghost predicate Inv<T>(s: State<T>) {
    && |s.slots| > 0 && s.read <= s.write <= s.read + |s.slots|
    && ProducerOk(s) && ConsumerOk(s)
    && |s.sent| == s.write + Copied(s.prod) && |s.received| == s.read + CopiedOut(s.cons)
    && |s.received| <= |s.sent|
    && (forall i :: 0 <= i < |s.received| ==> s.received[i] == s.sent[i])
    && (forall i :: s.read <= i < |s.sent| ==> s.slots[Slot(i, |s.slots|)] == s.sent[i])
  }

  lemma CopyInKeepsInv<T>(s: State<T>)
    requires Inv(s) && s.prod.PCopy? && s.prod.copied < s.prod.batch
    ensures Inv(ProduceStep(s))
  {
    var n, w := |s.slots|, s.write + s.prod.copied;
    SlotPlus(s.write, s.prod.copied, n);
    forall i | s.read <= i < |s.sent| ensures Slot(i, n) != Slot(w, n) {
      RemaindersDiffer(i, w, n);
    }
  }

  lemma CopyOutKeepsInv<T>(s: State<T>)
    requires Inv(s) && s.cons.CCopy? && s.cons.copied < s.cons.batch
    ensures Inv(ConsumeStep(s))
  {
    SlotPlus(s.read, s.cons.copied, |s.slots|);
  }

  lemma ProduceKeepsInv<T>(s: State<T>)
    requires Inv(s)
    ensures Inv(ProduceStep(s))
  {
    if s.prod.PCopy? && s.prod.copied < s.prod.batch {
      CopyInKeepsInv(s);
    }
  }

  lemma ConsumeKeepsInv<T>(s: State<T>)
    requires Inv(s)
    ensures Inv(ConsumeStep(s))
  {
    if s.cons.CCopy? && s.cons.copied < s.cons.batch {
      CopyOutKeepsInv(s);
    }
  }

  lemma ApplyKeepsInv<T>(s: State<T>, a: Action<T>)
    requires Inv(s)
    ensures Inv(Apply(s, a))
  {
    match a {
      case Produce => ProduceKeepsInv(s);
      case Consume => ConsumeKeepsInv(s);
      case _ =>
    }
  }

  lemma {:induction false} RunInv<T>(slots: seq<T>, actions: seq<Action<T>>)
    requires |slots| > 0
    ensures Inv(Run(slots, actions))
  {
    if actions != [] {
      RunInv(slots, actions[..|actions| - 1]);
      ApplyKeepsInv(Run(slots, actions[..|actions| - 1]), actions[|actions| - 1]);
    }
  }

  /**
   In every interleaving what comes out is a prefix of what went in, and
   the write index is at most the capacity ahead.
   */
  lemma OutputIsPrefixOfInput<T>(slots: seq<T>, actions: seq<Action<T>>)
    requires |slots| > 0
    ensures var s := Run(slots, actions);
      s.received <= s.sent && s.read <= s.write <= s.read + |slots|
  {
    RunInv(slots, actions);
  }

  /** In every interleaving the slots being written and the slots being read are different. */
  lemma {:induction false} NoSlotShared<T>(slots: seq<T>, actions: seq<Action<T>>, i: nat, j: nat)
    requires |slots| > 0
    requires var s := Run(slots, actions); s.prod.PCopy? && i < s.prod.batch && s.cons.CCopy? && j < s.cons.batch
    ensures var s := Run(slots, actions); Slot(s.write, |slots|) + i != Slot(s.read, |slots|) + j
  {
    RunInv(slots, actions);
    BatchesApart(Run(slots, actions), i, j);
  }

  lemma BatchesApart<T>(s: State<T>, i: nat, j: nat)
    requires Inv(s) && s.prod.PCopy? && i < s.prod.batch && s.cons.CCopy? && j < s.cons.batch
    ensures Slot(s.write, |s.slots|) + i != Slot(s.read, |s.slots|) + j
  {
    SlotPlus(s.write, i, |s.slots|);
    SlotPlus(s.read, j, |s.slots|);
    RemaindersDiffer(s.read + j, s.write + i, |s.slots|);
  }

  lemma RunMore<T>(slots: seq<T>, actions: seq<Action<T>>, a: Action<T>)
    requires |slots| > 0
    ensures Run(slots, actions + [a]) == Apply(Run(slots, actions), a)
  {
    assert (actions + [a])[..|actions|] == actions;
  }

  /** The call that the last action of `start` made has not returned before the last action of `more`. */
  predicate Pushing<T>(slots: seq<T>, start: seq<Action<T>>, more: seq<Action<T>>)
    requires |slots| > 0
    decreases |more|
  {
    more != [] ==>
      var front := more[..|more| - 1];
      !Run(slots, start + front).prod.PIdle? && Pushing(slots, start, front)
  }

  /**
   Since `sent` was all that had gone in, a prefix of the source has
   followed, as long as the producer has counted.
   */
  ghost predicate SentSoFar<T>(s: State<T>, sent: seq<T>, source: seq<T>) {
    && |sent| <= |s.sent| <= |sent| + |source| && s.sent == sent + source[..|s.sent| - |sent|]
    && (!s.prod.PIdle? ==> s.prod.source == source && s.prod.written + Copied(s.prod) == |s.sent| - |sent|)
  }

  /** What a push_range call has sent so far is the beginning of its source. */
  lemma {:induction false} SentFromSource<T>(slots: seq<T>, before: seq<Action<T>>, source: seq<T>,
                                             more: seq<Action<T>>)
    requires |slots| > 0 && Run(slots, before).prod.PIdle? && Pushing(slots, before + [Push(source)], more)
    ensures SentSoFar(Run(slots, before + [Push(source)] + more), Run(slots, before).sent, source)
    decreases |more|
  {
    var start := before + [Push(source)];
    if more == [] {
      assert start + more == start;
      RunMore(slots, before, Push(source));
      assert source[..0] == [];
    } else {
      var front := more[..|more| - 1];
      SentFromSource(slots, before, source, front);
      RunInv(slots, start + front);
      OneMoreSent(Run(slots, start + front), more[|more| - 1], Run(slots, before).sent, source);
      RunMore(slots, start + front, more[|more| - 1]);
      assert start + more == (start + front) + [more[|more| - 1]];
    }
  }

  lemma OneMoreSent<T>(s: State<T>, a: Action<T>, sent: seq<T>, source: seq<T>)
    requires Inv(s) && !s.prod.PIdle? && SentSoFar(s, sent, source)
    ensures SentSoFar(Apply(s, a), sent, source)
  {
  }

  /** Everything of the source has gone in, or the ring was full. */
  ghost predicate PushedOrFull<T>(before: State<T>, last: State<T>, after: State<T>, source: seq<T>)
    requires |last.slots| > 0
  {
    after.sent == before.sent + source || last.write - last.read == |last.slots|
  }

  /**
   A push_range call returns when all of its source has gone in, or when the last load of the call has found the
   ring full: in every interleaving.
   */
  lemma {:induction false} ReturnsWhenFull<T>(slots: seq<T>, before: seq<Action<T>>, source: seq<T>,
                                              more: seq<Action<T>>)
    requires |slots| > 0 && Run(slots, before).prod.PIdle?
    requires more != [] && Pushing(slots, before + [Push(source)], more)
    requires Run(slots, before + [Push(source)] + more).prod.PIdle?
    ensures PushedOrFull(Run(slots, before), Run(slots, before + [Push(source)] + more[..|more| - 1]),
                         Run(slots, before + [Push(source)] + more), source)
  {
    var start, front := before + [Push(source)], more[..|more| - 1];
    SentFromSource(slots, before, source, front);
    RunInv(slots, start + front);
    LastStep(slots, start, more);
    PushEnds(Run(slots, start + front), more[|more| - 1], Run(slots, before).sent, source);
  }

  lemma {:induction false} LastStep<T>(slots: seq<T>, start: seq<Action<T>>, more: seq<Action<T>>)
    requires |slots| > 0 && more != []
    ensures var n := |more| - 1; Run(slots, start + more) == Apply(Run(slots, start + more[..n]), more[n])
  {
    var n := |more| - 1;
    RunMore(slots, start + more[..n], more[n]);
    assert start + more == (start + more[..n]) + [more[n]];
  }

  lemma PushEnds<T>(s: State<T>, a: Action<T>, sent: seq<T>, source: seq<T>)
    requires Inv(s) && !s.prod.PIdle? && Apply(s, a).prod.PIdle? && SentSoFar(s, sent, source)
    ensures a.Produce? && (Apply(s, a).sent == sent + source || s.write - s.read == |s.slots|)
  {
    OneMoreSent(s, a, sent, source);
    assert source[..|source|] == source;
  }

  /** As Pushing, for the consumer. */
  predicate Popping<T>(slots: seq<T>, start: seq<Action<T>>, more: seq<Action<T>>)
    requires |slots| > 0
    decreases |more|
  {
    more != [] ==>
      var front := more[..|more| - 1];
      !Run(slots, start + front).cons.CIdle? && Popping(slots, start, front)
  }

  /** Since `received` was all that had come out, so many elements have followed, at most as many as wanted. */
  ghost predicate ReceivedSoFar<T>(s: State<T>, received: seq<T>, wanted: nat) {
    && received <= s.received && |s.received| <= |received| + wanted
    && (!s.cons.CIdle? ==>
          s.cons.wanted == wanted && s.cons.read + CopiedOut(s.cons) == |s.received| - |received|)
  }

  lemma {:induction false} ReceivedInOrder<T>(slots: seq<T>, before: seq<Action<T>>, wanted: nat,
                                              more: seq<Action<T>>)
    requires |slots| > 0 && Run(slots, before).cons.CIdle? && Popping(slots, before + [Pop(wanted)], more)
    ensures ReceivedSoFar(Run(slots, before + [Pop(wanted)] + more), Run(slots, before).received, wanted)
    decreases |more|
  {
    var start := before + [Pop(wanted)];
    if more == [] {
      assert start + more == start;
      RunMore(slots, before, Pop(wanted));
    } else {
      var front := more[..|more| - 1];
      ReceivedInOrder(slots, before, wanted, front);
      RunInv(slots, start + front);
      OneMoreReceived(Run(slots, start + front), more[|more| - 1], Run(slots, before).received, wanted);
      RunMore(slots, start + front, more[|more| - 1]);
      assert start + more == (start + front) + [more[|more| - 1]];
    }
  }

  lemma OneMoreReceived<T>(s: State<T>, a: Action<T>, received: seq<T>, wanted: nat)
    requires Inv(s) && !s.cons.CIdle? && ReceivedSoFar(s, received, wanted)
    ensures ReceivedSoFar(Apply(s, a), received, wanted)
  {
  }

  /** A pop_range call returns when it has got all it wanted, or when its last load has found the ring empty. */
  lemma {:induction false} ReturnsWhenEmpty<T>(slots: seq<T>, before: seq<Action<T>>, wanted: nat,
                                               more: seq<Action<T>>)
    requires |slots| > 0 && Run(slots, before).cons.CIdle?
    requires more != [] && Popping(slots, before + [Pop(wanted)], more)
    requires Run(slots, before + [Pop(wanted)] + more).cons.CIdle?
    ensures var last := Run(slots, before + [Pop(wanted)] + more[..|more| - 1]);
            var got := |Run(slots, before + [Pop(wanted)] + more).received| - |Run(slots, before).received|;
            got == wanted || (0 <= got < wanted && last.write == last.read)
  {
    var start, front := before + [Pop(wanted)], more[..|more| - 1];
    ReceivedInOrder(slots, before, wanted, front);
    RunInv(slots, start + front);
    LastStep(slots, start, more);
    PopEnds(Run(slots, start + front), more[|more| - 1], Run(slots, before).received, wanted);
  }

  lemma PopEnds<T>(s: State<T>, a: Action<T>, received: seq<T>, wanted: nat)
    requires Inv(s) && !s.cons.CIdle? && Apply(s, a).cons.CIdle? && ReceivedSoFar(s, received, wanted)
    ensures a.Consume? && |received| <= |Apply(s, a).received| <= |received| + wanted
    ensures |Apply(s, a).received| == |received| + wanted || s.write == s.read
  {
    OneMoreReceived(s, a, received, wanted);
  }

  /** How much a call has left to do. */
  function PushLeft<T>(p: Producer<T>): int {
    match p
    case PIdle => 0
    case PLoad(source, written) => 3 * (|source| - written) + 1
    case PCopy(source, written, _, copied) => 3 * (|source| - written) - copied
  }

  function PopLeft(c: Consumer): int {
    match c
    case CIdle => 0
    case CLoad(wanted, read) => 3 * (wanted - read) + 1
    case CCopy(wanted, read, _, copied) => 3 * (wanted - read) - copied
  }

  /** In every interleaving each step of a call brings it nearer to its end, and nobody else holds it up. */
  lemma CallsGoOn<T>(slots: seq<T>, actions: seq<Action<T>>)
    requires |slots| > 0
    ensures var s := Run(slots, actions);
            && (!s.prod.PIdle? ==> 0 <= PushLeft(ProduceStep(s).prod) < PushLeft(s.prod))
            && (!s.cons.CIdle? ==> 0 <= PopLeft(ConsumeStep(s).cons) < PopLeft(s.cons))
  {
    RunInv(slots, actions);
  }

  /** A call begins with its whole source, or with nothing received; it touches nothing else. */
  lemma CallsBegin<T>(slots: seq<T>, actions: seq<Action<T>>, source: seq<T>, wanted: nat)
    requires |slots| > 0
    ensures var s := Run(slots, actions);
            && (s.prod.PIdle? ==> Run(slots, actions + [Push(source)]) == s.(prod := PLoad(source, 0)))
            && (s.cons.CIdle? ==> Run(slots, actions + [Pop(wanted)]) == s.(cons := CLoad(wanted, 0)))
  {
    RunMore(slots, actions, Push(source));
    RunMore(slots, actions, Pop(wanted));
  }
}

/**
 The DAG runner: building a graph of work with counters for the nodes that have several parents, and
 running it on any number of scheduled tasks, one counter operation at a time.
 */
module Dag {
  import opened Basics

  /** The outgoing edges of every node, the counter of every node with several parents, and the initial counts. */
  datatype Graph = Graph(outs: seq<seq<nat>>, counter: seq<Option<nat>>, initial: seq<nat>)

  const ROOT := 0

  // ------------------------------------------------------------------ counting edges

  /** How often v is among the first n elements of l. */
  function Count(l: seq<nat>, n: nat, v: nat): nat {
    if n == 0 then 0 else Count(l, n - 1, v) + if n <= |l| && l[n - 1] == v then 1 else 0
  }

  /** Edges into v from the first n nodes. */
  function In(outs: seq<seq<nat>>, v: nat, n: nat): nat
    requires n <= |outs|
  {
    if n == 0 then 0 else In(outs, v, n - 1) + Count(outs[n - 1], |outs[n - 1]|, v)
  }

  /** Those among them that were followed, when sent[u] edges of node u were. */
  function Arrived(outs: seq<seq<nat>>, sent: seq<nat>, v: nat, n: nat): nat
    requires n <= |outs| == |sent|
  {
    if n == 0 then 0 else Arrived(outs, sent, v, n - 1) + Count(outs[n - 1], sent[n - 1], v)
  }

  lemma {:induction false} CountGrows(l: seq<nat>, m: nat, n: nat, v: nat)
    requires m <= n
    ensures Count(l, m, v) <= Count(l, n, v)
  {
    if m < n {
      CountGrows(l, m, n - 1, v);
    }
  }

  lemma {:induction false} CountHas(l: seq<nat>, n: nat, v: nat, i: nat)
    requires i < n && i < |l| && l[i] == v
    ensures Count(l, n, v) > 0
  {
    if i < n - 1 {
      CountHas(l, n - 1, v, i);
    }
  }

  lemma {:induction false} CountNone(l: seq<nat>, n: nat, v: nat)
    requires v !in l
    ensures Count(l, n, v) == 0
  {
    if n > 0 {
      CountNone(l, n - 1, v);
    }
  }

  ghost predicate SentOk(outs: seq<seq<nat>>, sent: seq<nat>) {
    |outs| == |sent| && forall u :: 0 <= u < |outs| ==> sent[u] <= |outs[u]|
  }

  lemma {:induction false} ArrivedAtMost(outs: seq<seq<nat>>, sent: seq<nat>, v: nat, n: nat)
    requires SentOk(outs, sent) && n <= |outs|
    ensures Arrived(outs, sent, v, n) <= In(outs, v, n)
  {
    if n > 0 {
      ArrivedAtMost(outs, sent, v, n - 1);
      CountGrows(outs[n - 1], sent[n - 1], |outs[n - 1]|, v);
    }
  }

  /** While an edge into v is left to follow, not everything has arrived. */
  lemma {:induction false} OneMissing(outs: seq<seq<nat>>, sent: seq<nat>, v: nat, n: nat, u: nat, i: nat)
    requires SentOk(outs, sent) && u < n <= |outs| && sent[u] <= i < |outs[u]| && outs[u][i] == v
    ensures Arrived(outs, sent, v, n) < In(outs, v, n)
  {
    if u < n - 1 {
      OneMissing(outs, sent, v, n - 1, u, i);
      CountGrows(outs[n - 1], sent[n - 1], |outs[n - 1]|, v);
    } else {
      ArrivedAtMost(outs, sent, v, n - 1);
      CountGrows(outs[u], sent[u], i, v);
      CountGrows(outs[u], i + 1, |outs[u]|, v);
    }
  }

  /** When every parent has followed all its edges, everything has arrived. */
  lemma {:induction false} ArrivedFromAll(outs: seq<seq<nat>>, sent: seq<nat>, v: nat, n: nat)
    requires n <= |outs| == |sent| && forall u :: 0 <= u < n && v in outs[u] ==> sent[u] == |outs[u]|
    ensures Arrived(outs, sent, v, n) == In(outs, v, n)
  {
    if n > 0 {
      ArrivedFromAll(outs, sent, v, n - 1);
      if v !in outs[n - 1] {
        CountNone(outs[n - 1], sent[n - 1], v);
        CountNone(outs[n - 1], |outs[n - 1]|, v);
      }
    }
  }

  lemma {:induction false} ArrivedSend(outs: seq<seq<nat>>, sent: seq<nat>, v: nat, n: nat, u: nat, sent': seq<nat>)
    requires n <= |outs| == |sent| == |sent'| && u < |outs| && sent[u] < |outs[u]|
    requires forall x :: 0 <= x < |sent| ==> sent'[x] == if x == u then sent[u] + 1 else sent[x]
    ensures Arrived(outs, sent', v, n) == Arrived(outs, sent, v, n) + if u < n && outs[u][sent[u]] == v then 1 else 0
  {
    if n > 0 {
      ArrivedSend(outs, sent, v, n - 1, u, sent');
    }
  }

  lemma {:induction false} NothingArrived(outs: seq<seq<nat>>, sent: seq<nat>, v: nat, n: nat)
    requires n <= |outs| == |sent| && forall u :: 0 <= u < n ==> sent[u] == 0
    ensures Arrived(outs, sent, v, n) == 0
  {
    if n > 0 {
      NothingArrived(outs, sent, v, n - 1);
    }
  }

  function Ins(g: Graph, v: nat): nat {
    In(g.outs, v, |g.outs|)
  }

  /** The counters a built graph has: one for each node with several parents, none for the others. */
  ghost predicate Built(g: Graph) {
    && |g.outs| == |g.counter| > 0
    && (forall u, k :: 0 <= u < |g.outs| && 0 <= k < |g.outs[u]| ==> g.outs[u][k] < |g.outs|)
    && (forall v :: 0 <= v < |g.outs| ==>
          (if Ins(g, v) > 1 then
             g.counter[v].Some? && g.counter[v].value < |g.initial| && g.initial[g.counter[v].value] == Ins(g, v)
           else g.counter[v].None?))
    && (forall u, v :: 0 <= u < v < |g.outs| && g.counter[u].Some? ==> g.counter[u] != g.counter[v])
  }

  // ------------------------------------------------------------------ running

  /** What a task is doing; `next` is the node it will go on with. */
  datatype Task = Work(node: nat) | Edges(node: nat, k: nat, next: Option<nat>) | Ended

  /** History: where a node is. */
  datatype Status = Waiting | Held(t: nat) | Ready(t: nat) | Sending(t: nat) | Finished

  /** Task 0 is the caller of run; the others are scheduled, and counted by the wait group. */
  datatype State = State(tasks: seq<Task>, counters: seq<int>, wg: int, log: seq<nat>, status: seq<Status>,
                         sent: seq<nat>)

  function Init(g: Graph): State
    requires |g.outs| > 0
  {
    State([Work(ROOT)], g.initial, 0, [],
          seq(|g.outs|, v => if v == ROOT then Ready(0) else Waiting), seq(|g.outs|, _ => 0))
  }

  function Set<T>(s: seq<T>, i: nat, x: T): (r: seq<T>)
    ensures |r| == |s| && forall k :: 0 <= k < |s| ==> r[k] == if k == i then x else s[k]
  {
    if i < |s| then s[i := x] else s
  }

  /** notify: has the last parent of w finished? */
  function Notify(g: Graph, counters: seq<int>, w: nat): (seq<int>, bool) {
    if w < |g.counter| && g.counter[w].Some? && g.counter[w].value < |counters| then
      var c := g.counter[w].value;
      (counters[c := counters[c] - 1], counters[c] - 1 == 0)
    else (counters, true)
  }

  /** One step of task t: run a node's work, follow one edge, or turn to the next node. */
  function Step(g: Graph, s: State, t: nat): State {
    if t >= |s.tasks| then s else
    match s.tasks[t]
    case Ended => s
    case Work(v) =>
      s.(tasks := s.tasks[t := Edges(v, 0, None)], log := s.log + [v], status := Set(s.status, v, Sending(t)))
    case Edges(v, k, next) =>
      if v < |g.outs| && k < |g.outs[v]| then FollowEdge(g, s, t, v, k, next)
      else if next.Some? then
        s.(tasks := s.tasks[t := Work(next.value)], status := Set(Set(s.status, v, Finished), next.value, Ready(t)))
      else
        s.(tasks := s.tasks[t := Ended], wg := s.wg - if t > 0 then 1 else 0, status := Set(s.status, v, Finished))
  }

  /** Notifies one child; if it may run, it becomes the next node, and the one before it gets a task of its own. */
  function FollowEdge(g: Graph, s: State, t: nat, v: nat, k: nat, next: Option<nat>): State
    requires t < |s.tasks| && v < |g.outs| && k < |g.outs[v]|
  {
    var w := g.outs[v][k];
    var (counters, ready) := Notify(g, s.counters, w);
    var s1 := s.(counters := counters, sent := Set(s.sent, v, k + 1));
    if !ready then s1.(tasks := s.tasks[t := Edges(v, k + 1, next)])
    else if next.None? then
      s1.(tasks := s.tasks[t := Edges(v, k + 1, Some(w))], status := Set(s.status, w, Held(t)))
    else
      s1.(tasks := s.tasks[t := Edges(v, k + 1, Some(w))] + [Work(next.value)], wg := s.wg + 1,
          status := Set(Set(s.status, next.value, Ready(|s.tasks|)), w, Held(t)))
  }

  function Run(g: Graph, schedule: seq<nat>): State
    requires |g.outs| > 0
  {
    if schedule == [] then Init(g)
    else Step(g, Run(g, schedule[..|schedule| - 1]), schedule[|schedule| - 1])
  }

  // ------------------------------------------------------------------ what every step keeps

  function Came(g: Graph, s: State, v: nat): nat {
    if |s.sent| == |g.outs| then Arrived(g.outs, s.sent, v, |g.outs|) else 0
  }

  ghost predicate TaskOk(s: State, t: nat) {
    t < |s.tasks| ==>
      match s.tasks[t]
      case Work(v) => v < |s.status| && s.status[v] == Ready(t)
      case Edges(v, k, next) =>
        && v < |s.status| && s.status[v] == Sending(t)
        && (next.Some? ==> next.value < |s.status| && s.status[next.value] == Held(t))
      case Ended => true
  }

  ghost predicate NodeOk(g: Graph, s: State, v: nat) {
    v < |g.outs| == |s.status| == |s.sent| == |g.counter| ==>
      && (s.status[v].Waiting? <==> v != ROOT && Came(g, s, v) < Ins(g, v))
      && (v in s.log <==> s.status[v].Sending? || s.status[v].Finished?)
      && (match s.status[v]
          case Waiting => s.sent[v] == 0
          case Held(t) => s.sent[v] == 0 && t < |s.tasks| && s.tasks[t].Edges? && s.tasks[t].next == Some(v)
          case Ready(t) => s.sent[v] == 0 && t < |s.tasks| && s.tasks[t] == Work(v)
          case Sending(t) =>
            && s.sent[v] <= |g.outs[v]| && t < |s.tasks| && s.tasks[t].Edges?
            && s.tasks[t].node == v && s.tasks[t].k == s.sent[v]
          case Finished => s.sent[v] == |g.outs[v]|)
      && (g.counter[v].Some? ==>
          g.counter[v].value < |s.counters| && s.counters[g.counter[v].value] == Ins(g, v) - Came(g, s, v))
  }

  /** No node twice, and every node behind its parents. */
  ghost predicate LogOk(g: Graph, log: seq<nat>) {
    && (forall i, j :: 0 <= i < j < |log| ==> log[i] != log[j])
    && (forall i {:trigger log[i]} :: 0 <= i < |log| ==> log[i] < |g.outs| && ParentsIn(g, log[i], log[..i]))
  }

  ghost predicate ParentsIn(g: Graph, v: nat, log: seq<nat>) {
    forall u :: 0 <= u < |g.outs| && v in g.outs[u] ==> u in log
  }

  function Active(tasks: seq<Task>): nat {
    if |tasks| <= 1 then 0 else Active(tasks[..|tasks| - 1]) + if tasks[|tasks| - 1].Ended? then 0 else 1
  }

  ghost predicate Inv(g: Graph, s: State) {
    && |g.outs| == |s.status| == |s.sent| && |s.tasks| > 0
    && (forall t {:trigger TaskOk(s, t)} :: 0 <= t < |s.tasks| ==> TaskOk(s, t))
    && (forall v {:trigger NodeOk(g, s, v)} :: 0 <= v < |g.outs| ==> NodeOk(g, s, v))
    && LogOk(g, s.log) && s.wg == Active(s.tasks)
  }

  /** Only the root has no parent. */
  ghost predicate Rooted(g: Graph) {
    Built(g) && forall v :: 0 <= v < |g.outs| ==> (Ins(g, v) == 0 <==> v == ROOT)
  }

  function Owner(st: Status): nat {
    match st
    case Held(t) => t
    case Ready(t) => t
    case Sending(t) => t
    case _ => 0
  }

  predicate HasOwner(st: Status) {
    st.Held? || st.Ready? || st.Sending?
  }

  /** A node that nothing in a step concerns. */
  lemma NodeSame(g: Graph, s: State, s': State, x: nat)
    requires NodeOk(g, s, x) && x < |g.outs| == |s.status| == |s.sent| == |s'.status| == |s'.sent| == |g.counter|
    requires s'.status[x] == s.status[x] && s'.sent[x] == s.sent[x] && Came(g, s', x) == Came(g, s, x)
    requires x in s'.log <==> x in s.log
    requires HasOwner(s.status[x]) ==> var t := Owner(s.status[x]);
             t < |s.tasks| ==> t < |s'.tasks| && s'.tasks[t] == s.tasks[t]
    requires g.counter[x].Some? && g.counter[x].value < |s.counters| ==>
               g.counter[x].value < |s'.counters| && s'.counters[g.counter[x].value] == s.counters[g.counter[x].value]
    ensures NodeOk(g, s', x)
  {
  }

  /** A node that is not waiting has been reached along all its edges. */
  lemma Reached(g: Graph, s: State, v: nat)
    requires Rooted(g) && Inv(g, s) && v < |g.outs| && !s.status[v].Waiting?
    ensures Came(g, s, v) == Ins(g, v)
    ensures SentOk(g.outs, s.sent)
  {
    forall u | 0 <= u < |g.outs| ensures s.sent[u] <= |g.outs[u]| {
      assert NodeOk(g, s, u);
    }
    assert NodeOk(g, s, v);
    ArrivedAtMost(g.outs, s.sent, v, |g.outs|);
  }

  lemma {:induction false} ActiveAfter(tasks: seq<Task>, tasks': seq<Task>, t: nat)
    requires |tasks| == |tasks'| && t < |tasks| && !tasks[t].Ended?
    requires forall i :: 0 <= i < |tasks| && i != t ==> tasks'[i] == tasks[i]
    ensures Active(tasks') == Active(tasks) - if t > 0 && tasks'[t].Ended? then 1 else 0
  {
    if |tasks| > 1 {
      var n := |tasks| - 1;
      if t < n {
        ActiveAfter(tasks[..n], tasks'[..n], t);
      } else {
        assert tasks'[..n] == tasks[..n];
      }
    }
  }

  lemma ActiveAppend(tasks: seq<Task>, x: Task)
    requires |tasks| > 0 && !x.Ended?
    ensures Active(tasks + [x]) == Active(tasks) + 1
  {
    assert (tasks + [x])[..|tasks|] == tasks;
  }

  /** A node whose turn it is has all its parents in the log. */
  lemma ParentsRan(g: Graph, s: State, v: nat)
    requires Rooted(g) && Inv(g, s) && v < |g.outs| && !s.status[v].Waiting?
    ensures ParentsIn(g, v, s.log)
  {
    Reached(g, s, v);
    forall u | 0 <= u < |g.outs| && v in g.outs[u] ensures u in s.log {
      assert NodeOk(g, s, u);
      if s.sent[u] == 0 {
        var i :| 0 <= i < |g.outs[u]| && g.outs[u][i] == v;
        OneMissing(g.outs, s.sent, v, |g.outs|, u, i);
      }
    }
  }

  lemma WorkKeepsInv(g: Graph, s: State, t: nat)
    requires Rooted(g) && Inv(g, s) && t < |s.tasks| && s.tasks[t].Work?
    ensures Inv(g, Step(g, s, t))
  {
    var v, s' := s.tasks[t].node, Step(g, s, t);
    assert TaskOk(s, t) && NodeOk(g, s, v);
    ActiveAfter(s.tasks, s'.tasks, t);
    ParentsRan(g, s, v);
    forall u | 0 <= u < |s'.tasks| ensures TaskOk(s', u) {
      assert TaskOk(s, u);
      if u != t {
        KeptHolder(g, s, t, u);
      }
    }
    forall x | 0 <= x < |g.outs| ensures NodeOk(g, s', x) {
      assert NodeOk(g, s, x);
      if x != v {
        NodeSame(g, s, s', x);
      }
    }
    LogMore(g, s.log, v);
  }

  lemma LogMore(g: Graph, log: seq<nat>, v: nat)
    requires LogOk(g, log) && v < |g.outs| && v !in log && ParentsIn(g, v, log)
    ensures LogOk(g, log + [v])
  {
    var log' := log + [v];
    forall i | 0 <= i < |log'| ensures log'[i] < |g.outs| && ParentsIn(g, log'[i], log'[..i]) {
      if i < |log| {
        assert log'[..i] == log[..i] && log'[i] == log[i];
      } else {
        assert log'[..i] == log;
      }
    }
  }

  /** Two tasks never hold the same node. */
  lemma KeptHolder(g: Graph, s: State, t: nat, u: nat)
    requires Inv(g, s) && t < |s.tasks| && u < |s.tasks| && t != u
    ensures s.tasks[t].Work? && s.tasks[u].Work? ==> s.tasks[t].node != s.tasks[u].node
    ensures s.tasks[t].Work? && s.tasks[u].Edges? ==>
              s.tasks[t].node != s.tasks[u].node && s.tasks[u].next != Some(s.tasks[t].node)
    ensures s.tasks[t].Edges? && s.tasks[u].Edges? ==>
      s.tasks[t].node != s.tasks[u].node && s.tasks[u].next != Some(s.tasks[t].node)
      && (s.tasks[t].next.Some? ==> s.tasks[t].next != s.tasks[u].next && s.tasks[t].next != Some(s.tasks[u].node))
    ensures s.tasks[t].Edges? && s.tasks[u].Work? && s.tasks[t].next.Some? ==> s.tasks[t].next != Some(s.tasks[u].node)
  {
    assert TaskOk(s, t) && TaskOk(s, u);
  }

  lemma TurnKeepsInv(g: Graph, s: State, t: nat)
    requires Rooted(g) && Inv(g, s) && t < |s.tasks| && s.tasks[t].Edges?
    requires s.tasks[t].node < |g.outs| ==> s.tasks[t].k >= |g.outs[s.tasks[t].node]|
    ensures Inv(g, Step(g, s, t))
  {
    var v, next, s' := s.tasks[t].node, s.tasks[t].next, Step(g, s, t);
    assert TaskOk(s, t) && NodeOk(g, s, v);
    if next.Some? {
      assert NodeOk(g, s, next.value);
    }
    ActiveAfter(s.tasks, s'.tasks, t);
    forall u | 0 <= u < |s'.tasks| ensures TaskOk(s', u) {
      assert TaskOk(s, u);
      if u != t {
        KeptHolder(g, s, t, u);
      }
    }
    forall x | 0 <= x < |g.outs| ensures NodeOk(g, s', x) {
      assert NodeOk(g, s, x);
      if x != v && next != Some(x) {
        NodeSame(g, s, s', x);
      }
    }
  }

  /** Following one edge: the child comes one nearer to its turn. */
  lemma EdgeArrives(g: Graph, s: State, t: nat)
    requires Rooted(g) && Inv(g, s) && t < |s.tasks| && s.tasks[t].Edges?
    requires s.tasks[t].node < |g.outs| && s.tasks[t].k < |g.outs[s.tasks[t].node]|
    ensures var v, k := s.tasks[t].node, s.tasks[t].k;
      var w, s' := g.outs[v][k], Step(g, s, t);
      && w < |g.outs| && w != v && s.status[w] == Waiting && s.sent[v] == k
      && Came(g, s', w) == Came(g, s, w) + 1 <= Ins(g, w)
      && (forall x: nat :: x < |g.outs| && x != w ==> Came(g, s', x) == Came(g, s, x))
      && (Notify(g, s.counters, w).1 <==> Came(g, s', w) == Ins(g, w))
      && |s'.sent| == |s.sent| && (forall x :: 0 <= x < |s.sent| ==> s'.sent[x] == if x == v then k + 1 else s.sent[x])
  {
    var v, k, s' := s.tasks[t].node, s.tasks[t].k, Step(g, s, t);
    var w := g.outs[v][k];
    assert TaskOk(s, t) && NodeOk(g, s, v) && NodeOk(g, s, w);
    Reached(g, s, v);
    OneMissing(g.outs, s.sent, w, |g.outs|, v, k);
    forall x: nat | x < |g.outs| ensures Came(g, s', x) == Came(g, s, x) + if x == w then 1 else 0 {
      ArrivedSend(g.outs, s.sent, x, |g.outs|, v, s'.sent);
    }
  }

  /** Only the child's counter goes down. */
  lemma CounterArrives(g: Graph, s: State, s': State, w: nat, x: nat)
    requires Built(g) && w < |g.outs| && x < |g.outs| && s'.counters == Notify(g, s.counters, w).0
    requires |g.outs| == |s.status| == |s.sent| && NodeOk(g, s, x) && NodeOk(g, s, w)
    requires Came(g, s', x) == Came(g, s, x) + if x == w then 1 else 0
    ensures g.counter[x].Some? ==>
      g.counter[x].value < |s'.counters| && s'.counters[g.counter[x].value] == Ins(g, x) - Came(g, s', x)
  {
  }

  /** One node while task t follows its next edge, from v to w. */
  lemma FollowKeepsNode(g: Graph, s: State, t: nat, v: nat, w: nat, x: nat)
    requires |g.outs| == |s.status| == |s.sent| == |g.counter| && t < |s.tasks| && s.tasks[t].Edges?
    requires v == s.tasks[t].node < |g.outs| && s.tasks[t].k < |g.outs[v]| && w == g.outs[v][s.tasks[t].k] != v
    requires w < |g.outs| && x < |g.outs| && s.status[w] == Waiting && s.sent[v] == s.tasks[t].k
    requires TaskOk(s, t) && NodeOk(g, s, x)
    requires var s' := Step(g, s, t);
             && Came(g, s', x) == Came(g, s, x) + (if x == w then 1 else 0)
             && (x == w ==>
                   && Came(g, s', w) <= Ins(g, w)
                   && (Notify(g, s.counters, w).1 <==> Came(g, s', w) == Ins(g, w)))
             && (g.counter[x].Some? ==>
                   && g.counter[x].value < |s'.counters|
                   && s'.counters[g.counter[x].value] == Ins(g, x) - Came(g, s', x))
    ensures NodeOk(g, Step(g, s, t), x)
  {
  }

  lemma FollowKeepsNodes(g: Graph, s: State, t: nat, x: nat)
    requires Rooted(g) && Inv(g, s) && t < |s.tasks| && s.tasks[t].Edges? && x < |g.outs|
    requires s.tasks[t].node < |g.outs| && s.tasks[t].k < |g.outs[s.tasks[t].node]|
    ensures NodeOk(g, Step(g, s, t), x)
  {
    var v, s' := s.tasks[t].node, Step(g, s, t);
    var w := g.outs[v][s.tasks[t].k];
    EdgeArrives(g, s, t);
    assert TaskOk(s, t) && NodeOk(g, s, w) && NodeOk(g, s, x);
    CounterArrives(g, s, s', w, x);
    FollowKeepsNode(g, s, t, v, w, x);
  }

  lemma FollowKeepsTasks(g: Graph, s: State, t: nat, u: nat)
    requires Rooted(g) && Inv(g, s) && t < |s.tasks| && s.tasks[t].Edges?
    requires s.tasks[t].node < |g.outs| && s.tasks[t].k < |g.outs[s.tasks[t].node]|
    ensures TaskOk(Step(g, s, t), u)
  {
    EdgeArrives(g, s, t);
    assert TaskOk(s, t) && TaskOk(s, u);
    if u != t && u < |s.tasks| {
      KeptHolder(g, s, t, u);
    }
  }

  lemma FollowKeepsInv(g: Graph, s: State, t: nat)
    requires Rooted(g) && Inv(g, s) && t < |s.tasks| && s.tasks[t].Edges?
    requires s.tasks[t].node < |g.outs| && s.tasks[t].k < |g.outs[s.tasks[t].node]|
    ensures Inv(g, Step(g, s, t))
  {
    var s' := Step(g, s, t);
    var before := s'.tasks[..|s.tasks|];
    ActiveAfter(s.tasks, before, t);
    if |s'.tasks| > |s.tasks| {
      ActiveAppend(before, s'.tasks[|s.tasks|]);
      assert s'.tasks == before + [s'.tasks[|s.tasks|]];
    } else {
      assert before == s'.tasks;
    }
    forall u | 0 <= u < |s'.tasks| ensures TaskOk(s', u) {
      FollowKeepsTasks(g, s, t, u);
    }
    forall x | 0 <= x < |g.outs| ensures NodeOk(g, s', x) {
      FollowKeepsNodes(g, s, t, x);
    }
  }

  lemma InitInv(g: Graph)
    requires Rooted(g)
    ensures Inv(g, Init(g))
  {
    forall v | 0 <= v < |g.outs| ensures NodeOk(g, Init(g), v) {
      NothingArrived(g.outs, Init(g).sent, v, |g.outs|);
    }
  }

  lemma {:induction false} RunInv(g: Graph, schedule: seq<nat>)
    requires Rooted(g)
    ensures Inv(g, Run(g, schedule))
  {
    if schedule == [] {
      InitInv(g);
    } else {
      RunInv(g, schedule[..|schedule| - 1]);
      var s, t := Run(g, schedule[..|schedule| - 1]), schedule[|schedule| - 1];
      if t < |s.tasks| {
        if s.tasks[t].Work? {
          WorkKeepsInv(g, s, t);
        } else if s.tasks[t].Edges? {
          assert TaskOk(s, t);
          if s.tasks[t].k < |g.outs[s.tasks[t].node]| {
            FollowKeepsInv(g, s, t);
          } else {
            TurnKeepsInv(g, s, t);
          }
        }
      }
    }
  }

  // ------------------------------------------------------------------ every run

  /** Acyclic: the nodes can be ranked so that every edge goes up. */
  ghost predicate Ranked(g: Graph, rank: seq<nat>) {
    |rank| == |g.outs| && forall u, v :: 0 <= u < |g.outs| && v in g.outs[u] && v < |g.outs| ==> rank[u] < rank[v]
  }

  ghost predicate IsPath(g: Graph, p: seq<nat>, v: nat) {
    && p != [] && p[0] == ROOT && p[|p| - 1] == v
    && forall i :: 0 <= i < |p| - 1 ==> p[i] < |g.outs| && p[i + 1] in g.outs[p[i]]
  }

  ghost predicate Reachable(g: Graph, v: nat) {
    exists p :: IsPath(g, p, v)
  }

  ghost predicate AllReachable(g: Graph) {
    forall v: nat :: v < |g.outs| ==> Reachable(g, v)
  }

  lemma {:induction false} PathRises(g: Graph, rank: seq<nat>, p: seq<nat>, v: nat)
    requires Built(g) && Ranked(g, rank) && IsPath(g, p, v) && v < |g.outs|
    ensures rank[ROOT] <= rank[v]
  {
    if |p| > 1 {
      var u := p[|p| - 2];
      assert p[..|p| - 1][|p| - 2] == u && v in g.outs[u];
      PathRises(g, rank, p[..|p| - 1], u);
    }
  }

  lemma {:induction false} InFrom(outs: seq<seq<nat>>, v: nat, n: nat)
    requires n <= |outs|
    ensures In(outs, v, n) > 0 <==> exists u :: 0 <= u < n && v in outs[u]
  {
    if n > 0 {
      InFrom(outs, v, n - 1);
      var l := outs[n - 1];
      if v in l {
        var i :| 0 <= i < |l| && l[i] == v;
        CountHas(l, |l|, v, i);
      } else {
        CountNone(l, |l|, v);
      }
    }
  }

  lemma ReachableIsRooted(g: Graph, rank: seq<nat>)
    requires Built(g) && Ranked(g, rank) && AllReachable(g)
    ensures Rooted(g)
  {
    forall v | 0 <= v < |g.outs| ensures Ins(g, v) == 0 <==> v == ROOT {
      InFrom(g.outs, v, |g.outs|);
      if v == ROOT {
        forall u | 0 <= u < |g.outs| ensures ROOT !in g.outs[u] {
          assert Reachable(g, u);
          var p :| IsPath(g, p, u);
          PathRises(g, rank, p, u);
        }
      } else {
        assert Reachable(g, v);
        var p :| IsPath(g, p, v);
        assert p[|p| - 2 + 1] in g.outs[p[|p| - 2]];
      }
    }
  }

  /** Under any scheduling no node's work runs twice, and none before the work of all its parents. */
  lemma EachOnceAfterParents(g: Graph, rank: seq<nat>, schedule: seq<nat>)
    requires Built(g) && Ranked(g, rank) && AllReachable(g)
    ensures LogOk(g, Run(g, schedule).log)
  {
    ReachableIsRooted(g, rank);
    RunInv(g, schedule);
  }

  /** run may return: the caller's own task has ended and the wait group is at zero. */
  predicate Returns(s: State) {
    |s.tasks| > 0 && s.tasks[0].Ended? && s.wg == 0
  }

  lemma {:induction false} NoneActive(tasks: seq<Task>, t: nat)
    requires Active(tasks) == 0 && 0 < t < |tasks|
    ensures tasks[t].Ended?
  {
    if t < |tasks| - 1 {
      NoneActive(tasks[..|tasks| - 1], t);
    }
  }

  lemma {:induction false} RanAtEnd(g: Graph, rank: seq<nat>, s: State, v: nat)
    requires Rooted(g) && Ranked(g, rank) && Inv(g, s) && Returns(s) && v < |g.outs|
    ensures s.status[v].Finished? && v in s.log
    decreases rank[v]
  {
    assert NodeOk(g, s, v);
    forall u | 0 <= u < |g.outs| && v in g.outs[u] ensures s.sent[u] == |g.outs[u]| {
      RanAtEnd(g, rank, s, u);
      assert NodeOk(g, s, u);
    }
    ArrivedFromAll(g.outs, s.sent, v, |g.outs|);
    if HasOwner(s.status[v]) {
      var t := Owner(s.status[v]);
      if t > 0 {
        NoneActive(s.tasks, t);
      }
    }
  }

  /** When run returns, every node has run. */
  lemma AllRanWhenRunReturns(g: Graph, rank: seq<nat>, schedule: seq<nat>, v: nat)
    requires Built(g) && Ranked(g, rank) && AllReachable(g) && Returns(Run(g, schedule)) && v < |g.outs|
    ensures v in Run(g, schedule).log
  {
    ReachableIsRooted(g, rank);
    RunInv(g, schedule);
    RanAtEnd(g, rank, Run(g, schedule), v);
  }

  /** How far each node has got: its work, its edges, its end. */
  function Progress(s: State, v: nat): nat {
    if v < |s.status| == |s.sent| then
      s.sent[v] + if s.status[v].Sending? then 1 else if s.status[v].Finished? then 2 else 0
    else 0
  }

  function Done(s: State, n: nat): nat {
    if n == 0 then 0 else Done(s, n - 1) + Progress(s, n - 1)
  }

  function Steps(outs: seq<seq<nat>>, n: nat): nat
    requires n <= |outs|
  {
    if n == 0 then 0 else Steps(outs, n - 1) + |outs[n - 1]| + 2
  }

  lemma {:induction false} OneFurther(s: State, s': State, v: nat, n: nat)
    requires forall x: nat {:trigger Progress(s, x)} ::
               x < n ==> Progress(s', x) == Progress(s, x) + if x == v then 1 else 0
    ensures Done(s', n) == Done(s, n) + if v < n then 1 else 0
  {
    if n > 0 {
      OneFurther(s, s', v, n - 1);
    }
  }

  lemma {:induction false} DoneAtMost(g: Graph, s: State, n: nat)
    requires Inv(g, s) && Built(g) && n <= |g.outs|
    ensures Done(s, n) <= Steps(g.outs, n)
  {
    if n > 0 {
      DoneAtMost(g, s, n - 1);
      assert NodeOk(g, s, n - 1);
    }
  }

  /** A task that has not ended can always take a step, and there are only so many steps in a run. */
  lemma RunEnds(g: Graph, rank: seq<nat>, schedule: seq<nat>, t: nat)
    requires Built(g) && Ranked(g, rank) && AllReachable(g)
    requires t < |Run(g, schedule).tasks| && !Run(g, schedule).tasks[t].Ended?
    ensures var n := |g.outs|;
      Done(Run(g, schedule), n) < Done(Run(g, schedule + [t]), n) <= Steps(g.outs, n)
  {
    ReachableIsRooted(g, rank);
    RunInv(g, schedule);
    RunInv(g, schedule + [t]);
    assert (schedule + [t])[..|schedule|] == schedule;
    StepFurther(g, Run(g, schedule), t);
    DoneAtMost(g, Run(g, schedule + [t]), |g.outs|);
  }

  /** A step carries the node that the task is busy with one further, and no other. */
  ghost predicate NodeFurther(g: Graph, s: State, t: nat)
    requires t < |s.tasks| && !s.tasks[t].Ended?
  {
    forall x: nat {:trigger Progress(s, x)} :: x < |g.outs| ==>
      Progress(Step(g, s, t), x) == Progress(s, x) + if x == s.tasks[t].node then 1 else 0
  }

  lemma WorkFurther(g: Graph, s: State, t: nat)
    requires Rooted(g) && Inv(g, s) && t < |s.tasks| && s.tasks[t].Work?
    ensures NodeFurther(g, s, t)
  {
    assert TaskOk(s, t) && NodeOk(g, s, s.tasks[t].node);
  }

  lemma EdgeFurther(g: Graph, s: State, t: nat)
    requires Rooted(g) && Inv(g, s) && t < |s.tasks| && s.tasks[t].Edges?
    requires s.tasks[t].node < |g.outs| && s.tasks[t].k < |g.outs[s.tasks[t].node]|
    ensures NodeFurther(g, s, t)
  {
    assert TaskOk(s, t) && NodeOk(g, s, s.tasks[t].node);
    EdgeArrives(g, s, t);
    if s.tasks[t].next.Some? {
      assert NodeOk(g, s, s.tasks[t].next.value);
    }
  }

  lemma TurnFurther(g: Graph, s: State, t: nat)
    requires Rooted(g) && Inv(g, s) && t < |s.tasks| && s.tasks[t].Edges?
    requires s.tasks[t].node < |g.outs| ==> s.tasks[t].k >= |g.outs[s.tasks[t].node]|
    ensures NodeFurther(g, s, t)
  {
    assert TaskOk(s, t) && NodeOk(g, s, s.tasks[t].node);
    if s.tasks[t].next.Some? {
      assert NodeOk(g, s, s.tasks[t].next.value);
    }
  }

  lemma StepFurther(g: Graph, s: State, t: nat)
    requires Rooted(g) && Inv(g, s) && t < |s.tasks| && !s.tasks[t].Ended?
    ensures Done(Step(g, s, t), |g.outs|) == Done(s, |g.outs|) + 1
  {
    var v := s.tasks[t].node;
    assert TaskOk(s, t);
    if s.tasks[t].Work? {
      WorkFurther(g, s, t);
    } else if s.tasks[t].k < |g.outs[v]| {
      EdgeFurther(g, s, t);
    } else {
      TurnFurther(g, s, t);
    }
    OneFurther(s, Step(g, s, t), v, |g.outs|);
  }

  // ------------------------------------------------------------------ building

  class Builder {
    var outs: seq<seq<nat>>
    var numIns: seq<nat>

    /** numIns counts the edges into each node. */
    ghost predicate Valid()
      reads this
    {
      && |outs| == |numIns| > 0
      && (forall u, k :: 0 <= u < |outs| && 0 <= k < |outs[u]| ==> outs[u][k] < |outs|)
      && (forall v :: 0 <= v < |outs| ==> numIns[v] == In(outs, v, |outs|))
    }

    constructor ()
      ensures Valid() && outs == [[]]
    {
      outs, numIns := [[]], [0];
    }

    /** node: a new node behind the nodes in `after`. */
    method Node(after: seq<nat>) returns (index: nat)
      requires Valid() && forall p :: p in after ==> p < |outs|
      modifies this
      ensures Valid() && index == |old(outs)| && |outs| == index + 1 && outs[index] == []
      ensures forall u :: 0 <= u < index ==> outs[u] == old(outs)[u] + seq(Count(after, |after|, u), _ => index)
    {
      index := |outs|;
      AddedNode(outs);
      numIns := numIns + [0];
      outs := outs + [[]];
      ghost var was := outs;
      var i := 0;
      while i < |after|
        invariant 0 <= i <= |after| && Valid() && |outs| == |was| && outs[index] == []
        invariant forall u :: 0 <= u < index ==> outs[u] == was[u] + seq(Count(after, i, u), _ => index)
      {
        assert after[i] in after;
        AddDependency(after[i], index);
        i := i + 1;
      }
    }

    method AddDependency(parent: nat, child: nat)
      requires Valid() && parent < |outs| && child < |outs|
      modifies this
      ensures Valid() && outs == old(outs)[parent := old(outs)[parent] + [child]]
    {
      numIns := numIns[child := numIns[child] + 1];
      AddedEdge(outs, parent, child);
      outs := outs[parent := outs[parent] + [child]];
    }

    /** build: a counter for each node with more than one parent. */
    method Build() returns (g: Graph)
      requires Valid()
      ensures Built(g) && g.outs == outs
    {
      var counter: seq<Option<nat>>, initial: seq<nat> := [], [];
      var i := 0;
      while i < |outs|
        invariant 0 <= i <= |outs| && |counter| == i
        invariant forall v :: 0 <= v < i ==>
          if numIns[v] > 1 then
            counter[v].Some? && counter[v].value < |initial| && initial[counter[v].value] == numIns[v]
          else counter[v].None?
        invariant forall u, v :: 0 <= u < v < i && counter[u].Some? ==> counter[u] != counter[v]
      {
        if numIns[i] > 1 {
          counter := counter + [Some(|initial|)];
          initial := initial + [numIns[i]];
        } else {
          counter := counter + [None];
        }
        i := i + 1;
      }
      g := Graph(outs, counter, initial);
    }
  }

  lemma {:induction false} InSame(outs: seq<seq<nat>>, more: seq<seq<nat>>, v: nat, n: nat)
    requires n <= |outs| && n <= |more| && forall u :: 0 <= u < n ==> more[u] == outs[u]
    ensures In(outs, v, n) == In(more, v, n)
  {
    if n > 0 {
      InSame(outs, more, v, n - 1);
    }
  }

  lemma AddedNode(outs: seq<seq<nat>>)
    requires forall u, k :: 0 <= u < |outs| && 0 <= k < |outs[u]| ==> outs[u][k] < |outs|
    ensures forall v: nat :: v < |outs| ==> In(outs + [[]], v, |outs| + 1) == In(outs, v, |outs|)
    ensures In(outs + [[]], |outs|, |outs| + 1) == 0
  {
    forall v: nat | v <= |outs| ensures In(outs + [[]], v, |outs| + 1) == In(outs, v, |outs|) {
      InSame(outs, outs + [[]], v, |outs|);
    }
    InFrom(outs, |outs|, |outs|);
  }

  lemma {:induction false} EdgeIn(outs: seq<seq<nat>>, parent: nat, child: nat, v: nat, n: nat)
    requires n <= |outs| && parent < |outs|
    ensures In(outs[parent := outs[parent] + [child]], v, n)
         == In(outs, v, n) + if parent < n && child == v then 1 else 0
  {
    if n > 0 {
      EdgeIn(outs, parent, child, v, n - 1);
      if parent == n - 1 {
        CountAppend(outs[parent], child, v, |outs[parent]|);
      }
    }
  }

  lemma {:induction false} CountAppend(l: seq<nat>, x: nat, v: nat, n: nat)
    requires n <= |l|
    ensures Count(l + [x], n, v) == Count(l, n, v)
  {
    if n > 0 {
      CountAppend(l, x, v, n - 1);
    }
  }

  lemma AddedEdge(outs: seq<seq<nat>>, parent: nat, child: nat)
    requires parent < |outs|
    ensures forall v: nat ::
      In(outs[parent := outs[parent] + [child]], v, |outs|) == In(outs, v, |outs|) + if child == v then 1 else 0
  {
    forall v: nat
      ensures In(outs[parent := outs[parent] + [child]], v, |outs|)
              == In(outs, v, |outs|) + if child == v then 1 else 0
    {
      EdgeIn(outs, parent, child, v, |outs|);
    }
  }
}

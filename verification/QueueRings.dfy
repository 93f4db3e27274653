/** The queues of tasks as rings: `task_queue` of every task control block and the headers
    in the processor and object control blocks.  Unlinking a node and linking one in do to
    the rings what Minus and Plus do to the sequences. */
module QueueRings {

  import opened Options
  import opened Sequences
  import opened TaskQueues
  import opened KernelTables
  import Queue
  import Scheduler
  import WaitState

  /** No task is in two queues. */
  ghost predicate Once(queue: map<Qid, seq<int>>) {
    forall q, r, t {:trigger t in Q(queue, q), t in Q(queue, r)} :: t in Q(queue, q) && t in Q(queue, r) ==> q == r
  }

  class QueueRings {
    const node: seq<Queue.QUEUE>       // task_queue of each task
    const head: map<Qid, Queue.QUEUE>  // the headers of the queues there are

    /** After queue_initialize on every header all queues are empty. */
    constructor (node: seq<Queue.QUEUE>, head: map<Qid, Queue.QUEUE>)
      requires Distinct(node)
      requires forall q {:trigger head[q]} :: q in head ==> head[q] !in node && Queue.Ring(head[q], [])
      requires forall q, r {:trigger head[q], head[r]} :: q in head && r in head && q != r ==> head[q] != head[r]
      ensures this.node == node && this.head == head && Describes(map[])
    {
      this.node, this.head := node, head;
      new;
      assert Nodes([]) == [];
    }

    /** All nodes are different. */
    ghost predicate Apart() {
      && Distinct(node)
      && (forall q {:trigger head[q]} :: q in head ==> head[q] !in node)
      && (forall q, r {:trigger head[q], head[r]} :: q in head && r in head && q != r ==> head[q] != head[r])
    }

    ghost predicate Exist(s: seq<int>) {
      forall i {:trigger s[i]} :: 0 <= i < |s| ==> 0 <= s[i] < |node|
    }

    /** The nodes of the tasks of a queue. */
    ghost function Nodes(s: seq<int>): (r: seq<Queue.QUEUE>)
      requires Exist(s)
      ensures |r| == |s| && forall i {:trigger r[i]} {:trigger s[i]} :: 0 <= i < |s| ==> r[i] == node[s[i]]
    {
      seq(|s|, (i: int) requires 0 <= i < |s| => node[s[i]])
    }

    /** The ring of every queue describes it. */
    ghost predicate Describes(queue: map<Qid, seq<int>>)
      reads node, head.Values
    {
      && Apart() && Once(queue)
      && (forall q {:trigger Q(queue, q)} :: q !in head ==> Q(queue, q) == [])
      && (forall q {:trigger head[q]} :: q in head ==> Exist(Q(queue, q)) && Queue.Ring(head[q], Nodes(Q(queue, q))))
    }

    /** The rings of two queues have no node in common. */
    lemma Disjoint(queue: map<Qid, seq<int>>, q: Qid, r: Qid, x: Queue.QUEUE)
      requires Describes(queue) && q in head && r in head && q != r
      requires x in Queue.Around(head[q], Nodes(Q(queue, q)))
      ensures x != head[r] && x !in Nodes(Q(queue, r))
    {
      hide Queue.Ring, Once;
      var s, u := Q(queue, q), Q(queue, r);
      OnceIn(queue, q, r);
      if x == head[q] {
        assert forall j :: 0 <= j < |u| ==> Nodes(u)[j] in node;
      } else {
        assert x in Nodes(s);
        var i :| 0 <= i < |s| && x == Nodes(s)[i];
        assert x in node && s[i] in s;
        forall j | 0 <= j < |u|
          ensures Nodes(u)[j] != x
        {
          assert u[j] in u;
        }
      }
    }

    lemma AllForeign(queue: map<Qid, seq<int>>, q: Qid, x: Queue.QUEUE)
      requires Describes(queue) && q in head && x in Queue.Around(head[q], Nodes(Q(queue, q)))
      ensures forall r {:trigger head[r]} :: r in head && r != q ==> x != head[r] && x !in Nodes(Q(queue, r))
    {
      hide Queue.Ring, Once;
      forall r {:trigger head[r]} | r in head && r != q
        ensures x != head[r] && x !in Nodes(Q(queue, r))
      {
        Disjoint(queue, q, r, x);
      }
    }

    lemma NodesRemoved(s: seq<int>, s': seq<int>, i: int)
      requires Exist(s) && 0 <= i < |s| && s' == s[..i] + s[i + 1..]
      ensures Exist(s') && Nodes(s') == Queue.Removed(Nodes(s), i)
    {
      assert forall j {:trigger s'[j]} :: 0 <= j < |s'| ==> s'[j] == if j < i then s[j] else s[j + 1];
    }

    /** queue_delete on the task_queue of task t. */
    method Unlink(ghost queue: map<Qid, seq<int>>, ghost q: Qid, t: int)
      requires Describes(queue) && t in Q(queue, q) && 0 <= t < |node|
      modifies node[t].prev, node[t].next
      ensures Describes(queue[q := Minus(Q(queue, q), t)])
    {
      hide Queue.Ring, Queue.Linked, Once, Minus;
      ghost var s := Q(queue, q);
      ghost var i := MinusPlace(s, t);
      ghost var a := Queue.Around(head[q], Nodes(s));
      Queue.Neighbours(head[q], Nodes(s), i);
      assert node[t].prev in a && node[t].next in a;
      AllForeign(queue, q, node[t].prev);
      AllForeign(queue, q, node[t].next);
      Queue.Delete(node[t], head[q], Nodes(s), i);
      NodesRemoved(s, Minus(s, t), i);
      OnceMinus(queue, q, t);
      assert forall r {:trigger head[r]} :: r in head && r != q ==> Queue.Ring(head[r], Nodes(Q(queue, r)));
      OneChanged(queue, q, Minus(s, t));
    }

    /** The ring of one queue describes it as it is now, and the others are as they were. */
    lemma OneChanged(queue: map<Qid, seq<int>>, q: Qid, s: seq<int>)
      requires Apart() && Once(queue[q := s]) && q in head
      requires forall r {:trigger Q(queue, r)} :: r !in head ==> Q(queue, r) == []
      requires forall r {:trigger head[r]} :: r in head && r != q ==>
                 Exist(Q(queue, r)) && Queue.Ring(head[r], Nodes(Q(queue, r)))
      requires Exist(s) && Queue.Ring(head[q], Nodes(s))
      ensures Describes(queue[q := s])
    {
      hide Queue.Ring, Once;
      assert forall r {:trigger Q(queue[q := s], r)} :: Q(queue[q := s], r) == if r == q then s else Q(queue, r);
    }

    lemma NodesInserted(s: seq<int>, i: int, t: int)
      requires Exist(s) && 0 <= i <= |s| && 0 <= t < |node|
      ensures Exist(Plus(s, i, t)) && Nodes(Plus(s, i, t)) == Queue.Inserted(Nodes(s), i, node[t])
    {
      var s' := Plus(s, i, t);
      assert forall j {:trigger s'[j]} :: 0 <= j < |s'| ==>
             s'[j] == if j < i then s[j] else if j == i then t else s[j - 1];
    }

    /** A task in no queue has its node in no ring. */
    lemma Unlinked(queue: map<Qid, seq<int>>, r: Qid, t: int)
      requires Describes(queue) && 0 <= t < |node| && t !in Q(queue, r) && r in head
      ensures node[t] != head[r] && node[t] !in Nodes(Q(queue, r))
    {
      hide Queue.Ring, Once;
      var s := Q(queue, r);
      forall j | 0 <= j < |s|
        ensures Nodes(s)[j] != node[t]
      {
        assert s[j] in s;
      }
    }

    lemma AllUnlinked(queue: map<Qid, seq<int>>, t: int)
      requires Describes(queue) && 0 <= t < |node| && forall r {:trigger Q(queue, r)} :: t !in Q(queue, r)
      ensures forall r {:trigger head[r]} :: r in head ==> node[t] != head[r] && node[t] !in Nodes(Q(queue, r))
    {
      hide Queue.Ring, Once;
      forall r {:trigger head[r]} | r in head
        ensures node[t] != head[r] && node[t] !in Nodes(Q(queue, r))
      {
        Unlinked(queue, r, t);
      }
    }

    /** queue_insert_prev of the task_queue of task t, which is in no queue, before the i-th
        entry, or before the header and so behind the last one. */
    method Link(ghost queue: map<Qid, seq<int>>, ghost q: Qid, t: int, at: Queue.QUEUE, ghost i: int)
      requires Describes(queue) && q in head && 0 <= t < |node| && 0 <= i <= |Q(queue, q)|
      requires forall r {:trigger Q(queue, r)} :: t !in Q(queue, r)
      requires at == if i == |Q(queue, q)| then head[q] else node[Q(queue, q)[i]]
      modifies node[t], at, at.prev
      ensures Describes(queue[q := Plus(Q(queue, q), i, t)])
    {
      hide Queue.Ring, Queue.Linked, Once, Plus;
      InsertBefore(queue, q, t, at, i);
      NodesInserted(Q(queue, q), i, t);
      OncePlus(queue, q, i, t);
      OneChanged(queue, q, Plus(Q(queue, q), i, t));
    }

    /** The node gets into that ring, and no other ring notices. */
    method InsertBefore(ghost queue: map<Qid, seq<int>>, ghost q: Qid, t: int, at: Queue.QUEUE, ghost i: int)
      requires Describes(queue) && q in head && 0 <= t < |node| && 0 <= i <= |Q(queue, q)|
      requires forall r {:trigger Q(queue, r)} :: t !in Q(queue, r)
      requires at == if i == |Q(queue, q)| then head[q] else node[Q(queue, q)[i]]
      modifies node[t], at, at.prev
      ensures Queue.Ring(head[q], Queue.Inserted(Nodes(Q(queue, q)), i, node[t]))
      ensures forall r {:trigger head[r]} :: r in head && r != q ==> Queue.Ring(head[r], Nodes(Q(queue, r)))
    {
      hide Queue.Ring, Queue.Linked, Once, Plus;
      Queue.Neighbours(head[q], Nodes(Q(queue, q)), i);
      AllForeign(queue, q, at);
      AllForeign(queue, q, at.prev);
      AllUnlinked(queue, t);
      Queue.InsertPrev(at, node[t], head[q], Nodes(Q(queue, q)), i);
    }

    // ------ the steps of the kernel

    /** A task leaves a wait queue and its ring. */
    method Unqueue(k: Kernel, t: int, q: Qid)
      requires k.IsTask(t) && k.Queues(t, Some(q)) && !q.Ready? && |node| == |k.cb| && Describes(k.queue)
      modifies k`queue, node[t].prev, node[t].next
      ensures k.Queues(t, None) && TakenOut(old(k.queue), k.queue, q, t) && Describes(k.queue)
    {
      hide Linked, Ordered, Settled, Queue.Ring, Once, Minus;
      ghost var queue := k.queue;
      LinkedThere(k.cb, k.queue, t, q);
      WaitState.Unqueue(k, t, q);
      Unlink(queue, q, t);
    }

    /** A task joins its ready queue, and its node the ring of that queue. */
    method InsertReady(k: Kernel, t: int, q: Qid, first: bool) returns (i: int)
      requires 0 <= t < |k.cb| && k.cb[t].tstat.runnable && |node| == |k.cb| && Describes(k.queue)
      requires Linked(k.cb, k.queue, t, None) && Ordered(k.cb, k.queue, k.sub, k.tpri, t)
      requires q == Ready(k.cb[t].prc, k.cb[t].priority) && q in head
      modifies k`queue, node, head.Values
      ensures Placed(k.cb, old(k.queue), k.sub, k.tpri, q, t, first, i) && PutIn(old(k.queue), k.queue, q, t, i)
      ensures Linked(k.cb, k.queue, NULL, None) && Ordered(k.cb, k.queue, k.sub, k.tpri, NULL) && Describes(k.queue)
    {
      hide Linked, Ordered, Queue.Ring, Once, Placed;
      ghost var queue := k.queue;
      NowhereInTransit(k.cb, k.queue, t);
      var s := Q(k.queue, q);
      i := Scheduler.InsertReady(k, t, first);
      var at := if i == |s| then head[q] else node[s[i]];
      Queue.Neighbours(head[q], Nodes(s), i);
      Link(queue, q, t, at, i);
    }
  }

  lemma LinkedThere(cb: seq<TCB>, queue: map<Qid, seq<int>>, t: int, q: Qid)
    requires Linked(cb, queue, t, Some(q)) && 0 <= t < |cb|
    ensures t in Q(queue, q)
  {
    assert At(cb, t, Some(q), t, q);
  }

  lemma OncePlus(queue: map<Qid, seq<int>>, q: Qid, i: int, t: int)
    requires Once(queue) && 0 <= i <= |Q(queue, q)| && forall r {:trigger Q(queue, r)} :: t !in Q(queue, r)
    ensures Once(queue[q := Plus(Q(queue, q), i, t)])
  {
    var s, s' := Q(queue, q), Plus(Q(queue, q), i, t);
    var queue' := queue[q := s'];
    forall u | u in s'
      ensures u in s || u == t
    {
    }
    forall p, r, u {:trigger u in Q(queue', p), u in Q(queue', r)} | u in Q(queue', p) && u in Q(queue', r)
      ensures p == r
    {
      if u == t {
        assert t !in Q(queue, p) && t !in Q(queue, r);
      } else {
        assert u in Q(queue, p) && u in Q(queue, r);
      }
    }
  }

  lemma OnceIn(queue: map<Qid, seq<int>>, q: Qid, r: Qid)
    requires Once(queue) && q != r
    ensures forall t :: t in Q(queue, q) ==> t !in Q(queue, r)
  {
  }

  lemma OnceMinus(queue: map<Qid, seq<int>>, q: Qid, t: int)
    requires Once(queue) && t in Q(queue, q)
    ensures Once(queue[q := Minus(Q(queue, q), t)])
  {
    var s := Q(queue, q);
    var i := MinusPlace(s, t);
    var queue' := queue[q := Minus(s, t)];
    forall p, u | u in Q(queue', p)
      ensures u in Q(queue, p)
    {
    }
  }
}

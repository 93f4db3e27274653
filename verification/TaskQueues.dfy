/** Where tasks are linked: the ready queues of the processors and the wait queues of
    the objects (kernel/task.c, kernel/wait.h), and what must be true of them.

    Everything here is stated on plain values, so that each invariant names exactly
    the fields it depends on.  Tasks, processors, objects and priorities are numbers;
    NULL is -1.
  */
module TaskQueues {

  import opened Bitmap
  import opened Options
  import opened Sequences

  const NULL := -1
  const TNUM_TPRI := 16

  /** What a task waits for: nothing, wup_tsk, time, the wait queue of an object's
      control block (WOBJCB), or another queue of an object. */
  datatype Wait = NoWait | Sleep | Delay | On(w: int) | Receiving(w: int)

  /** tstat: TS_RUNNABLE, TS_SUSPENDED and the wait factor (see TaskState for the bits).
      A dormant task has none of them. */
  datatype Tstat = Tstat(runnable: bool, suspended: bool, wait: Wait)

  const DORMANT := Tstat(false, false, NoWait)
  const RUNNABLE := Tstat(true, false, NoWait)
  const SUSPENDED := Tstat(false, true, NoWait)

  /** winfo: the union of the error code and the time event block, of which only the
      callback matters (`timed`: it is not NULL). */
  datatype Winfo = Wercd(ercd: Ercd) | Tmevtb(timed: bool)

  datatype Ercd = EOk | ETmout | ERlwai | EDlt | ERaster | EObj | EIluse | EQovr | ENoexs | ECtx | EPar

  datatype TCB = TCB(
    tstat: Tstat,
    noactque: bool,          // TA_NOACTQUE (p_tinib)
    ipriority: int,          // the priority it is activated with (p_tinib)
    bpriority: int,
    priority: int,
    subpri: int,
    boosted: bool,
    lastmtx: int,
    prc: int,
    winfo: Winfo,
    wupque: bool,
    actque: bool,
    actprc: int,
    raster: bool,
    enater: bool)

  /** The queues: ready_queue[pri] of a processor, the wait queue of a WOBJCB, and the
      receive queue of a data queue. */
  datatype Qid = Ready(prc: int, pri: int) | Object(w: int) | Receive(w: int)

  function Q(queue: map<Qid, seq<int>>, q: Qid): seq<int> {
    if q in queue then queue[q] else []
  }

  /** The queue a task belongs to. */
  function Home(x: TCB): Option<Qid> {
    if x.tstat.runnable then Some(Ready(x.prc, x.priority))
    else match x.tstat.wait
      case On(w) => Some(Object(w))
      case Receiving(w) => Some(Receive(w))
      case _ => None
  }

  /** Task t0, if it is not NULL, is in transit, linked at `place`; all others are at
      home. */
  ghost predicate At(cb: seq<TCB>, t0: int, place: Option<Qid>, t: int, q: Qid) {
    0 <= t < |cb| && (if t == t0 then place else Home(cb[t])) == Some(q)
  }

  /** The queues hold exactly the tasks that belong there, once each. */
  ghost predicate Linked(cb: seq<TCB>, queue: map<Qid, seq<int>>, t0: int, place: Option<Qid>) {
    && (forall q, t {:trigger t in Q(queue, q)} {:trigger At(cb, t0, place, t, q)} :: t in Q(queue, q) <==>
         At(cb, t0, place, t, q))
    && (forall q {:trigger Q(queue, q)} :: Distinct(Q(queue, q)))
  }

  // ------ taking out and putting in

  /** The first of a queue, or NULL. */
  ghost function First(q: seq<int>): int {
    if q == [] then NULL else q[0]
  }

  /** queue_delete. */
  function Minus(s: seq<int>, t: int): (r: seq<int>) {
    if s == [] then [] else if s[0] == t then s[1..] else [s[0]] + Minus(s[1..], t)
  }

  /** queue_insert_prev before position i. */
  function Plus(s: seq<int>, i: int, t: int): seq<int>
    requires 0 <= i <= |s|
  {
    s[..i] + [t] + s[i..]
  }

  /** `now` is `was` with task t put into queue q at place i. */
  ghost predicate PutIn(was: map<Qid, seq<int>>, now: map<Qid, seq<int>>, q: Qid, t: int, i: int) {
    0 <= i <= |Q(was, q)| && now == was[q := Plus(Q(was, q), i, t)]
  }

  /** `now` is `was` with task t taken out of queue q. */
  ghost predicate TakenOut(was: map<Qid, seq<int>>, now: map<Qid, seq<int>>, q: Qid, t: int) {
    now == was[q := Minus(Q(was, q), t)]
  }

  lemma {:induction false} MinusRemoves(s: seq<int>, t: int)
    requires Distinct(s)
    ensures Distinct(Minus(s, t))
    ensures forall u {:trigger u in Minus(s, t)} {:trigger u in s} :: u in Minus(s, t) <==> u in s && u != t
  {
    if s != [] {
      var r := s[1..];
      assert forall i {:trigger r[i]} :: 0 <= i < |r| ==> r[i] == s[i + 1];
      assert forall u {:trigger u in s} :: u in s <==> u == s[0] || u in r;
      assert s[0] !in r;
      MinusRemoves(r, t);
      if s[0] != t {
        var m := Minus(r, t);
        assert Minus(s, t) == [s[0]] + m;
        assert forall i {:trigger m[i]} :: 0 <= i < |m| ==> m[i] in m;
      }
    }
  }

  lemma {:induction false} MinusAbsent(s: seq<int>, t: int)
    requires t !in s
    ensures Minus(s, t) == s
  {
    if s != [] {
      MinusAbsent(s[1..], t);
      assert s == [s[0]] + s[1..];
    }
  }

  lemma PlusAdds(s: seq<int>, i: int, t: int)
    requires 0 <= i <= |s| && Distinct(s) && t !in s
    ensures Distinct(Plus(s, i, t))
    ensures forall u {:trigger u in Plus(s, i, t)} {:trigger u in s} :: u in Plus(s, i, t) <==> u in s || u == t
  {
    var r := Plus(s, i, t);
    assert forall j {:trigger r[j]} :: 0 <= j < |r| ==> r[j] == if j < i then s[j] else if j == i then t else s[j - 1];
    assert forall j {:trigger s[j]} :: 0 <= j < |s| ==> s[j] in s && s[j] == r[if j < i then j else j + 1];
  }

  /** Taking the task in transit out of the queue it is in. */
  lemma DeletedLinked(cb: seq<TCB>, queue: map<Qid, seq<int>>, t: int, q: Qid)
    requires Linked(cb, queue, t, Some(q)) && 0 <= t < |cb|
    ensures Linked(cb, queue[q := Minus(Q(queue, q), t)], t, None) && t in Q(queue, q)
  {
    assert At(cb, t, Some(q), t, q);
    MinusRemoves(Q(queue, q), t);
    var queue' := queue[q := Minus(Q(queue, q), t)];
    forall p, u
      ensures u in Q(queue', p) <==> At(cb, t, None, u, p)
    {
      assert u in Q(queue, p) <==> At(cb, t, Some(q), u, p);
    }
    forall p
      ensures Distinct(Q(queue', p))
    {
      assert Distinct(Q(queue, p));
    }
  }

  /** Putting it into the queue it belongs to. */
  lemma InsertedLinked(cb: seq<TCB>, queue: map<Qid, seq<int>>, t: int, q: Qid, i: int)
    requires Linked(cb, queue, t, None) && 0 <= t < |cb| && Home(cb[t]) == Some(q) && 0 <= i <= |Q(queue, q)|
    ensures Linked(cb, queue[q := Plus(Q(queue, q), i, t)], NULL, None) && t !in Q(queue, q)
  {
    assert !At(cb, t, None, t, q);
    PlusAdds(Q(queue, q), i, t);
    var queue' := queue[q := Plus(Q(queue, q), i, t)];
    forall p, u
      ensures u in Q(queue', p) <==> At(cb, NULL, None, u, p)
    {
      assert u in Q(queue, p) <==> At(cb, t, None, u, p);
    }
    forall p
      ensures Distinct(Q(queue', p))
    {
      assert Distinct(Q(queue, p));
    }
  }

  /** Rewriting the control block of a task puts it in transit. */
  lemma RewrittenLinked(cb: seq<TCB>, queue: map<Qid, seq<int>>, t: int, x: TCB)
    requires Linked(cb, queue, NULL, None) && 0 <= t < |cb|
    ensures Linked(cb[t := x], queue, t, Home(cb[t]))
    ensures Home(x) == Home(cb[t]) ==> Linked(cb[t := x], queue, NULL, None)
  {
    forall p, u
      ensures u in Q(queue, p) <==> At(cb[t := x], t, Home(cb[t]), u, p)
      ensures Home(x) == Home(cb[t]) ==> (u in Q(queue, p) <==> At(cb[t := x], NULL, None, u, p))
    {
      assert u in Q(queue, p) <==> At(cb, NULL, None, u, p);
    }
  }

  /** The control block of the task in transit may be rewritten at will; if it belongs
      nowhere and is nowhere, it has arrived. */
  lemma RewrittenInTransit(cb: seq<TCB>, queue: map<Qid, seq<int>>, t: int, place: Option<Qid>, x: TCB)
    requires Linked(cb, queue, t, place) && 0 <= t < |cb|
    ensures Linked(cb[t := x], queue, t, place)
    ensures Home(x) == place ==> Linked(cb[t := x], queue, NULL, None)
  {
    forall p, u
      ensures u in Q(queue, p) <==> At(cb[t := x], t, place, u, p)
      ensures Home(x) == place ==> (u in Q(queue, p) <==> At(cb[t := x], NULL, None, u, p))
    {
      assert u in Q(queue, p) <==> At(cb, t, place, u, p);
    }
  }

  // ------ order within a queue

  function CurrentSubpri(x: TCB): int {
    if x.boosted then 0 else x.subpri
  }

  /** What a queue is sorted by: the current sub-priority in the ready queues of the
      levels that use it, the priority in wait queues with TA_TPRI; else nothing. */
  ghost function Key(sub: set<int>, tpri: set<int>, q: Qid, x: TCB): int {
    match q
    case Ready(_, pri) => if pri in sub then CurrentSubpri(x) else 0
    case Object(w) => if w in tpri then x.priority else 0
    case Receive(_) => 0
  }

  ghost predicate Sorted(cb: seq<TCB>, s: seq<int>, sub: set<int>, tpri: set<int>, q: Qid, t0: int) {
    forall i, j {:trigger s[i], s[j]} ::
      0 <= i < j < |s| && s[i] != t0 && s[j] != t0 && 0 <= s[i] < |cb| && 0 <= s[j] < |cb| ==>
      Key(sub, tpri, q, cb[s[i]]) <= Key(sub, tpri, q, cb[s[j]])
  }

  /** All queues are sorted, but for the task in transit. */
  ghost predicate Ordered(cb: seq<TCB>, queue: map<Qid, seq<int>>, sub: set<int>, tpri: set<int>, t0: int) {
    forall q {:trigger Q(queue, q)} :: Sorted(cb, Q(queue, q), sub, tpri, q, t0)
  }

  /** Minus takes out one place. */
  lemma {:induction false} MinusPlace(s: seq<int>, t: int) returns (k: int)
    requires t in s
    ensures 0 <= k < |s| && s[k] == t && Minus(s, t) == s[..k] + s[k + 1..]
  {
    if s[0] == t {
      k := 0;
    } else {
      var r := s[1..];
      k := MinusPlace(r, t);
      assert Minus(s, t) == [s[0]] + (r[..k] + r[k + 1..]);
      assert s[..k + 1] == [s[0]] + r[..k] && s[k + 2..] == r[k + 1..];
      k := k + 1;
    }
  }

  lemma DeletedOrdered(cb: seq<TCB>, queue: map<Qid, seq<int>>, sub: set<int>, tpri: set<int>, t: int, q: Qid)
    requires Ordered(cb, queue, sub, tpri, t) && t in Q(queue, q)
    ensures Ordered(cb, queue[q := Minus(Q(queue, q), t)], sub, tpri, t)
  {
    var queue' := queue[q := Minus(Q(queue, q), t)];
    var s, s' := Q(queue, q), Minus(Q(queue, q), t);
    var k := MinusPlace(s, t);
    assert Sorted(cb, s, sub, tpri, q, t);
    assert forall j {:trigger s'[j]} :: 0 <= j < |s'| ==> s'[j] == if j < k then s[j] else s[j + 1];
    assert Sorted(cb, s', sub, tpri, q, t);
    forall p
      ensures Sorted(cb, Q(queue', p), sub, tpri, p, t)
    {
      assert Sorted(cb, Q(queue, p), sub, tpri, p, t);
    }
  }

  /** Position i of the sorted queue suits key k. */
  ghost predicate Fits(cb: seq<TCB>, s: seq<int>, sub: set<int>, tpri: set<int>, q: Qid, k: int, i: int) {
    && 0 <= i <= |s|
    && (forall j {:trigger s[j]} :: 0 <= j < i && 0 <= s[j] < |cb| ==> Key(sub, tpri, q, cb[s[j]]) <= k)
    && (forall j {:trigger s[j]} :: i <= j < |s| && 0 <= s[j] < |cb| ==> k <= Key(sub, tpri, q, cb[s[j]]))
  }

  /** Behind all of the same key, or before all of them. */
  ghost predicate TailPlace(cb: seq<TCB>, s: seq<int>, sub: set<int>, tpri: set<int>, q: Qid, k: int, i: int) {
    && 0 <= i <= |s|
    && (forall j {:trigger s[j]} :: 0 <= j < i && 0 <= s[j] < |cb| ==> Key(sub, tpri, q, cb[s[j]]) <= k)
    && (forall j {:trigger s[j]} :: i <= j < |s| && 0 <= s[j] < |cb| ==> k < Key(sub, tpri, q, cb[s[j]]))
  }

  ghost predicate HeadPlace(cb: seq<TCB>, s: seq<int>, sub: set<int>, tpri: set<int>, q: Qid, k: int, i: int) {
    && 0 <= i <= |s|
    && (forall j {:trigger s[j]} :: 0 <= j < i && 0 <= s[j] < |cb| ==> Key(sub, tpri, q, cb[s[j]]) < k)
    && (forall j {:trigger s[j]} :: i <= j < |s| && 0 <= s[j] < |cb| ==> k <= Key(sub, tpri, q, cb[s[j]]))
  }

  /** No wait queue has changed but those of object w. */
  ghost predicate Elsewhere(was: map<Qid, seq<int>>, now: map<Qid, seq<int>>, w: int) {
    forall q: Qid {:trigger Q(now, q)} :: !q.Ready? && q != Object(w) && q != Receive(w) ==> Q(now, q) == Q(was, q)
  }

  /** Task t has joined a wait queue, behind all others of its key. */
  ghost predicate Queued(cb: seq<TCB>, was: seq<int>, now: seq<int>, sub: set<int>, tpri: set<int>, q: Qid, t: int)
    requires 0 <= t < |cb|
  {
    exists i :: 0 <= i <= |was| && now == Plus(was, i, t)
                && TailPlace(cb, was, sub, tpri, q, Key(sub, tpri, q, cb[t]), i)
  }

  lemma SortedPlus(cb: seq<TCB>, s: seq<int>, sub: set<int>, tpri: set<int>, t: int, q: Qid, i: int)
    requires Sorted(cb, s, sub, tpri, q, t) && 0 <= t < |cb| && t !in s
    requires Fits(cb, s, sub, tpri, q, Key(sub, tpri, q, cb[t]), i)
    ensures Sorted(cb, Plus(s, i, t), sub, tpri, q, NULL)
  {
    hide Key, Plus;
    var s' := Plus(s, i, t);
    forall a, b {:trigger s'[a], s'[b]} | 0 <= a < b < |s'| && 0 <= s'[a] < |cb| && 0 <= s'[b] < |cb|
      ensures Key(sub, tpri, q, cb[s'[a]]) <= Key(sub, tpri, q, cb[s'[b]])
    {
      PlusAt(s, i, t, a);
      PlusAt(s, i, t, b);
    }
  }

  lemma PlusAt(s: seq<int>, i: int, t: int, j: int)
    requires 0 <= i <= |s| && 0 <= j < |Plus(s, i, t)|
    ensures if j < i then Plus(s, i, t)[j] == s[j] && s[j] in s
            else if j == i then Plus(s, i, t)[j] == t
            else 0 < j <= |s| && Plus(s, i, t)[j] == s[j - 1] && s[j - 1] in s
  {
  }

  lemma InsertedOrdered(cb: seq<TCB>, queue: map<Qid, seq<int>>, sub: set<int>, tpri: set<int>, t: int, q: Qid, i: int)
    requires Ordered(cb, queue, sub, tpri, t) && 0 <= t < |cb| && t !in Q(queue, q)
    requires Fits(cb, Q(queue, q), sub, tpri, q, Key(sub, tpri, q, cb[t]), i)
    requires forall p {:trigger Q(queue, p)} :: t !in Q(queue, p)
    ensures Ordered(cb, queue[q := Plus(Q(queue, q), i, t)], sub, tpri, NULL)
  {
    hide Plus, Key;
    var queue' := queue[q := Plus(Q(queue, q), i, t)];
    SortedPlus(cb, Q(queue, q), sub, tpri, t, q, i);
    forall p
      ensures Sorted(cb, Q(queue', p), sub, tpri, p, NULL)
    {
      assert Sorted(cb, Q(queue, p), sub, tpri, p, t);
      assert t !in Q(queue, p);
    }
  }

  /** Rewriting the control block of one task disorders nothing but its own place; not
      even that if its key in the queue it is in stays the same. */
  lemma RewrittenOrdered(cb: seq<TCB>, queue: map<Qid, seq<int>>, sub: set<int>, tpri: set<int>, t: int, x: TCB)
    requires Ordered(cb, queue, sub, tpri, NULL) || Ordered(cb, queue, sub, tpri, t)
    requires 0 <= t < |cb|
    ensures Ordered(cb[t := x], queue, sub, tpri, t)
  {
    forall p
      ensures Sorted(cb[t := x], Q(queue, p), sub, tpri, p, t)
    {
      assert Sorted(cb, Q(queue, p), sub, tpri, p, NULL) || Sorted(cb, Q(queue, p), sub, tpri, p, t);
      assert forall j {:trigger Q(queue, p)[j]} :: 0 <= j < |Q(queue, p)| ==> Q(queue, p)[j] in Q(queue, p);
    }
  }

  lemma SameKeyOrdered(cb: seq<TCB>, queue: map<Qid, seq<int>>, sub: set<int>, tpri: set<int>, t: int, x: TCB)
    requires Ordered(cb, queue, sub, tpri, NULL) && 0 <= t < |cb|
    requires forall q {:trigger Q(queue, q)} :: t in Q(queue, q) ==> Key(sub, tpri, q, x) == Key(sub, tpri, q, cb[t])
    ensures Ordered(cb[t := x], queue, sub, tpri, NULL)
  {
    forall p
      ensures Sorted(cb[t := x], Q(queue, p), sub, tpri, p, NULL)
    {
      assert Sorted(cb, Q(queue, p), sub, tpri, p, NULL);
      assert forall j {:trigger Q(queue, p)[j]} :: 0 <= j < |Q(queue, p)| ==> Q(queue, p)[j] in Q(queue, p);
    }
  }

  /** Rewriting a control block without changing its home or its key there. */
  lemma KeyKept(cb: seq<TCB>, queue: map<Qid, seq<int>>, sub: set<int>, tpri: set<int>, t: int, x: TCB)
    requires Linked(cb, queue, NULL, None) && Ordered(cb, queue, sub, tpri, NULL) && 0 <= t < |cb|
    requires Home(x) == Home(cb[t])
    requires Home(x).Some? ==> Key(sub, tpri, Home(x).value, x) == Key(sub, tpri, Home(x).value, cb[t])
    ensures Linked(cb[t := x], queue, NULL, None) && Ordered(cb[t := x], queue, sub, tpri, NULL)
  {
    hide Linked, Ordered;
    RewrittenLinked(cb, queue, t, x);
    AtHome(cb, queue, t);
    SameKeyOrdered(cb, queue, sub, tpri, t, x);
  }

  /** The sub-priority matters only to runnable tasks, and not to boosted ones. */
  lemma SubpriOrdered(cb: seq<TCB>, queue: map<Qid, seq<int>>, sub: set<int>, tpri: set<int>, t: int, x: TCB)
    requires Linked(cb, queue, NULL, None) && Ordered(cb, queue, sub, tpri, NULL) && 0 <= t < |cb|
    requires x == cb[t].(subpri := x.subpri)
    requires !x.tstat.runnable || x.boosted || x.priority !in sub
    ensures Linked(cb[t := x], queue, NULL, None) && Ordered(cb[t := x], queue, sub, tpri, NULL)
  {
    hide Linked, Ordered;
    RewrittenLinked(cb, queue, t, x);
    AtHome(cb, queue, t);
    SameKeyOrdered(cb, queue, sub, tpri, t, x);
  }

  lemma AtHome(cb: seq<TCB>, queue: map<Qid, seq<int>>, t: int)
    requires Linked(cb, queue, NULL, None) && 0 <= t < |cb|
    ensures forall q {:trigger Q(queue, q)} :: t in Q(queue, q) <==> Home(cb[t]) == Some(q)
  {
    forall q
      ensures t in Q(queue, q) <==> Home(cb[t]) == Some(q)
    {
      assert t in Q(queue, q) <==> At(cb, NULL, None, t, q);
    }
  }

  /** A task in no queue disturbs none. */
  lemma ArrivedOrdered(cb: seq<TCB>, queue: map<Qid, seq<int>>, sub: set<int>, tpri: set<int>, t: int)
    requires Ordered(cb, queue, sub, tpri, t)
    requires forall p {:trigger Q(queue, p)} :: t !in Q(queue, p)
    ensures Ordered(cb, queue, sub, tpri, NULL)
  {
    forall p
      ensures Sorted(cb, Q(queue, p), sub, tpri, p, NULL)
    {
      assert Sorted(cb, Q(queue, p), sub, tpri, p, t) && t !in Q(queue, p);
      assert forall j {:trigger Q(queue, p)[j]} :: 0 <= j < |Q(queue, p)| ==> Q(queue, p)[j] in Q(queue, p);
    }
  }

  /** The task in transit, taken out, is nowhere; all queued tasks exist. */
  lemma NowhereInTransit(cb: seq<TCB>, queue: map<Qid, seq<int>>, t: int)
    requires Linked(cb, queue, t, None)
    ensures forall p {:trigger Q(queue, p)} :: t !in Q(queue, p)
    ensures forall p, u {:trigger u in Q(queue, p)} :: u in Q(queue, p) ==> 0 <= u < |cb|
  {
    forall p
      ensures t !in Q(queue, p)
    {
      assert !At(cb, t, None, t, p);
    }
    forall p, u | u in Q(queue, p)
      ensures 0 <= u < |cb|
    {
      assert At(cb, t, None, u, p);
    }
  }

  /** The task is moved from one queue to another, behind or before its equals there. */
  ghost predicate Requeued(cb: seq<TCB>, was: map<Qid, seq<int>>, now: map<Qid, seq<int>>, sub: set<int>,
      tpri: set<int>, from: Qid, to: Qid, t: int, head: bool)
    requires 0 <= t < |cb|
  {
    var mid := was[from := Minus(Q(was, from), t)];
    exists i :: PutIn(mid, now, to, t, i) && Placed(cb, mid, sub, tpri, to, t, head, i)
  }

  /** Place i of queue q is right for task t. */
  ghost predicate Placed(cb: seq<TCB>, queue: map<Qid, seq<int>>, sub: set<int>, tpri: set<int>, q: Qid, t: int,
      head: bool, i: int)
    requires 0 <= t < |cb|
  {
    if head then HeadPlace(cb, Q(queue, q), sub, tpri, q, Key(sub, tpri, q, cb[t]), i)
    else TailPlace(cb, Q(queue, q), sub, tpri, q, Key(sub, tpri, q, cb[t]), i)
  }

  /** Only tasks that waited there before wait for object w. */
  ghost predicate Fewer(was: map<Qid, seq<int>>, now: map<Qid, seq<int>>, w: int) {
    && (forall t {:trigger t in Q(now, Object(w))} :: t in Q(now, Object(w)) ==> t in Q(was, Object(w)))
    && (forall t {:trigger t in Q(now, Receive(w))} :: t in Q(now, Receive(w)) ==> t in Q(was, Receive(w)))
  }

  /** If the place of every task is the old one or not at object w, the wait queues of w only shrink. */
  lemma WaitersShrink(cb: seq<TCB>, cb': seq<TCB>, queue: map<Qid, seq<int>>, queue': map<Qid, seq<int>>, w: int)
    requires Linked(cb, queue, NULL, None) && Linked(cb', queue', NULL, None) && |cb'| == |cb|
    requires forall t {:trigger cb'[t]} :: 0 <= t < |cb| ==>
               Home(cb'[t]) == Home(cb[t]) || (Home(cb'[t]) != Some(Object(w)) && Home(cb'[t]) != Some(Receive(w)))
    ensures Fewer(queue, queue', w)
  {
    forall q, t | (q == Object(w) || q == Receive(w)) && t in Q(queue', q)
      ensures t in Q(queue, q)
    {
      assert At(cb', NULL, None, t, q);
      assert At(cb, NULL, None, t, q);
    }
  }

  /** Task t has been put into its ready queue, behind its equals, if it is runnable;
      nothing else has moved. */
  ghost predicate Joins(cb: seq<TCB>, was: map<Qid, seq<int>>, now: map<Qid, seq<int>>, sub: set<int>, tpri: set<int>,
      t: int)
    requires 0 <= t < |cb|
  {
    if cb[t].tstat.runnable then
      var q := Ready(cb[t].prc, cb[t].priority);
      exists i :: PutIn(was, now, q, t, i) && Placed(cb, was, sub, tpri, q, t, false, i)
    else now == was
  }

  lemma JoinsAt(cb: seq<TCB>, was: map<Qid, seq<int>>, now: map<Qid, seq<int>>, sub: set<int>, tpri: set<int>, t: int,
      i: int)
    requires 0 <= t < |cb| && cb[t].tstat.runnable
    requires var q := Ready(cb[t].prc, cb[t].priority);
      PutIn(was, now, q, t, i) && Placed(cb, was, sub, tpri, q, t, false, i)
    ensures Joins(cb, was, now, sub, tpri, t)
  {
  }

  /** It moves in the ready queues only. */
  lemma JoinsReady(cb: seq<TCB>, was: map<Qid, seq<int>>, now: map<Qid, seq<int>>, sub: set<int>, tpri: set<int>,
      t: int)
    requires 0 <= t < |cb| && Joins(cb, was, now, sub, tpri, t)
    ensures forall q: Qid {:trigger Q(now, q)} :: !q.Ready? ==> Q(now, q) == Q(was, q)
  {
  }

  lemma JoinsNone(cb: seq<TCB>, queue: map<Qid, seq<int>>, sub: set<int>, tpri: set<int>, t: int)
    requires 0 <= t < |cb| && !cb[t].tstat.runnable
    ensures Joins(cb, queue, queue, sub, tpri, t)
  {
  }

  /** The queues without task t, whose control block is x, in the one it belongs to. */
  ghost function Leaves(queue: map<Qid, seq<int>>, x: TCB, t: int): map<Qid, seq<int>> {
    if Home(x).Some? then queue[Home(x).value := Minus(Q(queue, Home(x).value), t)] else queue
  }

  /** Task t, whose control block was x, has left the queue it was in, and has been put
      into its ready queue, behind its equals, if it is runnable now. */
  ghost predicate Wakes(cb: seq<TCB>, was: map<Qid, seq<int>>, now: map<Qid, seq<int>>, sub: set<int>, tpri: set<int>,
      x: TCB, t: int)
    requires 0 <= t < |cb|
  {
    Joins(cb, Leaves(was, x, t), now, sub, tpri, t)
  }

  /** The queue is not sorted by anything. */
  ghost predicate Unkeyed(sub: set<int>, tpri: set<int>, q: Qid) {
    match q
    case Ready(_, pri) => pri !in sub
    case Object(w) => w !in tpri
    case Receive(_) => true
  }

  /** A task at home in an unkeyed queue cannot disorder it. */
  lemma UnkeyedOrdered(cb: seq<TCB>, queue: map<Qid, seq<int>>, sub: set<int>, tpri: set<int>, t: int)
    requires 0 <= t < |cb| && Linked(cb, queue, t, Home(cb[t])) && Ordered(cb, queue, sub, tpri, t)
    requires Home(cb[t]).Some? ==> Unkeyed(sub, tpri, Home(cb[t]).value)
    ensures Linked(cb, queue, NULL, None) && Ordered(cb, queue, sub, tpri, NULL)
  {
    RewrittenInTransit(cb, queue, t, Home(cb[t]), cb[t]);
    assert cb[t := cb[t]] == cb;
    forall p
      ensures Sorted(cb, Q(queue, p), sub, tpri, p, NULL)
    {
      assert Sorted(cb, Q(queue, p), sub, tpri, p, t);
      assert forall j {:trigger Q(queue, p)[j]} :: 0 <= j < |Q(queue, p)| ==> Q(queue, p)[j] in Q(queue, p);
      if t in Q(queue, p) {
        assert At(cb, t, Home(cb[t]), t, p);
      }
    }
  }

  /** What a method needs to queue a task in transit. */
  lemma ReadyToInsert(cb: seq<TCB>, queue: map<Qid, seq<int>>, sub: set<int>, tpri: set<int>, t: int, q: Qid)
    requires Linked(cb, queue, t, None) && Ordered(cb, queue, sub, tpri, t)
    ensures forall u {:trigger u in Q(queue, q)} :: u in Q(queue, q) ==> 0 <= u < |cb|
    ensures Sorted(cb, Q(queue, q), sub, tpri, q, NULL)
  {
    NowhereInTransit(cb, queue, t);
    ArrivedOrdered(cb, queue, sub, tpri, t);
    assert Sorted(cb, Q(queue, q), sub, tpri, q, NULL);
  }

  lemma Inserted(cb: seq<TCB>, queue: map<Qid, seq<int>>, sub: set<int>, tpri: set<int>, t: int, q: Qid, i: int)
    requires Linked(cb, queue, t, None) && Ordered(cb, queue, sub, tpri, t) && 0 <= t < |cb| && Home(cb[t]) == Some(q)
    requires Placed(cb, queue, sub, tpri, q, t, true, i) || Placed(cb, queue, sub, tpri, q, t, false, i)
    ensures 0 <= i <= |Q(queue, q)|
    ensures var queue' := queue[q := Plus(Q(queue, q), i, t)];
      PutIn(queue, queue', q, t, i) && Linked(cb, queue', NULL, None) && Ordered(cb, queue', sub, tpri, NULL)
  {
    NowhereInTransit(cb, queue, t);
    InsertedLinked(cb, queue, t, q, i);
    assert Fits(cb, Q(queue, q), sub, tpri, q, Key(sub, tpri, q, cb[t]), i);
    InsertedOrdered(cb, queue, sub, tpri, t, q, i);
  }

  // ------ the task to run

  /** Task s heads the first nonempty ready queue of processor p, that of priority r. */
  ghost predicate Top(queue: map<Qid, seq<int>>, p: int, r: int, s: int) {
    && 0 <= r < TNUM_TPRI && Q(queue, Ready(p, r)) != [] && Q(queue, Ready(p, r))[0] == s
    && forall r' {:trigger Q(queue, Ready(p, r'))} :: 0 <= r' < r ==> Q(queue, Ready(p, r')) == []
  }

  /** What p_schedtsk should be. */
  ghost predicate Highest(queue: map<Qid, seq<int>>, p: int, s: int) {
    if s == NULL then forall r {:trigger Q(queue, Ready(p, r))} :: 0 <= r < TNUM_TPRI ==> Q(queue, Ready(p, r)) == []
    else exists r :: Top(queue, p, r, s)
  }

  /** ready_primap, p_schedtsk and dspflg of the processors. */
  datatype PCB = PCB(primap: bv16, schedtsk: int, dspflg: bool, runtsk: int)

  /** Bit r of the map is set exactly if queue r is not empty. */
  ghost predicate Mapped(queue: map<Qid, seq<int>>, p: int, primap: bv16) {
    forall r {:trigger Bit(primap, r)} {:trigger Q(queue, Ready(p, r))} ::
      Bit(primap, r) <==> 0 <= r < TNUM_TPRI && Q(queue, Ready(p, r)) != []
  }

  /** While tasks may be dispatched, p_schedtsk is the highest one; while they may not,
      it is some task. */
  ghost predicate Settled(queue: map<Qid, seq<int>>, pcb: seq<PCB>, ntsk: int) {
    forall p {:trigger pcb[p]} :: 0 <= p < |pcb| ==>
      && Mapped(queue, p, pcb[p].primap)
      && (pcb[p].dspflg ==> Highest(queue, p, pcb[p].schedtsk))
      && (!pcb[p].dspflg ==> 0 <= pcb[p].schedtsk < ntsk)
  }
}

/** Entering and leaving wait states (kernel/wait.h, kernel/wait.c). */
module WaitState {

  import opened Options
  import opened Sequences
  import opened TaskQueues
  import opened MutexProtocol
  import opened KernelTables
  import opened Scheduler

  /** The state of a task that is waiting, from that of the running task: a task that
      another processor has suspended meanwhile stays suspended. */
  ghost function Waits(s: Tstat, wait: Wait): Tstat {
    Tstat(false, s.suspended, wait)
  }

  /** The state of a task whose wait ends. */
  ghost function Resumes(s: Tstat): Tstat {
    if s.suspended then SUSPENDED else RUNNABLE
  }

  /** The control block of a task that waits, with a timeout or without. */
  ghost function InWait(x: TCB, wait: Wait, timed: bool): TCB {
    x.(tstat := Waits(x.tstat, wait), winfo := Tmevtb(timed))
  }

  /** That of a task whose wait has ended with an error code. */
  ghost function OutOfWait(x: TCB, ercd: Ercd): TCB {
    x.(tstat := Resumes(x.tstat), winfo := Wercd(ercd))
  }

  /** Putting together what a rewriting of one control block, in transit, keeps. */
  lemma RewrittenRest(k: Kernel, t0: int, on: bool, p0: int, m0: int, t: int, x: TCB)
    requires k.Rest(t0, on, p0, m0) && k.IsTask(t) && x.prc == k.cb[t].prc
    requires t == t0 || Timed(x) == Timed(k.cb[t])
    requires t == t0 || x.tstat.wait == NoWait || x.winfo.Tmevtb?
    requires x.lastmtx == k.cb[t].lastmtx && x.bpriority == k.cb[t].bpriority && x.priority == k.cb[t].priority
    requires x.boosted == k.cb[t].boosted
    requires WaitRule(k.mtx, t, x) && (x.tstat == DORMANT ==> |k.held| == |k.cb| && k.held[t] == [])
    ensures Timers(k.cb[t := x], k.timer, t0, on) && Lists(k.cb[t := x], k.mtx, k.held, p0, m0)
    ensures t0 == t && on == Timed(x) && (x.tstat.wait == NoWait || x.winfo.Tmevtb?) ==>
            Timers(k.cb[t := x], k.timer, NULL, false)
  {
    hide WaitRule;
    TimersRewritten(k.cb, k.timer, t0, on, t, x);
    Unaffected(k.cb, k.mtx, k.held, p0, m0, t, x);
  }

  /** make_wait: the running task leaves the ready queue, unless it has been suspended;
      it is not yet in the wait queue it may belong to. */
  method MakeWait(k: Kernel, wait: Wait, self: int)
    requires k.Inv() && k.IsTask(self) && (k.cb[self].tstat == RUNNABLE || k.cb[self].tstat == SUSPENDED)
    requires wait != NoWait
    requires WaitRule(k.mtx, self, k.cb[self].(tstat := Waits(k.cb[self].tstat, wait)))
    modifies k`cb, k`queue, k`pcb
    ensures k.Queues(self, None) && k.Rest(NULL, false, NULL, NULL) && SameMode(old(k.pcb), k.pcb)
    ensures |k.pcb| == old(|k.pcb|)
    ensures k.cb == old(k.cb)[self := InWait(old(k.cb[self]), wait, false)]
    ensures k.cb[self].tstat == Tstat(false, old(k.cb[self].tstat.suspended), wait) && k.cb[self].winfo == Tmevtb(false)
    ensures if old(k.cb[self].tstat.runnable)
            then TakenOut(old(k.queue), k.queue, Ready(k.cb[self].prc, k.cb[self].priority), self)
            else k.queue == old(k.queue)
  {
    hide Linked, Ordered, Sorted, Distinct, Settled, Timers, Lists, SameMode, TakenOut, WaitRule;
    ghost var cb := k.cb;
    var x := k.cb[self];
    var w := x.(tstat := Tstat(false, x.tstat.suspended, wait));
    ghost var y := w.(winfo := Tmevtb(false));
    WaitRuleSame(k.mtx, self, w, y);
    RewrittenRest(k, NULL, false, NULL, NULL, self, y);
    RewrittenQueues(k, self, w);
    SameModeRefl(k.pcb);
    k.cb := k.cb[self := w];
    if x.tstat.runnable {
      MakeNonRunnable(k, self);
    }
    TransitQueues(k, self, None, y);
    k.cb := k.cb[self := k.cb[self].(winfo := Tmevtb(false))];
    assert k.cb == cb[self := y];
  }

  /** Rewriting a control block puts the task in transit at its old place. */
  lemma RewrittenQueues(k: Kernel, t: int, x: TCB)
    requires k.Queues(NULL, None) && k.IsTask(t)
    requires FieldsOk(x, |k.pcb|)
    ensures InRange(k.cb[t := x], |k.pcb|) && Linked(k.cb[t := x], k.queue, t, Home(k.cb[t]))
    ensures Ordered(k.cb[t := x], k.queue, k.sub, k.tpri, t)
  {
    hide Linked, Ordered, Settled;
    RewrittenLinked(k.cb, k.queue, t, x);
    RewrittenOrdered(k.cb, k.queue, k.sub, k.tpri, t, x);
  }

  /** In transit it may be rewritten freely, and arrives if its home is where it is. */
  lemma TransitQueues(k: Kernel, t: int, place: Option<Qid>, x: TCB)
    requires k.Queues(t, place) && k.IsTask(t)
    requires FieldsOk(x, |k.pcb|)
    ensures InRange(k.cb[t := x], |k.pcb|) && Linked(k.cb[t := x], k.queue, t, place)
    ensures Ordered(k.cb[t := x], k.queue, k.sub, k.tpri, t)
    ensures place == None && Home(x) == None ==>
              Linked(k.cb[t := x], k.queue, NULL, None) && Ordered(k.cb[t := x], k.queue, k.sub, k.tpri, NULL)
  {
    hide Linked, Ordered, Settled;
    RewrittenInTransit(k.cb, k.queue, t, place, x);
    RewrittenOrdered(k.cb, k.queue, k.sub, k.tpri, t, x);
    if place == None {
      NowhereInTransit(k.cb, k.queue, t);
      ArrivedOrdered(k.cb[t := x], k.queue, k.sub, k.tpri, t);
    }
  }

  lemma WaitRuleSame(mtx: seq<Mtx>, t: int, x: TCB, y: TCB)
    requires WaitRule(mtx, t, x) && x.tstat.wait == y.tstat.wait && x.bpriority == y.bpriority
    ensures WaitRule(mtx, t, y)
  {
  }

  /** make_wait_tmout: with a timeout the task's time event goes into the heap of its
      processor.  tmout None is TMO_FEVR. */
  method MakeWaitTmout(k: Kernel, wait: Wait, self: int, tmout: bool)
    requires k.Inv() && k.IsTask(self) && (k.cb[self].tstat == RUNNABLE || k.cb[self].tstat == SUSPENDED)
    requires wait != NoWait
    requires WaitRule(k.mtx, self, k.cb[self].(tstat := Waits(k.cb[self].tstat, wait)))
    modifies k`cb, k`queue, k`pcb, k`timer
    ensures k.Queues(self, None) && k.Rest(NULL, false, NULL, NULL)
    ensures SameMode(old(k.pcb), k.pcb) && |k.pcb| == old(|k.pcb|)
    ensures k.cb == old(k.cb)[self := InWait(old(k.cb[self]), wait, tmout)]
    ensures k.cb[self].tstat == Tstat(false, old(k.cb[self].tstat.suspended), wait) && k.cb[self].winfo == Tmevtb(tmout)
    ensures if old(k.cb[self].tstat.runnable)
            then TakenOut(old(k.queue), k.queue, Ready(k.cb[self].prc, k.cb[self].priority), self)
            else k.queue == old(k.queue)
    ensures k.timer == if tmout then old(k.timer)[k.cb[self].prc := old(k.timer)[k.cb[self].prc] + {self}]
            else old(k.timer)
  {
    hide Linked, Ordered, Sorted, Distinct, Settled, Lists, SameMode, TakenOut, Waits, WaitRule, Timers;
    ghost var cb := k.cb;
    MakeWait(k, wait, self);
    if tmout {
      ghost var before := k.cb[self];
      var x := k.cb[self].(winfo := Tmevtb(true));
      TransitQueues(k, self, None, x);
      assert before.tstat.wait == wait by {
        WaitsFor(cb[self].tstat, wait);
      }
      RegisteredTimer(k.cb, k.timer, self, x);
      WaitRuleHolds(k, self);
      WaitRuleSame(k.mtx, self, before, x);
      Unaffected(k.cb, k.mtx, k.held, NULL, NULL, self, x);
      k.cb := k.cb[self := x];
      k.timer := k.timer[x.prc := k.timer[x.prc] + {self}];
      assert k.cb == cb[self := x];
    }
  }

  lemma WaitsFor(s: Tstat, wait: Wait)
    ensures Waits(s, wait).wait == wait
  {
  }

  lemma WaitRuleHolds(k: Kernel, t: int)
    requires k.Rest(NULL, false, NULL, NULL) && k.IsTask(t)
    ensures WaitRule(k.mtx, t, k.cb[t])
  {
  }

  /** Registering the time event of a waiting task. */
  lemma RegisteredTimer(cb: seq<TCB>, timer: seq<set<int>>, t: int, x: TCB)
    requires Timers(cb, timer, NULL, false) && 0 <= t < |cb| && 0 <= x.prc < |timer|
    requires x == cb[t].(winfo := Tmevtb(true)) && x.tstat.wait != NoWait
    ensures Timers(cb[t := x], timer[x.prc := timer[x.prc] + {t}], NULL, false)
  {
  }

  /** wobj_make_wait and wobj_make_wait_tmout, and the same for a receive queue: the
      running task waits in the queue of an object. */
  method WobjMakeWait(k: Kernel, wait: Wait, self: int, tmout: bool)
    requires k.Inv() && k.IsTask(self) && (k.cb[self].tstat == RUNNABLE || k.cb[self].tstat == SUSPENDED)
    requires (wait.On? || wait.Receiving?)
    requires WaitRule(k.mtx, self, k.cb[self].(tstat := Waits(k.cb[self].tstat, wait)))
    modifies k`cb, k`queue, k`pcb, k`timer
    ensures k.Inv() && SameMode(old(k.pcb), k.pcb) && |k.pcb| == old(|k.pcb|)
    ensures k.cb == old(k.cb)[self := InWait(old(k.cb[self]), wait, tmout)]
    ensures k.timer == if tmout then old(k.timer)[k.cb[self].prc := old(k.timer)[k.cb[self].prc] + {self}]
            else old(k.timer)
    ensures Queued(k.cb, Q(old(k.queue), QueueOf(wait)), Q(k.queue, QueueOf(wait)), k.sub, k.tpri, QueueOf(wait), self)
    ensures Unkeyed(k.sub, k.tpri, QueueOf(wait)) ==>
            Q(k.queue, QueueOf(wait)) == Q(old(k.queue), QueueOf(wait)) + [self]
    ensures forall u {:trigger u in Q(k.queue, QueueOf(wait))} :: u in Q(k.queue, QueueOf(wait)) <==>
            u in Q(old(k.queue), QueueOf(wait)) || u == self
    ensures forall q: Qid {:trigger Q(k.queue, q)} :: !q.Ready? && q != QueueOf(wait) ==>
            Q(k.queue, q) == Q(old(k.queue), q)
  {
    hide Linked, Ordered, Sorted, Distinct, Settled, Lists, SameMode, TakenOut, WaitRule, Timers, PutIn, Placed;
    ghost var was := k.queue;
    MakeWaitTmout(k, wait, self, tmout);
    var q := QueueOf(wait);
    ghost var queue := k.queue;
    SameWaitQueues(was, queue, Ready(k.cb[self].prc, k.cb[self].priority), self);
    ghost var i := InsertWait(k, self, q);
    InsertedAt(k.cb, queue, k.queue, k.sub, k.tpri, q, self, i);
    PutInReady(queue, k.queue, q, self, i);
    PutInOthers(queue, k.queue, q, self, i);
    WaitMoved(k.cb, queue, k.pcb, k.queue, |k.cb|);
  }

  /** The queue a task with this wait belongs to. */
  function QueueOf(wait: Wait): Qid
    requires wait.On? || wait.Receiving?
  {
    if wait.On? then Object(wait.w) else Receive(wait.w)
  }

  lemma SameWaitQueues(was: map<Qid, seq<int>>, now: map<Qid, seq<int>>, q: Qid, t: int)
    requires q.Ready? && (now == was || TakenOut(was, now, q, t))
    ensures forall p: Qid {:trigger Q(now, p)} :: !p.Ready? ==> Q(now, p) == Q(was, p)
  {
  }

  /** What an insertion does to the queue: behind all where nothing is sorted. */
  lemma InsertedAt(cb: seq<TCB>, was: map<Qid, seq<int>>, now: map<Qid, seq<int>>, sub: set<int>, tpri: set<int>,
      q: Qid, t: int, i: int)
    requires 0 <= t < |cb| && PutIn(was, now, q, t, i) && Placed(cb, was, sub, tpri, q, t, false, i)
    requires Linked(cb, now, NULL, None)
    ensures Queued(cb, Q(was, q), Q(now, q), sub, tpri, q, t)
    ensures Unkeyed(sub, tpri, q) ==> Q(now, q) == Q(was, q) + [t]
    ensures forall u {:trigger u in Q(now, q)} :: u in Q(now, q) <==> u in Q(was, q) || u == t
  {
    var s, s' := Q(was, q), Q(now, q);
    assert forall j {:trigger s'[j]} :: 0 <= j < |s'| ==>
           s'[j] == if j < i then s[j] else if j == i then t else s[j - 1];
    assert forall j {:trigger s[j]} :: 0 <= j < |s| ==> s[j] == s'[if j < i then j else j + 1];
    forall j {:trigger s'[j]} | 0 <= j < |s'|
      ensures 0 <= s'[j] < |cb|
    {
      assert s'[j] in s';
      assert At(cb, NULL, None, s'[j], q);
    }
  }

  lemma PutInReady(was: map<Qid, seq<int>>, now: map<Qid, seq<int>>, q: Qid, t: int, i: int)
    requires PutIn(was, now, q, t, i) && !q.Ready?
    ensures forall p, r {:trigger Q(now, Ready(p, r))} :: Q(now, Ready(p, r)) == Q(was, Ready(p, r))
  {
  }

  // ------ leaving

  /** wait_dequeue_wobj: the task leaves the wait queue it is in, if any. */
  method WaitDequeueWobj(k: Kernel, t: int)
    requires k.Queues(NULL, None) && k.IsTask(t) && k.cb[t].tstat.wait != NoWait
    modifies k`queue
    ensures k.Queues(t, None)
    ensures var q := Home(k.cb[t]); if q.Some? then TakenOut(old(k.queue), k.queue, q.value, t)
            else k.queue == old(k.queue)
  {
    hide Linked, Ordered, Sorted, Distinct, Settled, Minus;
    var x := k.cb[t];
    RewrittenQueues(k, t, x);
    assert k.cb[t := x] == k.cb;
    if x.tstat.wait.On? || x.tstat.wait.Receiving? {
      var q := if x.tstat.wait.On? then Object(x.tstat.wait.w) else Receive(x.tstat.wait.w);
      Unqueue(k, t, q);
    }
  }

  /** queue_delete for a task in transit. */
  method Unqueue(k: Kernel, t: int, q: Qid)
    requires k.IsTask(t) && k.Queues(t, Some(q)) && !q.Ready?
    modifies k`queue
    ensures k.Queues(t, None) && TakenOut(old(k.queue), k.queue, q, t)
  {
    hide Linked, Ordered, Sorted, Distinct, Settled, Minus;
    ghost var queue := k.queue;
    DeletedLinked(k.cb, k.queue, t, q);
    DeletedOrdered(k.cb, k.queue, k.sub, k.tpri, t, q);
    k.queue := k.queue[q := Minus(Q(k.queue, q), t)];
    TakenOutReady(queue, k.queue, q, t);
    WaitMoved(k.cb, queue, k.pcb, k.queue, |k.cb|);
  }

  lemma TakenOutReady(was: map<Qid, seq<int>>, now: map<Qid, seq<int>>, q: Qid, t: int)
    requires TakenOut(was, now, q, t) && !q.Ready?
    ensures forall p, r {:trigger Q(now, Ready(p, r))} :: Q(now, Ready(p, r)) == Q(was, Ready(p, r))
  {
  }

  /** wait_dequeue_tmevtb: the task's time event leaves the heap, if it is in it. */
  method WaitDequeueTmevtb(k: Kernel, t: int)
    requires k.IsTask(t) && k.cb[t].tstat.wait != NoWait && |k.timer| == |k.pcb| && InRange(k.cb, |k.pcb|)
    requires Timers(k.cb, k.timer, NULL, false)
    modifies k`timer
    ensures Timers(k.cb, k.timer, t, false) && |k.timer| == |k.pcb|
    ensures k.timer == old(k.timer)[k.cb[t].prc := old(k.timer)[k.cb[t].prc] - {t}]
  {
    var p := k.cb[t].prc;
    if k.cb[t].winfo.timed {
      k.timer := k.timer[p := k.timer[p] - {t}];
    } else {
      assert k.timer[p] - {t} == k.timer[p];
    }
  }

  /** winfo.wercd = ercd: it must not overwrite a registered time event block. */
  method SetWercd(k: Kernel, t: int, ercd: Ercd, ghost place: Option<Qid>, ghost p0: int, ghost m0: int)
    requires k.IsTask(t) && k.Queues(t, place) && k.Rest(t, false, p0, m0)
    modifies k`cb
    ensures k.Queues(t, place) && k.Rest(t, false, p0, m0)
    ensures k.cb == old(k.cb)[t := old(k.cb[t]).(winfo := Wercd(ercd))]
  {
    hide Linked, Ordered, Sorted, Distinct, Settled, Lists, WaitRule, Timers;
    var x := k.cb[t].(winfo := Wercd(ercd));
    TransitQueues(k, t, place, x);
    RuleAndList(k, t, p0, m0);
    WaitRuleSame(k.mtx, t, k.cb[t], x);
    RewrittenRest(k, t, false, p0, m0, t, x);
    k.cb := k.cb[t := x];
  }

  lemma RuleAndList(k: Kernel, t: int, p0: int, m0: int)
    requires Lists(k.cb, k.mtx, k.held, p0, m0) && k.IsTask(t)
    ensures WaitRule(k.mtx, t, k.cb[t]) && |k.held| == |k.cb| && (k.cb[t].tstat == DORMANT ==> k.held[t] == [])
  {
  }

  /** make_non_wait: the task becomes runnable, or stays suspended. */
  method MakeNonWait(k: Kernel, t: int, ghost p0: int)
    requires k.IsTask(t) && k.Queues(t, None) && k.cb[t].tstat.wait != NoWait
    requires |k.timer| == |k.pcb| && Timers(k.cb, k.timer, t, false)
    requires Lists(k.cb[t := k.cb[t].(tstat := Resumes(k.cb[t].tstat))], k.mtx, k.held, p0, NULL)
    modifies k`cb, k`queue, k`pcb
    ensures k.Queues(NULL, None) && k.Rest(NULL, false, p0, NULL)
    ensures SameMode(old(k.pcb), k.pcb) && |k.pcb| == old(|k.pcb|)
    ensures k.cb == old(k.cb)[t := old(k.cb[t]).(tstat := Resumes(old(k.cb[t].tstat)))]
    ensures var s := old(k.cb[t].tstat.suspended); k.cb[t].tstat == Tstat(!s, s, NoWait)
    ensures Joins(k.cb, old(k.queue), k.queue, k.sub, k.tpri, t)
    ensures forall q: Qid {:trigger Q(k.queue, q)} :: !q.Ready? ==> Q(k.queue, q) == Q(old(k.queue), q)
  {
    hide Linked, Ordered, Sorted, Distinct, Settled, Lists, WaitRule, Timers, SameMode, PutIn, Placed, Joins;
    ghost var cb, queue := k.cb, k.queue;
    ghost var x := k.cb[t].(tstat := Resumes(k.cb[t].tstat));
    TransitQueues(k, t, None, x);
    TimersRewritten(k.cb, k.timer, t, false, t, x);
    SameModeRefl(k.pcb);
    if !k.cb[t].tstat.suspended {
      k.cb := k.cb[t := k.cb[t].(tstat := RUNNABLE)];
      ghost var i := MakeRunnable(k, t);
      PutInOthers(queue, k.queue, Ready(x.prc, x.priority), t, i);
      JoinsAt(k.cb, queue, k.queue, k.sub, k.tpri, t, i);
    } else {
      k.cb := k.cb[t := k.cb[t].(tstat := SUSPENDED)];
      JoinsNone(k.cb, k.queue, k.sub, k.tpri, t);
    }
    assert k.cb == cb[t := x];
  }

  lemma NoWaitRule(mtx: seq<Mtx>, t: int, x: TCB)
    requires x.tstat.wait == NoWait
    ensures WaitRule(mtx, t, x)
  {
  }

  lemma PutInOthers(was: map<Qid, seq<int>>, now: map<Qid, seq<int>>, q: Qid, t: int, i: int)
    requires PutIn(was, now, q, t, i)
    ensures forall p {:trigger Q(now, p)} :: p != q ==> Q(now, p) == Q(was, p)
  {
  }

  /** The end of a wait: what wait_complete, wait_tmout, rel_wai and init_wait_queue have
      in common once the task is out of its queue and its time event out of the heap. */
  method EndWait(k: Kernel, t: int, ercd: Ercd, ghost p0: int)
    requires k.IsTask(t) && k.Queues(t, None) && k.Rest(t, false, p0, NULL) && k.cb[t].tstat.wait != NoWait
    modifies k`cb, k`queue, k`pcb
    ensures k.Queues(NULL, None) && k.Rest(NULL, false, p0, NULL)
    ensures SameMode(old(k.pcb), k.pcb) && |k.pcb| == old(|k.pcb|)
    ensures k.cb == old(k.cb)[t := OutOfWait(old(k.cb[t]), ercd)]
    ensures var s := old(k.cb[t].tstat.suspended); k.cb[t].tstat == Tstat(!s, s, NoWait)
    ensures k.cb[t].winfo == Wercd(ercd)
    ensures Joins(k.cb, old(k.queue), k.queue, k.sub, k.tpri, t)
    ensures forall q: Qid {:trigger Q(k.queue, q)} :: !q.Ready? ==> Q(k.queue, q) == Q(old(k.queue), q)
  {
    hide Linked, Ordered, Sorted, Distinct, Settled, Lists, Timers, SameMode, Joins;
    ghost var cb := k.cb;
    SetWercd(k, t, ercd, None, p0, NULL);
    ghost var x := k.cb[t].(tstat := Resumes(k.cb[t].tstat));
    NoWaitRule(k.mtx, t, x);
    Unaffected(k.cb, k.mtx, k.held, p0, NULL, t, x);
    MakeNonWait(k, t, p0);
    assert k.cb == cb[t := k.cb[t]];
  }

  /** wait_complete, for a task already out of its queue. */
  method WaitComplete(k: Kernel, t: int, ghost p0: int)
    requires k.IsTask(t) && k.Queues(t, None) && k.Rest(NULL, false, p0, NULL) && k.cb[t].tstat.wait != NoWait
    modifies k`cb, k`queue, k`pcb, k`timer
    ensures k.Queues(NULL, None) && k.Rest(NULL, false, p0, NULL)
    ensures SameMode(old(k.pcb), k.pcb) && |k.pcb| == old(|k.pcb|)
    ensures k.cb == old(k.cb)[t := OutOfWait(old(k.cb[t]), EOk)]
    ensures Joins(k.cb, old(k.queue), k.queue, k.sub, k.tpri, t)
    ensures forall q: Qid {:trigger Q(k.queue, q)} :: !q.Ready? ==> Q(k.queue, q) == Q(old(k.queue), q)
  {
    hide Linked, Ordered, Sorted, Distinct, Settled, Lists, Timers, SameMode, Joins;
    WaitDequeueTmevtb(k, t);
    EndWait(k, t, EOk, p0);
  }

  /** wait_tmout and wait_tmout_ok, which signal_time calls after it has taken the time
      event out of the heap. */
  method WaitTmout(k: Kernel, t: int)
    requires k.IsTask(t) && k.Queues(NULL, None) && k.Rest(t, false, NULL, NULL) && k.cb[t].tstat.wait != NoWait
    modifies k`cb, k`queue, k`pcb
    ensures k.Inv() && SameMode(old(k.pcb), k.pcb) && |k.pcb| == old(|k.pcb|)
    ensures k.cb == old(k.cb)[t := OutOfWait(old(k.cb[t]), ETmout)]
    ensures Wakes(k.cb, old(k.queue), k.queue, k.sub, k.tpri, old(k.cb[t]), t)
  {
    hide Linked, Ordered, Sorted, Distinct, Settled, Lists, Timers, SameMode, Joins;
    WaitDequeueWobj(k, t);
    EndWait(k, t, ETmout, NULL);
  }

  method WaitTmoutOk(k: Kernel, t: int)
    requires k.IsTask(t) && k.Queues(NULL, None) && k.Rest(t, false, NULL, NULL) && k.cb[t].tstat.wait == Delay
    modifies k`cb, k`queue, k`pcb
    ensures k.Inv() && SameMode(old(k.pcb), k.pcb) && |k.pcb| == old(|k.pcb|)
    ensures k.cb == old(k.cb)[t := OutOfWait(old(k.cb[t]), EOk)]
    ensures Wakes(k.cb, old(k.queue), k.queue, k.sub, k.tpri, old(k.cb[t]), t)
  {
    hide Linked, Ordered, Sorted, Distinct, Settled, Lists, Timers, SameMode, Joins;
    RewrittenQueues(k, t, k.cb[t]);
    assert k.cb[t := k.cb[t]] == k.cb;
    EndWait(k, t, EOk, NULL);
  }

  /** signal_time takes a due time event out of the heap of its processor and calls its
      callback. */
  method Expire(k: Kernel, p: int, t: int)
    requires k.Inv() && 0 <= p < |k.timer| && t in k.timer[p]
    modifies k`cb, k`queue, k`pcb, k`timer
    ensures k.Inv() && k.timer == old(k.timer)[p := old(k.timer)[p] - {t}]
    ensures 0 <= t < |old(k.cb)| && Timed(old(k.cb)[t])
    ensures k.cb == old(k.cb)[t := OutOfWait(old(k.cb[t]), if old(k.cb[t].tstat.wait) == Delay then EOk else ETmout)]
    ensures k.cb[t].winfo == Wercd(if old(k.cb[t].tstat.wait) == Delay then EOk else ETmout)
    ensures var s := old(k.cb[t].tstat.suspended); k.cb[t].tstat == Tstat(!s, s, NoWait)
    ensures Wakes(k.cb, old(k.queue), k.queue, k.sub, k.tpri, old(k.cb[t]), t)
    ensures SameMode(old(k.pcb), k.pcb)
  {
    hide Linked, Ordered, Sorted, Distinct, Settled, Lists, SameMode, Joins;
    k.timer := k.timer[p := k.timer[p] - {t}];
    assert Timers(k.cb, k.timer, t, false);
    if k.cb[t].tstat.wait == Delay {
      WaitTmoutOk(k, t);
    } else {
      WaitTmout(k, t);
    }
  }

  /** The effect of init_wait_queue on the control block of a task it releases. */
  ghost function Deleted(x: TCB): TCB {
    OutOfWait(x, EDlt)
  }

  /** The tasks that waited so have been released with E_DLT, and no other is touched. */
  ghost predicate AllDeleted(cb: seq<TCB>, cb': seq<TCB>, waits: set<Wait>) {
    |cb'| == |cb| && forall t {:trigger cb'[t]} :: 0 <= t < |cb| ==>
      if cb[t].tstat.wait in waits then
        var s := cb[t].tstat.suspended;
        cb'[t] == cb[t].(tstat := Tstat(!s, s, NoWait), winfo := Wercd(EDlt))
      else cb'[t] == cb[t]
  }

  lemma DeletedInTurn(cb: seq<TCB>, mid: seq<TCB>, cb': seq<TCB>, a: Wait, b: Wait)
    requires AllDeleted(cb, mid, {a}) && AllDeleted(mid, cb', {b}) && b != NoWait
    ensures AllDeleted(cb, cb', {a, b})
  {
    assert forall t {:trigger cb'[t]} :: 0 <= t < |cb| && cb[t].tstat.wait == a ==> mid[t].tstat.wait == NoWait;
  }

  /** init_wait_queue, for one of the wait queues of an object: all tasks waiting there
      are released, and no other is touched. */
  method InitWaitQueue(k: Kernel, wait: Wait)
    requires k.Inv() && (wait.On? || wait.Receiving?)
    modifies k`cb, k`queue, k`pcb, k`timer
    ensures k.Inv() && SameMode(old(k.pcb), k.pcb) && |k.pcb| == old(|k.pcb|)
    ensures Q(k.queue, QueueOf(wait)) == [] && AllDeleted(old(k.cb), k.cb, {wait})
    ensures forall q: Qid {:trigger Q(k.queue, q)} :: !q.Ready? && q != QueueOf(wait) ==>
            Q(k.queue, q) == Q(old(k.queue), q)
  {
    hide Linked, Ordered, Sorted, Distinct, Settled, Lists, Timers, SameMode;
    ghost var cb, pcb, queue := k.cb, k.pcb, k.queue;
    SameModeRefl(pcb);
    while Q(k.queue, QueueOf(wait)) != []
      invariant k.Inv() && |k.cb| == |cb| && SameMode(pcb, k.pcb) && |k.pcb| == |pcb|
      invariant forall t {:trigger k.cb[t]} :: 0 <= t < |cb| ==>
                k.cb[t] == cb[t] || (cb[t].tstat.wait == wait && k.cb[t] == Deleted(cb[t]))
      invariant forall q: Qid {:trigger Q(k.queue, q)} :: !q.Ready? && q != QueueOf(wait) ==>
                Q(k.queue, q) == Q(queue, q)
      decreases |Q(k.queue, QueueOf(wait))|
    {
      var t := Q(k.queue, QueueOf(wait))[0];
      FirstWaits(k, wait, t);
      ghost var pcb1 := k.pcb;
      ReleaseFirst(k, wait, t);
      SameModeTrans(pcb, pcb1, k.pcb);
    }
    NoneWaits(k.cb, k.queue, wait);
    forall t {:trigger k.cb[t]} | 0 <= t < |k.cb|
      ensures k.cb[t] == if cb[t].tstat.wait == wait then Deleted(cb[t]) else cb[t]
    {
      assert k.cb[t].tstat.wait != wait;
    }
  }

  lemma FirstWaits(k: Kernel, wait: Wait, t: int)
    requires k.Queues(NULL, None) && (wait.On? || wait.Receiving?) && t in Q(k.queue, QueueOf(wait))
    ensures k.IsTask(t) && k.cb[t].tstat.wait == wait && !k.cb[t].tstat.runnable
  {
    assert At(k.cb, NULL, None, t, QueueOf(wait));
  }

  lemma NoneWaits(cb: seq<TCB>, queue: map<Qid, seq<int>>, wait: Wait)
    requires Linked(cb, queue, NULL, None) && (wait.On? || wait.Receiving?) && Q(queue, QueueOf(wait)) == []
    requires exists n :: InRange(cb, n)
    ensures forall t {:trigger cb[t]} :: 0 <= t < |cb| ==> cb[t].tstat.wait != wait
  {
    forall t {:trigger cb[t]} | 0 <= t < |cb|
      ensures cb[t].tstat.wait != wait
    {
      assert !At(cb, NULL, None, t, QueueOf(wait));
    }
  }

  /** The first task of a wait queue leaves it. */
  method DeleteFirst(k: Kernel, wait: Wait, t: int)
    requires k.Queues(NULL, None) && (wait.On? || wait.Receiving?) && Q(k.queue, QueueOf(wait)) != []
    requires t == Q(k.queue, QueueOf(wait))[0]
    modifies k`queue
    ensures k.Queues(t, None) && k.IsTask(t) && k.cb[t].tstat.wait == wait && !k.cb[t].tstat.runnable
    ensures k.queue == Leaves(old(k.queue), k.cb[t], t)
    ensures Q(k.queue, QueueOf(wait)) == Q(old(k.queue), QueueOf(wait))[1..]
    ensures forall q: Qid {:trigger Q(k.queue, q)} :: q != QueueOf(wait) ==> Q(k.queue, q) == Q(old(k.queue), q)
  {
    hide Linked, Ordered, Sorted, Distinct, Settled;
    FirstWaits(k, wait, t);
    RewrittenQueues(k, t, k.cb[t]);
    assert k.cb[t := k.cb[t]] == k.cb;
    Unqueue(k, t, QueueOf(wait));
  }

  /** One round of the loop of init_wait_queue. */
  method ReleaseFirst(k: Kernel, wait: Wait, t: int)
    requires k.Inv() && (wait.On? || wait.Receiving?) && Q(k.queue, QueueOf(wait)) != []
    requires t == Q(k.queue, QueueOf(wait))[0]
    modifies k`cb, k`queue, k`pcb, k`timer
    ensures k.Inv() && SameMode(old(k.pcb), k.pcb) && |k.pcb| == old(|k.pcb|)
    ensures 0 <= t < |old(k.cb)| && k.cb == old(k.cb)[t := Deleted(old(k.cb[t]))]
    ensures Wakes(k.cb, old(k.queue), k.queue, k.sub, k.tpri, old(k.cb[t]), t)
    ensures |Q(k.queue, QueueOf(wait))| < |Q(old(k.queue), QueueOf(wait))|
    ensures forall q: Qid {:trigger Q(k.queue, q)} :: !q.Ready? && q != QueueOf(wait) ==>
            Q(k.queue, q) == Q(old(k.queue), q)
  {
    hide Linked, Ordered, Sorted, Distinct, Settled, Lists, Timers, SameMode, Joins;
    DeleteFirst(k, wait, t);
    WaitDequeueTmevtb(k, t);
    EndWait(k, t, EDlt, NULL);
  }

  lemma InHome(cb: seq<TCB>, queue: map<Qid, seq<int>>, t: int)
    requires Linked(cb, queue, NULL, None) && 0 <= t < |cb| && Home(cb[t]).Some?
    ensures t in Q(queue, Home(cb[t]).value)
  {
    assert At(cb, NULL, None, t, Home(cb[t]).value);
  }
}

/** The mutex service calls loc_mtx, ploc_mtx, tloc_mtx, unl_mtx and ini_mtx
    (kernel/mutex.c:528-840), each as one section under the giant lock. */
module MutexServices {

  import opened Options
  import opened Sequences
  import opened TaskQueues
  import opened MutexProtocol
  import opened KernelTables
  import opened Scheduler
  import opened WaitState
  import opened Mutexes

  /** The call without a timeout parameter that polls, TMO_POL, no timeout, or one. */
  datatype Tmo = Polling | TmoPol | Forever | Within

  /** The call does not wait. */
  predicate Polls(tmo: Tmo) {
    tmo == Polling || tmo == TmoPol
  }

  /** What a call returns at once, or that the caller waits. */
  datatype Outcome = Done(ercd: Ercd) | Blocked

  /** The running task: it may have been suspended by another processor meanwhile. */
  ghost predicate IsRunning(k: Kernel, self: int)
    reads k`cb
  {
    k.IsTask(self) && (k.cb[self].tstat == RUNNABLE || k.cb[self].tstat == SUSPENDED)
  }

  /** A task at the head of the first nonempty ready queue is still there when its
      priority has risen: it has gone before its equals, and nobody was before those. */
  lemma StaysFirst(cb: seq<TCB>, was: map<Qid, seq<int>>, now: map<Qid, seq<int>>, sub: set<int>, tpri: set<int>,
      x: TCB, t: int)
    requires 0 <= t < |cb| && x.tstat.runnable && cb[t].prc == x.prc && 0 <= cb[t].priority <= x.priority
    requires cb[t].priority != x.priority || cb[t].boosted != x.boosted ==> cb[t].boosted
    requires Follows(cb, was, now, sub, tpri, x, t) && Top(was, x.prc, x.priority, t)
    requires Distinct(Q(was, Ready(x.prc, x.priority)))
    requires forall u {:trigger cb[u]} :: 0 <= u < |cb| ==> 0 <= cb[u].subpri
    requires forall q, u {:trigger u in Q(was, q)} :: u in Q(was, q) ==> 0 <= u < |cb|
    ensures Top(now, x.prc, cb[t].priority, t)
  {
    if now != was {
      var from, to := Ready(x.prc, x.priority), Ready(x.prc, cb[t].priority);
      var mid := was[from := Minus(Q(was, from), t)];
      var i :| PutIn(mid, now, to, t, i) && Placed(cb, mid, sub, tpri, to, t, true, i);
      if i > 0 {
        FirstPlaced(cb, was, mid, sub, tpri, from, to, t);
      }
      assert Q(now, to)[0] == t;
      assert forall r {:trigger Q(now, Ready(x.prc, r))} :: 0 <= r < cb[t].priority ==>
             Q(now, Ready(x.prc, r)) == Q(was, Ready(x.prc, r));
    }
  }

  lemma FirstPlaced(cb: seq<TCB>, was: map<Qid, seq<int>>, mid: map<Qid, seq<int>>, sub: set<int>, tpri: set<int>,
      from: Qid, to: Qid, t: int)
    requires mid == was[from := Minus(Q(was, from), t)] && Q(mid, to) != [] && Distinct(Q(was, from))
    requires forall q, u {:trigger u in Q(was, q)} :: u in Q(was, q) ==> 0 <= u < |cb|
    ensures 0 <= Q(mid, to)[0] < |cb|
  {
    MinusRemoves(Q(was, from), t);
    FirstIn(Q(mid, to), Q(mid, to)[0]);
    assert Q(mid, to)[0] in Q(was, to);
  }

  lemma OnlyTop(queue: map<Qid, seq<int>>, p: int, r: int, t: int, s: int)
    requires Top(queue, p, r, t) && Highest(queue, p, s)
    ensures s == t
  {
  }

  /** The task is the one to run on its processor. */
  ghost predicate Runs(k: Kernel, t: int)
    reads k`cb, k`pcb
  {
    && k.IsTask(t) && k.cb[t].tstat.runnable && 0 <= k.cb[t].prc < |k.pcb|
    && k.pcb[k.cb[t].prc].dspflg && k.pcb[k.cb[t].prc].schedtsk == t
  }

  /** What a task that runs knows of the queues. */
  lemma RunsFirst(k: Kernel, t: int)
    requires k.Queues(NULL, None) && Runs(k, t)
    ensures Top(k.queue, k.cb[t].prc, k.cb[t].priority, t) && Distinct(Q(k.queue, Ready(k.cb[t].prc, k.cb[t].priority)))
    ensures forall q, u {:trigger u in Q(k.queue, q)} :: u in Q(k.queue, q) ==> 0 <= u < |k.cb|
  {
    hide Ordered, Top, Mapped;
    ScheduledTop(k.cb, k.queue, NULL, None, k.cb[t].prc, t);
  }

  lemma FirstRuns(k: Kernel, t: int)
    requires k.Queues(NULL, None) && k.IsTask(t) && k.cb[t].tstat.runnable && k.pcb[k.cb[t].prc].dspflg
    requires Top(k.queue, k.cb[t].prc, k.cb[t].priority, t)
    ensures Runs(k, t)
  {
    hide Ordered, Linked, Mapped, Top, Highest;
    OnlyTop(k.queue, k.cb[t].prc, k.cb[t].priority, t, k.pcb[k.cb[t].prc].schedtsk);
  }

  /** mutex_acquire for the task to run: it still is, so no dispatching is needed. */
  method AcquireRunning(k: Kernel, self: int, m: int)
    requires k.Inv() && k.IsTask(self) && 0 <= m < |k.mtx| && k.mtx[m].loctsk == NULL
    requires k.cb[self].tstat == RUNNABLE || k.cb[self].tstat == SUSPENDED
    requires k.mtx[m].ceiling ==> k.mtx[m].ceilpri <= k.cb[self].bpriority
    modifies k`cb, k`queue, k`pcb, k`mtx, k`held
    ensures k.Inv() && SameMode(old(k.pcb), k.pcb) && |k.pcb| == old(|k.pcb|)
    ensures |old(k.held)| == |old(k.cb)| && k.held == old(k.held)[self := [m] + old(k.held)[self]]
    ensures k.mtx == old(k.mtx)[m := old(k.mtx[m]).(loctsk := self, prevmtx := old(k.cb[self]).lastmtx)]
    ensures var x := old(k.cb[self]).(lastmtx := m);
      k.cb == old(k.cb)[self := if old(k.mtx[m]).ceiling then Raised(x, old(k.mtx[m]).ceilpri) else x]
    ensures Follows(k.cb, old(k.queue), k.queue, k.sub, k.tpri, old(k.cb[self]), self)
    ensures old(Runs(k, self)) ==> Runs(k, self)
  {
    hide Linked, Ordered, Sorted, Distinct, Settled, Lists, Timers, Follows, Top;
    ghost var x, queue, runs := k.cb[self], k.queue, Runs(k, self);
    if runs {
      RunsFirst(k, self);
    }
    MutexAcquire(k, self, m);
    if runs {
      StaysFirst(k.cb, queue, k.queue, k.sub, k.tpri, x, self);
      FirstRuns(k, self);
    }
  }

  /** loc_mtx (Forever), tloc_mtx (Within, or TmoPol for TMO_POL) and ploc_mtx (Polling). */
  method LocMtx(k: Kernel, self: int, m: int, tmo: Tmo) returns (r: Outcome)
    requires k.Inv() && IsRunning(k, self) && 0 <= m < |k.mtx|
    modifies k`cb, k`queue, k`pcb, k`mtx, k`held, k`timer
    ensures k.Inv() && SameMode(old(k.pcb), k.pcb) && |k.cb| == |old(k.cb)|
    ensures var x, c := old(k.cb[self]), old(k.mtx[m]);
      r == if x.raster && tmo != Polling then Done(ERaster)
           else if c.ceiling && x.bpriority < c.ceilpri then Done(EIluse)
           else if c.loctsk == NULL then Done(EOk)
           else if c.loctsk == self then Done(EObj)
           else if Polls(tmo) then Done(ETmout)
           else Blocked
    ensures r == Blocked ==> tmo == Forever || tmo == Within
    ensures r == Done(ETmout) ==> tmo == Polling || tmo == TmoPol
    ensures r == Done(EOk) ==> |old(k.held)| == |old(k.cb)| && k.held == old(k.held)[self := [m] + old(k.held)[self]]
    ensures r == Done(EOk) ==> |k.mtx| == old(|k.mtx|) && k.mtx[m].loctsk == self && k.mtx == old(k.mtx)[m := k.mtx[m]]
    ensures r == Done(EOk) ==>
              var x := old(k.cb[self]).(lastmtx := m);
              k.cb == old(k.cb)[self := if old(k.mtx[m]).ceiling then Raised(x, old(k.mtx[m]).ceilpri) else x]
              && Follows(k.cb, old(k.queue), k.queue, k.sub, k.tpri, old(k.cb[self]), self)
    ensures r == Blocked ==> k.mtx == old(k.mtx)
    ensures r == Blocked ==> k.cb == old(k.cb)[self := InWait(old(k.cb[self]), On(m), tmo == Within)]
    ensures r == Done(EOk) && old(Runs(k, self)) ==> Runs(k, self)
    ensures r == Blocked && m !in k.tpri ==> Q(k.queue, Object(m)) == Q(old(k.queue), Object(m)) + [self]
    ensures r == Blocked ==>
            Queued(k.cb, Q(old(k.queue), Object(m)), Q(k.queue, Object(m)), k.sub, k.tpri, Object(m), self)
    ensures r == Blocked ==> Elsewhere(old(k.queue), k.queue, m)
    ensures r == Blocked ==>
            k.timer == if tmo == Within then old(k.timer)[k.cb[self].prc := old(k.timer)[k.cb[self].prc] + {self}]
                       else old(k.timer)
    ensures r.Done? && r.ercd != EOk ==> k.cb == old(k.cb) && k.queue == old(k.queue) && k.mtx == old(k.mtx)
  {
    hide Linked, Ordered, Sorted, Distinct, Settled, Lists, SameMode, Timers, TakenOut, Follows, Runs, Queued,
      Raised, InWait;
    SameModeRefl(k.pcb);
    if k.cb[self].raster && tmo != Polling {
      return Done(ERaster);
    } else if k.mtx[m].ceiling && k.cb[self].bpriority < k.mtx[m].ceilpri {
      return Done(EIluse);
    } else if k.mtx[m].loctsk == NULL {
      AcquireRunning(k, self, m);
      return Done(EOk);
    } else if k.mtx[m].loctsk == self {
      return Done(EObj);
    } else if Polls(tmo) {
      return Done(ETmout);
    } else {
      WobjMakeWait(k, On(m), self, tmo == Within);
      return Blocked;
    }
  }

  /** The holder's control block after a mutex has left its list. */
  ghost function Unlocks(x: TCB, mtx: seq<Mtx>, h: seq<int>, last: int): TCB {
    x.(lastmtx := last, priority := Lowest(mtx, h, x.bpriority), boosted := HasCeiling(mtx, h))
  }

  /** The priority of a task from whose list mutex m, still floating, has just gone. */
  method Restore(k: Kernel, t: int, m: int, ghost m0: int, ghost h: seq<int>)
    requires k.Queues(NULL, None) && k.Rest(NULL, false, t, m0) && k.IsTask(t) && 0 <= m < |k.mtx| && |k.held| == |k.cb|
    requires PriorityRule(k.mtx, h, k.cb[t]) && m in h
    requires forall u {:trigger u in k.held[t]} :: u in k.held[t] <==> u in h && u != m
    modifies k`cb, k`queue, k`pcb
    ensures k.Queues(NULL, None) && k.Rest(NULL, false, NULL, m0) && SameMode(old(k.pcb), k.pcb)
    ensures |k.pcb| == old(|k.pcb|)
    ensures k.cb == old(k.cb)[t := Unlocks(old(k.cb[t]), k.mtx, k.held[t], old(k.cb[t]).lastmtx)]
    ensures Follows(k.cb, old(k.queue), k.queue, k.sub, k.tpri, old(k.cb[t]), t)
  {
    hide Linked, Ordered, Sorted, Distinct, Settled, Lists, SameMode, Timers, WaitRule, Lowest, HasCeiling,
      CeilingsAbove, Repositioned;
    SameModeRefl(k.pcb);
    DroppedRule(k.mtx, h, k.held[t], m, k.cb[t]);
    if k.mtx[m].ceiling {
      Boosted(k.mtx, h, m, k.cb[t]);
      MutexDropPriority(k, t, k.mtx[m].ceilpri, m0);
    } else {
      RuleAndList(k, t, t, m0);
      Rewritten(k.cb, k.mtx, k.held, t, m0, t, k.cb[t]);
      assert k.cb[t := k.cb[t]] == k.cb;
      assert k.cb[t] == Unlocks(k.cb[t], k.mtx, k.held[t], k.cb[t].lastmtx);
    }
  }

  lemma Boosted(mtx: seq<Mtx>, h: seq<int>, m: int, x: TCB)
    requires PriorityRule(mtx, h, x) && 0 <= m < |mtx| && m in h && mtx[m].ceiling
    ensures x.boosted
  {
  }

  /** The queues after unl_mtx: the caller has moved if its place has changed, then the
      task that gets the mutex (if it is not NULL) has woken. */
  ghost predicate Passed(cb: seq<TCB>, was: map<Qid, seq<int>>, mid: map<Qid, seq<int>>, now: map<Qid, seq<int>>,
      sub: set<int>, tpri: set<int>, old': seq<TCB>, y: TCB, self: int, t: int)
    requires 0 <= self < |old'| == |cb| && (t == NULL || 0 <= t < |cb|)
  {
    && Follows(old'[self := y], was, mid, sub, tpri, old'[self], self)
    && if t == NULL then now == mid else Wakes(cb, mid, now, sub, tpri, old'[t], t)
  }

  /** A task that is not waiting moves only within and between ready queues. */
  lemma FollowsReady(cb: seq<TCB>, was: map<Qid, seq<int>>, now: map<Qid, seq<int>>, sub: set<int>, tpri: set<int>,
      x: TCB, t: int)
    requires 0 <= t < |cb| && Follows(cb, was, now, sub, tpri, x, t) && !x.tstat.wait.On?
    ensures forall q: Qid {:trigger Q(now, q)} :: !q.Ready? ==> Q(now, q) == Q(was, q)
  {
  }

  /** The tables after unl_mtx: the mutex has gone from the list of task `self`, whose
      priority and place follow what is left, to the first task waiting for it, if any. */
  ghost predicate Unlocking(cb: seq<TCB>, cb': seq<TCB>, mtx: seq<Mtx>, mtx': seq<Mtx>, queue: map<Qid, seq<int>>,
      queue': map<Qid, seq<int>>, held: seq<seq<int>>, held': seq<seq<int>>, sub: set<int>, tpri: set<int>,
      self: int, m: int)
  {
    var t := First(Q(queue, Object(m)));
    && 0 <= self < |cb| == |cb'| == |held| && 0 <= m < |mtx| && (t == NULL || 0 <= t < |cb|)
    && var y := Unlocks(cb[self], mtx, Minus(held[self], m), mtx[m].prevmtx);
       var h := held[self := Minus(held[self], m)];
       && cb' == (if t == NULL then cb[self := y] else cb[self := y][t := Granted(cb[t], m, mtx[m])])
       && held' == (if t == NULL then h else h[t := [m] + h[t]])
       && mtx' == mtx[m := if t == NULL then mtx[m].(loctsk := NULL)
                           else mtx[m].(loctsk := t, prevmtx := cb[t].lastmtx)]
       && exists mid :: Passed(cb', queue, mid, queue', sub, tpri, cb, y, self, t)
  }

  /** unl_mtx: only the mutex locked last can be unlocked.  The caller's priority follows
      the rule for what is left, its place follows its priority, and the first waiting
      task, if any, has the mutex. */
  method UnlMtx(k: Kernel, self: int, m: int) returns (ercd: Ercd)
    requires k.Inv() && IsRunning(k, self) && 0 <= m < |k.mtx|
    modifies k`cb, k`queue, k`pcb, k`mtx, k`held, k`timer
    ensures k.Inv() && SameMode(old(k.pcb), k.pcb)
    ensures ercd == if m == old(k.cb[self]).lastmtx then EOk else EObj
    ensures ercd == EObj ==>
              k.cb == old(k.cb) && k.queue == old(k.queue) && k.mtx == old(k.mtx) && k.held == old(k.held)
    ensures ercd == EOk ==> Unlocking(old(k.cb), k.cb, old(k.mtx), k.mtx, old(k.queue), k.queue, old(k.held), k.held,
                                      k.sub, k.tpri, self, m)
    ensures ercd == EOk ==> ((exists t :: 0 <= t < |old(k.cb)| && old(k.cb)[t].tstat.wait == On(m)) <==>
            First(Q(old(k.queue), Object(m))) != NULL)
    ensures ercd == EOk && Q(old(k.queue), Object(m)) != [] ==>
              var t := Q(old(k.queue), Object(m))[0];
              && 0 <= t < |old(k.cb)| == |k.cb|
              && k.cb[t].tstat == Tstat(!old(k.cb)[t].tstat.suspended, old(k.cb)[t].tstat.suspended, NoWait)
              && k.cb[t].winfo == Wercd(EOk) && k.mtx[m].loctsk == t
  {
    hide Linked, Ordered, Sorted, Distinct, Settled, Lists, SameMode, Timers, WaitRule, PriorityRule, Chain, Minus,
      Follows, Joins, Lowest, HasCeiling;
    SameModeRefl(k.pcb);
    if m != k.cb[self].lastmtx {
      return EObj;
    }
    RuleHolds(k, self);
    ghost var cb, pcb, h, queue, mtx := k.cb, k.pcb, k.held[self], k.queue, k.mtx;
    assert !k.cb[self].tstat.wait.On?;
    WaitersOf(k.cb, k.queue, |k.pcb|, m);
    assert forall t {:trigger cb[t]} :: 0 <= t < |cb| ==> (cb[t].tstat.wait == On(m) <==> t in Q(k.queue, Object(m)));
    assert Q(k.queue, Object(m)) != [] ==> Q(k.queue, Object(m))[0] in Q(k.queue, Object(m));
    ghost var y := UnlockSelf(k, self, m);
    FollowsReady(k.cb, queue, k.queue, k.sub, k.tpri, cb[self], self);
    ghost var mid, pcb1 := k.queue, k.pcb;
    assert Q(mid, Object(m)) == Q(queue, Object(m));
    MutexRelease(k, m, NULL);
    SameModeTrans(pcb, pcb1, k.pcb);
    assert Passed(k.cb, queue, mid, k.queue, k.sub, k.tpri, cb, y, self, First(Q(queue, Object(m))));
    ercd := EOk;
  }

  /** The first half of unl_mtx: the mutex leaves the caller's list, and the caller gets
      the priority and the place it has without it. */
  method UnlockSelf(k: Kernel, self: int, m: int) returns (ghost y: TCB)
    requires k.Inv() && IsRunning(k, self) && 0 <= m < |k.mtx| && m == k.cb[self].lastmtx && |k.held| == |k.cb|
    modifies k`cb, k`queue, k`pcb, k`held
    ensures k.Queues(NULL, None) && k.Rest(NULL, false, NULL, m) && SameMode(old(k.pcb), k.pcb)
    ensures |k.pcb| == old(|k.pcb|)
    ensures k.held == old(k.held)[self := Minus(old(k.held)[self], m)]
    ensures y == Unlocks(old(k.cb[self]), k.mtx, Minus(old(k.held)[self], m), k.mtx[m].prevmtx)
    ensures k.cb == old(k.cb)[self := y]
    ensures Follows(k.cb, old(k.queue), k.queue, k.sub, k.tpri, old(k.cb[self]), self)
  {
    hide Linked, Ordered, Sorted, Distinct, Settled, Lists, SameMode, Timers, WaitRule, PriorityRule, Chain, Minus,
      Requeued, Lowest, HasCeiling;
    RuleHolds(k, self);
    ghost var cb, h := k.cb, k.held[self];
    var p := PopMutex(k, self, NULL);
    SamePriorityRule(k.mtx, h, cb[self], k.cb[self]);
    MinusMembers(k.mtx, cb[self].lastmtx, h, m);
    Restore(k, self, m, m, h);
    y := k.cb[self];
    assert k.cb == cb[self := y];
  }

  lemma RuleHolds(k: Kernel, t: int)
    requires k.Rest(NULL, false, NULL, NULL) && k.IsTask(t)
    ensures |k.held| == |k.cb| && PriorityRule(k.mtx, k.held[t], k.cb[t]) && Chain(k.mtx, k.cb[t].lastmtx, k.held[t])
  {
    hide PriorityRule, Chain, WaitRule;
    assert Chain(k.mtx, k.cb[t].lastmtx, k.held[t]);
  }

  lemma MinusMembers(mtx: seq<Mtx>, last: int, h: seq<int>, m: int)
    requires Chain(mtx, last, h)
    ensures forall u {:trigger u in Minus(h, m)} :: u in Minus(h, m) <==> u in h && u != m
  {
    MinusRemoves(h, m);
  }

  /** The tasks in the wait queue are those that wait for the object. */
  lemma WaitersOf(cb: seq<TCB>, queue: map<Qid, seq<int>>, nprc: int, w: int)
    requires Linked(cb, queue, NULL, None) && InRange(cb, nprc)
    ensures forall t {:trigger t in Q(queue, Object(w))} {:trigger cb[t]} :: t in Q(queue, Object(w)) <==>
            0 <= t < |cb| && cb[t].tstat.wait == On(w)
  {
    forall t
      ensures t in Q(queue, Object(w)) <==> 0 <= t < |cb| && cb[t].tstat.wait == On(w)
    {
      assert t in Q(queue, Object(w)) <==> At(cb, NULL, None, t, Object(w));
    }
  }

  /** Nobody waits for mutex m any more; the other wait queues are as they were. */
  ghost predicate Drained(was: map<Qid, seq<int>>, now: map<Qid, seq<int>>, m: int) {
    && Q(now, Object(m)) == []
    && forall q: Qid {:trigger Q(now, q)} :: !q.Ready? && q != Object(m) ==> Q(now, q) == Q(was, q)
  }

  /** The control block of a task after those waiting for mutex m have been released. */
  ghost function Undelayed(x: TCB, m: int): TCB {
    if x.tstat.wait == On(m) then Deleted(x) else x
  }

  /** The tables after ini_mtx: nobody waits for mutex m and nobody has it; if task t had
      it, its list leads around it, and its priority and place follow what is left. */
  ghost predicate Emptied(cb: seq<TCB>, cb': seq<TCB>, mtx: seq<Mtx>, mtx': seq<Mtx>, queue: map<Qid, seq<int>>,
      queue': map<Qid, seq<int>>, held: seq<seq<int>>, held': seq<seq<int>>, sub: set<int>, tpri: set<int>, m: int)
  {
    && |cb| == |cb'| == |held| && 0 <= m < |mtx|
    && var t := mtx[m].loctsk;
       && (t == NULL || 0 <= t < |cb|)
       && (if t == NULL then mtx' == mtx && held' == held
           else Bypassed(mtx, mtx', held[t], m) && held' == held[t := Minus(held[t], m)])
       && (forall u {:trigger cb'[u]} :: 0 <= u < |cb| ==>
             cb'[u] == if u == t
                       then Unlocks(Undelayed(cb[u], m), mtx, Minus(held[u], m), First(Minus(held[u], m)))
                       else Undelayed(cb[u], m))
       && exists mid :: Drained(queue, mid, m) && if t == NULL then queue' == mid
                        else Follows(cb', mid, queue', sub, tpri, Undelayed(cb[t], m), t)
  }

  /** ini_mtx, and what del_mtx does besides: the waiting tasks are released with E_DLT,
      and the holder, which may be running on any processor or waiting itself, loses
      the mutex and the priority it had from it, and moves, before its equals, to the place
      of its own priority. */
  method IniMtx(k: Kernel, m: int)
    requires k.Inv() && 0 <= m < |k.mtx|
    modifies k`cb, k`queue, k`pcb, k`mtx, k`held, k`timer
    ensures k.Inv() && SameMode(old(k.pcb), k.pcb)
    ensures Emptied(old(k.cb), k.cb, old(k.mtx), k.mtx, old(k.queue), k.queue, old(k.held), k.held, k.sub, k.tpri, m)
  {
    hide Linked, Ordered, Sorted, Distinct, Settled, Lists, SameMode, Timers, WaitRule, PriorityRule, Chain, Minus,
      Lowest, HasCeiling, Follows;
    ghost var pcb, mtx, queue := k.pcb, k.mtx, k.queue;
    InitWaitQueue(k, On(m));
    ghost var pcb1, mid := k.pcb, k.queue;
    assert Drained(queue, mid, m);
    var t := k.mtx[m].loctsk;
    LocInRange(k, m);
    if t != NULL {
      RuleHolds(k, t);
      Removed(k, t, m);
      SameModeTrans(pcb, pcb1, k.pcb);
    }
  }

  lemma LocInRange(k: Kernel, m: int)
    requires k.Rest(NULL, false, NULL, NULL) && 0 <= m < |k.mtx|
    ensures k.mtx[m].loctsk == NULL || k.IsTask(k.mtx[m].loctsk)
    ensures |k.held| == |k.cb|
  {
    hide PriorityRule, Chain, WaitRule;
  }

  /** The second half of ini_mtx: nobody waits for the mutex any more. */
  method Removed(k: Kernel, t: int, m: int)
    requires k.Inv() && k.IsTask(t) && 0 <= m < |k.mtx| && k.mtx[m].loctsk == t && Q(k.queue, Object(m)) == []
    requires |k.held| == |k.cb|
    modifies k`cb, k`queue, k`pcb, k`mtx, k`held
    ensures k.Inv() && SameMode(old(k.pcb), k.pcb) && |k.pcb| == old(|k.pcb|)
    ensures |k.cb| == |old(k.cb)| == |k.held| && Bypassed(old(k.mtx), k.mtx, old(k.held)[t], m)
    ensures k.held == old(k.held)[t := Minus(old(k.held)[t], m)]
    ensures k.cb == old(k.cb)[t := Unlocks(old(k.cb[t]), old(k.mtx), k.held[t], First(k.held[t]))]
    ensures Follows(k.cb, old(k.queue), k.queue, k.sub, k.tpri, old(k.cb[t]), t)
  {
    hide Linked, Ordered, Sorted, Distinct, Settled, Lists, SameMode, Timers, WaitRule, PriorityRule, Chain, Minus,
      Lowest, HasCeiling, Requeued;
    ghost var cb, mtx, h := k.cb, k.mtx, k.held[t];
    TakeAway(k, t, m);
    ghost var last, mtx1 := k.cb[t].lastmtx, k.mtx;
    Restore(k, t, m, NULL, h);
    LowestSame(mtx, mtx1, k.held[t], cb[t].bpriority);
    LastIsFirst(k, t);
    assert k.cb == cb[t := Unlocks(cb[t], mtx, k.held[t], last)];
  }

  /** Mutex m is free, and the list h it was in leads around it. */
  ghost predicate Bypassed(mtx: seq<Mtx>, mtx': seq<Mtx>, h: seq<int>, m: int) {
    && 0 <= m < |mtx| == |mtx'| && mtx'[m] == mtx[m].(loctsk := NULL)
    && forall u {:trigger mtx'[u]} :: 0 <= u < |mtx| && u != m ==> mtx'[u] == Skipping(mtx, h, m, u)
  }

  /** The mutex leaves the list of its holder and becomes free. */
  method TakeAway(k: Kernel, t: int, m: int)
    requires k.Inv() && k.IsTask(t) && 0 <= m < |k.mtx| && k.mtx[m].loctsk == t && Q(k.queue, Object(m)) == []
    requires |k.held| == |k.cb|
    modifies k`cb, k`mtx, k`held
    ensures k.Queues(NULL, None) && k.Rest(NULL, false, t, NULL)
    ensures |k.cb| == |old(k.cb)| == |k.held| && k.cb == old(k.cb)[t := old(k.cb[t]).(lastmtx := k.cb[t].lastmtx)]
    ensures k.held == old(k.held)[t := Minus(old(k.held)[t], m)]
    ensures Bypassed(old(k.mtx), k.mtx, old(k.held)[t], m)
    ensures m in old(k.held)[t] && PriorityRule(k.mtx, old(k.held)[t], k.cb[t])
    ensures forall u {:trigger u in k.held[t]} :: u in k.held[t] <==> u in old(k.held)[t] && u != m
  {
    hide Linked, Ordered, Sorted, Distinct, Settled, Lists, Timers, WaitRule, PriorityRule, Chain, Minus, Lowest,
      HasCeiling;
    ghost var cb, mtx, h := k.cb, k.mtx, k.held[t];
    RuleHolds(k, t);
    MinusMembers(k.mtx, k.cb[t].lastmtx, h, m);
    NoneWaits(k.cb, k.queue, On(m));
    var found := RemoveMutex(k, t, m);
    KeyKept(cb, k.queue, k.sub, k.tpri, t, k.cb[t]);
    TimersSame(cb, k.timer, NULL, false, t, k.cb[t]);
    assert forall u {:trigger k.cb[u]} :: 0 <= u < |k.cb| ==> k.cb[u].tstat == cb[u].tstat;
    Freed(k.cb, k.mtx, k.held, t, m);
    k.mtx := k.mtx[m := k.mtx[m].(loctsk := NULL)];
    RuleElsewhere(mtx, k.mtx, h, cb[t], k.cb[t]);
  }

  lemma LastIsFirst(k: Kernel, t: int)
    requires k.Rest(NULL, false, NULL, NULL) && k.IsTask(t)
    ensures |k.held| == |k.cb| && k.cb[t].lastmtx == First(k.held[t])
  {
    hide PriorityRule, WaitRule;
    assert Chain(k.mtx, k.cb[t].lastmtx, k.held[t]);
  }

  lemma RuleElsewhere(mtx: seq<Mtx>, mtx': seq<Mtx>, h: seq<int>, x: TCB, x': TCB)
    requires |mtx'| == |mtx| && PriorityRule(mtx, h, x) && x'.priority == x.priority && x'.bpriority == x.bpriority
    requires x'.boosted == x.boosted
    requires forall u {:trigger mtx'[u]} :: 0 <= u < |mtx| ==>
             mtx'[u].ceiling == mtx[u].ceiling && mtx'[u].ceilpri == mtx[u].ceilpri
    ensures PriorityRule(mtx', h, x')
  {
    LowestSame(mtx, mtx', h, x.bpriority);
  }
}

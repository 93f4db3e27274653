/** Service calls on tasks, each as one section under the giant lock
    (kernel/task_sync.c, kernel/task_manage.c:317-445, 494-600 and 664-822, kernel/task_term.c,
    kernel/task.c:506-539). */
module TaskServices {

  import opened Options
  import opened Sequences
  import opened TaskQueues
  import opened MutexProtocol
  import opened KernelTables
  import opened Scheduler
  import opened WaitState
  import opened Mutexes
  import opened MutexServices

  // ------ waiting and waking

  /** Rewriting flags that no queue, timer or mutex depends on. */
  lemma FlagsKept(k: Kernel, t: int, x: TCB)
    requires k.Inv() && k.IsTask(t)
    requires x == k.cb[t].(wupque := x.wupque, raster := x.raster, enater := x.enater, actque := x.actque,
                           actprc := x.actprc)
    requires FieldsOk(x, |k.pcb|)
    ensures InRange(k.cb[t := x], |k.pcb|) && Linked(k.cb[t := x], k.queue, NULL, None)
    ensures Ordered(k.cb[t := x], k.queue, k.sub, k.tpri, NULL)
    ensures Timers(k.cb[t := x], k.timer, NULL, false) && Lists(k.cb[t := x], k.mtx, k.held, NULL, NULL)
  {
    hide Linked, Ordered, Settled, Timers, Lists, WaitRule;
    KeyKept(k.cb, k.queue, k.sub, k.tpri, t, x);
    TimersSame(k.cb, k.timer, NULL, false, t, x);
    RuleAndList(k, t, NULL, NULL);
    WaitRuleSame(k.mtx, t, k.cb[t], x);
    Unaffected(k.cb, k.mtx, k.held, NULL, NULL, t, x);
  }

  lemma OutOfTransit(k: Kernel, t: int)
    requires k.Queues(t, None) && k.IsTask(t) && Home(k.cb[t]) == None
    ensures k.Queues(NULL, None)
  {
    hide Linked, Ordered, Settled;
    TransitQueues(k, t, None, k.cb[t]);
    assert k.cb[t := k.cb[t]] == k.cb;
  }

  /** slp_tsk (Forever) and tslp_tsk. */
  method SlpTsk(k: Kernel, self: int, tmo: Tmo) returns (r: Outcome)
    requires k.Inv() && IsRunning(k, self)
    modifies k`cb, k`queue, k`pcb, k`timer
    ensures k.Inv() && SameMode(old(k.pcb), k.pcb)
    ensures var x := old(k.cb[self]);
      r == if x.raster then Done(ERaster) else if x.wupque then Done(EOk)
           else if Polls(tmo) then Done(ETmout) else Blocked
    ensures r == Blocked ==> tmo == Forever || tmo == Within
    ensures r == Done(ETmout) ==> tmo == Polling || tmo == TmoPol
    ensures r == Done(EOk) ==> k.cb == old(k.cb)[self := old(k.cb[self]).(wupque := false)]
    ensures r == Blocked ==> k.cb == old(k.cb)[self := InWait(old(k.cb[self]), Sleep, tmo == Within)]
    ensures r == Blocked ==> k.queue == Leaves(old(k.queue), old(k.cb[self]), self)
    ensures r == Blocked ==>
              k.timer == if tmo == Within then old(k.timer)[k.cb[self].prc := old(k.timer)[k.cb[self].prc] + {self}]
                         else old(k.timer)
    ensures r.Done? && r.ercd != EOk ==> k.cb == old(k.cb)
    ensures r.Done? ==> k.queue == old(k.queue) && k.timer == old(k.timer)
  {
    hide Linked, Ordered, Sorted, Distinct, Settled, Lists, SameMode, Timers, WaitRule;
    SameModeRefl(k.pcb);
    var x := k.cb[self];
    if x.raster {
      return Done(ERaster);
    } else if x.wupque {
      FlagsKept(k, self, x.(wupque := false));
      k.cb := k.cb[self := x.(wupque := false)];
      return Done(EOk);
    } else if Polls(tmo) {
      return Done(ETmout);
    } else {
      NotOn(k.mtx, self, x.(tstat := Waits(x.tstat, Sleep)));
      MakeWaitTmout(k, Sleep, self, tmo == Within);
      OutOfTransit(k, self);
      return Blocked;
    }
  }

  lemma NotOn(mtx: seq<Mtx>, t: int, x: TCB)
    requires !x.tstat.wait.On?
    ensures WaitRule(mtx, t, x)
  {
  }

  /** dly_tsk. */
  method DlyTsk(k: Kernel, self: int) returns (r: Outcome)
    requires k.Inv() && IsRunning(k, self)
    modifies k`cb, k`queue, k`pcb, k`timer
    ensures k.Inv() && SameMode(old(k.pcb), k.pcb)
    ensures r == if old(k.cb[self].raster) then Done(ERaster) else Blocked
    ensures k.cb == if r == Blocked then old(k.cb)[self := InWait(old(k.cb[self]), Delay, true)] else old(k.cb)
    ensures k.queue == if r == Blocked then Leaves(old(k.queue), old(k.cb[self]), self) else old(k.queue)
    ensures r == Blocked ==> k.timer == old(k.timer)[k.cb[self].prc := old(k.timer)[k.cb[self].prc] + {self}]
  {
    hide Linked, Ordered, Sorted, Distinct, Settled, Lists, SameMode, Timers, WaitRule;
    SameModeRefl(k.pcb);
    if k.cb[self].raster {
      return Done(ERaster);
    }
    NotOn(k.mtx, self, k.cb[self].(tstat := Waits(k.cb[self].tstat, Delay)));
    MakeWaitTmout(k, Delay, self, true);
    OutOfTransit(k, self);
    return Blocked;
  }

  /** wup_tsk: a sleeping task is woken; for another one the request is queued once. */
  method WupTsk(k: Kernel, t: int) returns (ercd: Ercd)
    requires k.Inv() && k.IsTask(t)
    modifies k`cb, k`queue, k`pcb, k`timer
    ensures k.Inv() && SameMode(old(k.pcb), k.pcb)
    ensures var x := old(k.cb[t]);
      if x.tstat == DORMANT then ercd == EObj && k.cb == old(k.cb)
      else if x.tstat.wait == Sleep then
        && ercd == EOk && k.cb == old(k.cb)[t := OutOfWait(x, EOk)]
        && Wakes(k.cb, old(k.queue), k.queue, k.sub, k.tpri, x, t)
      else if !x.wupque then ercd == EOk && k.cb == old(k.cb)[t := x.(wupque := true)]
      else ercd == EQovr && k.cb == old(k.cb)
    ensures old(k.cb[t].tstat.wait) == Sleep ==>
              var s := old(k.cb[t].tstat.suspended);
              k.cb[t] == old(k.cb[t]).(tstat := Tstat(!s, s, NoWait), winfo := Wercd(EOk))
    ensures old(k.cb[t].tstat.wait) != Sleep ==> k.queue == old(k.queue)
  {
    hide Linked, Ordered, Sorted, Distinct, Settled, Lists, SameMode, Timers, Joins;
    SameModeRefl(k.pcb);
    var x := k.cb[t];
    if x.tstat == DORMANT {
      return EObj;
    } else if x.tstat.wait == Sleep {
      RewrittenQueues(k, t, x);
      assert k.cb[t := x] == k.cb && Home(x) == None;
      WaitComplete(k, t, NULL);
      return EOk;
    } else if !x.wupque {
      FlagsKept(k, t, x.(wupque := true));
      k.cb := k.cb[t := x.(wupque := true)];
      return EOk;
    } else {
      return EQovr;
    }
  }

  /** rel_wai. */
  method RelWai(k: Kernel, t: int) returns (ercd: Ercd)
    requires k.Inv() && k.IsTask(t)
    modifies k`cb, k`queue, k`pcb, k`timer
    ensures k.Inv() && SameMode(old(k.pcb), k.pcb)
    ensures var x := old(k.cb[t]);
      if x.tstat.wait == NoWait then ercd == EObj && k.cb == old(k.cb) && k.queue == old(k.queue)
      else
        && ercd == EOk && k.cb == old(k.cb)[t := OutOfWait(x, ERlwai)]
        && Wakes(k.cb, old(k.queue), k.queue, k.sub, k.tpri, x, t)
    ensures ercd == EOk ==>
              var s := old(k.cb[t].tstat.suspended);
              k.cb[t] == old(k.cb[t]).(tstat := Tstat(!s, s, NoWait), winfo := Wercd(ERlwai))
  {
    hide Linked, Ordered, Sorted, Distinct, Settled, Lists, SameMode, Timers, Joins;
    SameModeRefl(k.pcb);
    if k.cb[t].tstat.wait == NoWait {
      return EObj;
    }
    WaitDequeueWobj(k, t);
    WaitDequeueTmevtb(k, t);
    EndWait(k, t, ERlwai, NULL);
    return EOk;
  }

  // ------ suspending and resuming

  /** What changes with tstat alone, for a task that keeps its wait. */
  lemma StatusKept(k: Kernel, t: int, x: TCB)
    requires k.Inv() && k.IsTask(t) && x == k.cb[t].(tstat := x.tstat) && x.tstat.wait == k.cb[t].tstat.wait
    requires x.tstat == DORMANT ==> k.cb[t].tstat == DORMANT
    ensures Timers(k.cb[t := x], k.timer, NULL, false) && Lists(k.cb[t := x], k.mtx, k.held, NULL, NULL)
  {
    hide Linked, Ordered, Settled, Lists, WaitRule;
    RuleAndList(k, t, NULL, NULL);
    WaitRuleSame(k.mtx, t, k.cb[t], x);
    Unaffected(k.cb, k.mtx, k.held, NULL, NULL, t, x);
  }

  /** sus_tsk. */
  method SusTsk(k: Kernel, self: int, t: int) returns (ercd: Ercd)
    requires k.Inv() && k.IsTask(t) && k.IsTask(self)
    modifies k`cb, k`queue, k`pcb
    ensures k.Inv() && SameMode(old(k.pcb), k.pcb)
    ensures var x := old(k.cb[t]);
      if t == self && 0 <= x.prc < |old(k.pcb)| && !old(k.pcb)[x.prc].dspflg then ercd == ECtx && k.cb == old(k.cb)
      else if x.tstat == DORMANT then ercd == EObj && k.cb == old(k.cb)
      else if x.raster then ercd == ERaster && k.cb == old(k.cb)
      else if x.tstat.suspended then ercd == EQovr && k.cb == old(k.cb)
      else ercd == EOk && k.cb == old(k.cb)[t := x.(tstat := Tstat(false, true, x.tstat.wait))]
    ensures k.queue == if ercd == EOk && old(k.cb[t].tstat.runnable) then Leaves(old(k.queue), old(k.cb[t]), t)
            else old(k.queue)
  {
    hide Linked, Ordered, Sorted, Distinct, Settled, Lists, SameMode, Timers, WaitRule;
    SameModeRefl(k.pcb);
    var x := k.cb[t];
    if t == self && !k.pcb[x.prc].dspflg {
      return ECtx;
    } else if x.tstat == DORMANT {
      return EObj;
    } else if x.raster {
      return ERaster;
    } else if x.tstat.runnable {
      var y := x.(tstat := SUSPENDED);
      StatusKept(k, t, y);
      RewrittenQueues(k, t, y);
      k.cb := k.cb[t := y];
      MakeNonRunnable(k, t);
      OutOfTransit(k, t);
      return EOk;
    } else if x.tstat.suspended {
      return EQovr;
    } else {
      var y := x.(tstat := x.tstat.(suspended := true));
      StatusKept(k, t, y);
      KeyKept(k.cb, k.queue, k.sub, k.tpri, t, y);
      k.cb := k.cb[t := y];
      return EOk;
    }
  }

  /** rsm_tsk. */
  method RsmTsk(k: Kernel, t: int) returns (ercd: Ercd)
    requires k.Inv() && k.IsTask(t)
    modifies k`cb, k`queue, k`pcb
    ensures k.Inv() && SameMode(old(k.pcb), k.pcb)
    ensures var x := old(k.cb[t]);
      if !x.tstat.suspended then ercd == EObj && k.cb == old(k.cb) && k.queue == old(k.queue)
      else
        && ercd == EOk && k.cb == old(k.cb)[t := x.(tstat := Tstat(x.tstat.wait == NoWait, false, x.tstat.wait))]
        && Joins(k.cb, old(k.queue), k.queue, k.sub, k.tpri, t)
  {
    hide Linked, Ordered, Sorted, Distinct, Settled, Lists, SameMode, Timers, Placed, PutIn, WaitRule, Joins;
    ghost var queue := k.queue;
    SameModeRefl(k.pcb);
    var x := k.cb[t];
    if !x.tstat.suspended {
      return EObj;
    } else if x.tstat.wait == NoWait {
      var y := x.(tstat := RUNNABLE);
      StatusKept(k, t, y);
      RewrittenQueues(k, t, y);
      k.cb := k.cb[t := y];
      ghost var i := MakeRunnable(k, t);
      JoinsAt(k.cb, queue, k.queue, k.sub, k.tpri, t, i);
    } else {
      var y := x.(tstat := x.tstat.(suspended := false));
      StatusKept(k, t, y);
      KeyKept(k.cb, k.queue, k.sub, k.tpri, t, y);
      k.cb := k.cb[t := y];
      JoinsNone(k.cb, queue, k.sub, k.tpri, t);
    }
    return EOk;
  }

  // ------ priorities

  /** chg_pri: refused exactly if a mutex that the task has locked or waits for has a
      ceiling below the new base priority.  The priority of a boosted task stays. */
  method ChgPri(k: Kernel, t: int, newbpri: int) returns (ercd: Ercd)
    requires k.Inv() && k.IsTask(t) && 0 <= newbpri < TNUM_TPRI
    modifies k`cb, k`queue, k`pcb
    ensures k.Inv() && SameMode(old(k.pcb), k.pcb) && |k.held| == |old(k.cb)|
    ensures var x := old(k.cb[t]);
      if x.tstat == DORMANT then ercd == EObj && k.cb == old(k.cb)
      else if CeilingsAbove(k.mtx, k.held[t], newbpri) && WaitRule(k.mtx, t, x.(bpriority := newbpri)) then
        && ercd == EOk
        && k.cb == old(k.cb)[t := x.(bpriority := newbpri, priority := if x.boosted then x.priority else newbpri)]
        && if x.boosted then k.queue == old(k.queue)
           else Repositioned(k.cb, old(k.queue), k.queue, k.sub, k.tpri, x, t, false)
      else ercd == EIluse && k.cb == old(k.cb)
    ensures ercd != EOk ==> k.queue == old(k.queue)
  {
    hide Linked, Ordered, Sorted, Distinct, Settled, Lists, SameMode, Timers, Repositioned, WaitRule,
      CeilingsAbove, HasCeiling, Lowest, PriorityRule, Chain;
    SameModeRefl(k.pcb);
    RuleHolds(k, t);
    RuleAndList(k, t, NULL, NULL);
    var x := k.cb[t];
    if x.tstat == DORMANT {
      return EObj;
    }
    if x.boosted || (x.tstat.wait.On? && 0 <= x.tstat.wait.w < |k.mtx|) {
      var ok := MutexCheckCeilpri(k, t, newbpri);
      if !ok {
        return EIluse;
      }
    } else {
      Unrestricted(k.mtx, k.held[t], t, x, newbpri);
    }
    SetBase(k, t, newbpri);
    return EOk;
  }

  /** The new base priority, and the priority that follows from it. */
  method SetBase(k: Kernel, t: int, newbpri: int)
    requires k.Inv() && k.IsTask(t) && 0 <= newbpri < TNUM_TPRI && |k.held| == |k.cb|
    requires CeilingsAbove(k.mtx, k.held[t], newbpri) && WaitRule(k.mtx, t, k.cb[t].(bpriority := newbpri))
    modifies k`cb, k`queue, k`pcb
    ensures k.Inv() && SameMode(old(k.pcb), k.pcb)
    ensures var x := old(k.cb[t]);
      && k.cb == old(k.cb)[t := x.(bpriority := newbpri, priority := if x.boosted then x.priority else newbpri)]
      && if x.boosted then k.queue == old(k.queue)
         else Repositioned(k.cb, old(k.queue), k.queue, k.sub, k.tpri, x, t, false)
  {
    hide Linked, Ordered, Sorted, Distinct, Settled, Lists, SameMode, Timers, Requeued, WaitRule, CeilingsAbove,
      PriorityRule, Chain;
    SameModeRefl(k.pcb);
    var x := k.cb[t];
    ghost var cb := k.cb;
    ghost var y := x.(bpriority := newbpri, priority := if x.boosted then x.priority else newbpri);
    NewBaseRest(k, t, x, y);
    KeyKept(k.cb, k.queue, k.sub, k.tpri, t, x.(bpriority := newbpri));
    RewrittenQueues(k, t, x.(bpriority := newbpri));
    k.cb := k.cb[t := x.(bpriority := newbpri)];
    if !x.boosted {
      ChangePriority(k, t, newbpri, false);
    }
    assert k.cb == cb[t := y];
  }

  /** A task that is not boosted and waits for no mutex is bound by no ceiling. */
  lemma Unrestricted(mtx: seq<Mtx>, h: seq<int>, t: int, x: TCB, b: int)
    requires PriorityRule(mtx, h, x) && !x.boosted && !(x.tstat.wait.On? && 0 <= x.tstat.wait.w < |mtx|)
    ensures CeilingsAbove(mtx, h, b) && WaitRule(mtx, t, x.(bpriority := b))
  {
  }

  lemma NewBaseRest(k: Kernel, t: int, x: TCB, y: TCB)
    requires k.Rest(NULL, false, NULL, NULL) && k.IsTask(t) && x == k.cb[t] && |k.held| == |k.cb|
    requires CeilingsAbove(k.mtx, k.held[t], y.bpriority) && WaitRule(k.mtx, t, x.(bpriority := y.bpriority))
    requires y == x.(bpriority := y.bpriority, priority := if x.boosted then x.priority else y.bpriority)
    ensures Timers(k.cb[t := y], k.timer, NULL, false) && Lists(k.cb[t := y], k.mtx, k.held, NULL, NULL)
  {
    hide Lists, Timers, WaitRule, PriorityRule, CeilingsAbove, Chain;
    RuleHolds(k, t);
    RuleAndList(k, t, NULL, NULL);
    NewBase(k.mtx, k.held[t], x, y);
    WaitRuleSame(k.mtx, t, x.(bpriority := y.bpriority), y);
    Rewritten(k.cb, k.mtx, k.held, NULL, NULL, t, y);
    TimersSame(k.cb, k.timer, NULL, false, t, y);
  }

  lemma NewBase(mtx: seq<Mtx>, h: seq<int>, x: TCB, y: TCB)
    requires PriorityRule(mtx, h, x) && CeilingsAbove(mtx, h, y.bpriority)
    requires y == x.(bpriority := y.bpriority, priority := if x.boosted then x.priority else y.bpriority)
    ensures PriorityRule(mtx, h, y)
  {
    LowestWithout(mtx, h, x.bpriority, y.bpriority);
    LowestWithout(mtx, h, y.bpriority, x.bpriority);
  }

  /** chg_spr: the sub-priority is recorded, and a runnable task that is scheduled by it
      goes behind its new equals. */
  method ChgSpr(k: Kernel, t: int, subpri: int)
    requires k.Inv() && k.IsTask(t) && 0 <= subpri
    modifies k`cb, k`queue, k`pcb
    ensures k.Inv() && SameMode(old(k.pcb), k.pcb) && k.cb == old(k.cb)[t := old(k.cb[t]).(subpri := subpri)]
    ensures var x := k.cb[t]; var q := Ready(x.prc, x.priority);
      if x.tstat.runnable && x.priority in k.sub && !x.boosted then
        Requeued(k.cb, old(k.queue), k.queue, k.sub, k.tpri, q, q, t, false)
      else k.queue == old(k.queue)
  {
    hide Linked, Ordered, Sorted, Distinct, Settled, Lists, SameMode, Timers, Requeued, WaitRule;
    SameModeRefl(k.pcb);
    ghost var cb := k.cb;
    var x := k.cb[t].(subpri := subpri);
    TimersSame(k.cb, k.timer, NULL, false, t, x);
    RuleAndList(k, t, NULL, NULL);
    WaitRuleSame(k.mtx, t, k.cb[t], x);
    Unaffected(k.cb, k.mtx, k.held, NULL, NULL, t, x);
    RewrittenQueues(k, t, x);
    if x.tstat.runnable && x.priority in k.sub && !x.boosted {
      k.cb := k.cb[t := x];
      ChangeSubprio(k, t, subpri);
    } else {
      SubpriOrdered(k.cb, k.queue, k.sub, k.tpri, t, x);
      k.cb := k.cb[t := x];
    }
    assert k.cb == cb[t := x];
  }

  // ------ activation and termination

  /** make_active. */
  method MakeActive(k: Kernel, t: int)
    requires k.Inv() && k.IsTask(t) && k.cb[t].tstat == DORMANT
    modifies k`cb, k`queue, k`pcb
    ensures k.Inv() && SameMode(old(k.pcb), k.pcb) && |k.pcb| == old(|k.pcb|)
    ensures k.cb == old(k.cb)[t := old(k.cb[t]).(tstat := RUNNABLE)]
    ensures Joins(k.cb, old(k.queue), k.queue, k.sub, k.tpri, t)
  {
    hide Linked, Ordered, Sorted, Distinct, Settled, Lists, SameMode, Timers, Placed, PutIn, WaitRule, Joins;
    ghost var queue := k.queue;
    var y := k.cb[t].(tstat := RUNNABLE);
    StatusKept(k, t, y);
    RewrittenQueues(k, t, y);
    k.cb := k.cb[t := y];
    ghost var i := MakeRunnable(k, t);
    JoinsAt(k.cb, queue, k.queue, k.sub, k.tpri, t, i);
  }

  /** act_tsk: a dormant task becomes runnable; for another one the request is queued
      once, unless it has TA_NOACTQUE. */
  method ActTsk(k: Kernel, t: int) returns (ercd: Ercd)
    requires k.Inv() && k.IsTask(t)
    modifies k`cb, k`queue, k`pcb
    ensures k.Inv() && SameMode(old(k.pcb), k.pcb)
    ensures var x := old(k.cb[t]);
      if x.tstat == DORMANT then
        && ercd == EOk && k.cb == old(k.cb)[t := x.(tstat := RUNNABLE)]
        && Joins(k.cb, old(k.queue), k.queue, k.sub, k.tpri, t)
      else if x.noactque || x.actque then ercd == EQovr && k.cb == old(k.cb)
      else ercd == EOk && k.cb == old(k.cb)[t := x.(actque := true)]
    ensures old(k.cb[t].tstat) != DORMANT ==> k.queue == old(k.queue)
  {
    hide Linked, Ordered, Sorted, Distinct, Settled, Lists, SameMode, Timers, Joins;
    SameModeRefl(k.pcb);
    var x := k.cb[t];
    if x.tstat == DORMANT {
      MakeActive(k, t);
      return EOk;
    } else if x.noactque || x.actque {
      return EQovr;
    } else {
      FlagsKept(k, t, x.(actque := true));
      k.cb := k.cb[t := x.(actque := true)];
      return EOk;
    }
  }

  /** mact_tsk: the same, but for processor prc: a dormant task starts there, and a queued
      request remembers it. */
  method MactTsk(k: Kernel, t: int, prc: int) returns (ercd: Ercd)
    requires k.Inv() && k.IsTask(t) && 0 <= prc < |k.pcb|
    modifies k`cb, k`queue, k`pcb
    ensures k.Inv() && SameMode(old(k.pcb), k.pcb)
    ensures var x := old(k.cb[t]);
      if x.tstat == DORMANT then
        && ercd == EOk && k.cb == old(k.cb)[t := x.(tstat := RUNNABLE, prc := prc)]
        && Joins(k.cb, old(k.queue), k.queue, k.sub, k.tpri, t)
      else if x.noactque || x.actque then ercd == EQovr && k.cb == old(k.cb)
      else ercd == EOk && k.cb == old(k.cb)[t := x.(actque := true, actprc := prc)]
    ensures old(k.cb[t].tstat) != DORMANT ==> k.queue == old(k.queue)
  {
    hide Linked, Ordered, Sorted, Distinct, Settled, Lists, SameMode, Timers, Joins;
    SameModeRefl(k.pcb);
    var x := k.cb[t];
    if x.tstat == DORMANT {
      Moved(k, t, x.(prc := prc));
      k.cb := k.cb[t := x.(prc := prc)];
      MakeActive(k, t);
      return EOk;
    } else if x.noactque || x.actque {
      return EQovr;
    } else {
      FlagsKept(k, t, x.(actque := true, actprc := prc));
      k.cb := k.cb[t := x.(actque := true, actprc := prc)];
      return EOk;
    }
  }

  lemma Idle(cb: seq<TCB>, timer: seq<set<int>>, t: int)
    requires Timers(cb, timer, NULL, false) && 0 <= t < |cb| && cb[t].tstat.wait == NoWait
    ensures Timers(cb, timer, t, false)
  {
  }

  /** The mutexes of a task that terminates, if it has any. */
  method GiveUp(k: Kernel, t: int)
    requires k.Inv() && k.IsTask(t) && k.cb[t].tstat != DORMANT
    modifies k`cb, k`queue, k`pcb, k`mtx, k`held, k`timer
    ensures k.Queues(NULL, None) && k.Rest(NULL, false, t, NULL) && SameMode(old(k.pcb), k.pcb)
    ensures |k.pcb| == old(|k.pcb|)
    ensures |k.cb| == |old(k.cb)| == |k.held| == |old(k.held)| && k.held[t] == []
    ensures k.cb[t] == old(k.cb[t]).(lastmtx := NULL)
    ensures forall u {:trigger k.cb[u]} :: 0 <= u < |k.cb| && u != t ==>
            Untouched(old(k.mtx), old(k.held)[t], old(k.cb)[u], k.cb[u])
    ensures Passing(old(k.mtx), k.mtx, old(k.queue), old(k.held)[t], [])
    ensures Served(old(k.queue), k.queue, old(k.held)[t], [])
  {
    hide Linked, Ordered, Sorted, Distinct, Settled, Lists, SameMode, Timers, Minus, Passing, Served;
    SameModeRefl(k.pcb);
    Stale(k, t);
    ListSound(k, t, NULL, NULL);
    LastNull(k.mtx, k.cb[t].lastmtx, k.held[t]);
    if k.cb[t].lastmtx != NULL {
      MutexReleaseAll(k, t);
    } else {
      NonePassed(k.mtx, k.queue, []);
    }
  }

  /** The wait queues when task t, which had locked the mutexes h, has terminated. */
  ghost predicate Quits(was: map<Qid, seq<int>>, now: map<Qid, seq<int>>, h: seq<int>, t: int) {
    forall q: Qid {:trigger Q(now, q)} :: !q.Ready? ==> Q(now, q) == Minus(Remaining(was, h, [], q), t)
  }

  lemma QuitsThen(cb: seq<TCB>, was: map<Qid, seq<int>>, mid: map<Qid, seq<int>>, h: seq<int>, t: int)
    requires Linked(cb, mid, NULL, None) && 0 <= t < |cb| && Served(was, mid, h, [])
    ensures Quits(was, Leaves(mid, cb[t], t), h, t)
  {
    var now := Leaves(mid, cb[t], t);
    AtHome(cb, mid, t);
    forall q: Qid | !q.Ready?
      ensures Q(now, q) == Minus(Q(mid, q), t)
    {
      if Home(cb[t]) != Some(q) {
        MinusAbsent(Q(mid, q), t);
      }
    }
  }

  /** The first half of task_terminate: the task gives up its mutexes and is taken out of
      whatever queue and heap it is in. */
  method Withdraw(k: Kernel, t: int)
    requires k.Inv() && k.IsTask(t) && k.cb[t].tstat != DORMANT
    modifies k`cb, k`queue, k`pcb, k`mtx, k`held, k`timer
    ensures k.Queues(t, None) && k.Rest(t, false, t, NULL) && SameMode(old(k.pcb), k.pcb) && |k.pcb| == old(|k.pcb|)
    ensures |k.cb| == |old(k.cb)| == |k.held| && k.held[t] == [] && k.cb[t] == old(k.cb[t]).(lastmtx := NULL)
    ensures |old(k.held)| == |old(k.cb)| && forall u {:trigger k.cb[u]} :: 0 <= u < |k.cb| && u != t ==>
            Untouched(old(k.mtx), old(k.held)[t], old(k.cb)[u], k.cb[u])
    ensures Passing(old(k.mtx), k.mtx, old(k.queue), old(k.held)[t], [])
    ensures Quits(old(k.queue), k.queue, old(k.held)[t], t)
  {
    hide Linked, Ordered, Sorted, Distinct, Settled, Lists, SameMode, Timers, Minus, Untouched, Passing, Served, Quits;
    ghost var pcb, queue, held := k.pcb, k.queue, k.held;
    GiveUp(k, t);
    ghost var pcb1, mid, x := k.pcb, k.queue, k.cb[t];
    QuitsThen(k.cb, queue, mid, held[t], t);
    RewrittenQueues(k, t, k.cb[t]);
    assert k.cb[t := k.cb[t]] == k.cb;
    if k.cb[t].tstat.runnable {
      Idle(k.cb, k.timer, t);
      MakeNonRunnable(k, t);
      SameModeTrans(pcb, pcb1, k.pcb);
    } else if k.cb[t].tstat.wait != NoWait {
      WaitDequeueWobj(k, t);
      WaitDequeueTmevtb(k, t);
    } else {
      Idle(k.cb, k.timer, t);
    }
    assert k.queue == Leaves(mid, x, t);
  }

  /** The control block after make_dormant. */
  ghost function Dormant(x: TCB): TCB {
    x.(tstat := DORMANT, bpriority := x.ipriority, priority := x.ipriority, wupque := false, raster := false,
       enater := true, boosted := false)
  }

  /** make_dormant, for a task that has been withdrawn. */
  method MakeDormant(k: Kernel, t: int)
    requires k.IsTask(t) && k.Queues(t, None) && k.Rest(t, false, t, NULL) && |k.held| == |k.cb| && k.held[t] == []
    modifies k`cb
    ensures k.Inv() && k.cb == old(k.cb)[t := Dormant(old(k.cb[t]))]
    ensures var x := old(k.cb[t]);
      k.cb[t] == x.(tstat := DORMANT, bpriority := x.ipriority, priority := x.ipriority, wupque := false,
                    raster := false, enater := true, boosted := false)
  {
    hide Linked, Ordered, Sorted, Distinct, Settled, Lists, Timers, Chain;
    var x := k.cb[t].(tstat := DORMANT, bpriority := k.cb[t].ipriority, priority := k.cb[t].ipriority, wupque := false,
                      raster := false, enater := true, boosted := false);
    TransitQueues(k, t, None, x);
    TimersRewritten(k.cb, k.timer, t, false, t, x);
    NoWaitRule(k.mtx, t, x);
    assert PriorityRule(k.mtx, [], x);
    Rewritten(k.cb, k.mtx, k.held, t, NULL, t, x);
    k.cb := k.cb[t := x];
  }

  /** A dormant task may be given another processor. */
  lemma Moved(k: Kernel, t: int, x: TCB)
    requires k.Inv() && k.IsTask(t) && k.cb[t].tstat == DORMANT && FieldsOk(x, |k.pcb|)
    requires x == k.cb[t].(prc := x.prc, actque := x.actque, actprc := x.actprc)
    ensures InRange(k.cb[t := x], |k.pcb|) && Linked(k.cb[t := x], k.queue, NULL, None)
    ensures Ordered(k.cb[t := x], k.queue, k.sub, k.tpri, NULL)
    ensures Timers(k.cb[t := x], k.timer, NULL, false) && Lists(k.cb[t := x], k.mtx, k.held, NULL, NULL)
  {
    hide Linked, Ordered, Settled, Lists, WaitRule;
    KeyKept(k.cb, k.queue, k.sub, k.tpri, t, x);
    RuleAndList(k, t, NULL, NULL);
    NoWaitRule(k.mtx, t, x);
    Unaffected(k.cb, k.mtx, k.held, NULL, NULL, t, x);
  }

  /** The terminating task is the caller and is to start again on another processor. */
  ghost predicate Migrates(x: TCB, isSelf: bool) {
    x.actque && x.actprc != NULL && isSelf && x.actprc != x.prc
  }

  /** The control block after task_terminate. */
  ghost function Terminated(x: TCB, migrate: bool): TCB {
    Dormant(x).(lastmtx := NULL, actque := false, actprc := if x.actque then NULL else x.actprc,
                prc := if x.actque && x.actprc != NULL then x.actprc else x.prc,
                tstat := if x.actque && !migrate then RUNNABLE else DORMANT)
  }

  /** task_terminate.  The task ends without mutexes, and starts again at its initial
      priority if an activation request was queued.  The result is true if it is the
      calling task and is to start again on another processor. */
  method TaskTerminate(k: Kernel, t: int, isSelf: bool) returns (migrate: bool)
    requires k.Inv() && k.IsTask(t) && k.cb[t].tstat != DORMANT
    modifies k`cb, k`queue, k`pcb, k`mtx, k`held, k`timer
    ensures k.Inv() && SameMode(old(k.pcb), k.pcb) && |k.cb| == |old(k.cb)| == |k.held|
    ensures k.held[t] == [] && k.cb[t].lastmtx == NULL && forall m :: 0 <= m < |k.mtx| ==> k.mtx[m].loctsk != t
    ensures migrate == Migrates(old(k.cb[t]), isSelf) && k.cb[t] == Terminated(old(k.cb[t]), migrate)
    ensures migrate <==> isSelf && old(k.cb[t]).actque && old(k.cb[t]).actprc != NULL
                         && old(k.cb[t]).actprc != old(k.cb[t]).prc
    ensures var x := old(k.cb[t]);
      k.cb[t] == x.(tstat := if x.actque && !migrate then RUNNABLE else DORMANT,
                    bpriority := x.ipriority, priority := x.ipriority, boosted := false, lastmtx := NULL,
                    wupque := false, raster := false, enater := true, actque := false,
                    actprc := if x.actque then NULL else x.actprc,
                    prc := if x.actque && x.actprc != NULL then x.actprc else x.prc)
    ensures |old(k.held)| == |old(k.cb)| && forall u {:trigger k.cb[u]} :: 0 <= u < |k.cb| && u != t ==>
            Untouched(old(k.mtx), old(k.held)[t], old(k.cb)[u], k.cb[u])
    ensures Passing(old(k.mtx), k.mtx, old(k.queue), old(k.held)[t], [])
    ensures Quits(old(k.queue), k.queue, old(k.held)[t], t)
  {
    hide Linked, Ordered, Sorted, Distinct, Settled, Lists, SameMode, Timers;
    ghost var pcb := k.pcb;
    SameModeRefl(pcb);
    Withdraw(k, t);
    MakeDormant(k, t);
    NoneHeld(k, t);
    ghost var pcb1 := k.pcb;
    migrate := false;
    var x := k.cb[t];
    if x.actque {
      var y := x.(actque := false);
      if x.actprc != NULL {
        y := y.(prc := x.actprc, actprc := NULL);
        migrate := isSelf && x.actprc != x.prc;
      }
      Moved(k, t, y);
      k.cb := k.cb[t := y];
      if !migrate {
        ghost var mid := k.queue;
        MakeActive(k, t);
        JoinsReady(k.cb, mid, k.queue, k.sub, k.tpri, t);
        SameModeTrans(pcb, pcb1, k.pcb);
      }
    }
  }

  lemma NoneHeld(k: Kernel, t: int)
    requires k.Rest(NULL, false, NULL, NULL) && k.IsTask(t) && |k.held| == |k.cb| && k.held[t] == []
    ensures forall m :: 0 <= m < |k.mtx| ==> k.mtx[m].loctsk != t
    ensures k.cb[t].lastmtx == NULL
  {
    hide PriorityRule, WaitRule;
    assert Chain(k.mtx, k.cb[t].lastmtx, k.held[t]);
    forall m | 0 <= m < |k.mtx|
      ensures k.mtx[m].loctsk != t
    {
      assert m !in k.held[t];
    }
  }

  /** What the termination of task t does to the tables: t starts afresh, its mutexes go to
      the tasks waiting for them, and no other task changes or leaves a wait queue. */
  ghost predicate Ended(cb: seq<TCB>, cb': seq<TCB>, mtx: seq<Mtx>, mtx': seq<Mtx>, queue: map<Qid, seq<int>>,
      queue': map<Qid, seq<int>>, held: seq<seq<int>>, t: int)
    requires 0 <= t < |cb|
  {
    && |cb'| == |cb| == |held| && cb'[t] == Terminated(cb[t], false)
    && (forall u {:trigger cb'[u]} :: 0 <= u < |cb| && u != t ==> Untouched(mtx, held[t], cb[u], cb'[u]))
    && Passing(mtx, mtx', queue, held[t], []) && Quits(queue, queue', held[t], t)
    && (forall m {:trigger mtx'[m]} :: 0 <= m < |mtx'| ==> mtx'[m].loctsk != t)
  }

  /** ter_tsk, for a task of the caller's processor. */
  method TerTsk(k: Kernel, self: int, t: int) returns (ercd: Ercd)
    requires k.Inv() && k.IsTask(t) && k.IsTask(self) && t != self
    modifies k`cb, k`queue, k`pcb, k`mtx, k`held, k`timer
    ensures k.Inv() && SameMode(old(k.pcb), k.pcb)
    ensures ercd == if old(k.cb[t]).prc != old(k.cb[self]).prc || old(k.cb[t]).tstat == DORMANT then EObj else EOk
    ensures ercd == EObj ==>
              && k.cb == old(k.cb) && k.queue == old(k.queue) && k.mtx == old(k.mtx)
              && k.held == old(k.held) && k.timer == old(k.timer) && k.pcb == old(k.pcb)
    ensures ercd == EOk ==> Ended(old(k.cb), k.cb, old(k.mtx), k.mtx, old(k.queue), k.queue, old(k.held), t)
    ensures ercd == EOk ==>
              var x := old(k.cb[t]);
              k.cb[t] == x.(tstat := if x.actque then RUNNABLE else DORMANT,
                            bpriority := x.ipriority, priority := x.ipriority, boosted := false, lastmtx := NULL,
                            wupque := false, raster := false, enater := true, actque := false,
                            actprc := if x.actque then NULL else x.actprc,
                            prc := if x.actque && x.actprc != NULL then x.actprc else x.prc)
  {
    hide Linked, Ordered, Sorted, Distinct, Settled, Lists, SameMode, Timers;
    SameModeRefl(k.pcb);
    if k.cb[t].prc != k.cb[self].prc || k.cb[t].tstat == DORMANT {
      return EObj;
    }
    var _ := TaskTerminate(k, t, false);
    return EOk;
  }

  /** ras_ter: a task that may be terminated is; another one is made runnable, whatever
      it was waiting for, to find the request. */
  method RasTer(k: Kernel, self: int, t: int) returns (ercd: Ercd)
    requires k.Inv() && k.IsTask(t) && k.IsTask(self) && t != self
    modifies k`cb, k`queue, k`pcb, k`mtx, k`held, k`timer
    ensures k.Inv() && SameMode(old(k.pcb), k.pcb)
    ensures ercd == if old(k.cb[t]).prc != old(k.cb[self]).prc || old(k.cb[t]).tstat == DORMANT then EObj else EOk
    ensures ercd == EObj ==>
              && k.cb == old(k.cb) && k.queue == old(k.queue) && k.mtx == old(k.mtx)
              && k.held == old(k.held) && k.timer == old(k.timer) && k.pcb == old(k.pcb)
    ensures ercd == EOk && old(k.cb[t]).enater ==>
              Ended(old(k.cb), k.cb, old(k.mtx), k.mtx, old(k.queue), k.queue, old(k.held), t)
    ensures ercd == EOk && old(k.cb[t]).enater ==>
              var x := old(k.cb[t]);
              k.cb[t] == x.(tstat := if x.actque then RUNNABLE else DORMANT,
                            bpriority := x.ipriority, priority := x.ipriority, boosted := false, lastmtx := NULL,
                            wupque := false, raster := false, enater := true, actque := false,
                            actprc := if x.actque then NULL else x.actprc,
                            prc := if x.actque && x.actprc != NULL then x.actprc else x.prc)
    ensures ercd == EOk && !old(k.cb[t]).enater ==>
              var x := old(k.cb[t]);
              && k.cb == old(k.cb)[t := x.(raster := true, tstat := RUNNABLE,
                                           winfo := if x.tstat.wait == NoWait then x.winfo else Wercd(ERaster))]
              && k.mtx == old(k.mtx) && k.held == old(k.held)
              && if x.tstat.runnable then k.queue == old(k.queue)
                 else Wakes(k.cb, old(k.queue), k.queue, k.sub, k.tpri, x, t)
  {
    hide Linked, Ordered, Sorted, Distinct, Settled, Lists, SameMode, Timers, Joins;
    ghost var cb, pcb := k.cb, k.pcb;
    SameModeRefl(pcb);
    var x := k.cb[t];
    if x.prc != k.cb[self].prc || x.tstat == DORMANT {
      return EObj;
    }
    ercd := EOk;
    if x.enater {
      var _ := TaskTerminate(k, t, false);
    } else {
      FlagsKept(k, t, x.(raster := true));
      k.cb := k.cb[t := x.(raster := true)];
      if !x.tstat.runnable {
        Rouse(k, t);
      }
      assert k.cb == cb[t := k.cb[t]];
    }
  }

  /** The way out of any wait and of suspension at once. */
  method Rouse(k: Kernel, t: int)
    requires k.Inv() && k.IsTask(t) && !k.cb[t].tstat.runnable && k.cb[t].tstat != DORMANT
    modifies k`cb, k`queue, k`pcb, k`timer
    ensures k.Inv() && SameMode(old(k.pcb), k.pcb)
    ensures var x := old(k.cb[t]);
      k.cb == old(k.cb)[t := x.(tstat := RUNNABLE, winfo := if x.tstat.wait == NoWait then x.winfo else Wercd(ERaster))]
      && Wakes(k.cb, old(k.queue), k.queue, k.sub, k.tpri, x, t)
  {
    hide Linked, Ordered, Sorted, Distinct, Settled, Lists, SameMode, Timers, Placed, PutIn, WaitRule, Joins;
    ghost var cb, queue := k.cb, k.queue;
    if k.cb[t].tstat.wait != NoWait {
      WaitDequeueWobj(k, t);
      WaitDequeueTmevtb(k, t);
      SetWercd(k, t, ERaster, None, NULL, NULL);
    } else {
      Idle(k.cb, k.timer, t);
      RewrittenQueues(k, t, k.cb[t]);
      assert k.cb[t := k.cb[t]] == k.cb;
    }
    var y := k.cb[t].(tstat := RUNNABLE);
    TransitQueues(k, t, None, y);
    NoWaitRule(k.mtx, t, y);
    RewrittenRest(k, t, false, NULL, NULL, t, y);
    k.cb := k.cb[t := y];
    assert k.queue == Leaves(queue, cb[t], t);
    ghost var mid := k.queue;
    ghost var i := MakeRunnable(k, t);
    JoinsAt(k.cb, mid, k.queue, k.sub, k.tpri, t, i);
    assert k.cb == cb[t := k.cb[t]];
  }

  /** A runnable task goes to the ready queue of another processor. */
  method RequeueAt(k: Kernel, t: int, prc: int)
    requires k.Queues(NULL, None) && k.IsTask(t) && 0 <= prc < |k.pcb| && k.cb[t].tstat.runnable
    modifies k`cb, k`queue, k`pcb
    ensures k.Queues(NULL, None) && SameMode(old(k.pcb), k.pcb) && |k.pcb| == old(|k.pcb|)
    ensures k.cb == old(k.cb)[t := old(k.cb[t]).(prc := prc)]
    ensures Wakes(k.cb, old(k.queue), k.queue, k.sub, k.tpri, old(k.cb[t]), t)
  {
    hide Linked, Ordered, Sorted, Distinct, Settled, SameMode, Placed, PutIn, Joins, Minus;
    ghost var pcb, queue := k.pcb, k.queue;
    var x := k.cb[t];
    RewrittenQueues(k, t, x);
    assert k.cb[t := x] == k.cb;
    MakeNonRunnable(k, t);
    ghost var pcb1, mid := k.pcb, k.queue;
    assert mid == Leaves(queue, x, t);
    TransitQueues(k, t, None, x.(prc := prc));
    k.cb := k.cb[t := x.(prc := prc)];
    ghost var i := MakeRunnable(k, t);
    JoinsAt(k.cb, mid, k.queue, k.sub, k.tpri, t, i);
    SameModeTrans(pcb, pcb1, k.pcb);
  }

  /** mig_tsk for another task of the caller's processor: its place in the ready queue
      or its time event goes with it. */
  method MigTsk(k: Kernel, self: int, t: int, prc: int) returns (ercd: Ercd)
    requires k.Inv() && k.IsTask(t) && k.IsTask(self) && t != self && 0 <= prc < |k.pcb|
    modifies k`cb, k`queue, k`pcb, k`timer
    ensures k.Inv() && SameMode(old(k.pcb), k.pcb)
    ensures ercd == if old(k.cb[t]).prc != old(k.cb[self]).prc then EObj else EOk
    ensures k.cb == if ercd == EOk then old(k.cb)[t := old(k.cb[t]).(prc := prc)] else old(k.cb)
    ensures if ercd == EOk && old(k.cb[t].tstat.runnable)
            then Wakes(k.cb, old(k.queue), k.queue, k.sub, k.tpri, old(k.cb[t]), t) else k.queue == old(k.queue)
  {
    hide Linked, Ordered, Sorted, Distinct, Settled, Lists, SameMode, WaitRule, Joins, Timers;
    SameModeRefl(k.pcb);
    var x := k.cb[t];
    if x.prc != k.cb[self].prc {
      return EObj;
    }
    RuleAndList(k, t, NULL, NULL);
    WaitRuleSame(k.mtx, t, x, x.(prc := prc));
    Unaffected(k.cb, k.mtx, k.held, NULL, NULL, t, x.(prc := prc));
    if x.tstat.runnable {
      IdleMoved(k.cb, k.timer, t, prc);
      RequeueAt(k, t, prc);
    } else {
      CarryOver(k, t, prc);
    }
    return EOk;
  }

  lemma TimerMoved(cb: seq<TCB>, timer: seq<set<int>>, t: int, prc: int)
    requires Timers(cb, timer, NULL, false) && 0 <= t < |cb| && 0 <= cb[t].prc < |timer| && 0 <= prc < |timer|
    ensures var x := cb[t];
      var mid := timer[x.prc := timer[x.prc] - {t}];
      Timers(cb[t := x.(prc := prc)], if Timed(x) then mid[prc := mid[prc] + {t}] else timer, NULL, false)
  {
  }

  lemma IdleMoved(cb: seq<TCB>, timer: seq<set<int>>, t: int, prc: int)
    requires Timers(cb, timer, NULL, false) && 0 <= t < |cb| && cb[t].tstat.wait == NoWait
    ensures Timers(cb[t := cb[t].(prc := prc)], timer, NULL, false)
  {
  }

  /** A task that is in no ready queue goes to another processor with its time event. */
  method CarryOver(k: Kernel, t: int, prc: int)
    requires k.Inv() && k.IsTask(t) && 0 <= prc < |k.pcb| && !k.cb[t].tstat.runnable
    modifies k`cb, k`timer
    ensures k.Queues(NULL, None) && |k.timer| == |k.pcb| && Timers(k.cb, k.timer, NULL, false)
    ensures k.cb == old(k.cb)[t := old(k.cb[t]).(prc := prc)]
  {
    hide Linked, Ordered, Sorted, Distinct, Settled, Lists, Timers;
    var x := k.cb[t];
    KeyKept(k.cb, k.queue, k.sub, k.tpri, t, x.(prc := prc));
    TimerMoved(k.cb, k.timer, t, prc);
    if Timed(x) {
      k.timer := k.timer[x.prc := k.timer[x.prc] - {t}];
      k.timer := k.timer[prc := k.timer[prc] + {t}];
    }
    k.cb := k.cb[t := x.(prc := prc)];
  }
}

/** The kernel together with the time event heaps: the time event of a task, which has
    the number of the task, is in the heap of the processor that serves the task's exactly
    while the task waits with a timeout (kernel/wait.h, kernel/time_event.c). */
module TimedWaits {

  import opened TaskQueues
  import opened MutexProtocol
  import opened KernelTables
  import opened Scheduler
  import opened WaitState
  import opened MutexServices
  import opened Waiters
  import opened TimeWindow
  import TimeEventHeap
  import TimeEventHeaps
  import DataQueues
  import MemPfixes
  import Mutexes
  import PriDataQueues
  import TaskServices
  import TimeManager
  import Clock

  /** Which control blocks are those of a timed wait. */
  lemma TimedBlocks(x: TCB, wait: Wait, timed: bool, ercd: Ercd, m: int, newpri: int)
    requires wait != NoWait
    ensures Timed(InWait(x, wait, timed)) == timed && InWait(x, wait, timed).prc == x.prc
    ensures !Timed(OutOfWait(x, ercd)) && OutOfWait(x, ercd).prc == x.prc
    ensures var y := Mutexes.Raised(x.(lastmtx := m), newpri); Timed(y) == Timed(x) && y.prc == x.prc
    ensures x.tstat.wait == NoWait ==> !Timed(x)
    ensures Timed(x.(lastmtx := m)) == Timed(x) && Timed(x.(wupque := !x.wupque)) == Timed(x)
  {
  }

  /** No wait with a timeout begins, and none that goes on moves to another processor. */
  ghost predicate OnlyEnds(cb: seq<TCB>, cb': seq<TCB>) {
    |cb'| == |cb| && forall t {:trigger cb'[t]} :: 0 <= t < |cb| && Timed(cb'[t]) ==>
      Timed(cb[t]) && cb'[t].prc == cb[t].prc
  }

  lemma NoneEnds(cb: seq<TCB>)
    ensures OnlyEnds(cb, cb)
  {
  }

  lemma EndedEnds(cb: seq<TCB>, cb': seq<TCB>, mtx: seq<Mtx>, mtx': seq<Mtx>, queue: map<Qid, seq<int>>,
      queue': map<Qid, seq<int>>, held: seq<seq<int>>, t: int)
    requires 0 <= t < |cb| && TaskServices.Ended(cb, cb', mtx, mtx', queue, queue', held, t)
    ensures OnlyEnds(cb, cb')
  {
    forall u {:trigger cb'[u]} | 0 <= u < |cb| && u != t
      ensures Timed(cb'[u]) ==> cb'[u] == cb[u]
    {
      assert Mutexes.Untouched(mtx, held[t], cb[u], cb'[u]);
    }
  }

  lemma UnlockingEnds(cb: seq<TCB>, cb': seq<TCB>, mtx: seq<Mtx>, mtx': seq<Mtx>, queue: map<Qid, seq<int>>,
      queue': map<Qid, seq<int>>, held: seq<seq<int>>, held': seq<seq<int>>, sub: set<int>, tpri: set<int>,
      self: int, m: int)
    requires Unlocking(cb, cb', mtx, mtx', queue, queue', held, held', sub, tpri, self, m)
    ensures OnlyEnds(cb, cb')
  {
    hide Lowest, HasCeiling, Passed;
  }

  lemma EmptiedEnds(cb: seq<TCB>, cb': seq<TCB>, mtx: seq<Mtx>, mtx': seq<Mtx>, queue: map<Qid, seq<int>>,
      queue': map<Qid, seq<int>>, held: seq<seq<int>>, held': seq<seq<int>>, sub: set<int>, tpri: set<int>, m: int)
    requires Emptied(cb, cb', mtx, mtx', queue, queue', held, held', sub, tpri, m)
    ensures OnlyEnds(cb, cb')
  {
    hide Lowest, HasCeiling, Drained, Mutexes.Follows, Bypassed;
  }

  lemma RousedEnds(cb: seq<TCB>, cb': seq<TCB>, t: int)
    requires 0 <= t < |cb| == |cb'| && cb' == cb[t := cb'[t]] && cb'[t].tstat == RUNNABLE
    ensures OnlyEnds(cb, cb')
  {
  }

  lemma DeletedEnds(cb: seq<TCB>, cb': seq<TCB>, waits: set<Wait>)
    requires AllDeleted(cb, cb', waits) && NoWait !in waits
    ensures OnlyEnds(cb, cb')
  {
  }

  class TimedKernel {
    const k: Kernel
    const tm: TimeManager.TimeManager
    const server: seq<nat>     // the processor whose timer serves each processor: itself, or the time master

    /** Every processor is served by one that has a heap; the kernel's tables are apart from
        the heaps. */
    ghost predicate Served()
      reads k`pcb
    {
      && k !in tm.hs.repr
      && |server| == |k.pcb| && forall p {:trigger server[p]} :: 0 <= p < |server| ==> server[p] < |tm.hs.heap|
    }

    /** The heaps hold the time events of the tasks that wait with a timeout, each where
        its processor is served, and of no other tasks; but for task t0. */
    ghost predicate TiedTo(cb: seq<TCB>, t0: int)
      requires tm.hs.Wired()
      reads tm.hs.repr
    {
      forall p: int, t: nat {:trigger t in tm.hs.heap[p].events} :: 0 <= p < |tm.hs.heap| && t < |cb| && t != t0 ==>
        (t in tm.hs.heap[p].events <==> Timed(cb[t]) && 0 <= cb[t].prc < |server| && server[cb[t].prc] == p)
    }

    ghost predicate Tied(t0: int)
      requires tm.hs.Wired()
      reads k`cb, tm.hs.repr
    {
      TiedTo(k.cb, t0)
    }

    /** After a call that rewrites the control block of one task. */
    lemma OneRewritten(cb: seq<TCB>, cb': seq<TCB>, t: int)
      requires tm.hs.Wired() && TiedTo(cb, NULL) && 0 <= t < |cb| == |cb'| && cb' == cb[t := cb'[t]]
      ensures TiedTo(cb', t)
      ensures Timed(cb'[t]) == Timed(cb[t]) && (Timed(cb[t]) ==> cb'[t].prc == cb[t].prc) ==> TiedTo(cb', NULL)
    {
    }

    ghost predicate Valid()
      reads this, k, tm, tm.clk, tm.hs.repr
    {
      k.Inv() && tm.Sound() && tm.Armed({}) && Served() && Tied(NULL)
    }

    /** All tasks are dormant and no event is registered. */
    constructor (k: Kernel, tm: TimeManager.TimeManager, server: seq<nat>)
      requires k.Inv() && tm.Sound() && tm.Armed({}) && |server| == |k.pcb| && k !in tm.hs.repr
      requires forall p {:trigger server[p]} :: 0 <= p < |server| ==> server[p] < |tm.hs.heap|
      requires forall t {:trigger k.cb[t]} :: 0 <= t < |k.cb| ==> k.cb[t].tstat == DORMANT
      requires forall p {:trigger tm.hs.heap[p]} :: 0 <= p < |tm.hs.heap| ==> tm.hs.heap[p].events == {}
      ensures Valid() && this.k == k && this.tm == tm && this.server == server
    {
      this.k, this.tm, this.server := k, tm, server;
    }

    /** The tie in terms of the kernel's own record of the registered tasks. */
    lemma HeapIsTimer(p: int, t: nat)
      requires Valid() && 0 <= p < |tm.hs.heap| && t < |k.cb|
      ensures t in tm.hs.heap[p].events <==> exists q :: 0 <= q < |k.timer| && server[q] == p && t in k.timer[q]
    {
      hide Linked, Ordered, Settled, Lists;
      var q := k.cb[t].prc;
      assert 0 <= q < |k.timer| && (t in k.timer[q] <==> Timed(k.cb[t]));
    }

    /** The time of a call: what the timer shows, and that no event is overdue by more than
        the margin. */
    ghost predicate Sampled(newHrtcnt: nat, advance: nat)
      requires tm.hs.Wired()
      reads tm, tm.clk, tm.hs.repr
    {
      && advance < tm.clk.cycle && newHrtcnt == Clock.Reading(tm.clk.hrt + advance, tm.clk.cycle)
      && tm.Timely(tm.clk.now + advance)
    }

    /** The time event of a task that has begun to wait goes into the heap that serves its
        processor. */
    method Register(t: nat, p: nat, time: nat, newHrtcnt: nat, ghost advance: nat)
      requires k.Inv() && tm.Sound() && tm.Armed({}) && Served() && Tied(t)
      requires t < |k.cb| && Timed(k.cb[t]) && p == server[k.cb[t].prc]
      requires t < tm.hs.evttim.Length && tm.Unregistered(t)
      requires Sampled(newHrtcnt, advance) && time <= TMAX_RELTIM && Room(p)
      modifies tm`due, tm`alarm, tm.clk, tm.hs.evttim, tm.hs.index, tm.hs.heap[p], tm.hs.heap[p].node
      ensures Valid() && tm.clk.now == old(tm.clk.now) + advance
      ensures tm.due == old(tm.due)[t := tm.clk.now + tm.tstep + time]
    {
      hide Linked, Ordered, Settled, Timers, Lists, TimeManager.TimeManager.Armed, TimeManager.TimeManager.Timely,
        TimeManager.TimeManager.Sound, TimeEventHeaps.Heaps.Valid, TimeManager.TimedBy;
      HeapsApart(p);
      tm.EnqueueReltim(t, time, p, newHrtcnt, advance);
    }

    /** The heaps are different objects. */
    lemma HeapsApart(p: nat)
      requires tm.Sound() && p < |tm.hs.heap|
      ensures tm.Configured()
      ensures forall q {:trigger tm.hs.heap[q]} :: 0 <= q < |tm.hs.heap| && q != p ==> tm.hs.heap[q] != tm.hs.heap[p]
    {
    }

    ghost predicate Room(p: nat)
      requires tm.hs.Wired()
      reads tm.hs.repr
    {
      p < |tm.hs.heap| && tm.hs.heap[p].lastIndex + 1 < tm.hs.heap[p].node.Length
    }

    /** A task that is not waiting has no event in any heap. */
    lemma NotRegistered(t: nat)
      requires Valid() && t < |k.cb| && !Timed(k.cb[t])
      ensures tm.Configured() && tm.Unregistered(t)
    {
    }

    /** The event of task t is in the heap that serves its processor, and in no other; or in
        none. */
    ghost predicate HasEvent(t: nat, registered: bool)
      requires tm.hs.Wired()
      reads k`cb, tm.hs.repr
    {
      && t < |k.cb|
      && forall p: int {:trigger tm.hs.heap[p]} :: 0 <= p < |tm.hs.heap| ==>
           (t in tm.hs.heap[p].events <==> registered && 0 <= k.cb[t].prc < |server| && server[k.cb[t].prc] == p)
    }

    lemma EventIfTimed(t: nat)
      requires Valid() && t < |k.cb|
      ensures tm.Configured() && HasEvent(t, Timed(k.cb[t]))
    {
      hide Linked, Ordered, Settled, Lists;
    }

    /** The second half of a call that may have made task t wait with a timeout. */
    method RegisterIf(timed: bool, ghost cb: seq<TCB>, t: nat, p: nat, time: nat, newHrtcnt: nat, ghost advance: nat)
      requires k.Inv() && tm.Sound() && tm.Armed({}) && Served() && TiedTo(cb, NULL)
      requires t < |cb| == |k.cb| && k.cb == cb[t := k.cb[t]] && k.cb[t].prc == cb[t].prc && p == server[cb[t].prc]
      requires !Timed(cb[t]) && Timed(k.cb[t]) == timed
      requires t < tm.hs.evttim.Length && tm.Unregistered(t)
      requires Sampled(newHrtcnt, advance) && time <= TMAX_RELTIM && Room(p)
      modifies tm`due, tm`alarm, tm.clk, tm.hs.evttim, tm.hs.index, tm.hs.heap[p], tm.hs.heap[p].node
      ensures Valid() && HasEvent(t, timed)
      ensures if timed then
                tm.clk.now == old(tm.clk.now) + advance && tm.due == old(tm.due)[t := tm.clk.now + tm.tstep + time]
              else unchanged(tm.clk) && tm.due == old(tm.due)
    {
      hide Linked, Ordered, Settled, Lists, TimeManager.TimeManager.Armed, TimeManager.TimeManager.Timely,
        TimeManager.TimeManager.Sound, TimeEventHeaps.Heaps.Valid, TimeManager.TimedBy, TimedKernel.TiedTo,
        TimedKernel.HasEvent, Timed;
      HeapsApart(p);
      OneRewritten(cb, k.cb, t);
      if timed {
        Register(t, p, time, newHrtcnt, advance);
      }
      EventIfTimed(t);
    }

    /** tslp_tsk (Within, or TmoPol for TMO_POL) and slp_tsk (Forever). */
    method TslpTsk(self: nat, tmo: Tmo, time: nat, newHrtcnt: nat, ghost advance: nat) returns (r: Outcome)
      requires Valid() && IsRunning(k, self) && self < tm.hs.evttim.Length
      requires Sampled(newHrtcnt, advance) && time <= TMAX_RELTIM && Room(server[k.cb[self].prc])
      modifies k`cb, k`queue, k`pcb, k`timer
      modifies tm`due, tm`alarm, tm.clk, tm.hs.evttim, tm.hs.index
      modifies tm.hs.heap[server[k.cb[self].prc]], tm.hs.heap[server[k.cb[self].prc]].node
      ensures Valid()
      ensures var x := old(k.cb[self]);
        && r == (if x.raster then Done(ERaster) else if x.wupque then Done(EOk)
                 else if Polls(tmo) then Done(ETmout) else Blocked)
        && k.cb == old(k.cb)[self := if r == Done(EOk) then x.(wupque := false)
                                     else if r == Blocked then InWait(x, Sleep, tmo == Within) else x]
        && k.queue == if r == Blocked then Leaves(old(k.queue), x, self) else old(k.queue)
      ensures HasEvent(self, r == Blocked && tmo == Within)
      ensures if r == Blocked && tmo == Within then
                tm.clk.now == old(tm.clk.now) + advance && tm.due == old(tm.due)[self := tm.clk.now + tm.tstep + time]
              else unchanged(tm.clk) && tm.due == old(tm.due)
      ensures SameMode(old(k.pcb), k.pcb)
    {
      hide Linked, Ordered, Settled, Lists, TimeManager.TimeManager.Armed, TimeManager.TimeManager.Timely,
        TimeManager.TimeManager.Sound, TimeEventHeaps.Heaps.Valid, TimeManager.TimedBy, Joins, WaitRule,
        TimedKernel.TiedTo, TimedKernel.HasEvent;
      NotRegistered(self);
      var p := server[k.cb[self].prc];
      ghost var cb := k.cb;
      r := TaskServices.SlpTsk(k, self, tmo);
      RegisterIf(r == Blocked && tmo == Within, cb, self, p, time, newHrtcnt, advance);
    }

    /** dly_tsk. */
    method DlyTsk(self: nat, time: nat, newHrtcnt: nat, ghost advance: nat) returns (r: Outcome)
      requires Valid() && IsRunning(k, self) && self < tm.hs.evttim.Length
      requires Sampled(newHrtcnt, advance) && time <= TMAX_RELTIM && Room(server[k.cb[self].prc])
      modifies k`cb, k`queue, k`pcb, k`timer
      modifies tm`due, tm`alarm, tm.clk, tm.hs.evttim, tm.hs.index
      modifies tm.hs.heap[server[k.cb[self].prc]], tm.hs.heap[server[k.cb[self].prc]].node
      ensures Valid()
      ensures r == if old(k.cb[self].raster) then Done(ERaster) else Blocked
      ensures k.cb == if r == Blocked then old(k.cb)[self := InWait(old(k.cb[self]), Delay, true)] else old(k.cb)
      ensures k.queue == if r == Blocked then Leaves(old(k.queue), old(k.cb[self]), self) else old(k.queue)
      ensures HasEvent(self, r == Blocked)
      ensures if r == Blocked then
                tm.clk.now == old(tm.clk.now) + advance && tm.due == old(tm.due)[self := tm.clk.now + tm.tstep + time]
              else unchanged(tm.clk) && tm.due == old(tm.due)
      ensures SameMode(old(k.pcb), k.pcb)
    {
      hide Linked, Ordered, Settled, Lists, TimeManager.TimeManager.Armed, TimeManager.TimeManager.Timely,
        TimeManager.TimeManager.Sound, TimeEventHeaps.Heaps.Valid, TimeManager.TimedBy, Joins, WaitRule,
        TimedKernel.TiedTo, TimedKernel.HasEvent;
      NotRegistered(self);
      var p := server[k.cb[self].prc];
      ghost var cb := k.cb;
      r := TaskServices.DlyTsk(k, self);
      RegisterIf(r == Blocked, cb, self, p, time, newHrtcnt, advance);
    }

    /** tloc_mtx (Within, or TmoPol for TMO_POL), loc_mtx (Forever) and ploc_mtx (Polling). */
    method TlocMtx(self: nat, m: int, tmo: Tmo, time: nat, newHrtcnt: nat, ghost advance: nat) returns (r: Outcome)
      requires Valid() && IsRunning(k, self) && self < tm.hs.evttim.Length && 0 <= m < |k.mtx|
      requires Sampled(newHrtcnt, advance) && time <= TMAX_RELTIM && Room(server[k.cb[self].prc])
      modifies k`cb, k`queue, k`pcb, k`mtx, k`held, k`timer
      modifies tm`due, tm`alarm, tm.clk, tm.hs.evttim, tm.hs.index
      modifies tm.hs.heap[server[k.cb[self].prc]], tm.hs.heap[server[k.cb[self].prc]].node
      ensures Valid()
      ensures var x, c := old(k.cb[self]), old(k.mtx[m]);
        r == if x.raster && tmo != Polling then Done(ERaster)
             else if c.ceiling && x.bpriority < c.ceilpri then Done(EIluse)
             else if c.loctsk == NULL then Done(EOk)
             else if c.loctsk == self then Done(EObj)
             else if Polls(tmo) then Done(ETmout)
             else Blocked
      ensures r == Done(EOk) ==>
                var x := old(k.cb[self]).(lastmtx := m);
                && k.cb == old(k.cb)[self := if old(k.mtx[m]).ceiling then Mutexes.Raised(x, old(k.mtx[m]).ceilpri)
                                             else x]
                && |k.mtx| == old(|k.mtx|) && k.mtx[m].loctsk == self && k.mtx == old(k.mtx)[m := k.mtx[m]]
                && Mutexes.Follows(k.cb, old(k.queue), k.queue, k.sub, k.tpri, old(k.cb[self]), self)
      ensures r == Blocked ==>
                && k.mtx == old(k.mtx) && k.cb == old(k.cb)[self := InWait(old(k.cb[self]), On(m), tmo == Within)]
                && Queued(k.cb, Q(old(k.queue), Object(m)), Q(k.queue, Object(m)), k.sub, k.tpri, Object(m), self)
                && Elsewhere(old(k.queue), k.queue, m)
      ensures r.Done? && r.ercd != EOk ==> k.cb == old(k.cb) && k.queue == old(k.queue) && k.mtx == old(k.mtx)
      ensures HasEvent(self, r == Blocked && tmo == Within)
      ensures if r == Blocked && tmo == Within then
                tm.clk.now == old(tm.clk.now) + advance && tm.due == old(tm.due)[self := tm.clk.now + tm.tstep + time]
              else unchanged(tm.clk) && tm.due == old(tm.due)
      ensures SameMode(old(k.pcb), k.pcb)
    {
      hide Linked, Ordered, Settled, Lists, TimeManager.TimeManager.Armed, TimeManager.TimeManager.Timely,
        TimeManager.TimeManager.Sound, TimeEventHeaps.Heaps.Valid, TimeManager.TimedBy, Joins, WaitRule,
        TimedKernel.TiedTo, TimedKernel.HasEvent, Mutexes.Follows, Mutexes.Raised, InWait, Timed, Queued, Elsewhere;
      TimedBlocks(k.cb[self], On(m), tmo == Within, EOk, m, k.mtx[m].ceilpri);
      NotRegistered(self);
      var p := server[k.cb[self].prc];
      ghost var cb := k.cb;
      r := MutexServices.LocMtx(k, self, m, tmo);
      RegisterIf(r == Blocked && tmo == Within, cb, self, p, time, newHrtcnt, advance);
    }

    /** The time event of a task whose wait has ended before its timeout leaves the heap. */
    method Cancel(ghost cb: seq<TCB>, t: nat, p: nat, newHrtcnt: nat, ghost advance: nat)
      requires tm.Sound() && tm.Armed({}) && TiedTo(cb, t)
      requires t < |cb| && !Timed(cb[t]) && p < |tm.hs.heap| && t in tm.hs.heap[p].events
      requires Sampled(newHrtcnt, advance)
      modifies tm`alarm, tm.clk, tm.hs.index, tm.hs.heap[p], tm.hs.heap[p].node
      ensures tm.Sound() && tm.Armed({}) && TiedTo(cb, NULL)
      ensures tm.hs.heap[p].events == old(tm.hs.heap[p].events) - {t}
      ensures tm.clk.hrt == old(tm.clk.hrt) || tm.clk.hrt == old(tm.clk.hrt) + advance
      ensures tm.clk.now == old(tm.clk.now) + (tm.clk.hrt - old(tm.clk.hrt))
    {
      hide TimeManager.TimeManager.Armed, TimeManager.TimeManager.Timely, TimeManager.TimeManager.Sound,
        TimeEventHeaps.Heaps.Valid, TimeManager.TimedBy;
      HeapsApart(p);
      OnlyThere(t, p);
      tm.Dequeue(t, p, newHrtcnt, advance);
    }

    lemma OnlyThere(t: nat, p: nat)
      requires tm.Sound() && p < |tm.hs.heap| && t in tm.hs.heap[p].events
      ensures tm.Configured()
      ensures forall q {:trigger tm.hs.heap[q]} :: 0 <= q < |tm.hs.heap| && q != p ==> t !in tm.hs.heap[q].events
    {
    }

    /** The second half of a call that may have ended the wait of task t. */
    method CancelIf(timed: bool, ghost cb: seq<TCB>, t: nat, p: nat, newHrtcnt: nat, ghost advance: nat)
      requires k.Inv() && tm.Sound() && tm.Armed({}) && Served() && TiedTo(cb, NULL)
      requires t < |cb| == |k.cb| && k.cb == cb[t := k.cb[t]] && k.cb[t].prc == cb[t].prc && p < |tm.hs.heap|
      requires Timed(cb[t]) == timed && (timed ==> t in tm.hs.heap[p].events) && (Timed(k.cb[t]) ==> timed)
      requires Sampled(newHrtcnt, advance)
      modifies tm`alarm, tm.clk, tm.hs.index, tm.hs.heap[p], tm.hs.heap[p].node
      ensures Valid() && HasEvent(t, Timed(k.cb[t]))
    {
      hide Linked, Ordered, Settled, Lists, TimeManager.TimeManager.Armed, TimeManager.TimeManager.Timely,
        TimeManager.TimeManager.Sound, TimeEventHeaps.Heaps.Valid, TimeManager.TimedBy, TimedKernel.TiedTo,
        TimedKernel.HasEvent, Timed;
      HeapsApart(p);
      OneRewritten(cb, k.cb, t);
      if timed && !Timed(k.cb[t]) {
        Cancel(k.cb, t, p, newHrtcnt, advance);
      }
      EventIfTimed(t);
    }

    /** rel_wai: the wait of a task ends before its timeout. */
    method RelWai(t: nat, newHrtcnt: nat, ghost advance: nat) returns (ercd: Ercd)
      requires Valid() && t < |k.cb| && Sampled(newHrtcnt, advance)
      modifies k`cb, k`queue, k`pcb, k`timer
      modifies tm`alarm, tm.clk, tm.hs.index
      modifies tm.hs.heap[server[k.cb[t].prc]], tm.hs.heap[server[k.cb[t].prc]].node
      ensures Valid()
      ensures var x := old(k.cb[t]);
        if x.tstat.wait == NoWait then ercd == EObj && k.cb == old(k.cb) && k.queue == old(k.queue)
        else
          && ercd == EOk && k.cb == old(k.cb)[t := OutOfWait(x, ERlwai)]
          && Wakes(k.cb, old(k.queue), k.queue, k.sub, k.tpri, x, t)
      ensures HasEvent(t, false)
      ensures SameMode(old(k.pcb), k.pcb)
    {
      hide Linked, Ordered, Settled, Lists, TimeManager.TimeManager.Armed, TimeManager.TimeManager.Timely,
        TimeManager.TimeManager.Sound, TimeEventHeaps.Heaps.Valid, TimeManager.TimedBy, Joins, WaitRule,
        TimedKernel.TiedTo, OutOfWait, Timed, Wakes;
      var timed, p := Timed(k.cb[t]), server[k.cb[t].prc];
      EventIfTimed(t);
      ghost var cb := k.cb;
      TimedBlocks(k.cb[t], Sleep, false, ERlwai, NULL, 0);
      ercd := TaskServices.RelWai(k, t);
      CancelIf(timed, cb, t, p, newHrtcnt, advance);
    }

    /** wup_tsk, which may end a sleep with a timeout. */
    method WupTsk(t: nat, newHrtcnt: nat, ghost advance: nat) returns (ercd: Ercd)
      requires Valid() && t < |k.cb| && Sampled(newHrtcnt, advance)
      modifies k`cb, k`queue, k`pcb, k`timer
      modifies tm`alarm, tm.clk, tm.hs.index
      modifies tm.hs.heap[server[k.cb[t].prc]], tm.hs.heap[server[k.cb[t].prc]].node
      ensures Valid()
      ensures var x := old(k.cb[t]);
        if x.tstat == DORMANT then ercd == EObj && k.cb == old(k.cb)
        else if x.tstat.wait == Sleep then
          && ercd == EOk && k.cb == old(k.cb)[t := OutOfWait(x, EOk)]
          && Wakes(k.cb, old(k.queue), k.queue, k.sub, k.tpri, x, t)
        else if !x.wupque then ercd == EOk && k.cb == old(k.cb)[t := x.(wupque := true)]
        else ercd == EQovr && k.cb == old(k.cb)
      ensures old(k.cb[t]).tstat.wait != Sleep ==> k.queue == old(k.queue)
      ensures HasEvent(t, Timed(k.cb[t])) && (old(k.cb[t]).tstat.wait == Sleep ==> HasEvent(t, false))
      ensures SameMode(old(k.pcb), k.pcb)
    {
      hide Linked, Ordered, Settled, Lists, TimeManager.TimeManager.Armed, TimeManager.TimeManager.Timely,
        TimeManager.TimeManager.Sound, TimeEventHeaps.Heaps.Valid, TimeManager.TimedBy, Joins, WaitRule,
        TimedKernel.TiedTo, OutOfWait, Timed, Wakes;
      var timed, p := Timed(k.cb[t]), server[k.cb[t].prc];
      EventIfTimed(t);
      ghost var cb := k.cb;
      TimedBlocks(k.cb[t], Sleep, false, EOk, NULL, 0);
      ercd := TaskServices.WupTsk(k, t);
      CancelIf(timed, cb, t, p, newHrtcnt, advance);
    }

    // ------ calls that may end several waits

    /** What the timer shows, and when, should the event of task t or a later one be
        cancelled: the readings do not go back, and no event becomes overdue by more than
        the margin. */
    ghost predicate SampledFrom(hrt: seq<nat>, at: seq<int>, t: int)
      requires tm.hs.Wired()
      reads tm, tm.clk, tm.hs.repr
    {
      && |hrt| == |at| && 0 <= t
      && (forall i {:trigger at[i]} :: t <= i < |at| ==>
            && tm.clk.hrt <= at[i] < tm.clk.hrt + tm.clk.cycle && hrt[i] == Clock.Reading(at[i], tm.clk.cycle)
            && tm.Timely(tm.clk.now + (at[i] - tm.clk.hrt)))
      && (forall i, j {:trigger at[i], at[j]} :: t <= i <= j < |at| ==> at[i] <= at[j])
    }

    /** The event of task t, whose control block has become y. */
    method CancelOne(ghost cb: seq<TCB>, t: nat, x: TCB, y: TCB, hrt: seq<nat>, ghost at: seq<int>)
      requires tm.Sound() && tm.Armed({}) && TiedTo(cb, NULL) && t < |cb| == |hrt| && cb[t] == x
      requires Timed(y) ==> Timed(x) && y.prc == x.prc
      requires Timed(x) ==> 0 <= x.prc < |server| && server[x.prc] < |tm.hs.heap|
      requires SampledFrom(hrt, at, t)
      modifies tm`alarm, tm.clk, tm.hs.repr
      ensures tm.Sound() && tm.Armed({}) && TiedTo(cb[t := y], NULL) && SampledFrom(hrt, at, t + 1)
    {
      hide Timed, TimeManager.TimeManager.Armed, TimeEventHeaps.Heaps.Valid, TimeManager.TimedBy,
        TimeManager.TimeManager.Sound, TimedKernel.TiedTo;
      SoundWired();
      OneRewritten(cb, cb[t := y], t);
      if Timed(x) && !Timed(y) {
        Registered(cb, t);
        HeapsApart(server[x.prc]);
        assert at[t] >= tm.clk.hrt;
        Cancel(cb[t := y], t, server[x.prc], hrt[t], at[t] - tm.clk.hrt);
      }
    }

    lemma SoundWired()
      requires tm.Sound()
      ensures tm.Configured()
    {
    }

    lemma Registered(cb: seq<TCB>, t: nat)
      requires tm.hs.Wired() && TiedTo(cb, NULL) && t < |cb| && Timed(cb[t])
      requires 0 <= cb[t].prc < |server| && server[cb[t].prc] < |tm.hs.heap|
      ensures t in tm.hs.heap[server[cb[t].prc]].events
    {
    }

    /** After a call on the kernel that has ended waits: their time events leave the heaps. */
    method CancelAll(cb: seq<TCB>, hrt: seq<nat>, ghost at: seq<int>)
      requires k.Inv() && tm.Sound() && tm.Armed({}) && Served() && TiedTo(cb, NULL) && OnlyEnds(cb, k.cb)
      requires InRange(cb, |k.pcb|) && |hrt| == |cb| && SampledFrom(hrt, at, 0)
      modifies tm`alarm, tm.clk, tm.hs.repr
      ensures Valid()
    {
      hide Linked, Ordered, Settled, Lists, Timers, Timed, TimeManager.TimeManager.Armed, TimeEventHeaps.Heaps.Valid,
        TimeManager.TimedBy, TimedKernel.TiedTo, TimedKernel.SampledFrom;
      SoundWired();
      ghost var mix := cb;
      var t := 0;
      while t < |cb|
        invariant 0 <= t <= |cb| && k.Inv() && tm.Sound() && tm.Armed({}) && Served() && tm.Configured()
        invariant |mix| == |cb| && TiedTo(mix, NULL) && SampledFrom(hrt, at, t)
        invariant forall u {:trigger mix[u]} :: 0 <= u < |cb| ==> mix[u] == if u < t then k.cb[u] else cb[u]
      {
        CancelOne(mix, t, cb[t], k.cb[t], hrt, at);
        mix := mix[t := k.cb[t]];
        t := t + 1;
      }
      assert mix == k.cb;
    }

    /** ter_tsk: the events of the task and of those that get a mutex from it are cancelled. */
    method TerTsk(self: int, t: nat, hrt: seq<nat>, ghost at: seq<int>) returns (ercd: Ercd)
      requires Valid() && k.IsTask(t) && k.IsTask(self) && t != self && |hrt| == |k.cb| && SampledFrom(hrt, at, 0)
      modifies k`cb, k`queue, k`pcb, k`mtx, k`held, k`timer
      modifies tm`alarm, tm.clk, tm.hs.repr
      ensures Valid()
      ensures ercd == if old(k.cb[t]).prc != old(k.cb[self]).prc || old(k.cb[t]).tstat == DORMANT then EObj else EOk
      ensures if ercd == EOk
              then TaskServices.Ended(old(k.cb), k.cb, old(k.mtx), k.mtx, old(k.queue), k.queue, old(k.held), t)
              else k.cb == old(k.cb) && k.queue == old(k.queue) && k.mtx == old(k.mtx)
      ensures SameMode(old(k.pcb), k.pcb)
    {
      hide Linked, Ordered, Settled, Lists, TimeManager.TimeManager.Armed, TimeManager.TimeManager.Timely,
        TimeManager.TimeManager.Sound, TimeEventHeaps.Heaps.Valid, TimeManager.TimedBy, Joins, WaitRule, InRange,
        TimedKernel.TiedTo, TimedKernel.SampledFrom, OnlyEnds, Timed, TaskServices.Ended;
      var cb := k.cb;
      ghost var mtx, queue, held := k.mtx, k.queue, k.held;
      NoneEnds(cb);
      ercd := TaskServices.TerTsk(k, self, t);
      if ercd == EOk {
        EndedEnds(cb, k.cb, mtx, k.mtx, queue, k.queue, held, t);
      }
      CancelAll(cb, hrt, at);
    }

    /** unl_mtx: that of the task that gets the mutex. */
    method UnlMtx(self: int, m: int, hrt: seq<nat>, ghost at: seq<int>) returns (ercd: Ercd)
      requires Valid() && IsRunning(k, self) && 0 <= m < |k.mtx| && |hrt| == |k.cb| && SampledFrom(hrt, at, 0)
      modifies k`cb, k`queue, k`pcb, k`mtx, k`held, k`timer
      modifies tm`alarm, tm.clk, tm.hs.repr
      ensures Valid()
      ensures ercd == if m == old(k.cb[self]).lastmtx then EOk else EObj
      ensures if ercd == EOk
              then Unlocking(old(k.cb), k.cb, old(k.mtx), k.mtx, old(k.queue), k.queue, old(k.held), k.held,
                             k.sub, k.tpri, self, m)
              else k.cb == old(k.cb) && k.queue == old(k.queue) && k.mtx == old(k.mtx)
      ensures SameMode(old(k.pcb), k.pcb)
    {
      hide Linked, Ordered, Settled, Lists, TimeManager.TimeManager.Armed, TimeManager.TimeManager.Timely,
        TimeManager.TimeManager.Sound, TimeEventHeaps.Heaps.Valid, TimeManager.TimedBy, Joins, WaitRule, InRange,
        TimedKernel.TiedTo, TimedKernel.SampledFrom, OnlyEnds, Timed, Unlocking;
      var cb := k.cb;
      ghost var mtx, queue, held := k.mtx, k.queue, k.held;
      NoneEnds(cb);
      ercd := MutexServices.UnlMtx(k, self, m);
      if ercd == EOk {
        UnlockingEnds(cb, k.cb, mtx, k.mtx, queue, k.queue, held, k.held, k.sub, k.tpri, self, m);
      }
      CancelAll(cb, hrt, at);
    }

    /** ini_mtx: those of all tasks waiting for the mutex. */
    method IniMtx(m: int, hrt: seq<nat>, ghost at: seq<int>)
      requires Valid() && 0 <= m < |k.mtx| && |hrt| == |k.cb| && SampledFrom(hrt, at, 0)
      modifies k`cb, k`queue, k`pcb, k`mtx, k`held, k`timer
      modifies tm`alarm, tm.clk, tm.hs.repr
      ensures Valid()
      ensures Emptied(old(k.cb), k.cb, old(k.mtx), k.mtx, old(k.queue), k.queue, old(k.held), k.held, k.sub, k.tpri, m)
      ensures SameMode(old(k.pcb), k.pcb)
    {
      hide Linked, Ordered, Settled, Lists, TimeManager.TimeManager.Armed, TimeManager.TimeManager.Timely,
        TimeManager.TimeManager.Sound, TimeEventHeaps.Heaps.Valid, TimeManager.TimedBy, Joins, WaitRule, InRange,
        TimedKernel.TiedTo, TimedKernel.SampledFrom, OnlyEnds, Timed, Emptied;
      var cb := k.cb;
      ghost var mtx, queue, held := k.mtx, k.queue, k.held;
      MutexServices.IniMtx(k, m);
      EmptiedEnds(cb, k.cb, mtx, k.mtx, queue, k.queue, held, k.held, k.sub, k.tpri, m);
      CancelAll(cb, hrt, at);
    }

    /** ras_ter: a task that may be terminated is; any other leaves its wait. */
    method RasTer(self: int, t: nat, hrt: seq<nat>, ghost at: seq<int>) returns (ercd: Ercd)
      requires Valid() && k.IsTask(t) && k.IsTask(self) && t != self && |hrt| == |k.cb| && SampledFrom(hrt, at, 0)
      modifies k`cb, k`queue, k`pcb, k`mtx, k`held, k`timer
      modifies tm`alarm, tm.clk, tm.hs.repr
      ensures Valid()
      ensures ercd == if old(k.cb[t]).prc != old(k.cb[self]).prc || old(k.cb[t]).tstat == DORMANT then EObj else EOk
      ensures if ercd == EObj then k.cb == old(k.cb) && k.queue == old(k.queue) && k.mtx == old(k.mtx)
              else if old(k.cb[t]).enater
              then TaskServices.Ended(old(k.cb), k.cb, old(k.mtx), k.mtx, old(k.queue), k.queue, old(k.held), t)
              else
                var x := old(k.cb[t]);
                && k.cb == old(k.cb)[t := x.(raster := true, tstat := RUNNABLE,
                                             winfo := if x.tstat.wait == NoWait then x.winfo else Wercd(ERaster))]
                && k.mtx == old(k.mtx)
                && if x.tstat.runnable then k.queue == old(k.queue)
                   else Wakes(k.cb, old(k.queue), k.queue, k.sub, k.tpri, x, t)
      ensures SameMode(old(k.pcb), k.pcb)
    {
      hide Linked, Ordered, Settled, Lists, TimeManager.TimeManager.Armed, TimeManager.TimeManager.Timely,
        TimeManager.TimeManager.Sound, TimeEventHeaps.Heaps.Valid, TimeManager.TimedBy, Joins, WaitRule, InRange,
        TimedKernel.TiedTo, TimedKernel.SampledFrom, OnlyEnds, Timed, TaskServices.Ended, Wakes;
      var cb := k.cb;
      ghost var mtx, queue, held := k.mtx, k.queue, k.held;
      NoneEnds(cb);
      ercd := TaskServices.RasTer(k, self, t);
      if ercd == EOk {
        if cb[t].enater {
          EndedEnds(cb, k.cb, mtx, k.mtx, queue, k.queue, held, t);
        } else {
          RousedEnds(cb, k.cb, t);
        }
      }
      CancelAll(cb, hrt, at);
    }

    /** ini_dtq: those of all tasks waiting to send and to receive. */
    method IniDtq(d: DataQueues.DataQueue, hrt: seq<nat>, ghost at: seq<int>)
      requires Valid() && d.k == k && d !in tm.hs.repr && d.dtqmb !in tm.hs.repr && d.Valid()
      requires |hrt| == |k.cb| && SampledFrom(hrt, at, 0)
      modifies k`cb, k`queue, k`pcb, k`timer, d`count, d`head, d`tail
      modifies tm`alarm, tm.clk, tm.hs.repr
      ensures Valid() && d.Valid() && d.Fifo() == []
      ensures AllDeleted(old(k.cb), k.cb, {On(d.w), Receiving(d.w)}) && Elsewhere(old(k.queue), k.queue, d.w)
      ensures SameMode(old(k.pcb), k.pcb)
    {
      hide Linked, Ordered, Settled, Lists, TimeManager.TimeManager.Armed, TimeManager.TimeManager.Timely,
        TimeManager.TimeManager.Sound, TimeEventHeaps.Heaps.Valid, TimeManager.TimedBy, Joins, WaitRule, InRange,
        TimedKernel.TiedTo, TimedKernel.SampledFrom, OnlyEnds, Timed, AllDeleted, Elsewhere;
      var cb := k.cb;
      d.IniDtq();
      DeletedEnds(cb, k.cb, {On(d.w), Receiving(d.w)});
      CancelAll(cb, hrt, at);
    }

    /** ini_pdq. */
    method IniPdq(d: PriDataQueues.PdqObject, hrt: seq<nat>, ghost at: seq<int>)
      requires Valid() && d.k == k && d !in tm.hs.repr && d.q !in tm.hs.repr && d.Valid()
      requires |hrt| == |k.cb| && SampledFrom(hrt, at, 0)
      modifies k`cb, k`queue, k`pcb, k`timer, d.q
      modifies tm`alarm, tm.clk, tm.hs.repr
      ensures Valid() && d.Valid() && d.q.Contents() == []
      ensures AllDeleted(old(k.cb), k.cb, {On(d.w), Receiving(d.w)}) && Elsewhere(old(k.queue), k.queue, d.w)
      ensures SameMode(old(k.pcb), k.pcb)
    {
      hide Linked, Ordered, Settled, Lists, TimeManager.TimeManager.Armed, TimeManager.TimeManager.Timely,
        TimeManager.TimeManager.Sound, TimeEventHeaps.Heaps.Valid, TimeManager.TimedBy, Joins, WaitRule, InRange,
        TimedKernel.TiedTo, TimedKernel.SampledFrom, OnlyEnds, Timed, AllDeleted, Elsewhere;
      var cb := k.cb;
      d.IniPdq();
      DeletedEnds(cb, k.cb, {On(d.w), Receiving(d.w)});
      CancelAll(cb, hrt, at);
    }

    /** ini_mpf. */
    method IniMpf(d: MemPfixes.MemPfix, hrt: seq<nat>, ghost at: seq<int>)
      requires Valid() && d.k == k && d !in tm.hs.repr && d.Valid()
      requires |hrt| == |k.cb| && SampledFrom(hrt, at, 0)
      modifies k`cb, k`queue, k`pcb, k`timer, d`fblkcnt, d`unused, d`freelist, d`free
      modifies tm`alarm, tm.clk, tm.hs.repr
      ensures Valid() && d.Valid() && (forall i :: !d.Allocated(i))
      ensures AllDeleted(old(k.cb), k.cb, {On(d.w)}) && Elsewhere(old(k.queue), k.queue, d.w)
      ensures SameMode(old(k.pcb), k.pcb)
    {
      hide Linked, Ordered, Settled, Lists, TimeManager.TimeManager.Armed, TimeManager.TimeManager.Timely,
        TimeManager.TimeManager.Sound, TimeEventHeaps.Heaps.Valid, TimeManager.TimedBy, Joins, WaitRule, InRange,
        TimedKernel.TiedTo, TimedKernel.SampledFrom, OnlyEnds, Timed, AllDeleted, Elsewhere;
      var cb := k.cb;
      d.IniMpf();
      DeletedEnds(cb, k.cb, {On(d.w)});
      CancelAll(cb, hrt, at);
    }

    /** A due time event is taken out of the heap and, if it is that of a task, its callback
        ends the wait: not before its time, and with E_TMOUT or, for a delay, E_OK. */
    method Fire(p: nat) returns (e: nat)
      requires Valid() && p < |tm.hs.heap| == |tm.inSignalTime| && tm.inSignalTime[p] && tm.hs.heap[p].lastIndex > 0
      requires exists x :: x in tm.hs.heap[p].events && x in tm.due && tm.due[x] <= tm.clk.now
      modifies k`cb, k`queue, k`pcb, k`timer
      modifies tm.hs.index, tm.hs.heap[p], tm.hs.heap[p].node
      ensures Valid() && e in tm.due && tm.due[e] <= tm.clk.now
      ensures e < |old(k.cb)| ==>
                var x := old(k.cb)[e];
                && Timed(x) && k.cb == old(k.cb)[e := OutOfWait(x, if x.tstat.wait == Delay then EOk else ETmout)]
                && Wakes(k.cb, old(k.queue), k.queue, k.sub, k.tpri, x, e) && HasEvent(e, false)
      ensures e >= |old(k.cb)| ==> k.cb == old(k.cb) && k.queue == old(k.queue)
      ensures SameMode(old(k.pcb), k.pcb)
    {
      hide Linked, Ordered, Settled, Lists, TimeManager.TimeManager.Armed, TimeManager.TimeManager.Timely,
        TimeManager.TimeManager.Sound, TimeEventHeaps.Heaps.Valid, TimeManager.TimedBy, Joins, WaitRule;
      HeapsApart(p);
      e := tm.FireRoot(p);
      if e < |k.cb| {
        WaitState.Expire(k, k.cb[e].prc, e);
        EventIfTimed(e);
      }
    }
  }

  /** initialize_tmevt and initialize_object: clock, heaps, timers and tables as the kernel
      starts with them, one time event block for each task and `others` more. */
  method Initialize(sub: set<int>, tpri: set<int>, nprc: nat, tasks: seq<TaskIni>, mutexes: seq<MtxIni>, others: nat,
      server: seq<nat>, cycle: nat, hrtcnt: nat, tstep: nat, bound: nat, master: nat) returns (d: TimedKernel)
    requires forall t {:trigger tasks[t]} :: 0 <= t < |tasks| ==>
               0 <= tasks[t].ipriority < TNUM_TPRI && 0 <= tasks[t].iprcid < nprc
    requires forall m {:trigger mutexes[m]} :: 0 <= m < |mutexes| ==> 0 <= mutexes[m].ceilpri < TNUM_TPRI
    requires |server| == nprc && forall p {:trigger server[p]} :: 0 <= p < nprc ==> server[p] < nprc
    requires hrtcnt < cycle <= TimeEventHeap.CYCLE && tstep <= TMAX_TSTEP && master < nprc
    requires bound < cycle && bound < 4_294_000_000
    ensures fresh(d) && fresh(d.k) && d.Valid() && |d.k.cb| == |tasks| && |d.k.mtx| == |mutexes|
    ensures d.k.queue == map[] && d.tm.clk.now == 0 && d.tm.hs.evttim.Length == |tasks| + others
  {
    hide Linked, Ordered, Settled, Lists, TimeManager.TimeManager.Armed, TimeEventHeaps.Heaps.Valid;
    var k := new Kernel(sub, tpri, nprc, tasks, mutexes);
    var clk := new Clock.Clock(cycle, hrtcnt);
    var hs := new TimeEventHeaps.Heaps(nprc, |tasks| + others);
    var tm := new TimeManager.TimeManager(clk, hs, tstep, bound, master);
    d := new TimedKernel(k, tm, server);
  }
}

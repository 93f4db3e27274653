/** All objects of a system that tasks wait at beside the mutexes.  Each stays sound, and
    keeps what it holds, whatever is called on tasks, on mutexes and on other objects. */
module Objects {

  import opened Options
  import opened TaskQueues
  import opened MutexProtocol
  import opened KernelTables
  import opened Scheduler
  import opened WaitState
  import opened Mutexes
  import opened MutexServices
  import opened Waiters
  import opened DataQueues
  import opened PriDataQueues
  import opened MemPfixes
  import TaskServices

  /** The task is queued where it was, or nowhere, or to run, or at one of n mutexes. */
  ghost predicate Withdrawn(x: TCB, y: TCB, n: int) {
    Home(y) == Home(x) || (!y.tstat.wait.Receiving? && (y.tstat.wait.On? ==> y.tstat.wait.w < n))
  }

  /** The control blocks that the locking of mutex m can give. */
  lemma LockWithdrawn(cb: seq<TCB>, m: int, newpri: int, timed: bool, t: int, n: int)
    requires 0 <= t < |cb| && m < n && cb[t].tstat.wait == NoWait
    ensures forall u {:trigger cb[u]} :: 0 <= u < |cb| ==> Withdrawn(cb[u], cb[u], n)
    ensures var x := cb[t];
      && Withdrawn(x, InWait(x, On(m), timed), n) && Withdrawn(x, x.(lastmtx := m), n)
      && Withdrawn(x, Raised(x.(lastmtx := m), newpri), n)
  {
  }

  lemma AllShrink(cb: seq<TCB>, cb': seq<TCB>, queue: map<Qid, seq<int>>, queue': map<Qid, seq<int>>, n: int)
    requires Linked(cb, queue, NULL, None) && Linked(cb', queue', NULL, None) && |cb'| == |cb|
    requires forall t {:trigger cb'[t]} :: 0 <= t < |cb| ==> Withdrawn(cb[t], cb'[t], n)
    ensures forall w :: n <= w ==> Fewer(queue, queue', w)
  {
    hide Linked, Fewer;
    forall w | n <= w
      ensures Fewer(queue, queue', w)
    {
      WaitersShrink(cb, cb', queue, queue', w);
    }
  }

  /** Task t has left the wait queue of any object but a mutex that it was in, and the others
      stay in their order. */
  ghost predicate Left(was: map<Qid, seq<int>>, now: map<Qid, seq<int>>, n: int, t: int) {
    forall q: Qid {:trigger Q(now, q)} :: q.Receive? || (q.Object? && n <= q.w) ==> Q(now, q) == Minus(Q(was, q), t)
  }

  lemma QuitsLeft(was: map<Qid, seq<int>>, now: map<Qid, seq<int>>, h: seq<int>, n: int, t: int)
    requires TaskServices.Quits(was, now, h, t) && forall m :: m in h ==> m < n
    ensures Left(was, now, n, t)
  {
  }

  lemma HeldAreMutexes(k: Kernel, t: int)
    requires k.Inv() && k.IsTask(t)
    ensures |k.held| == |k.cb| && forall m :: m in k.held[t] ==> m < |k.mtx|
  {
    hide Linked, Ordered, Settled, Timers, PriorityRule, WaitRule;
    assert Chain(k.mtx, k.cb[t].lastmtx, k.held[t]);
  }

  /** A task that was in no wait queue is in none. */
  lemma RunnableLeft(cb: seq<TCB>, queue: map<Qid, seq<int>>, n: int, t: int)
    requires Linked(cb, queue, NULL, None) && 0 <= t < |cb| && cb[t].tstat.runnable
    ensures Left(queue, queue, n, t)
  {
    AtHome(cb, queue, t);
    forall q: Qid | !q.Ready?
      ensures Q(queue, q) == Minus(Q(queue, q), t)
    {
      MinusAbsent(Q(queue, q), t);
    }
  }

  /** A task that was waiting has left its wait queue. */
  lemma WakesLeft(cb: seq<TCB>, was: map<Qid, seq<int>>, now: map<Qid, seq<int>>, sub: set<int>, tpri: set<int>,
      cb0: seq<TCB>, n: int, t: int)
    requires 0 <= t < |cb0| == |cb| && Wakes(cb, was, now, sub, tpri, cb0[t], t) && Linked(cb0, was, NULL, None)
    ensures Left(was, now, n, t)
  {
    JoinsReady(cb, Leaves(was, cb0[t], t), now, sub, tpri, t);
    AtHome(cb0, was, t);
    forall q: Qid | !q.Ready?
      ensures Q(now, q) == Minus(Q(was, q), t)
    {
      if Home(cb0[t]) != Some(q) {
        MinusAbsent(Q(was, q), t);
      }
    }
  }

  /** No two objects share a number or storage, and none has the number of one of the n
      mutexes. */
  ghost predicate Apart(k: Kernel, n: int, dtqs: set<DataQueue>, pdqs: set<PdqObject>, mpfs: set<MemPfix>) {
    && (forall d {:trigger d in dtqs} :: d in dtqs ==> d.k == k && n <= d.w)
    && (forall p {:trigger p in pdqs} :: p in pdqs ==> p.k == k && n <= p.w)
    && (forall m {:trigger m in mpfs} :: m in mpfs ==> m.k == k && n <= m.w)
    && (forall d, e {:trigger d in dtqs, e in dtqs} :: d in dtqs && e in dtqs && d != e ==>
          d.w != e.w && d.dtqmb != e.dtqmb)
    && (forall p, r {:trigger p in pdqs, r in pdqs} :: p in pdqs && r in pdqs && p != r ==> p.w != r.w && p.q != r.q)
    && (forall m, l {:trigger m in mpfs, l in mpfs} :: m in mpfs && l in mpfs && m != l ==> m.w != l.w)
    && (forall d, p {:trigger d in dtqs, p in pdqs} :: d in dtqs && p in pdqs ==> d.w != p.w)
    && (forall d, m {:trigger d in dtqs, m in mpfs} :: d in dtqs && m in mpfs ==> d.w != m.w)
    && (forall p, m {:trigger p in pdqs, m in mpfs} :: p in pdqs && m in mpfs ==> p.w != m.w)
  }

  class System {
    const k: Kernel
    const nmtx: int
    const dtqs: set<DataQueue>
    const pdqs: set<PdqObject>
    const mpfs: set<MemPfix>

    /** The tables as initialize_object leaves them. */
    constructor (k: Kernel, dtqs: set<DataQueue>, pdqs: set<PdqObject>, mpfs: set<MemPfix>)
      requires k.Inv() && Apart(k, |k.mtx|, dtqs, pdqs, mpfs)
      requires forall d {:trigger d in dtqs} :: d in dtqs ==> d.SoundAmong(k.queue)
      requires forall p {:trigger p in pdqs} :: p in pdqs ==> p.SoundAmong(k.queue)
      requires forall m {:trigger m in mpfs} :: m in mpfs ==> m.SoundAmong(k.queue)
      ensures Valid() && this.k == k && this.dtqs == dtqs && this.pdqs == pdqs && this.mpfs == mpfs
    {
      this.k, nmtx, this.dtqs, this.pdqs, this.mpfs := k, |k.mtx|, dtqs, pdqs, mpfs;
    }

    /** All objects are sound among these queues. */
    ghost predicate AllSound(queue: map<Qid, seq<int>>)
      reads dtqs, set d | d in dtqs :: d.dtqmb, pdqs, set p | p in pdqs :: p.q, mpfs
    {
      && (forall d {:trigger d in dtqs} :: d in dtqs ==> d.SoundAmong(queue))
      && (forall p {:trigger p in pdqs} :: p in pdqs ==> p.SoundAmong(queue))
      && (forall m {:trigger m in mpfs} :: m in mpfs ==> m.SoundAmong(queue))
    }

    ghost predicate Valid()
      reads this, k, dtqs, set d | d in dtqs :: d.dtqmb, pdqs, set p | p in pdqs :: p.q, mpfs
    {
      k.Inv() && |k.mtx| == nmtx && Apart(k, nmtx, dtqs, pdqs, mpfs) && AllSound(k.queue)
    }

    /** Where only tasks go that were there before, all objects stay sound. */
    lemma StaySound(was: map<Qid, seq<int>>, now: map<Qid, seq<int>>)
      requires Apart(k, nmtx, dtqs, pdqs, mpfs) && AllSound(was) && forall w :: nmtx <= w ==> Fewer(was, now, w)
      ensures AllSound(now)
    {
      forall d | d in dtqs
        ensures d.SoundAmong(now)
      {
        FewerRest(was, now, d.w, d.count, d.dtqcnt, d.sdata);
      }
      forall p | p in pdqs
        ensures p.SoundAmong(now)
      {
        FewerRest(was, now, p.w, p.q.count, p.q.pdqcnt, p.sdata);
      }
      forall m | m in mpfs
        ensures m.SoundAmong(now)
      {
        assert Fewer(was, now, m.w);
        NoneLeft(Q(now, Object(m.w)), Q(was, Object(m.w)));
      }
    }

    /** After a call that makes no task wait at an object. */
    lemma CallKeeps(cb: seq<TCB>, queue: map<Qid, seq<int>>)
      requires Apart(k, nmtx, dtqs, pdqs, mpfs) && AllSound(queue) && Linked(cb, queue, NULL, None) && k.Inv()
      requires |k.cb| == |cb|
      requires forall t {:trigger k.cb[t]} :: 0 <= t < |cb| ==> Withdrawn(cb[t], k.cb[t], nmtx)
      ensures AllSound(k.queue)
    {
      hide Linked, Ordered, Settled, Timers, Lists, Withdrawn, Fewer;
      AllShrink(cb, k.cb, queue, k.queue, nmtx);
      StaySound(queue, k.queue);
    }

    // ------ calls on tasks and mutexes

    /** ter_tsk: the wait queues of the objects lose that task and no other. */
    method TerTsk(self: int, t: int) returns (ercd: Ercd)
      requires Valid() && k.IsTask(t) && k.IsTask(self) && t != self
      modifies k`cb, k`queue, k`pcb, k`mtx, k`held, k`timer
      ensures Valid()
      ensures ercd == if old(k.cb[t]).prc != old(k.cb[self]).prc || old(k.cb[t]).tstat == DORMANT then EObj else EOk
      ensures if ercd == EOk
              then TaskServices.Ended(old(k.cb), k.cb, old(k.mtx), k.mtx, old(k.queue), k.queue, old(k.held), t)
              else k.cb == old(k.cb) && k.mtx == old(k.mtx)
      ensures if ercd == EOk then Left(old(k.queue), k.queue, nmtx, t) else k.queue == old(k.queue)
      ensures SameMode(old(k.pcb), k.pcb)
    {
      hide Linked, Ordered, Settled, Timers, Lists, Left, SameMode, Joins, Leaves, TaskServices.Quits, Apart;
      ghost var cb, queue, held := k.cb, k.queue, k.held;
      HeldAreMutexes(k, t);
      ercd := TaskServices.TerTsk(k, self, t);
      CallKeeps(cb, queue);
      if ercd == EOk {
        QuitsLeft(queue, k.queue, held[t], nmtx, t);
      }
    }

    /** ras_ter: so do they here, whether the task ends at once or wakes to end itself. */
    method RasTer(self: int, t: int) returns (ercd: Ercd)
      requires Valid() && k.IsTask(t) && k.IsTask(self) && t != self
      modifies k`cb, k`queue, k`pcb, k`mtx, k`held, k`timer
      ensures Valid()
      ensures ercd == if old(k.cb[t]).prc != old(k.cb[self]).prc || old(k.cb[t]).tstat == DORMANT then EObj else EOk
      ensures ercd == EObj ==> k.cb == old(k.cb) && k.mtx == old(k.mtx)
      ensures ercd == EOk && old(k.cb[t]).enater ==>
                TaskServices.Ended(old(k.cb), k.cb, old(k.mtx), k.mtx, old(k.queue), k.queue, old(k.held), t)
      ensures ercd == EOk && !old(k.cb[t]).enater ==>
                var x := old(k.cb[t]);
                && k.cb == old(k.cb)[t := x.(raster := true, tstat := RUNNABLE,
                                             winfo := if x.tstat.wait == NoWait then x.winfo else Wercd(ERaster))]
                && k.mtx == old(k.mtx) && k.held == old(k.held)
      ensures if ercd == EOk then Left(old(k.queue), k.queue, nmtx, t) else k.queue == old(k.queue)
      ensures SameMode(old(k.pcb), k.pcb)
    {
      hide Linked, Ordered, Settled, Timers, Lists, Left, SameMode, Joins, Leaves, TaskServices.Quits, Apart;
      ghost var cb, queue, held := k.cb, k.queue, k.held;
      HeldAreMutexes(k, t);
      ercd := TaskServices.RasTer(k, self, t);
      CallKeeps(cb, queue);
      if ercd == EOk {
        if cb[t].enater {
          QuitsLeft(queue, k.queue, held[t], nmtx, t);
        } else if cb[t].tstat.runnable {
          RunnableLeft(cb, queue, nmtx, t);
        } else {
          WakesLeft(k.cb, queue, k.queue, k.sub, k.tpri, cb, nmtx, t);
        }
      }
    }

    /** The timeout of a wait. */
    method Expire(p: int, t: int)
      requires Valid() && 0 <= p < |k.timer| && t in k.timer[p]
      modifies k`cb, k`queue, k`pcb, k`timer
      ensures Valid() && Left(old(k.queue), k.queue, nmtx, t)
      ensures 0 <= t < |old(k.cb)|
      ensures var x := old(k.cb[t]);
        && Timed(x) && k.cb == old(k.cb)[t := OutOfWait(x, if x.tstat.wait == Delay then EOk else ETmout)]
        && Wakes(k.cb, old(k.queue), k.queue, k.sub, k.tpri, x, t)
      ensures SameMode(old(k.pcb), k.pcb)
    {
      hide Linked, Ordered, Settled, Timers, Lists, Left, SameMode, Joins, Leaves, TaskServices.Quits, Apart;
      ghost var cb, queue := k.cb, k.queue;
      WaitState.Expire(k, p, t);
      CallKeeps(cb, queue);
      WakesLeft(k.cb, queue, k.queue, k.sub, k.tpri, cb, nmtx, t);
    }

    /** rel_wai. */
    method RelWai(t: int) returns (ercd: Ercd)
      requires Valid() && k.IsTask(t)
      modifies k`cb, k`queue, k`pcb, k`timer
      ensures Valid()
      ensures var x := old(k.cb[t]);
        if x.tstat.wait == NoWait then ercd == EObj && k.cb == old(k.cb)
        else
          && ercd == EOk && k.cb == old(k.cb)[t := OutOfWait(x, ERlwai)]
          && Wakes(k.cb, old(k.queue), k.queue, k.sub, k.tpri, x, t)
      ensures if ercd == EOk then Left(old(k.queue), k.queue, nmtx, t) else k.queue == old(k.queue)
      ensures SameMode(old(k.pcb), k.pcb)
    {
      hide Linked, Ordered, Settled, Timers, Lists, Left, SameMode, Joins, Leaves, TaskServices.Quits, Apart;
      ghost var cb, queue := k.cb, k.queue;
      ercd := TaskServices.RelWai(k, t);
      CallKeeps(cb, queue);
      if ercd == EOk {
        WakesLeft(k.cb, queue, k.queue, k.sub, k.tpri, cb, nmtx, t);
      }
    }

    /** chg_pri: a task may change its place among the senders. */
    method ChgPri(t: int, newbpri: int) returns (ercd: Ercd)
      requires Valid() && k.IsTask(t) && 0 <= newbpri < TNUM_TPRI
      modifies k`cb, k`queue, k`pcb
      ensures Valid()
      ensures |k.held| == |old(k.cb)|
      ensures var x := old(k.cb[t]);
        if x.tstat == DORMANT then ercd == EObj && k.cb == old(k.cb)
        else if CeilingsAbove(k.mtx, k.held[t], newbpri) && WaitRule(k.mtx, t, x.(bpriority := newbpri)) then
          && ercd == EOk
          && k.cb == old(k.cb)[t := x.(bpriority := newbpri, priority := if x.boosted then x.priority else newbpri)]
          && if x.boosted then k.queue == old(k.queue)
             else Repositioned(k.cb, old(k.queue), k.queue, k.sub, k.tpri, x, t, false)
        else ercd == EIluse && k.cb == old(k.cb)
      ensures ercd != EOk ==> k.queue == old(k.queue)
      ensures SameMode(old(k.pcb), k.pcb)
    {
      hide Linked, Ordered, Settled, Timers, Lists, SameMode, Joins, Follows, Repositioned, Apart;
      ghost var cb, queue := k.cb, k.queue;
      ercd := TaskServices.ChgPri(k, t, newbpri);
      CallKeeps(cb, queue);
    }

    /** loc_mtx, which makes a task wait, but not at one of these objects. */
    method LocMtx(self: int, m: int, tmo: Tmo) returns (r: Outcome)
      requires Valid() && IsRunning(k, self) && 0 <= m < nmtx
      modifies k`cb, k`queue, k`pcb, k`mtx, k`held, k`timer
      ensures Valid()
      ensures |k.mtx| == |old(k.mtx)| && |k.cb| == |old(k.cb)|
      ensures var x, c := old(k.cb[self]), old(k.mtx[m]);
        r == if x.raster && tmo != Polling then Done(ERaster)
             else if c.ceiling && x.bpriority < c.ceilpri then Done(EIluse)
             else if c.loctsk == NULL then Done(EOk)
             else if c.loctsk == self then Done(EObj)
             else if Polls(tmo) then Done(ETmout)
             else Blocked
      ensures r == Done(EOk) ==>
                var x := old(k.cb[self]).(lastmtx := m);
                && k.cb == old(k.cb)[self := if old(k.mtx[m]).ceiling then Raised(x, old(k.mtx[m]).ceilpri) else x]
                && k.mtx[m].loctsk == self && k.mtx == old(k.mtx)[m := k.mtx[m]]
      ensures r == Blocked ==>
                && k.mtx == old(k.mtx) && k.cb == old(k.cb)[self := InWait(old(k.cb[self]), On(m), tmo == Within)]
                && Queued(k.cb, Q(old(k.queue), Object(m)), Q(k.queue, Object(m)), k.sub, k.tpri, Object(m), self)
                && Elsewhere(old(k.queue), k.queue, m)
      ensures r.Done? && r.ercd != EOk ==> k.cb == old(k.cb) && k.queue == old(k.queue) && k.mtx == old(k.mtx)
      ensures SameMode(old(k.pcb), k.pcb)
    {
      hide Linked, Ordered, Settled, Timers, Lists, SameMode, Joins, Follows, Repositioned, Apart, Raised, InWait,
        Queued, Withdrawn;
      ghost var cb, queue := k.cb, k.queue;
      LockWithdrawn(cb, m, k.mtx[m].ceilpri, tmo == Within, self, nmtx);
      r := MutexServices.LocMtx(k, self, m, tmo);
      CallKeeps(cb, queue);
    }

    /** unl_mtx. */
    method UnlMtx(self: int, m: int) returns (ercd: Ercd)
      requires Valid() && IsRunning(k, self) && 0 <= m < nmtx
      modifies k`cb, k`queue, k`pcb, k`mtx, k`held, k`timer
      ensures Valid()
      ensures ercd == if m == old(k.cb[self]).lastmtx then EOk else EObj
      ensures if ercd == EOk
              then Unlocking(old(k.cb), k.cb, old(k.mtx), k.mtx, old(k.queue), k.queue, old(k.held), k.held,
                             k.sub, k.tpri, self, m)
              else k.cb == old(k.cb) && k.queue == old(k.queue) && k.mtx == old(k.mtx)
      ensures SameMode(old(k.pcb), k.pcb)
    {
      hide Linked, Ordered, Settled, Timers, Lists, SameMode, Joins, Follows, Repositioned, Apart;
      ghost var cb, queue := k.cb, k.queue;
      ercd := MutexServices.UnlMtx(k, self, m);
      CallKeeps(cb, queue);
    }

    /** ini_mtx. */
    method IniMtx(m: int)
      requires Valid() && 0 <= m < nmtx
      modifies k`cb, k`queue, k`pcb, k`mtx, k`held, k`timer
      ensures Valid()
      ensures Emptied(old(k.cb), k.cb, old(k.mtx), k.mtx, old(k.queue), k.queue, old(k.held), k.held, k.sub, k.tpri, m)
      ensures SameMode(old(k.pcb), k.pcb)
    {
      hide Linked, Ordered, Settled, Timers, Lists, SameMode, Joins, Follows, Repositioned, Apart;
      ghost var cb, queue := k.cb, k.queue;
      MutexServices.IniMtx(k, m);
      CallKeeps(cb, queue);
    }

    // ------ calls on one object

    /** All objects but that of number w are sound. */
    ghost predicate OthersSound(queue: map<Qid, seq<int>>, w: int)
      reads dtqs, set d | d in dtqs :: d.dtqmb, pdqs, set p | p in pdqs :: p.q, mpfs
    {
      && (forall d {:trigger d in dtqs} :: d in dtqs && d.w != w ==> d.SoundAmong(queue))
      && (forall p {:trigger p in pdqs} :: p in pdqs && p.w != w ==> p.SoundAmong(queue))
      && (forall m {:trigger m in mpfs} :: m in mpfs && m.w != w ==> m.SoundAmong(queue))
    }

    /** After a call that changes no wait queues but those of object w. */
    lemma ElsewhereSound(was: map<Qid, seq<int>>, now: map<Qid, seq<int>>, w: int)
      requires OthersSound(was, w) && Elsewhere(was, now, w)
      ensures OthersSound(now, w)
    {
      forall d | d in dtqs && d.w != w
        ensures d.SoundAmong(now)
      {
        ElsewhereSame(was, now, w, d.w);
      }
      forall p | p in pdqs && p.w != w
        ensures p.SoundAmong(now)
      {
        ElsewhereSame(was, now, w, p.w);
      }
      forall m | m in mpfs && m.w != w
        ensures m.SoundAmong(now)
      {
        ElsewhereSame(was, now, w, m.w);
      }
    }

    /** The object called is sound, and so are all others. */
    lemma AllTogether(w: int)
      requires OthersSound(k.queue, w)
      requires forall d {:trigger d in dtqs} :: d in dtqs && d.w == w ==> d.SoundAmong(k.queue)
      requires forall p {:trigger p in pdqs} :: p in pdqs && p.w == w ==> p.SoundAmong(k.queue)
      requires forall m {:trigger m in mpfs} :: m in mpfs && m.w == w ==> m.SoundAmong(k.queue)
      ensures AllSound(k.queue)
    {
      hide DataQueue.SoundAmong, PdqObject.SoundAmong, MemPfix.SoundAmong;
    }

    /** Then another data queue holds what it held. */
    lemma ElsewhereFifo(d: DataQueue, was: map<Qid, seq<int>>, w: int)
      requires d in dtqs && d.w != w && d.SoundAmong(was) && Elsewhere(was, k.queue, w) && d.k == k
      ensures d.Valid() && d.Fifo() == d.FifoAmong(was)
    {
      ElsewhereSame(was, k.queue, w, d.w);
    }

    /** snd_dtq, tsnd_dtq and psnd_dtq: no other data queue gains or loses anything. */
    method SndDtq(d: DataQueue, self: int, data: int, tmo: Tmo) returns (r: Outcome)
      requires Valid() && d in dtqs && (tmo != Polling ==> IsRunning(k, self))
      modifies k`cb, k`queue, k`pcb, k`timer, d`count, d`tail, d`rdata, d`sdata, d.dtqmb
      ensures Valid() && Elsewhere(old(k.queue), k.queue, d.w)
      ensures |k.cb| == |old(k.cb)|
      ensures var full := old(d.Receivers()) == [] && old(d.count) == d.dtqcnt;
        r == if tmo != Polling && old(k.cb[self]).raster then Done(ERaster)
             else if !full then Done(EOk) else if Polls(tmo) then Done(ETmout) else Blocked
      ensures r == Done(EOk) ==> d.Fifo() == if old(d.Receivers()) == [] then old(d.Fifo()) + [data] else old(d.Fifo())
      ensures r == Done(EOk) && old(d.Receivers()) != [] ==>
              d.rdata == old(d.rdata)[old(d.Receivers())[0] := data] && d.Receivers() == old(d.Receivers())[1..]
      ensures r.Done? && r.ercd != EOk ==> d.Fifo() == old(d.Fifo()) && k.cb == old(k.cb)
      ensures r == Blocked ==>
                && d.Buffer() == old(d.Buffer()) && d.sdata == old(d.sdata)[self := data]
                && forall t {:trigger t in d.Senders()} :: t in d.Senders() <==> t in old(d.Senders()) || t == self
      ensures r == Done(EOk) ==> if old(d.Receivers()) != [] then Released(old(k.cb), k.cb, old(d.Receivers())[0])
              else k.cb == old(k.cb)
      ensures r == Blocked ==> Waiting(old(k.cb), k.cb, self, On(d.w), tmo)
      ensures r != Blocked ==> d.sdata == old(d.sdata)
      ensures r != Done(EOk) || old(d.Receivers()) == [] ==> d.rdata == old(d.rdata)
      ensures r == Blocked ==> Queued(k.cb, old(d.Senders()), d.Senders(), k.sub, k.tpri, Object(d.w), self)
      ensures r == Blocked && d.w !in k.tpri ==>
                d.Fifo() == old(d.Fifo()) + [data] && d.Senders() == old(d.Senders()) + [self]
      ensures forall e {:trigger e in dtqs} :: e in dtqs && e != d ==> e.Fifo() == old(e.Fifo())
      ensures SameMode(old(k.pcb), k.pcb)
    {
      hide Linked, Ordered, Settled, Timers, Lists, SameMode, DataQueue.SoundAmong, PdqObject.SoundAmong,
        MemPfix.SoundAmong, Elsewhere, DataQueue.FifoAmong;
      ghost var queue := k.queue;
      r := d.SndDtq(self, data, tmo);
      assert OthersSound(queue, d.w);
      ElsewhereSound(queue, k.queue, d.w);
      AllTogether(d.w);
      forall e | e in dtqs && e != d
        ensures e.Valid() && e.Fifo() == e.FifoAmong(queue)
      {
        ElsewhereFifo(e, queue, d.w);
      }
    }

    /** fsnd_dtq. */
    method FsndDtq(d: DataQueue, data: int) returns (ercd: Ercd)
      requires Valid() && d in dtqs
      modifies k`cb, k`queue, k`pcb, k`timer, d`count, d`head, d`tail, d`rdata, d.dtqmb
      ensures Valid() && Elsewhere(old(k.queue), k.queue, d.w)
      ensures ercd == if d.dtqcnt == 0 then EIluse else EOk
      ensures ercd == EIluse ==> d.Fifo() == old(d.Fifo()) && k.cb == old(k.cb) && d.rdata == old(d.rdata)
      ensures ercd == EOk && old(d.Receivers()) != [] ==>
                && d.rdata == old(d.rdata)[old(d.Receivers())[0] := data] && d.Receivers() == old(d.Receivers())[1..]
                && d.Fifo() == old(d.Fifo()) && Released(old(k.cb), k.cb, old(d.Receivers())[0])
      ensures ercd == EOk && old(d.Receivers()) == [] ==>
                && d.Senders() == old(d.Senders()) && k.cb == old(k.cb) && d.rdata == old(d.rdata)
                && |old(d.Buffer())| == old(d.count)
                && d.Buffer() == if old(d.count) < d.dtqcnt then old(d.Buffer()) + [data]
                                 else old(d.Buffer())[1..] + [data]
      ensures forall e {:trigger e in dtqs} :: e in dtqs && e != d ==> e.Fifo() == old(e.Fifo())
      ensures SameMode(old(k.pcb), k.pcb)
    {
      hide Linked, Ordered, Settled, Timers, Lists, SameMode, DataQueue.SoundAmong, PdqObject.SoundAmong,
        MemPfix.SoundAmong, Elsewhere, DataQueue.FifoAmong;
      ghost var queue := k.queue;
      ercd := d.FsndDtq(data);
      assert OthersSound(queue, d.w);
      ElsewhereSound(queue, k.queue, d.w);
      AllTogether(d.w);
      forall e | e in dtqs && e != d
        ensures e.Valid() && e.Fifo() == e.FifoAmong(queue)
      {
        ElsewhereFifo(e, queue, d.w);
      }
    }

    /** rcv_dtq, trcv_dtq and prcv_dtq. */
    method RcvDtq(d: DataQueue, self: int, tmo: Tmo) returns (r: Outcome, data: int)
      requires Valid() && d in dtqs && IsRunning(k, self)
      modifies k`cb, k`queue, k`pcb, k`timer, d`count, d`head, d`tail, d.dtqmb
      ensures Valid() && Elsewhere(old(k.queue), k.queue, d.w)
      ensures r == if old(k.cb[self]).raster && tmo != Polling then Done(ERaster)
                   else if old(d.Fifo()) != [] then Done(EOk) else if Polls(tmo) then Done(ETmout) else Blocked
      ensures r == Done(EOk) ==> old(d.Fifo()) == [data] + d.Fifo()
      ensures r == Done(EOk) && old(d.Senders()) != [] ==>
              d.Senders() == old(d.Senders())[1..] && Released(old(k.cb), k.cb, old(d.Senders())[0])
      ensures r == Done(EOk) && old(d.Senders()) == [] ==> d.Senders() == [] && k.cb == old(k.cb)
      ensures r == Blocked ==> Waiting(old(k.cb), k.cb, self, Receiving(d.w), tmo)
      ensures r == Blocked ==> d.Fifo() == old(d.Fifo()) == [] && d.Receivers() == old(d.Receivers()) + [self]
      ensures r.Done? && r.ercd != EOk ==> d.Fifo() == old(d.Fifo()) && k.cb == old(k.cb)
      ensures forall e {:trigger e in dtqs} :: e in dtqs && e != d ==> e.Fifo() == old(e.Fifo())
      ensures SameMode(old(k.pcb), k.pcb)
    {
      hide Linked, Ordered, Settled, Timers, Lists, SameMode, DataQueue.SoundAmong, PdqObject.SoundAmong,
        MemPfix.SoundAmong, Elsewhere, DataQueue.FifoAmong;
      ghost var queue := k.queue;
      r, data := d.RcvDtq(self, tmo);
      assert OthersSound(queue, d.w);
      ElsewhereSound(queue, k.queue, d.w);
      AllTogether(d.w);
      forall e | e in dtqs && e != d
        ensures e.Valid() && e.Fifo() == e.FifoAmong(queue)
      {
        ElsewhereFifo(e, queue, d.w);
      }
    }

    /** ini_dtq. */
    method IniDtq(d: DataQueue)
      requires Valid() && d in dtqs
      modifies k`cb, k`queue, k`pcb, k`timer, d`count, d`head, d`tail
      ensures Valid() && Elsewhere(old(k.queue), k.queue, d.w)
      ensures d.Fifo() == [] && d.Senders() == [] && d.Receivers() == []
      ensures AllDeleted(old(k.cb), k.cb, {On(d.w), Receiving(d.w)})
      ensures forall e {:trigger e in dtqs} :: e in dtqs && e != d ==> e.Fifo() == old(e.Fifo())
      ensures SameMode(old(k.pcb), k.pcb)
    {
      hide Linked, Ordered, Settled, Timers, Lists, SameMode, DataQueue.SoundAmong, PdqObject.SoundAmong,
        MemPfix.SoundAmong, Elsewhere, DataQueue.FifoAmong;
      ghost var queue := k.queue;
      d.IniDtq();
      assert OthersSound(queue, d.w);
      ElsewhereSound(queue, k.queue, d.w);
      AllTogether(d.w);
      forall e | e in dtqs && e != d
        ensures e.Valid() && e.Fifo() == e.FifoAmong(queue)
      {
        ElsewhereFifo(e, queue, d.w);
      }
    }

    /** snd_pdq, tsnd_pdq and psnd_pdq. */
    method SndPdq(p: PdqObject, self: int, x: int, datapri: int, tmo: Tmo) returns (r: Outcome)
      requires Valid() && p in pdqs && (tmo != Polling ==> IsRunning(k, self))
      modifies k`cb, k`queue, k`pcb, k`timer, p`rdata, p`sdata, p.q
      ensures Valid() && Elsewhere(old(k.queue), k.queue, p.w)
      ensures |k.cb| == |old(k.cb)|
      ensures var full := old(p.Receivers()) == [] && old(p.q.count) == p.q.pdqcnt;
        r == if datapri > p.maxdpri then Done(EPar)
             else if tmo != Polling && old(k.cb[self]).raster then Done(ERaster)
             else if !full then Done(EOk) else if Polls(tmo) then Done(ETmout) else Blocked
      ensures r == Done(EOk) && old(p.Receivers()) != [] ==>
                && p.Receivers() == old(p.Receivers())[1..]
                && p.rdata == old(p.rdata)[old(p.Receivers())[0] := Item(x, datapri)]
                && p.q.Contents() == old(p.q.Contents()) == [] && Released(old(k.cb), k.cb, old(p.Receivers())[0])
      ensures r == Done(EOk) && old(p.Receivers()) == [] ==>
                && k.cb == old(k.cb) && k.queue == old(k.queue)
                && p.q.Contents() == InsertStable(old(p.q.Contents()), Item(x, datapri))
      ensures r != Done(EOk) ==> p.q.Contents() == old(p.q.Contents())
      ensures r.Done? && r.ercd != EOk ==> k.cb == old(k.cb) && k.queue == old(k.queue)
      ensures r == Blocked ==>
                && p.sdata == old(p.sdata)[self := Item(x, datapri)] && Waiting(old(k.cb), k.cb, self, On(p.w), tmo)
                && forall t {:trigger t in p.Senders()} :: t in p.Senders() <==> t in old(p.Senders()) || t == self
      ensures r != Blocked ==> p.sdata == old(p.sdata)
      ensures r != Done(EOk) || old(p.Receivers()) == [] ==> p.rdata == old(p.rdata)
      ensures r == Blocked ==> Queued(k.cb, old(p.Senders()), p.Senders(), k.sub, k.tpri, Object(p.w), self)
      ensures r == Blocked && p.w !in k.tpri ==> p.Senders() == old(p.Senders()) + [self]
      ensures forall o {:trigger o in pdqs} :: o in pdqs && o != p ==> o.q.Contents() == old(o.q.Contents())
      ensures SameMode(old(k.pcb), k.pcb)
    {
      hide Linked, Ordered, Settled, Timers, Lists, SameMode, DataQueue.SoundAmong, PdqObject.SoundAmong,
        MemPfix.SoundAmong, Elsewhere, InsertStable, PriDataQueue.Contents;
      ghost var queue := k.queue;
      r := p.SndPdq(self, x, datapri, tmo);
      assert OthersSound(queue, p.w);
      ElsewhereSound(queue, k.queue, p.w);
      AllTogether(p.w);
    }

    /** rcv_pdq, trcv_pdq and prcv_pdq. */
    method RcvPdq(p: PdqObject, self: int, tmo: Tmo) returns (r: Outcome, x: Item)
      requires Valid() && p in pdqs && IsRunning(k, self)
      modifies k`cb, k`queue, k`pcb, k`timer, p.q
      ensures Valid() && Elsewhere(old(k.queue), k.queue, p.w)
      ensures r == if old(k.cb[self]).raster && tmo != Polling then Done(ERaster)
                   else if old(p.q.Contents()) != [] || old(p.Senders()) != [] then Done(EOk)
                   else if Polls(tmo) then Done(ETmout) else Blocked
      ensures r == Done(EOk) && old(p.Senders()) != [] ==>
                && p.Senders() == old(p.Senders())[1..] && old(p.Senders())[0] in p.sdata
                && Released(old(k.cb), k.cb, old(p.Senders())[0])
      ensures r == Done(EOk) && old(p.Senders()) == [] ==> p.Senders() == [] && k.cb == old(k.cb)
      ensures r == Done(EOk) && old(p.q.Contents()) != [] ==>
                && x == old(p.q.Contents())[0]
                && p.q.Contents() == if old(p.Senders()) == [] then old(p.q.Contents())[1..]
                   else InsertStable(old(p.q.Contents())[1..], ItemOf(p.sdata, First(old(p.Senders()))))
      ensures r == Done(EOk) && old(p.q.Contents()) == [] ==>
                p.q.Contents() == [] && x == ItemOf(p.sdata, First(old(p.Senders())))
      ensures r != Done(EOk) ==> p.q.Contents() == old(p.q.Contents()) && p.Senders() == old(p.Senders())
      ensures r.Done? && r.ercd != EOk ==> k.cb == old(k.cb) && k.queue == old(k.queue)
      ensures r == Blocked ==>
                Waiting(old(k.cb), k.cb, self, Receiving(p.w), tmo) && p.Receivers() == old(p.Receivers()) + [self]
      ensures forall o {:trigger o in pdqs} :: o in pdqs && o != p ==> o.q.Contents() == old(o.q.Contents())
      ensures SameMode(old(k.pcb), k.pcb)
    {
      hide Linked, Ordered, Settled, Timers, Lists, SameMode, DataQueue.SoundAmong, PdqObject.SoundAmong,
        MemPfix.SoundAmong, Elsewhere, InsertStable, PriDataQueue.Contents;
      ghost var queue := k.queue;
      r, x := p.RcvPdq(self, tmo);
      assert OthersSound(queue, p.w);
      ElsewhereSound(queue, k.queue, p.w);
      AllTogether(p.w);
    }

    /** ini_pdq. */
    method IniPdq(p: PdqObject)
      requires Valid() && p in pdqs
      modifies k`cb, k`queue, k`pcb, k`timer, p.q
      ensures Valid() && Elsewhere(old(k.queue), k.queue, p.w)
      ensures p.q.Contents() == [] && p.Senders() == [] && p.Receivers() == []
      ensures AllDeleted(old(k.cb), k.cb, {On(p.w), Receiving(p.w)})
      ensures forall o {:trigger o in pdqs} :: o in pdqs && o != p ==> o.q.Contents() == old(o.q.Contents())
      ensures SameMode(old(k.pcb), k.pcb)
    {
      hide Linked, Ordered, Settled, Timers, Lists, SameMode, DataQueue.SoundAmong, PdqObject.SoundAmong,
        MemPfix.SoundAmong, Elsewhere, InsertStable, PriDataQueue.Contents;
      ghost var queue := k.queue;
      p.IniPdq();
      assert OthersSound(queue, p.w);
      ElsewhereSound(queue, k.queue, p.w);
      AllTogether(p.w);
    }

    /** get_mpf, tget_mpf and pget_mpf. */
    method GetMpf(m: MemPfix, self: int, tmo: Tmo) returns (r: Outcome, blk: int, ghost i: int)
      requires Valid() && m in mpfs && IsRunning(k, self)
      modifies k`cb, k`queue, k`pcb, k`timer, m`mpfmb, m`fblkcnt, m`unused, m`freelist, m`free
      ensures Valid() && Elsewhere(old(k.queue), k.queue, m.w)
      ensures r == if old(k.cb[self]).raster && tmo != Polling then Done(ERaster)
                   else if old(m.fblkcnt) > 0 then Done(EOk) else if Polls(tmo) then Done(ETmout) else Blocked
      ensures r == Done(EOk) ==>
                && 0 <= i < m.blkcnt && blk == m.Address(i) && !old(m.Allocated(i))
                && forall j {:trigger m.Allocated(j)} :: m.Allocated(j) <==> old(m.Allocated(j)) || j == i
      ensures r != Done(EOk) ==>
                && m.fblkcnt == old(m.fblkcnt)
                && forall j {:trigger m.Allocated(j)} :: m.Allocated(j) <==> old(m.Allocated(j))
      ensures r != Blocked ==> k.cb == old(k.cb) && k.queue == old(k.queue)
      ensures r == Blocked ==> Waiting(old(k.cb), k.cb, self, On(m.w), tmo)
      ensures r == Blocked ==> Queued(k.cb, old(m.Waiters()), m.Waiters(), k.sub, k.tpri, Object(m.w), self)
      ensures r == Blocked ==> (m.w !in k.tpri ==> m.Waiters() == old(m.Waiters()) + [self]) && forall t ::
              t in m.Waiters() <==> t in old(m.Waiters()) || t == self
      ensures SameMode(old(k.pcb), k.pcb)
    {
      hide Linked, Ordered, Settled, Timers, Lists, SameMode, DataQueue.SoundAmong, PdqObject.SoundAmong,
        MemPfix.SoundAmong, Elsewhere, Sound;
      ghost var queue := k.queue;
      r, blk, i := m.GetMpf(self, tmo);
      assert OthersSound(queue, m.w);
      ElsewhereSound(queue, k.queue, m.w);
      AllTogether(m.w);
    }

    /** rel_mpf. */
    method RelMpf(m: MemPfix, blk: int) returns (ok: bool)
      requires Valid() && m in mpfs && 0 <= blk < m.range
      modifies k`cb, k`queue, k`pcb, k`timer, m`mpfmb, m`fblkcnt, m`freelist, m`free, m`granted
      ensures Valid() && Elsewhere(old(k.queue), k.queue, m.w)
      ensures ok <==> exists i :: old(m.Allocated(i)) && blk == m.Address(i)
      ensures !ok ==> k.cb == old(k.cb) && m.mpfmb == old(m.mpfmb) && m.fblkcnt == old(m.fblkcnt)
      ensures ok && old(m.Waiters()) != [] ==>
                var t := old(m.Waiters())[0];
                && m.Waiters() == old(m.Waiters())[1..] && m.granted == old(m.granted)[t := blk]
                && m.mpfmb == old(m.mpfmb) && m.fblkcnt == old(m.fblkcnt)
                && Released(old(k.cb), k.cb, t)
      ensures !ok || old(m.Waiters()) == [] ==> m.granted == old(m.granted)
      ensures ok && old(m.Waiters()) == [] ==>
                && m.fblkcnt == old(m.fblkcnt) + 1 && k.cb == old(k.cb)
                && forall j {:trigger m.Allocated(j)} :: m.Allocated(j) <==> old(m.Allocated(j)) && m.Address(j) != blk
      ensures SameMode(old(k.pcb), k.pcb)
    {
      hide Linked, Ordered, Settled, Timers, Lists, SameMode, DataQueue.SoundAmong, PdqObject.SoundAmong,
        MemPfix.SoundAmong, Elsewhere, Sound;
      ghost var queue := k.queue;
      ok := m.RelMpf(blk);
      assert OthersSound(queue, m.w);
      ElsewhereSound(queue, k.queue, m.w);
      AllTogether(m.w);
    }

    /** ini_mpf. */
    method IniMpf(m: MemPfix)
      requires Valid() && m in mpfs
      modifies k`cb, k`queue, k`pcb, k`timer, m`fblkcnt, m`unused, m`freelist, m`free
      ensures Valid() && Elsewhere(old(k.queue), k.queue, m.w)
      ensures m.fblkcnt == m.blkcnt && m.Waiters() == [] && forall i :: !m.Allocated(i)
      ensures AllDeleted(old(k.cb), k.cb, {On(m.w)})
      ensures SameMode(old(k.pcb), k.pcb)
    {
      hide Linked, Ordered, Settled, Timers, Lists, SameMode, DataQueue.SoundAmong, PdqObject.SoundAmong,
        MemPfix.SoundAmong, Elsewhere, Sound;
      ghost var queue := k.queue;
      m.IniMpf();
      assert OthersSound(queue, m.w);
      ElsewhereSound(queue, k.queue, m.w);
      AllTogether(m.w);
    }
  }
}

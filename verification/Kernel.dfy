/** The tables of the kernel that the giant lock protects: task, processor and mutex
    control blocks, the queues, and the time events of waiting tasks.

    A service call is one section under the giant lock.  Processors, tasks and mutexes
    are numbers; mutex m owns the wait queue of object m.
  */
module KernelTables {

  import opened Bitmap
  import opened Options
  import opened TaskQueues
  import opened MutexProtocol

  /** Fields within their ranges; a runnable task neither waits nor is suspended. */
  ghost predicate FieldsOk(x: TCB, nprc: int) {
    && 0 <= x.prc < nprc && (x.actprc == NULL || 0 <= x.actprc < nprc) && 0 <= x.subpri
    && 0 <= x.priority < TNUM_TPRI && 0 <= x.bpriority < TNUM_TPRI && 0 <= x.ipriority < TNUM_TPRI
    && (x.tstat.runnable ==> !x.tstat.suspended && x.tstat.wait == NoWait)
  }

  ghost predicate InRange(cb: seq<TCB>, nprc: int) {
    forall t {:trigger cb[t]} :: 0 <= t < |cb| ==> FieldsOk(cb[t], nprc)
  }

  /** The task waits with a timeout. */
  predicate Timed(x: TCB) {
    x.tstat.wait != NoWait && x.winfo == Tmevtb(true)
  }

  /** The heap of a processor holds the time events of its tasks that wait with a
      timeout, and no others; winfo is a time event block exactly during a wait.  The
      event of task t0 may be in the heap (`on`) or not regardless. */
  ghost predicate Timers(cb: seq<TCB>, timer: seq<set<int>>, t0: int, on: bool) {
    && (forall p, t {:trigger t in timer[p]} :: 0 <= p < |timer| ==>
          (t in timer[p] <==> 0 <= t < |cb| && cb[t].prc == p && if t == t0 then on else Timed(cb[t])))
    && (forall t {:trigger cb[t]} :: 0 <= t < |cb| && t != t0 && cb[t].tstat.wait != NoWait ==> cb[t].winfo.Tmevtb?)
  }

  lemma TimersRewritten(cb: seq<TCB>, timer: seq<set<int>>, t0: int, on: bool, t: int, x: TCB)
    requires Timers(cb, timer, t0, on) && 0 <= t < |cb| && x.prc == cb[t].prc
    requires t == t0 || Timed(x) == Timed(cb[t])
    requires t == t0 || x.tstat.wait == NoWait || x.winfo.Tmevtb?
    ensures Timers(cb[t := x], timer, t0, on)
    ensures t0 == t && on == Timed(x) && (x.tstat.wait == NoWait || x.winfo.Tmevtb?) ==>
            Timers(cb[t := x], timer, NULL, false)
  {
  }

  lemma TimersSame(cb: seq<TCB>, timer: seq<set<int>>, t0: int, on: bool, t: int, x: TCB)
    requires Timers(cb, timer, t0, on) && 0 <= t < |cb| && x.prc == cb[t].prc && x.tstat == cb[t].tstat
    requires x.winfo == cb[t].winfo
    ensures Timers(cb[t := x], timer, t0, on)
  {
  }

  const UINT_MAX := 0xffff_ffff

  /** What the configurator fixes for a task and for a mutex. */
  datatype TaskIni = TaskIni(noactque: bool, ipriority: int, iprcid: int)

  datatype MtxIni = MtxIni(ceiling: bool, ceilpri: int)

  lemma AllIdle(cb: seq<TCB>, queue: map<Qid, seq<int>>, sub: set<int>, tpri: set<int>, pcb: seq<PCB>)
    requires queue == map[]
    requires forall t {:trigger cb[t]} :: 0 <= t < |cb| ==> cb[t].tstat == DORMANT
    requires forall p {:trigger pcb[p]} :: 0 <= p < |pcb| ==> pcb[p] == PCB(0, NULL, true, NULL)
    ensures Linked(cb, queue, NULL, None) && Ordered(cb, queue, sub, tpri, NULL) && Settled(queue, pcb, |cb|)
  {
    assert forall t, q :: !At(cb, NULL, None, t, q);
    EmptyMap(0);
    hide Bit;
    forall p | 0 <= p < |pcb|
      ensures Mapped(queue, p, pcb[p].primap)
    {
      assert pcb[p].primap == 0;
    }
  }

  lemma AllFree(cb: seq<TCB>, mtx: seq<Mtx>, held: seq<seq<int>>)
    requires |held| == |cb| && forall t {:trigger held[t]} :: 0 <= t < |held| ==> held[t] == []
    requires forall t {:trigger cb[t]} :: 0 <= t < |cb| ==>
               cb[t].tstat == DORMANT && cb[t].lastmtx == NULL && cb[t].priority == cb[t].bpriority && !cb[t].boosted
    requires forall m {:trigger mtx[m]} :: 0 <= m < |mtx| ==> mtx[m].loctsk == NULL && 0 <= mtx[m].ceilpri < TNUM_TPRI
    ensures Lists(cb, mtx, held, NULL, NULL)
  {
    assert forall t {:trigger cb[t]} :: 0 <= t < |cb| ==> held[t] == [];
  }

  class Kernel {
    const sub: set<int>          // subprio_primap
    const tpri: set<int>         // the objects with TA_TPRI
    var cb: seq<TCB>
    var pcb: seq<PCB>
    var queue: map<Qid, seq<int>>
    var mtx: seq<Mtx>
    var timer: seq<set<int>>     // the tasks whose tmevtb is in the heap of each processor
    ghost var held: seq<seq<int>>  // the mutexes each task has locked, the last one first

    /** initialize_task and initialize_mutex, before the tasks with TA_ACT are activated:
        all tasks are dormant and all mutexes free. */
    constructor (sub: set<int>, tpri: set<int>, nprc: nat, tasks: seq<TaskIni>, mutexes: seq<MtxIni>)
      requires forall t {:trigger tasks[t]} :: 0 <= t < |tasks| ==>
               0 <= tasks[t].ipriority < TNUM_TPRI && 0 <= tasks[t].iprcid < nprc
      requires forall m {:trigger mutexes[m]} :: 0 <= m < |mutexes| ==> 0 <= mutexes[m].ceilpri < TNUM_TPRI
      ensures Inv() && this.sub == sub && this.tpri == tpri && |cb| == |tasks| && |pcb| == nprc && |mtx| == |mutexes|
      ensures forall t {:trigger cb[t]} :: 0 <= t < |cb| ==>
                var i := tasks[t];
                cb[t] == TCB(DORMANT, i.noactque, i.ipriority, i.ipriority, i.ipriority, UINT_MAX, false, NULL,
                             i.iprcid, Wercd(EOk), false, false, NULL, false, true)
      ensures forall m {:trigger mtx[m]} :: 0 <= m < |mtx| ==>
                mtx[m] == Mtx(mutexes[m].ceiling, mutexes[m].ceilpri, NULL, NULL)
      ensures forall p {:trigger pcb[p]} :: 0 <= p < |pcb| ==> pcb[p].dspflg && pcb[p].runtsk == NULL
      ensures queue == map[]
    {
      this.sub, this.tpri := sub, tpri;
      cb := seq(|tasks|, (t: int) requires 0 <= t < |tasks| =>
        TCB(DORMANT, tasks[t].noactque, tasks[t].ipriority, tasks[t].ipriority, tasks[t].ipriority, UINT_MAX, false,
            NULL, tasks[t].iprcid, Wercd(EOk), false, false, NULL, false, true));
      pcb := seq(nprc, _ => PCB(0, NULL, true, NULL));
      queue := map[];
      mtx := seq(|mutexes|, (m: int) requires 0 <= m < |mutexes| =>
        Mtx(mutexes[m].ceiling, mutexes[m].ceilpri, NULL, NULL));
      timer := seq(nprc, _ => {});
      held := seq(|tasks|, _ => []);
      new;
      AllIdle(cb, queue, sub, tpri, pcb);
      AllFree(cb, mtx, held);
    }

    /** The queues are sound, but for task t0, which is in transit and linked at
        `place`. */
    ghost predicate Queues(t0: int, place: Option<Qid>)
      reads this
    {
      && InRange(cb, |pcb|) && (t0 == NULL || 0 <= t0 < |cb|)
      && Linked(cb, queue, t0, place) && Ordered(cb, queue, sub, tpri, t0) && Settled(queue, pcb, |cb|)
    }

    /** So are the time events, but for that of task t0, and the mutexes, but for the
        priority of task p0 and the floating mutex m0. */
    ghost predicate Rest(t0: int, on: bool, p0: int, m0: int)
      reads this
    {
      |timer| == |pcb| && Timers(cb, timer, t0, on) && Lists(cb, mtx, held, p0, m0)
    }

    ghost predicate Inv()
      reads this
    {
      Queues(NULL, None) && Rest(NULL, false, NULL, NULL)
    }

    ghost predicate IsTask(t: int)
      reads this`cb
    {
      0 <= t < |cb|
    }
  }
}

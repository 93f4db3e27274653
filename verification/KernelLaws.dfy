/** What the invariant of the kernel tables means: every service call keeps Kernel.Inv,
    so these hold between any two calls of any run. */
module KernelLaws {

  import opened Bitmap
  import opened Options
  import opened Sequences
  import opened TaskQueues
  import opened MutexProtocol
  import opened KernelTables
  import opened Scheduler
  import opened WaitState
  import Mutexes

  /** A task is linked exactly as its state says: a runnable one in the ready queue of
      its processor and priority, a task waiting for an object in the wait queue of that
      object, every other one nowhere; and never twice. */
  lemma LinkedAsStateSays(k: Kernel, t: int, q: Qid)
    requires k.Inv() && k.IsTask(t)
    ensures var x := k.cb[t];
      t in Q(k.queue, q) <==>
        || (x.tstat.runnable && q == Ready(x.prc, x.priority))
        || (x.tstat.wait.On? && q == Object(x.tstat.wait.w))
        || (x.tstat.wait.Receiving? && q == Receive(x.tstat.wait.w))
    ensures forall i, j :: 0 <= i < j < |Q(k.queue, q)| ==> Q(k.queue, q)[i] != Q(k.queue, q)[j]
  {
    hide Ordered, Settled, Timers, Lists;
    AtHome(k.cb, k.queue, t);
    assert Distinct(Q(k.queue, q));
  }

  /** Its time event is in the heap of its processor, and of no other, exactly if it
      waits with a timeout; the error code never lies over a registered time event. */
  lemma TimedAsStateSays(k: Kernel, t: int, p: int)
    requires k.Inv() && k.IsTask(t) && 0 <= p < |k.timer|
    ensures t in k.timer[p] <==> p == k.cb[t].prc && k.cb[t].tstat.wait != NoWait && k.cb[t].winfo == Tmevtb(true)
    ensures k.cb[t].winfo.Wercd? ==> t !in k.timer[p]
  {
    hide Linked, Ordered, Settled, Lists;
  }

  /** The task to run on a processor where dispatching is enabled: it is runnable there,
      and no other runnable task is before it in priority or, where sub-priorities are
      used, in sub-priority.  There is one unless no task is runnable. */
  lemma ScheduledIsHighest(k: Kernel, p: int, u: int)
    requires k.Inv() && 0 <= p < |k.pcb| && k.pcb[p].dspflg && k.IsTask(u) && k.cb[u].tstat.runnable && k.cb[u].prc == p
    ensures var s := k.pcb[p].schedtsk;
      && k.IsTask(s) && k.cb[s].tstat.runnable && k.cb[s].prc == p && k.cb[s].priority <= k.cb[u].priority
      && (k.cb[s].priority == k.cb[u].priority && k.cb[s].priority in k.sub ==>
           (if k.cb[s].boosted then 0 else k.cb[s].subpri) <= if k.cb[u].boosted then 0 else k.cb[u].subpri)
  {
    hide Timers, Lists, Bit;
    var s, r := k.pcb[p].schedtsk, k.cb[u].priority;
    InHome(k.cb, k.queue, u);
    var q := Q(k.queue, Ready(p, r));
    assert q != [];
    assert FieldsOk(k.cb[u], |k.pcb|);
    if s != NULL {
      ScheduledTop(k.cb, k.queue, NULL, None, p, s);
      assert Top(k.queue, p, k.cb[s].priority, s);
      if k.cb[s].priority == r && r in k.sub {
        assert Sorted(k.cb, q, k.sub, k.tpri, Ready(p, r), NULL);
        var j :| 0 <= j < |q| && q[j] == u;
        assert q[0] == s;
      }
    }
  }

  /** p_schedtsk is NULL only if no task is runnable on the processor. */
  lemma NoneScheduled(k: Kernel, p: int)
    requires k.Inv() && 0 <= p < |k.pcb| && k.pcb[p].dspflg
    ensures k.pcb[p].schedtsk == NULL <==> forall u :: k.IsTask(u) && k.cb[u].prc == p ==> !k.cb[u].tstat.runnable
  {
    hide Timers, Lists, Bit, Ordered;
    var s := k.pcb[p].schedtsk;
    if s != NULL {
      ScheduledTop(k.cb, k.queue, NULL, None, p, s);
    } else {
      forall u | k.IsTask(u) && k.cb[u].prc == p
        ensures !k.cb[u].tstat.runnable
      {
        if k.cb[u].tstat.runnable {
          assert FieldsOk(k.cb[u], |k.pcb|);
          InHome(k.cb, k.queue, u);
        }
      }
    }
  }

  /** Bit r of the bit map is set exactly if some task of the processor is runnable at
      priority r. */
  lemma BitMapAgrees(k: Kernel, p: int, r: int)
    requires k.Inv() && 0 <= p < |k.pcb| && 0 <= r < TNUM_TPRI
    ensures Bit(k.pcb[p].primap, r) <==> exists u ::
            k.IsTask(u) && k.cb[u].tstat.runnable && k.cb[u].prc == p && k.cb[u].priority == r
  {
    hide Timers, Lists, Ordered, Highest, Bit;
    assert Mapped(k.queue, p, k.pcb[p].primap);
    var q := Q(k.queue, Ready(p, r));
    if q != [] {
      assert q[0] in q;
      assert At(k.cb, NULL, None, q[0], Ready(p, r));
    }
    if u :| k.IsTask(u) && k.cb[u].tstat.runnable && k.cb[u].prc == p && k.cb[u].priority == r {
      InHome(k.cb, k.queue, u);
    }
  }

  /** The priority of a task is the minimum of its base priority and the ceilings of all
      mutexes it has locked; it is boosted exactly if one of these has a ceiling; and no
      ceiling it holds or waits for is below its base priority. */
  lemma PriorityIsMinimum(k: Kernel, t: int)
    requires k.Inv() && k.IsTask(t)
    ensures k.cb[t].priority <= k.cb[t].bpriority
    ensures forall m {:trigger k.mtx[m]} :: 0 <= m < |k.mtx| && k.mtx[m].loctsk == t && k.mtx[m].ceiling ==>
              k.cb[t].priority <= k.mtx[m].ceilpri <= k.cb[t].bpriority && k.cb[t].boosted
    ensures k.cb[t].priority == k.cb[t].bpriority ||
            exists m ::
              0 <= m < |k.mtx| && k.mtx[m].loctsk == t && k.mtx[m].ceiling && k.mtx[m].ceilpri == k.cb[t].priority
    ensures k.cb[t].boosted ==> exists m :: 0 <= m < |k.mtx| && k.mtx[m].loctsk == t && k.mtx[m].ceiling
    ensures k.cb[t].tstat.wait.On? && 0 <= k.cb[t].tstat.wait.w < |k.mtx| && k.mtx[k.cb[t].tstat.wait.w].ceiling ==>
              k.mtx[k.cb[t].tstat.wait.w].ceilpri <= k.cb[t].bpriority
  {
    hide Linked, Ordered, Settled, Timers, Chain;
    assert PriorityRule(k.mtx, k.held[t], k.cb[t]) && WaitRule(k.mtx, t, k.cb[t]);
    LowestIs(k.mtx, k.held[t], k.cb[t].bpriority);
    assert forall m {:trigger k.mtx[m]} :: 0 <= m < |k.mtx| && k.mtx[m].loctsk == t ==> m in k.held[t];
  }

  /** The lists of locked mutexes are disjoint and agree with p_loctsk; a mutex somebody
      waits for is locked by another task; a dormant task has locked none. */
  lemma ListsAgree(k: Kernel, t: int, u: int)
    requires k.Inv() && k.IsTask(t) && k.IsTask(u)
    ensures |k.held| == |k.cb| && Chain(k.mtx, k.cb[t].lastmtx, k.held[t])
    ensures forall m {:trigger k.mtx[m]} :: 0 <= m < |k.mtx| ==> (m in k.held[t] <==> k.mtx[m].loctsk == t)
    ensures t != u ==> forall m :: 0 <= m < |k.mtx| ==> !(m in k.held[t] && m in k.held[u])
    ensures k.cb[t].tstat == DORMANT ==> k.cb[t].lastmtx == NULL
    ensures k.cb[t].tstat.wait.On? && 0 <= k.cb[t].tstat.wait.w < |k.mtx| ==>
              k.mtx[k.cb[t].tstat.wait.w].loctsk != t && k.IsTask(k.mtx[k.cb[t].tstat.wait.w].loctsk)
  {
    hide Linked, Ordered, Settled, Timers, PriorityRule;
    assert Chain(k.mtx, k.cb[t].lastmtx, k.held[t]);
    assert WaitRule(k.mtx, t, k.cb[t]);
  }

  /** In a ready queue of a level with sub-priorities the tasks are in order of these; a
      task that has locked a ceiling mutex counts as one of sub-priority 0. */
  lemma ReadyInOrder(k: Kernel, p: int, r: int, i: int, j: int)
    requires k.Inv() && r in k.sub && 0 <= i < j < |Q(k.queue, Ready(p, r))|
    ensures k.IsTask(Q(k.queue, Ready(p, r))[i]) && k.IsTask(Q(k.queue, Ready(p, r))[j])
    ensures var x, y := k.cb[Q(k.queue, Ready(p, r))[i]], k.cb[Q(k.queue, Ready(p, r))[j]];
      (if x.boosted then 0 else x.subpri) <= if y.boosted then 0 else y.subpri
  {
    hide Settled, Timers, Lists;
    var q := Q(k.queue, Ready(p, r));
    assert q[i] in q && q[j] in q;
    assert At(k.cb, NULL, None, q[i], Ready(p, r)) && At(k.cb, NULL, None, q[j], Ready(p, r));
    assert Sorted(k.cb, q, k.sub, k.tpri, Ready(p, r), NULL);
  }

  /** In a wait queue with TA_TPRI a task of a higher priority is before one of a lower
      priority. */
  lemma WaitersInOrder(k: Kernel, w: int, i: int, j: int)
    requires k.Inv() && w in k.tpri && 0 <= i < j < |Q(k.queue, Object(w))|
    ensures k.IsTask(Q(k.queue, Object(w))[i]) && k.IsTask(Q(k.queue, Object(w))[j])
    ensures k.cb[Q(k.queue, Object(w))[i]].priority <= k.cb[Q(k.queue, Object(w))[j]].priority
  {
    hide Settled, Timers, Lists;
    var q := Q(k.queue, Object(w));
    assert q[i] in q && q[j] in q;
    assert At(k.cb, NULL, None, q[i], Object(w)) && At(k.cb, NULL, None, q[j], Object(w));
    assert Sorted(k.cb, q, k.sub, k.tpri, Object(w), NULL);
  }

  // ------ the places of tasks, in words

  /** Task t stands at place i of what was the queue s: behind all tasks of its
      sub-priority or, `head`, before them; where sub-priorities are not used, last or
      first. */
  ghost predicate StandsReady(cb: seq<TCB>, s: seq<int>, t: int, i: int, bySubpri: bool, head: bool)
    requires 0 <= t < |cb|
  {
    && 0 <= i <= |s|
    && if !bySubpri then i == if head then 0 else |s|
       else
         var c := if cb[t].boosted then 0 else cb[t].subpri;
         forall j {:trigger s[j]} :: 0 <= j < |s| && 0 <= s[j] < |cb| ==>
           var d := if cb[s[j]].boosted then 0 else cb[s[j]].subpri;
           j < i <==> if head then d < c else d <= c
  }

  /** A task that becomes runnable, by whatever call, stands behind its equals in the ready
      queue of its processor and priority, and no other queue changes. */
  lemma JoinsBehind(cb: seq<TCB>, was: map<Qid, seq<int>>, now: map<Qid, seq<int>>, sub: set<int>, tpri: set<int>,
      t: int) returns (i: int)
    requires 0 <= t < |cb| && Joins(cb, was, now, sub, tpri, t) && cb[t].tstat.runnable && Linked(cb, now, NULL, None)
    ensures var q := Ready(cb[t].prc, cb[t].priority); var s := Q(was, q);
      && StandsReady(cb, s, t, i, cb[t].priority in sub, false)
      && Q(now, q) == s[..i] + [t] + s[i..] && forall r: Qid {:trigger Q(now, r)} :: r != q ==> Q(now, r) == Q(was, r)
  {
    var q := Ready(cb[t].prc, cb[t].priority);
    i :| PutIn(was, now, q, t, i) && Placed(cb, was, sub, tpri, q, t, false, i);
    PlacedAmong(cb, now, Q(was, q), t, i, q);
  }

  lemma PlacedAmong(cb: seq<TCB>, now: map<Qid, seq<int>>, s: seq<int>, t: int, i: int, q: Qid)
    requires 0 <= i <= |s| && Q(now, q) == Plus(s, i, t) && Linked(cb, now, NULL, None)
    ensures forall j {:trigger s[j]} :: 0 <= j < |s| ==> 0 <= s[j] < |cb|
    ensures (i < |s| ==> 0 <= s[i] < |cb|) && (i > 0 ==> 0 <= s[0] < |cb|)
  {
    forall j {:trigger s[j]} | 0 <= j < |s|
      ensures 0 <= s[j] < |cb|
    {
      PlusAt(s, i, t, if j < i then j else j + 1);
      assert Q(now, q)[if j < i then j else j + 1] in Q(now, q);
      assert At(cb, NULL, None, s[j], q);
    }
  }

  /** A runnable task whose priority changes stands before its new equals in mutex mode and
      behind them otherwise. */
  lemma MovesAmongEquals(cb: seq<TCB>, was: map<Qid, seq<int>>, now: map<Qid, seq<int>>, sub: set<int>,
      tpri: set<int>, x: TCB, t: int, head: bool) returns (mid: map<Qid, seq<int>>, i: int)
    requires 0 <= t < |cb| && Repositioned(cb, was, now, sub, tpri, x, t, head) && x.tstat.runnable
    requires Linked(cb, now, NULL, None)
    ensures var from, q := Ready(x.prc, x.priority), Ready(x.prc, cb[t].priority);
      && mid == was[from := Minus(Q(was, from), t)]
      && StandsReady(cb, Q(mid, q), t, i, cb[t].priority in sub, head)
      && Q(now, q) == Q(mid, q)[..i] + [t] + Q(mid, q)[i..]
      && forall r: Qid {:trigger Q(now, r)} :: r != q && r != from ==> Q(now, r) == Q(was, r)
  {
    var from, q := Ready(x.prc, x.priority), Ready(x.prc, cb[t].priority);
    mid := was[from := Minus(Q(was, from), t)];
    i :| PutIn(mid, now, q, t, i) && Placed(cb, mid, sub, tpri, q, t, head, i);
    PlacedAmong(cb, now, Q(mid, q), t, i, q);
  }

  /** A runnable task whose priority rises or falls with a mutex stands before its new
      equals. */
  lemma FollowsFirst(cb: seq<TCB>, was: map<Qid, seq<int>>, now: map<Qid, seq<int>>, sub: set<int>, tpri: set<int>,
      x: TCB, t: int) returns (mid: map<Qid, seq<int>>, i: int)
    requires 0 <= t < |cb| && Mutexes.Follows(cb, was, now, sub, tpri, x, t) && x.tstat.runnable
    requires Linked(cb, now, NULL, None) && cb[t].priority != x.priority
    ensures var from, q := Ready(x.prc, x.priority), Ready(x.prc, cb[t].priority);
      && mid == was[from := Minus(Q(was, from), t)]
      && StandsReady(cb, Q(mid, q), t, i, cb[t].priority in sub, true)
      && Q(now, q) == Q(mid, q)[..i] + [t] + Q(mid, q)[i..]
  {
    mid, i := MovesAmongEquals(cb, was, now, sub, tpri, x, t, true);
  }

  /** A task that begins to wait at an object stands behind all others of its priority
      with TA_TPRI, and last without. */
  lemma QueuedBehind(cb: seq<TCB>, was: seq<int>, now: map<Qid, seq<int>>, sub: set<int>, tpri: set<int>, w: int,
      t: int) returns (i: int)
    requires 0 <= t < |cb| && Queued(cb, was, Q(now, Object(w)), sub, tpri, Object(w), t)
    requires Linked(cb, now, NULL, None)
    ensures 0 <= i <= |was| && Q(now, Object(w)) == was[..i] + [t] + was[i..]
    ensures if w !in tpri then i == |was|
            else forall j {:trigger was[j]} :: 0 <= j < |was| && 0 <= was[j] < |cb| ==>
              (j < i <==> cb[was[j]].priority <= cb[t].priority)
  {
    i :| 0 <= i <= |was| && Q(now, Object(w)) == Plus(was, i, t)
         && TailPlace(cb, was, sub, tpri, Object(w), Key(sub, tpri, Object(w), cb[t]), i);
    PlacedAmong(cb, now, was, t, i, Object(w));
  }
}

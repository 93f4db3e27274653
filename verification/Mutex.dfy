/** Mutexes (kernel/mutex.c:178-380, 487-515, 562-567, 742-751, 797-806): locking and
    unlocking, and the priorities that follow from it. */
module Mutexes {

  import opened Options
  import opened Sequences
  import opened TaskQueues
  import opened MutexProtocol
  import opened KernelTables
  import opened Scheduler
  import opened WaitState

  /** mutex_check_ceilpri: whether no mutex that the task has locked or is waiting for
      has a ceiling below base priority `bpriority`. */
  method MutexCheckCeilpri(k: Kernel, t: int, bpriority: int) returns (ok: bool)
    requires k.Rest(NULL, false, NULL, NULL) && k.IsTask(t)
    ensures ok <==> CeilingsAbove(k.mtx, k.held[t], bpriority) && WaitRule(k.mtx, t, k.cb[t].(bpriority := bpriority))
  {
    hide PriorityRule, Timers;
    ghost var h := k.held[t];
    ListSound(k, t, NULL, NULL);
    hide Lists;
    ghost var i := 0;
    var m := k.cb[t].lastmtx;
    while m != NULL
      invariant 0 <= i <= |h| && m == if i < |h| then h[i] else NULL
      invariant forall j {:trigger h[j]} :: 0 <= j < i ==> !k.mtx[h[j]].ceiling || k.mtx[h[j]].ceilpri <= bpriority
      decreases |h| - i
    {
      if k.mtx[m].ceiling && bpriority < k.mtx[m].ceilpri {
        assert m in h;
        return false;
      }
      m := k.mtx[m].prevmtx;
      i := i + 1;
    }
    assert CeilingsAbove(k.mtx, h, bpriority);
    var x := k.cb[t];
    if x.tstat.wait.On? && 0 <= x.tstat.wait.w < |k.mtx| {
      m := x.tstat.wait.w;
      if k.mtx[m].ceiling && bpriority < k.mtx[m].ceilpri {
        return false;
      }
    }
    return true;
  }

  lemma ListSound(k: Kernel, t: int, p0: int, m0: int)
    requires Lists(k.cb, k.mtx, k.held, p0, m0) && k.IsTask(t)
    ensures |k.held| == |k.cb| && Chain(k.mtx, k.cb[t].lastmtx, k.held[t]) && WaitRule(k.mtx, t, k.cb[t])
    ensures NULL !in k.held[t]
  {
    hide PriorityRule, WaitRule;
    assert Chain(k.mtx, k.cb[t].lastmtx, k.held[t]);
  }

  /** mutex_calc_priority: the priority the task should have, and, as a side effect,
      whether it is boosted. */
  method MutexCalcPriority(k: Kernel, t: int, ghost p0: int, ghost m0: int) returns (priority: int)
    requires Lists(k.cb, k.mtx, k.held, p0, m0) && k.IsTask(t)
    modifies k`cb
    ensures |k.held| == |k.cb| && priority == Lowest(k.mtx, k.held[t], old(k.cb[t]).bpriority)
    ensures k.cb == old(k.cb)[t := old(k.cb[t]).(boosted := HasCeiling(k.mtx, k.held[t]))]
  {
    hide PriorityRule, WaitRule;
    ghost var h := k.held[t];
    ListSound(k, t, p0, m0);
    hide Lists;
    priority := k.cb[t].bpriority;
    var m := k.cb[t].lastmtx;
    var boosted := false;
    ghost var b := priority;
    ghost var i := 0;
    while m != NULL
      invariant 0 <= i <= |h| && m == if i < |h| then h[i] else NULL
      invariant priority <= b && forall j {:trigger h[j]} :: 0 <= j < i && k.mtx[h[j]].ceiling ==>
                priority <= k.mtx[h[j]].ceilpri
      invariant priority == b || exists j {:trigger h[j]} ::
                0 <= j < i && k.mtx[h[j]].ceiling && k.mtx[h[j]].ceilpri == priority
      invariant boosted <==> exists j {:trigger h[j]} :: 0 <= j < i && k.mtx[h[j]].ceiling
      decreases |h| - i
    {
      if k.mtx[m].ceiling {
        if k.mtx[m].ceilpri < priority {
          priority := k.mtx[m].ceilpri;
        }
        boosted := true;
      }
      m := k.mtx[m].prevmtx;
      i := i + 1;
    }
    assert forall j {:trigger h[j]} :: 0 <= j < |h| ==> h[j] in h;
    LowestUnique(k.mtx, h, b, priority);
    k.cb := k.cb[t := k.cb[t].(boosted := boosted)];
  }

  /** The walk along the list in remove_mutex: mutex m, or NULL, and the one that links
      to it. */
  method FindMutex(k: Kernel, t: int, m: int) returns (prev: int, p: int, ghost i: int)
    requires k.IsTask(t) && |k.held| == |k.cb| && Chain(k.mtx, k.cb[t].lastmtx, k.held[t]) && NULL !in k.held[t]
    requires m != NULL
    ensures p == if m in k.held[t] then m else NULL
    ensures var h := k.held[t]; m in h ==> 0 <= i < |h| && h[i] == m && prev == if i == 0 then NULL else h[i - 1]
  {
    ghost var h := k.held[t];
    i := 0;
    prev, p := NULL, k.cb[t].lastmtx;
    while p != NULL && p != m
      invariant 0 <= i <= |h| && p == (if i < |h| then h[i] else NULL) && prev == if i == 0 then NULL else h[i - 1]
      invariant m !in h[..i]
      decreases |h| - i
    {
      prev, p := p, k.mtx[p].prevmtx;
      i := i + 1;
    }
    assert p == NULL ==> h[..i] == h;
  }

  /** Mutex u after mutex m has gone from the list h. */
  ghost function Skipping(mtx: seq<Mtx>, h: seq<int>, m: int, u: int): Mtx
    requires 0 <= m < |mtx| && 0 <= u < |mtx|
  {
    mtx[u].(prevmtx := if u in h && mtx[u].prevmtx == m then mtx[m].prevmtx else mtx[u].prevmtx)
  }

  lemma OnlyLink(mtx: seq<Mtx>, last: int, h: seq<int>, i: int)
    requires Chain(mtx, last, h) && 0 <= i < |h| && NULL !in h
    ensures 0 <= h[i] < |mtx|
    ensures forall u {:trigger u in h} :: u in h && 0 <= u < |mtx| ==>
              (mtx[u].prevmtx == h[i] <==> i > 0 && u == h[i - 1])
    ensures i > 0 ==> h[i - 1] in h
  {
    forall u | u in h && 0 <= u < |mtx|
      ensures mtx[u].prevmtx == h[i] <==> i > 0 && u == h[i - 1]
    {
      var j :| 0 <= j < |h| && h[j] == u;
      assert j + 1 < |h| ==> mtx[h[j]].prevmtx == h[j + 1];
    }
  }

  lemma HeldBy(k: Kernel, t: int, m: int)
    requires Lists(k.cb, k.mtx, k.held, NULL, NULL) && k.IsTask(t) && 0 <= m < |k.mtx|
    ensures |k.held| == |k.cb| && (m in k.held[t] <==> k.mtx[m].loctsk == t)
  {
  }

  /** remove_mutex, wherever the mutex is in the list. */
  method RemoveMutex(k: Kernel, t: int, m: int) returns (found: bool)
    requires Lists(k.cb, k.mtx, k.held, NULL, NULL) && k.IsTask(t) && 0 <= m < |k.mtx|
    modifies k`cb, k`mtx, k`held
    ensures |old(k.held)| == |old(k.cb)| && (found <==> old(k.mtx[m]).loctsk == t)
    ensures !found ==> k.cb == old(k.cb) && k.mtx == old(k.mtx) && k.held == old(k.held)
    ensures found ==> Lists(k.cb, k.mtx, k.held, t, m)
    ensures found ==> m in old(k.held)[t] && k.held == old(k.held)[t := Minus(old(k.held)[t], m)]
    ensures |k.cb| == |old(k.cb)| && k.cb == old(k.cb)[t := old(k.cb[t]).(lastmtx := k.cb[t].lastmtx)]
    ensures |k.mtx| == |old(k.mtx)|
    ensures found ==> forall u {:trigger k.mtx[u]} :: 0 <= u < |k.mtx| ==>
              k.mtx[u] == Skipping(old(k.mtx), old(k.held)[t], m, u)
  {
    hide Lists, PriorityRule, WaitRule, Minus, Chain;
    ListSound(k, t, NULL, NULL);
    HeldBy(k, t, m);
    var prev, p;
    ghost var i;
    prev, p, i := FindMutex(k, t, m);
    if p == NULL {
      assert k.cb == k.cb[t := k.cb[t]];
      return false;
    }
    Unlocked(k.cb, k.mtx, k.held, NULL, t, i);
    OnlyLink(k.mtx, k.cb[t].lastmtx, k.held[t], i);
    if prev == NULL {
      k.cb := k.cb[t := k.cb[t].(lastmtx := k.mtx[m].prevmtx)];
    } else {
      assert k.cb == k.cb[t := k.cb[t]];
      k.mtx := k.mtx[prev := k.mtx[prev].(prevmtx := k.mtx[m].prevmtx)];
    }
    k.held := k.held[t := Minus(k.held[t], m)];
    found := true;
  }

  /** Task t, whose control block was x, has moved, before its equals, if its priority or
      the sub-priority it is scheduled by has changed; else nothing has moved. */
  ghost predicate Follows(cb: seq<TCB>, was: map<Qid, seq<int>>, now: map<Qid, seq<int>>, sub: set<int>, tpri: set<int>,
      x: TCB, t: int)
    requires 0 <= t < |cb|
  {
    var y := cb[t];
    if y.priority != x.priority || (x.priority in sub && y.boosted != x.boosted) then
      Repositioned(cb, was, now, sub, tpri, x, t, true)
    else now == was
  }

  /** The task after mutex_raise_priority. */
  ghost function Raised(x: TCB, newpri: int): TCB {
    if newpri <= x.priority then x.(priority := newpri, boosted := true) else x
  }

  /** mutex_raise_priority: the task moves only if its priority or, where sub-priorities
      are used, its sub-priority changes. */
  method MutexRaisePriority(k: Kernel, t: int, newpri: int)
    requires k.Queues(NULL, None) && k.IsTask(t) && 0 <= newpri < TNUM_TPRI
    modifies k`cb, k`queue, k`pcb
    ensures k.Queues(NULL, None) && SameMode(old(k.pcb), k.pcb) && |k.pcb| == old(|k.pcb|)
    ensures k.cb == old(k.cb)[t := Raised(old(k.cb[t]), newpri)]
    ensures Follows(k.cb, old(k.queue), k.queue, k.sub, k.tpri, old(k.cb[t]), t)
  {
    hide Linked, Ordered, Sorted, Distinct, Settled, Requeued, SameMode;
    ghost var cb := k.cb;
    var x := k.cb[t];
    SameModeRefl(k.pcb);
    if newpri <= x.priority {
      if newpri < x.priority || (x.priority in k.sub && !x.boosted) {
        RewrittenQueues(k, t, x.(boosted := true));
        k.cb := k.cb[t := x.(boosted := true)];
        ChangePriority(k, t, newpri, true);
      } else {
        KeyKept(k.cb, k.queue, k.sub, k.tpri, t, x.(boosted := true));
        k.cb := k.cb[t := x.(boosted := true)];
      }
    }
    assert k.cb == cb[t := Raised(x, newpri)];
  }

  /** mutex_acquire: the running task locks a free mutex. */
  method MutexAcquire(k: Kernel, self: int, m: int)
    requires k.Inv() && k.IsTask(self) && 0 <= m < |k.mtx| && k.mtx[m].loctsk == NULL
    requires k.cb[self].tstat == RUNNABLE || k.cb[self].tstat == SUSPENDED
    requires k.mtx[m].ceiling ==> k.mtx[m].ceilpri <= k.cb[self].bpriority
    modifies k`cb, k`queue, k`pcb, k`mtx, k`held
    ensures k.Inv() && SameMode(old(k.pcb), k.pcb) && |k.pcb| == old(|k.pcb|)
    ensures |old(k.held)| == |old(k.cb)| && k.held == old(k.held)[self := [m] + old(k.held)[self]]
    ensures k.mtx == old(k.mtx)[m := old(k.mtx[m]).(loctsk := self, prevmtx := old(k.cb[self]).lastmtx)]
    ensures var x := old(k.cb[self]).(lastmtx := m);
      k.cb == old(k.cb)[self := if old(k.mtx[m]).ceiling then Raised(x, old(k.mtx[m]).ceilpri) else x]
    ensures Follows(k.cb, old(k.queue), k.queue, k.sub, k.tpri, old(k.cb[self]), self)
  {
    hide Linked, Ordered, Sorted, Distinct, Settled, SameMode, Timers, Chain, PriorityRule, WaitRule, Lists, Requeued;
    ghost var cb := k.cb;
    var x := k.cb[self].(lastmtx := m);
    ghost var y := if k.mtx[m].ceiling then Raised(x, k.mtx[m].ceilpri) else x;
    AcquiredRest(k, self, m, y);
    KeyKept(k.cb, k.queue, k.sub, k.tpri, self, x);
    SameModeRefl(k.pcb);
    k.held := k.held[self := [m] + k.held[self]];
    k.mtx := k.mtx[m := k.mtx[m].(loctsk := self, prevmtx := k.cb[self].lastmtx)];
    k.cb := k.cb[self := x];
    if k.mtx[m].ceiling {
      MutexRaisePriority(k, self, k.mtx[m].ceilpri);
    }
    assert k.cb == cb[self := y];
  }

  lemma AcquiredRest(k: Kernel, self: int, m: int, y: TCB)
    requires k.Rest(NULL, false, NULL, NULL) && k.IsTask(self) && 0 <= m < |k.mtx| && k.mtx[m].loctsk == NULL
    requires k.cb[self].tstat == RUNNABLE || k.cb[self].tstat == SUSPENDED
    requires k.mtx[m].ceiling ==> k.mtx[m].ceilpri <= k.cb[self].bpriority
    requires var x := k.cb[self].(lastmtx := m); y == if k.mtx[m].ceiling then Raised(x, k.mtx[m].ceilpri) else x
    ensures |k.held| == |k.cb| && 0 <= k.mtx[m].ceilpri < TNUM_TPRI && Timers(k.cb[self := y], k.timer, NULL, false)
    ensures Lists(k.cb[self := y], k.mtx[m := k.mtx[m].(loctsk := self, prevmtx := k.cb[self].lastmtx)],
                  k.held[self := [m] + k.held[self]], NULL, NULL)
  {
    hide Chain, Timers, WaitRule;
    assert PriorityRule(k.mtx, k.held[self], k.cb[self]);
    RaisedRule(k.mtx, k.held[self], m, k.cb[self]);
    SamePriorityRule(k.mtx, [m] + k.held[self],
      if k.mtx[m].ceiling then Raised(k.cb[self], k.mtx[m].ceilpri) else k.cb[self], y);
    NoWaitRule(k.mtx[m := k.mtx[m].(loctsk := self)], self, y);
    TimersSame(k.cb, k.timer, NULL, false, self, y);
    Locked(k.cb, k.mtx, k.held, NULL, NULL, self, m, y);
  }

  lemma SamePriorityRule(mtx: seq<Mtx>, h: seq<int>, x: TCB, y: TCB)
    requires PriorityRule(mtx, h, x) && x.priority == y.priority && x.bpriority == y.bpriority && x.boosted == y.boosted
    ensures PriorityRule(mtx, h, y)
  {
  }

  /** A boosted task keeps its place without being so where sub-priorities are not used. */
  lemma UnboostedQueues(k: Kernel, t: int, z: TCB)
    requires k.Queues(NULL, None) && k.IsTask(t) && k.cb[t].boosted && z == k.cb[t].(boosted := z.boosted)
    ensures InRange(k.cb[t := z], |k.pcb|) && Linked(k.cb[t := z], k.queue, t, Home(z))
    ensures Ordered(k.cb[t := z], k.queue, k.sub, k.tpri, t)
    ensures z.boosted || z.priority !in k.sub ==>
              Linked(k.cb[t := z], k.queue, NULL, None) && Ordered(k.cb[t := z], k.queue, k.sub, k.tpri, NULL)
  {
    hide Linked, Ordered, Settled;
    RewrittenQueues(k, t, z);
    if z.boosted || z.priority !in k.sub {
      KeyKept(k.cb, k.queue, k.sub, k.tpri, t, z);
    }
  }

  /** The recalculation in mutex_drop_priority. */
  method Recalculate(k: Kernel, t: int, ghost m0: int)
    requires k.Queues(NULL, None) && k.Rest(NULL, false, t, m0) && k.IsTask(t) && k.cb[t].boosted && |k.held| == |k.cb|
    modifies k`cb, k`queue, k`pcb
    ensures k.Queues(NULL, None) && SameMode(old(k.pcb), k.pcb) && |k.pcb| == old(|k.pcb|)
    ensures k.cb == old(k.cb)[t := old(k.cb[t]).(priority := Lowest(k.mtx, k.held[t], old(k.cb[t]).bpriority),
                                                 boosted := HasCeiling(k.mtx, k.held[t]))]
    ensures Follows(k.cb, old(k.queue), k.queue, k.sub, k.tpri, old(k.cb[t]), t)
  {
    hide Linked, Ordered, Sorted, Distinct, Settled, SameMode, Timers, Chain, WaitRule, Repositioned, Follows,
      PriorityRule, Lowest, Lists, HasCeiling, FieldsOk, Home;
    ghost var cb, queue, x := k.cb, k.queue, k.cb[t];
    ghost var y := x.(priority := Lowest(k.mtx, k.held[t], x.bpriority), boosted := HasCeiling(k.mtx, k.held[t]));
    ghost var z := x.(boosted := y.boosted);
    SameModeRefl(k.pcb);
    UnboostedQueues(k, t, z);
    LowestInRange(k, t, m0);
    var newpri := MutexCalcPriority(k, t, t, m0);
    if newpri != k.cb[t].priority || (k.cb[t].priority in k.sub && !k.cb[t].boosted) {
      ChangePriority(k, t, newpri, true);
      assert k.cb == cb[t := y];
      FollowsMoved(k.cb, queue, k.queue, k.sub, k.tpri, x, z, t);
    } else {
      assert k.cb == cb[t := y];
      FollowsStaying(k.cb, queue, k.sub, k.tpri, x, t);
    }
  }

  lemma FollowsMoved(cb: seq<TCB>, was: map<Qid, seq<int>>, now: map<Qid, seq<int>>, sub: set<int>, tpri: set<int>,
      x: TCB, z: TCB, t: int)
    requires 0 <= t < |cb| && Repositioned(cb, was, now, sub, tpri, z, t, true) && z == x.(boosted := z.boosted)
    requires cb[t].priority != x.priority || (x.priority in sub && cb[t].boosted != x.boosted)
    ensures Follows(cb, was, now, sub, tpri, x, t)
  {
  }

  lemma FollowsStaying(cb: seq<TCB>, queue: map<Qid, seq<int>>, sub: set<int>, tpri: set<int>, x: TCB, t: int)
    requires 0 <= t < |cb| && cb[t].priority == x.priority && (x.priority in sub ==> cb[t].boosted == x.boosted)
    ensures Follows(cb, queue, queue, sub, tpri, x, t)
  {
  }

  /** mutex_drop_priority: after a ceiling mutex has gone from the list of a task, its
      priority follows the rule again. */
  method MutexDropPriority(k: Kernel, t: int, oldpri: int, ghost m0: int)
    requires k.Queues(NULL, None) && k.Rest(NULL, false, t, m0) && k.IsTask(t) && k.cb[t].boosted
    requires |k.held| == |k.cb| && CeilingsAbove(k.mtx, k.held[t], k.cb[t].bpriority)
    requires oldpri != k.cb[t].priority ==> PriorityRule(k.mtx, k.held[t], k.cb[t])
    modifies k`cb, k`queue, k`pcb
    ensures k.Queues(NULL, None) && k.Rest(NULL, false, NULL, m0)
    ensures SameMode(old(k.pcb), k.pcb) && |k.pcb| == old(|k.pcb|)
    ensures k.cb == old(k.cb)[t := old(k.cb[t]).(priority := Lowest(k.mtx, k.held[t], old(k.cb[t]).bpriority),
                                                 boosted := HasCeiling(k.mtx, k.held[t]))]
    ensures Follows(k.cb, old(k.queue), k.queue, k.sub, k.tpri, old(k.cb[t]), t)
  {
    hide Linked, Ordered, Sorted, Distinct, Settled, Lists, SameMode, Timers, Chain, WaitRule, Repositioned;
    ghost var cb, x := k.cb, k.cb[t];
    ghost var y := x.(priority := Lowest(k.mtx, k.held[t], x.bpriority), boosted := HasCeiling(k.mtx, k.held[t]));
    DroppedRest(k, t, m0, y);
    if oldpri == k.cb[t].priority {
      Recalculate(k, t, m0);
    } else {
      SameModeRefl(k.pcb);
      assert x == y && cb[t := x] == cb;
    }
  }

  lemma DroppedRest(k: Kernel, t: int, m0: int, y: TCB)
    requires k.Rest(NULL, false, t, m0) && k.IsTask(t) && |k.held| == |k.cb|
    requires CeilingsAbove(k.mtx, k.held[t], k.cb[t].bpriority)
    requires y == k.cb[t].(priority := Lowest(k.mtx, k.held[t], k.cb[t].bpriority),
                           boosted := HasCeiling(k.mtx, k.held[t]))
    ensures Timers(k.cb[t := y], k.timer, NULL, false) && Lists(k.cb[t := y], k.mtx, k.held, NULL, m0)
    ensures forall m {:trigger k.mtx[m]} :: 0 <= m < |k.mtx| ==> 0 <= k.mtx[m].ceilpri < TNUM_TPRI
  {
    hide Chain, Timers, WaitRule;
    RuleAndList(k, t, t, m0);
    WaitRuleSame(k.mtx, t, k.cb[t], y);
    TimersSame(k.cb, k.timer, NULL, false, t, y);
    Rewritten(k.cb, k.mtx, k.held, t, m0, t, y);
  }

  lemma LowestInRange(k: Kernel, t: int, m0: int)
    requires Lists(k.cb, k.mtx, k.held, t, m0) && k.IsTask(t) && |k.held| == |k.cb| && InRange(k.cb, |k.pcb|)
    ensures 0 <= Lowest(k.mtx, k.held[t], k.cb[t].bpriority) < TNUM_TPRI
  {
    hide PriorityRule, WaitRule, Chain;
    LowestIs(k.mtx, k.held[t], k.cb[t].bpriority);
  }

  /** A task that gets a mutex while it is in no queue. */
  ghost function Holding(x: TCB, m: int, c: Mtx): TCB {
    var y := x.(lastmtx := m);
    if c.ceiling then y.(priority := if c.ceilpri < x.priority then c.ceilpri else x.priority, boosted := true) else y
  }

  lemma HoldingFields(x: TCB, m: int, c: Mtx, nprc: int)
    requires FieldsOk(x, nprc) && 0 <= c.ceilpri < TNUM_TPRI
    ensures FieldsOk(Holding(x, m, c), nprc)
    ensures var y := Holding(x, m, c); y == x.(lastmtx := m, priority := y.priority, boosted := y.boosted)
  {
  }

  /** The first waiting task after mutex_release has given it the mutex. */
  ghost function Granted(x: TCB, m: int, c: Mtx): TCB {
    Holding(x.(winfo := Wercd(EOk), tstat := Resumes(x.tstat)), m, c)
  }

  lemma GrantedSteps(x: TCB, m: int, c: Mtx)
    ensures var y := Holding(x.(winfo := Wercd(EOk)), m, c);
      y.tstat == x.tstat && y.(tstat := Resumes(y.tstat)) == Granted(x, m, c) && Granted(x, m, c).winfo == Wercd(EOk)
  {
  }

  /** mutex_release, for a mutex that has just left the list of its holder: the first
      task waiting for it gets it, or it becomes free. */
  method MutexRelease(k: Kernel, m: int, ghost p0: int)
    requires k.Queues(NULL, None) && k.Rest(NULL, false, p0, m) && 0 <= m < |k.mtx|
    requires (p0 == NULL || k.mtx[m].loctsk == p0)
    modifies k`cb, k`queue, k`pcb, k`mtx, k`timer, k`held
    ensures k.Queues(NULL, None) && k.Rest(NULL, false, p0, NULL) && SameMode(old(k.pcb), k.pcb)
    ensures |k.pcb| == old(|k.pcb|)
    ensures var q := Q(old(k.queue), Object(m));
      if q == [] then
        && k.cb == old(k.cb) && k.queue == old(k.queue) && k.held == old(k.held)
        && k.mtx == old(k.mtx)[m := old(k.mtx[m]).(loctsk := NULL)]
      else
        && 0 <= q[0] < |old(k.cb)| == |old(k.held)| && q[0] != p0 && old(k.cb)[q[0]].tstat.wait == On(m)
        && k.cb == old(k.cb)[q[0] := Granted(old(k.cb)[q[0]], m, old(k.mtx[m]))]
        && k.cb[q[0]].tstat == Tstat(!old(k.cb)[q[0]].tstat.suspended, old(k.cb)[q[0]].tstat.suspended, NoWait)
        && k.cb[q[0]].winfo == Wercd(EOk)
        && k.held == old(k.held)[q[0] := [m] + old(k.held)[q[0]]]
        && k.mtx == old(k.mtx)[m := old(k.mtx[m]).(loctsk := q[0], prevmtx := old(k.cb)[q[0]].lastmtx)]
        && Wakes(k.cb, old(k.queue), k.queue, k.sub, k.tpri, old(k.cb)[q[0]], q[0])
  {
    hide Linked, Ordered, Sorted, Distinct, Settled, SameMode, Timers, Chain, PriorityRule, WaitRule, Lists, Joins;
    if Q(k.queue, Object(m)) == [] {
      NoneWaits(k.cb, k.queue, On(m));
      Freed(k.cb, k.mtx, k.held, p0, m);
      SameModeRefl(k.pcb);
      k.mtx := k.mtx[m := k.mtx[m].(loctsk := NULL)];
    } else {
      var t := Q(k.queue, Object(m))[0];
      FirstWaits(k, On(m), t);
      Grant(k, t, m, p0);
    }
  }

  /** The handover to the first waiting task. */
  method Grant(k: Kernel, t: int, m: int, ghost p0: int)
    requires k.Queues(NULL, None) && k.Rest(NULL, false, p0, m) && 0 <= m < |k.mtx|
    requires (p0 == NULL || k.mtx[m].loctsk == p0)
    requires k.IsTask(t) && k.cb[t].tstat.wait == On(m) && !k.cb[t].tstat.runnable
    modifies k`cb, k`queue, k`pcb, k`mtx, k`timer, k`held
    ensures k.Queues(NULL, None) && k.Rest(NULL, false, p0, NULL) && SameMode(old(k.pcb), k.pcb)
    ensures |k.pcb| == old(|k.pcb|)
    ensures t != p0 && |old(k.held)| == |old(k.cb)|
    ensures k.cb == old(k.cb)[t := Granted(old(k.cb[t]), m, old(k.mtx[m]))]
    ensures var s := old(k.cb[t].tstat.suspended); k.cb[t].tstat == Tstat(!s, s, NoWait) && k.cb[t].winfo == Wercd(EOk)
    ensures k.held == old(k.held)[t := [m] + old(k.held)[t]]
    ensures k.mtx == old(k.mtx)[m := old(k.mtx[m]).(loctsk := t, prevmtx := old(k.cb[t]).lastmtx)]
    ensures Wakes(k.cb, old(k.queue), k.queue, k.sub, k.tpri, old(k.cb[t]), t)
  {
    hide Linked, Ordered, Sorted, Distinct, Settled, SameMode, Timers, Chain, PriorityRule, WaitRule, Lists, Joins,
      Granted, Holding, FieldsOk;
    ghost var cb, x := k.cb, k.cb[t];
    ghost var y := Granted(x, m, k.mtx[m]);
    GrantedSteps(x, m, k.mtx[m]);
    GrantedLists(k, t, m, p0);
    DetachWaiter(k, t, m, p0);
    assert k.cb == cb[t := x.(winfo := Wercd(EOk))];
    HandOver(k, t, m);
    assert k.cb[t := k.cb[t].(tstat := Resumes(k.cb[t].tstat))] == cb[t := y];
    MakeNonWait(k, t, p0);
    assert k.cb == cb[t := y];
  }

  /** The waiting task leaves the wait queue and the heap, and gets its error code. */
  method DetachWaiter(k: Kernel, t: int, m: int, ghost p0: int)
    requires k.Queues(NULL, None) && k.Rest(NULL, false, p0, m)
    requires k.IsTask(t) && k.cb[t].tstat.wait == On(m) && !k.cb[t].tstat.runnable
    modifies k`cb, k`queue, k`timer
    ensures k.Queues(t, None) && k.Rest(t, false, p0, m) && k.cb == old(k.cb)[t := old(k.cb[t]).(winfo := Wercd(EOk))]
    ensures k.queue == Leaves(old(k.queue), old(k.cb[t]), t)
  {
    hide Linked, Ordered, Sorted, Distinct, Settled, Timers, Lists;
    RewrittenQueues(k, t, k.cb[t]);
    assert k.cb[t := k.cb[t]] == k.cb;
    Unqueue(k, t, Object(m));
    WaitDequeueTmevtb(k, t);
    SetWercd(k, t, EOk, None, p0, m);
  }

  /** The links and the priority of the new holder, which is not in any queue. */
  method HandOver(k: Kernel, t: int, m: int)
    requires k.Queues(t, None) && k.IsTask(t) && 0 <= m < |k.mtx| && 0 <= k.mtx[m].ceilpri < TNUM_TPRI
    requires |k.held| == |k.cb|
    requires Timers(k.cb, k.timer, t, false)
    modifies k`cb, k`mtx, k`held
    ensures k.Queues(t, None) && Timers(k.cb, k.timer, t, false)
    ensures k.held == old(k.held)[t := [m] + old(k.held)[t]]
    ensures k.mtx == old(k.mtx)[m := old(k.mtx[m]).(loctsk := t, prevmtx := old(k.cb[t]).lastmtx)]
    ensures k.cb == old(k.cb)[t := Holding(old(k.cb[t]), m, old(k.mtx[m]))]
  {
    hide Linked, Ordered, Sorted, Distinct, Settled, Timers, FieldsOk;
    var c, x := k.mtx[m], k.cb[t];
    var z := x.(lastmtx := m);
    if c.ceiling {
      z := z.(priority := if c.ceilpri < x.priority then c.ceilpri else x.priority, boosted := true);
    }
    HoldingFields(x, m, c, |k.pcb|);
    TransitQueues(k, t, None, z);
    TimersSame(k.cb, k.timer, t, false, t, z);
    k.held := k.held[t := [m] + k.held[t]];
    k.mtx := k.mtx[m := c.(loctsk := t, prevmtx := x.lastmtx)];
    k.cb := k.cb[t := z];
  }

  lemma GrantedLists(k: Kernel, t: int, m: int, p0: int)
    requires k.Rest(NULL, false, p0, m) && InRange(k.cb, |k.pcb|) && 0 <= m < |k.mtx|
    requires (p0 == NULL || k.mtx[m].loctsk == p0)
    requires k.IsTask(t) && k.cb[t].tstat.wait == On(m)
    ensures t != p0 && |k.held| == |k.cb| && 0 <= k.mtx[m].ceilpri < TNUM_TPRI
    ensures Lists(k.cb[t := Granted(k.cb[t], m, k.mtx[m])],
                  k.mtx[m := k.mtx[m].(loctsk := t, prevmtx := k.cb[t].lastmtx)],
                  k.held[t := [m] + k.held[t]], p0, NULL)
  {
    hide Chain, Timers, PriorityRule;
    var x, y := k.cb[t], Granted(k.cb[t], m, k.mtx[m]);
    assert WaitRule(k.mtx, t, x);
    assert PriorityRule(k.mtx, k.held[t], x);
    GrantedRule(k.mtx, k.held[t], m, x);
    Locked(k.cb, k.mtx, k.held, p0, m, t, m, y);
  }

  lemma GrantedRule(mtx: seq<Mtx>, h: seq<int>, m: int, x: TCB)
    requires PriorityRule(mtx, h, x) && 0 <= m < |mtx| && (mtx[m].ceiling ==> mtx[m].ceilpri <= x.bpriority)
    ensures PriorityRule(mtx, [m] + h, Granted(x, m, mtx[m]))
  {
    RaisedRule(mtx, h, m, x);
  }

  /** Wait queue q without its first task, if it is the queue of a mutex that is in h,
      but not in `left`. */
  ghost function Remaining(queue: map<Qid, seq<int>>, h: seq<int>, left: seq<int>, q: Qid): seq<int> {
    var s := Q(queue, q);
    if q.Object? && q.w in h && q.w !in left && s != [] then s[1..] else s
  }

  /** Of the mutexes h that a task had locked, those not in `left` have gone to the first
      task waiting for each, or are free; the others are as they were. */
  ghost predicate Passing(mtx: seq<Mtx>, mtx': seq<Mtx>, queue: map<Qid, seq<int>>, h: seq<int>, left: seq<int>) {
    && |mtx'| == |mtx|
    && forall m {:trigger mtx'[m]} :: 0 <= m < |mtx| ==>
         if m in h && m !in left then
           && mtx'[m].loctsk == First(Q(queue, Object(m)))
           && mtx'[m].ceiling == mtx[m].ceiling && mtx'[m].ceilpri == mtx[m].ceilpri
         else mtx'[m] == mtx[m]
  }

  /** Those tasks have left the wait queues, and no others. */
  ghost predicate Served(queue: map<Qid, seq<int>>, queue': map<Qid, seq<int>>, h: seq<int>, left: seq<int>) {
    forall q: Qid {:trigger Q(queue', q)} :: !q.Ready? ==> Q(queue', q) == Remaining(queue, h, left, q)
  }

  /** A task has got the mutex of h it was waiting for, or is as it was. */
  ghost predicate Untouched(mtx: seq<Mtx>, h: seq<int>, x: TCB, y: TCB) {
    || y == x
    || (x.tstat.wait.On? && x.tstat.wait.w in h && 0 <= x.tstat.wait.w < |mtx|
        && y == Granted(x, x.tstat.wait.w, mtx[x.tstat.wait.w]))
  }

  /** mutex_release_all: all mutexes of a task that terminates are released, each to the
      first task waiting for it; its own priority is left as it is. */
  method MutexReleaseAll(k: Kernel, t: int)
    requires k.Queues(NULL, None) && k.Rest(NULL, false, NULL, NULL) && k.IsTask(t) && k.cb[t].tstat != DORMANT
    modifies k`cb, k`queue, k`pcb, k`mtx, k`timer, k`held
    ensures k.Queues(NULL, None) && k.Rest(NULL, false, t, NULL) && SameMode(old(k.pcb), k.pcb)
    ensures |k.pcb| == old(|k.pcb|)
    ensures |k.cb| == |old(k.cb)| == |k.held| == |old(k.held)| && k.held[t] == []
    ensures k.cb[t] == old(k.cb[t]).(lastmtx := NULL)
    ensures forall u {:trigger k.cb[u]} :: 0 <= u < |k.cb| && u != t ==>
            Untouched(old(k.mtx), old(k.held)[t], old(k.cb)[u], k.cb[u])
    ensures Passing(old(k.mtx), k.mtx, old(k.queue), old(k.held)[t], [])
    ensures Served(old(k.queue), k.queue, old(k.held)[t], [])
  {
    hide Linked, Ordered, Sorted, Distinct, Settled, SameMode, Timers, Chain, PriorityRule, WaitRule, Lists,
      Passing, Served, Untouched;
    ghost var cb, pcb, mtx, queue := k.cb, k.pcb, k.mtx, k.queue;
    ghost var x := k.cb[t];
    SameModeRefl(pcb);
    RuleAndList(k, t, NULL, NULL);
    Unaffected(k.cb, k.mtx, k.held, NULL, NULL, t, x);
    Stale(k, t);
    ghost var h := k.held[t];
    NonePassed(mtx, queue, h);
    forall u {:trigger k.cb[u]} | 0 <= u < |cb| ensures Untouched(mtx, h, cb[u], k.cb[u]) {
      StillThere(mtx, h, cb[u]);
    }
    while k.cb[t].lastmtx != NULL
      invariant k.Queues(NULL, None) && k.Rest(NULL, false, t, NULL) && SameMode(pcb, k.pcb) && |k.pcb| == |pcb|
      invariant |k.cb| == |cb| == |k.held| && k.cb[t] == x.(lastmtx := k.cb[t].lastmtx)
      invariant forall u {:trigger k.cb[u]} :: 0 <= u < |k.cb| && u != t ==> Untouched(mtx, h, cb[u], k.cb[u])
      invariant Passing(mtx, k.mtx, queue, h, k.held[t]) && Served(queue, k.queue, h, k.held[t])
      invariant forall m :: m in k.held[t] ==> m in h
      decreases |k.held[t]|
    {
      ghost var pcb1, mtx1, queue1, left, cb1 := k.pcb, k.mtx, k.queue, k.held[t], k.cb;
      ListSound(k, t, t, NULL);
      ChainDistinct(k.mtx, k.cb[t].lastmtx, left);
      ghost var m := ReleaseLast(k, t);
      SameModeTrans(pcb, pcb1, k.pcb);
      MinusRemoves(left, m);
      PassesOn(cb, cb1, k.cb, mtx, mtx1, k.mtx, queue, queue1, k.queue, h, left, t, m);
    }
    ListSound(k, t, t, NULL);
    LastNull(k.mtx, k.cb[t].lastmtx, k.held[t]);
  }

  lemma NonePassed(mtx: seq<Mtx>, queue: map<Qid, seq<int>>, h: seq<int>)
    ensures Passing(mtx, mtx, queue, h, h) && Served(queue, queue, h, h)
  {
  }

  lemma StillThere(mtx: seq<Mtx>, h: seq<int>, x: TCB)
    ensures Untouched(mtx, h, x, x)
  {
  }

  lemma ChainDistinct(mtx: seq<Mtx>, last: int, h: seq<int>)
    requires Chain(mtx, last, h)
    ensures Distinct(h)
  {
  }

  lemma LastNull(mtx: seq<Mtx>, last: int, h: seq<int>)
    requires Chain(mtx, last, h) && NULL !in h
    ensures last == NULL <==> h == []
  {
  }

  lemma Stale(k: Kernel, t: int)
    requires Lists(k.cb, k.mtx, k.held, NULL, NULL) && k.IsTask(t)
    ensures Lists(k.cb, k.mtx, k.held, t, NULL) && |k.held| == |k.cb|
  {
  }

  /** One mutex m of task t has been released: f, the first task waiting for it, has it. */
  ghost predicate OnePassed(cb: seq<TCB>, cb': seq<TCB>, mtx: seq<Mtx>, mtx': seq<Mtx>, queue: map<Qid, seq<int>>,
      queue': map<Qid, seq<int>>, t: int, m: int) {
    var f := First(Q(queue, Object(m)));
    && |mtx'| == |mtx| && |cb'| == |cb| && 0 <= m < |mtx|
    && mtx'[m].loctsk == f && mtx'[m].ceiling == mtx[m].ceiling && mtx'[m].ceilpri == mtx[m].ceilpri
    && (forall u {:trigger mtx'[u]} :: 0 <= u < |mtx| && u != m ==> mtx'[u] == mtx[u])
    && (f != NULL ==> 0 <= f < |cb| && f != t && cb[f].tstat.wait == On(m))
    && (forall u {:trigger cb'[u]} :: 0 <= u < |cb| && u != t ==>
         cb'[u] == if u == f then Granted(cb[u], m, mtx[m]) else cb[u])
    && Served(queue, queue', [m], [])
  }

  lemma PassesOn(cb: seq<TCB>, cb1: seq<TCB>, cb2: seq<TCB>, mtx: seq<Mtx>, mtx1: seq<Mtx>, mtx2: seq<Mtx>,
                 queue: map<Qid, seq<int>>, queue1: map<Qid, seq<int>>, queue2: map<Qid, seq<int>>, h: seq<int>,
                 left: seq<int>, t: int, m: int)
    requires |cb1| == |cb| && Passing(mtx, mtx1, queue, h, left) && Served(queue, queue1, h, left) && m in h
    requires m in left
    requires forall u {:trigger cb1[u]} :: 0 <= u < |cb1| && u != t ==> Untouched(mtx, h, cb[u], cb1[u])
    requires OnePassed(cb1, cb2, mtx1, mtx2, queue1, queue2, t, m) && Distinct(left)
    requires forall u {:trigger u in Minus(left, m)} :: u in Minus(left, m) <==> u in left && u != m
    ensures Passing(mtx, mtx2, queue, h, Minus(left, m)) && Served(queue, queue2, h, Minus(left, m))
    ensures forall u {:trigger cb2[u]} :: 0 <= u < |cb2| && u != t ==> Untouched(mtx, h, cb[u], cb2[u])
  {
    hide Minus;
    assert mtx1[m] == mtx[m];
    forall u {:trigger cb2[u]} | 0 <= u < |cb2| && u != t ensures Untouched(mtx, h, cb[u], cb2[u]) {
      assert Untouched(mtx, h, cb[u], cb1[u]);
    }
  }

  /** The first task that leaves the queue of a mutex disturbs no other wait queue. */
  lemma WakesFirst(cb: seq<TCB>, was: map<Qid, seq<int>>, now: map<Qid, seq<int>>, sub: set<int>, tpri: set<int>,
      x: TCB, t: int, m: int)
    requires 0 <= t < |cb| && Wakes(cb, was, now, sub, tpri, x, t) && x.tstat.wait == On(m) && !x.tstat.runnable
    requires t == First(Q(was, Object(m)))
    ensures Served(was, now, [m], [])
  {
  }

  lemma NoneServed(queue: map<Qid, seq<int>>, m: int)
    requires Q(queue, Object(m)) == []
    ensures Served(queue, queue, [m], [])
  {
  }

  /** One round of the loop of mutex_release_all. */
  method ReleaseLast(k: Kernel, t: int) returns (ghost m: int)
    requires k.Queues(NULL, None) && k.Rest(NULL, false, t, NULL) && k.IsTask(t) && k.cb[t].lastmtx != NULL
    requires |k.held| == |k.cb|
    modifies k`cb, k`queue, k`pcb, k`mtx, k`timer, k`held
    ensures k.Queues(NULL, None) && k.Rest(NULL, false, t, NULL) && SameMode(old(k.pcb), k.pcb)
    ensures |k.pcb| == old(|k.pcb|)
    ensures |k.cb| == |old(k.cb)| == |k.held| && k.cb[t] == old(k.cb[t]).(lastmtx := k.cb[t].lastmtx)
    ensures m in old(k.held[t]) && k.held[t] == Minus(old(k.held[t]), m) && |k.held[t]| < old(|k.held[t]|)
    ensures OnePassed(old(k.cb), k.cb, old(k.mtx), k.mtx, old(k.queue), k.queue, t, m)
  {
    hide Linked, Ordered, Sorted, Distinct, Settled, SameMode, Timers, PriorityRule, WaitRule, Minus, Lists, Chain,
      Joins;
    ghost var cb, mtx, queue := k.cb, k.mtx, k.queue;
    var p := PopMutex(k, t, t);
    m := p;
    assert forall u {:trigger k.cb[u]} :: 0 <= u < |cb| && u != t ==> k.cb[u] == cb[u];
    ghost var f := First(Q(queue, Object(m)));
    if f != NULL {
      FirstWaits(k, On(m), f);
    }
    ghost var y := if f == NULL then k.cb[t] else k.cb[f];
    MutexRelease(k, p, t);
    if f != NULL {
      WakesFirst(k.cb, queue, k.queue, k.sub, k.tpri, y, f, m);
    } else {
      NoneServed(queue, m);
    }
  }

  /** p_lastmtx = p_lastmtx->p_prevmtx: the last mutex leaves the list. */
  method PopMutex(k: Kernel, t: int, ghost p0: int) returns (m: int)
    requires k.Queues(NULL, None) && k.Rest(NULL, false, p0, NULL) && (p0 == NULL || p0 == t) && k.IsTask(t)
    requires k.cb[t].lastmtx != NULL && |k.held| == |k.cb|
    modifies k`cb, k`held
    ensures k.Queues(NULL, None) && k.Rest(NULL, false, t, m) && 0 <= m < |k.mtx| && k.mtx[m].loctsk == t
    ensures m == old(k.cb[t]).lastmtx && m in old(k.held[t]) && k.held == old(k.held)[t := Minus(old(k.held[t]), m)]
    ensures |k.held[t]| < old(|k.held[t]|)
    ensures k.cb == old(k.cb)[t := old(k.cb[t]).(lastmtx := k.mtx[m].prevmtx)]
  {
    hide Linked, Ordered, Sorted, Distinct, Settled, SameMode, Timers, PriorityRule, WaitRule, Minus, Lists;
    m := k.cb[t].lastmtx;
    ListSound(k, t, p0, NULL);
    Unlocked(k.cb, k.mtx, k.held, p0, t, 0);
    Holder(k, t, m, p0);
    ghost var i := MinusPlace(k.held[t], m);
    var x := k.cb[t].(lastmtx := k.mtx[m].prevmtx);
    KeyKept(k.cb, k.queue, k.sub, k.tpri, t, x);
    TimersSame(k.cb, k.timer, NULL, false, t, x);
    k.held := k.held[t := Minus(k.held[t], m)];
    k.cb := k.cb[t := x];
  }

  lemma Holder(k: Kernel, t: int, m: int, p0: int)
    requires Lists(k.cb, k.mtx, k.held, p0, NULL) && k.IsTask(t) && |k.held| == |k.cb| && m in k.held[t]
    ensures 0 <= m < |k.mtx| && k.mtx[m].loctsk == t
  {
    assert Chain(k.mtx, k.cb[t].lastmtx, k.held[t]);
  }
}

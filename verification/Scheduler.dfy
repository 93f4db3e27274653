/** The scheduler (kernel/task.c:215-497, kernel/task.h:360-414).

    The incremental updates of the ready queues, the bit map and p_schedtsk are proved
    to agree with their definition from scratch, Settled.
  */
module Scheduler {

  import opened Bitmap
  import opened Options
  import opened Sequences
  import opened TaskQueues
  import opened KernelTables

  // ------ facts about the task to run

  /** The scheduled task is at home in the first nonempty ready queue. */
  lemma ScheduledTop(cb: seq<TCB>, queue: map<Qid, seq<int>>, t0: int, place: Option<Qid>, p: int, s: int)
    requires Linked(cb, queue, t0, place) && Highest(queue, p, s) && s != NULL
    ensures 0 <= s < |cb|
    ensures s != t0 ==> cb[s].tstat.runnable && cb[s].prc == p && Top(queue, p, cb[s].priority, s)
    ensures s == t0 ==> place.Some? && place.value.Ready? && place.value.prc == p && Top(queue, p, place.value.pri, s)
  {
    var r :| Top(queue, p, r, s);
    assert s in Q(queue, Ready(p, r));
    assert At(cb, t0, place, s, Ready(p, r));
  }

  /** A nonempty queue r of the processor, at least as high as the first one. */
  lemma TopRises(queue: map<Qid, seq<int>>, queue': map<Qid, seq<int>>, p: int, r: int, q: seq<int>, s: int)
    requires queue' == queue[Ready(p, r) := q] && q != [] && 0 <= r < TNUM_TPRI
    requires Highest(queue, p, s)
    requires s != NULL ==> exists r' :: r <= r' && Top(queue, p, r', s)
    requires NULL !in q
    ensures Highest(queue', p, q[0])
    ensures (s == NULL || exists r' :: r < r' && Top(queue, p, r', s)) ==> Q(queue, Ready(p, r)) == []
  {
    assert forall r' {:trigger Q(queue', Ready(p, r'))} :: r' != r ==>
           Q(queue', Ready(p, r')) == Q(queue, Ready(p, r'));
    assert Top(queue', p, r, q[0]);
    if s != NULL {
      var r' :| r <= r' && Top(queue, p, r', s);
      TopUnique(queue, p, s);
    }
  }

  lemma TopUnique(queue: map<Qid, seq<int>>, p: int, s: int)
    ensures forall r, r' {:trigger Top(queue, p, r, s), Top(queue, p, r', s)} ::
            Top(queue, p, r, s) && Top(queue, p, r', s) ==> r == r'
  {
  }

  /** A change below the first queue. */
  lemma TopStays(queue: map<Qid, seq<int>>, queue': map<Qid, seq<int>>, p: int, r: int, q: seq<int>, r': int, s: int)
    requires queue' == queue[Ready(p, r) := q] && Top(queue, p, r', s) && s != NULL
    requires (r' < r || (r == r' && q != [] && q[0] == s))
    ensures Highest(queue', p, s)
  {
    assert forall r'' {:trigger Q(queue', Ready(p, r''))} :: r'' != r ==>
           Q(queue', Ready(p, r'')) == Q(queue, Ready(p, r''));
    assert Top(queue', p, r', s);
  }

  /** Other processors do not notice. */
  lemma OthersSettled(queue: map<Qid, seq<int>>, queue': map<Qid, seq<int>>, pcb: seq<PCB>, pcb': seq<PCB>, ntsk: int,
      p: int)
    requires Settled(queue, pcb, ntsk) && |pcb'| == |pcb| && 0 <= p < |pcb|
    requires forall q: Qid {:trigger Q(queue', q)} :: (q.Ready? && q.prc != p) ==> Q(queue', q) == Q(queue, q)
    requires forall i {:trigger pcb'[i]} :: 0 <= i < |pcb| && i != p ==> pcb'[i] == pcb[i]
    requires Mapped(queue', p, pcb'[p].primap) && (pcb'[p].dspflg ==> Highest(queue', p, pcb'[p].schedtsk))
    requires !pcb'[p].dspflg ==> 0 <= pcb'[p].schedtsk < ntsk
    ensures Settled(queue', pcb', ntsk)
  {
    forall i | 0 <= i < |pcb'| && i != p
      ensures Mapped(queue', i, pcb'[i].primap) && (pcb'[i].dspflg ==> Highest(queue', i, pcb'[i].schedtsk))
    {
      assert Mapped(queue, i, pcb[i].primap);
      if pcb[i].dspflg && pcb[i].schedtsk != NULL {
        var r :| Top(queue, i, r, pcb[i].schedtsk);
        assert Top(queue', i, r, pcb[i].schedtsk);
      }
    }
  }

  // ------ ready queues

  // ------ processor control blocks

  /** Only p_schedtsk and the bit maps change; whether tasks may be dispatched and which
      ones run stays the same, and while they may not so does p_schedtsk. */
  ghost predicate SameMode(was: seq<PCB>, now: seq<PCB>) {
    && |was| == |now|
    && forall p {:trigger now[p]} :: 0 <= p < |was| ==>
         && now[p].dspflg == was[p].dspflg && now[p].runtsk == was[p].runtsk
         && (was[p].dspflg || now[p].schedtsk == was[p].schedtsk)
  }

  ghost function WithPrimap(pcb: seq<PCB>, p: int, primap: bv16): (r: seq<PCB>)
    requires 0 <= p < |pcb|
    ensures |r| == |pcb| && r[p].schedtsk == pcb[p].schedtsk && r[p].primap == primap
  {
    pcb[p := pcb[p].(primap := primap)]
  }

  ghost function WithSched(pcb: seq<PCB>, p: int, s: int): (r: seq<PCB>)
    requires 0 <= p < |pcb|
    ensures |r| == |pcb| && r[p].primap == pcb[p].primap
  {
    pcb[p := pcb[p].(schedtsk := if pcb[p].dspflg then s else pcb[p].schedtsk)]
  }

  lemma SameModeTrans(a: seq<PCB>, b: seq<PCB>, c: seq<PCB>)
    requires SameMode(a, b) && SameMode(b, c)
    ensures SameMode(a, c)
  {
    assert forall p {:trigger c[p]} :: 0 <= p < |c| ==>
             && b[p].dspflg == a[p].dspflg && b[p].runtsk == a[p].runtsk
             && (a[p].dspflg || b[p].schedtsk == a[p].schedtsk);
  }

  /** primap_set and primap_clear. */
  method SetPrimap(k: Kernel, p: int, primap: bv16)
    requires 0 <= p < |k.pcb|
    modifies k`pcb
    ensures k.pcb == WithPrimap(old(k.pcb), p, primap) && SameMode(old(k.pcb), k.pcb) && |k.pcb| == old(|k.pcb|)
  {
    k.pcb := k.pcb[p := k.pcb[p].(primap := primap)];
  }

  /** update_schedtsk_dsp, without the dispatch request to the other processor. */
  method UpdateSchedtsk(k: Kernel, p: int, s: int)
    requires 0 <= p < |k.pcb|
    modifies k`pcb
    ensures k.pcb == WithSched(old(k.pcb), p, s) && SameMode(old(k.pcb), k.pcb) && |k.pcb| == old(|k.pcb|)
  {
    if k.pcb[p].dspflg {
      k.pcb := k.pcb[p := k.pcb[p].(schedtsk := s)];
    }
  }

  // ------ ready queues

  /** The loops of queue_insert_subprio_tail and queue_insert_subprio_head: the place of
      a task of sub-priority `subpri`. */
  method SubprioPlace(k: Kernel, q: Qid, subpri: int, head: bool) returns (i: int)
    requires q.Ready? && q.pri in k.sub
    requires forall u {:trigger u in Q(k.queue, q)} :: u in Q(k.queue, q) ==> 0 <= u < |k.cb|
    requires Sorted(k.cb, Q(k.queue, q), k.sub, k.tpri, q, NULL)
    ensures if head then HeadPlace(k.cb, Q(k.queue, q), k.sub, k.tpri, q, subpri, i)
            else TailPlace(k.cb, Q(k.queue, q), k.sub, k.tpri, q, subpri, i)
    ensures var s := Q(k.queue, q);
      && 0 <= i <= |s|
      && forall j {:trigger s[j]} :: 0 <= j < |s| ==>
           && 0 <= s[j] < |k.cb|
           && var c := if k.cb[s[j]].boosted then 0 else k.cb[s[j]].subpri;
              j < i <==> if head then c < subpri else c <= subpri
  {
    var s := Q(k.queue, q);
    assert forall j {:trigger s[j]} :: 0 <= j < |s| ==> s[j] in Q(k.queue, q);
    i := 0;
    while i < |s|
      invariant 0 <= i <= |s|
      invariant forall j {:trigger s[j]} :: 0 <= j < i && 0 <= s[j] < |k.cb| ==>
                  if head then CurrentSubpri(k.cb[s[j]]) < subpri else CurrentSubpri(k.cb[s[j]]) <= subpri
    {
      assert s[i] in Q(k.queue, q);
      var c := CurrentSubpri(k.cb[s[i]]);
      if (if head then subpri <= c else subpri < c) {
        break;
      }
      i := i + 1;
    }
    forall j {:trigger s[j]} | i <= j < |s|
      ensures 0 <= s[j] < |k.cb| && if head then subpri <= CurrentSubpri(k.cb[s[j]])
              else subpri < CurrentSubpri(k.cb[s[j]])
    {
      assert s[i] in Q(k.queue, q) && s[j] in Q(k.queue, q);
    }
  }

  /** Queueing the task in transit in its ready queue: behind or before the tasks of
      its sub-priority, or of its priority where sub-priorities are not used. */
  method InsertReady(k: Kernel, t: int, head: bool) returns (i: int)
    requires 0 <= t < |k.cb| && k.cb[t].tstat.runnable
    requires Linked(k.cb, k.queue, t, None) && Ordered(k.cb, k.queue, k.sub, k.tpri, t)
    modifies k`queue
    ensures var q := Ready(k.cb[t].prc, k.cb[t].priority);
      Placed(k.cb, old(k.queue), k.sub, k.tpri, q, t, head, i) && PutIn(old(k.queue), k.queue, q, t, i)
    ensures Linked(k.cb, k.queue, NULL, None) && Ordered(k.cb, k.queue, k.sub, k.tpri, NULL)
  {
    var q := Ready(k.cb[t].prc, k.cb[t].priority);
    ReadyToInsert(k.cb, k.queue, k.sub, k.tpri, t, q);
    hide Linked, Ordered, Sorted;
    if k.cb[t].priority in k.sub {
      i := SubprioPlace(k, q, CurrentSubpri(k.cb[t]), head);
    } else {
      i := if head then 0 else |Q(k.queue, q)|;
    }
    Inserted(k.cb, k.queue, k.sub, k.tpri, t, q, i);
    hide TailPlace, HeadPlace;
    k.queue := k.queue[q := Plus(Q(k.queue, q), i, t)];
  }

  lemma SchedInRange(cb: seq<TCB>, queue: map<Qid, seq<int>>, pcb: seq<PCB>, t0: int, place: Option<Qid>, p: int)
    requires Linked(cb, queue, t0, place) && Settled(queue, pcb, |cb|) && 0 <= p < |pcb|
    ensures pcb[p].schedtsk == NULL || 0 <= pcb[p].schedtsk < |cb|
  {
    if pcb[p].dspflg && pcb[p].schedtsk != NULL {
      ScheduledTop(cb, queue, t0, place, p, pcb[p].schedtsk);
    }
  }

  /** The choice make_runnable makes is the right one. */
  lemma RunnableSettled(cb: seq<TCB>, queue: map<Qid, seq<int>>, queue': map<Qid, seq<int>>, pcb: seq<PCB>, t: int,
      p: int, r: int, i: int)
    requires Linked(cb, queue, t, None) && Settled(queue, pcb, |cb|) && 0 <= t < |cb|
    requires 0 <= p < |pcb| && 0 <= r < TNUM_TPRI && PutIn(queue, queue', Ready(p, r), t, i)
    ensures Q(queue', Ready(p, r)) != []
    ensures pcb[p].schedtsk == NULL || 0 <= pcb[p].schedtsk < |cb|
    ensures var s, q := pcb[p].schedtsk, Q(queue', Ready(p, r));
      var pcb' := WithPrimap(pcb, p, PrimapSet(pcb[p].primap, r));
      && (s == NULL || r < cb[s].priority ==> Settled(queue', WithSched(pcb', p, t), |cb|))
      && (s == NULL || r <= cb[s].priority ==> Settled(queue', WithSched(pcb', p, q[0]), |cb|))
      && (s != NULL && r > cb[s].priority ==> Settled(queue', pcb', |cb|))
  {
    SchedInRange(cb, queue, pcb, t, None, p);
    NowhereInTransit(cb, queue, t);
    var s, old', q := pcb[p].schedtsk, Q(queue, Ready(p, r)), Plus(Q(queue, Ready(p, r)), i, t);
    var s' := if s == NULL || r < cb[s].priority then t else if r == cb[s].priority then q[0] else s;
    assert forall u {:trigger u in q} :: u in q ==> u == t || u in old' by {
      assert forall j {:trigger q[j]} :: 0 <= j < |q| ==> q[j] == t || q[j] in old';
    }
    assert NULL !in q;
    if pcb[p].dspflg {
      if s != NULL {
        ScheduledTop(cb, queue, t, None, p, s);
      }
      if s == NULL || r <= cb[s].priority {
        TopRises(queue, queue', p, r, q, s);
        assert (s == NULL || r < cb[s].priority) ==> old' == [] && q[0] == t;
      } else {
        TopStays(queue, queue', p, r, q, cb[s].priority, s);
      }
      assert Highest(queue', p, s');
    }
    RemappedIn(queue, queue', p, r, t, i, pcb[p].primap);
    hide Linked, Highest, Mapped, Bit;
    if s == NULL || r <= cb[s].priority {
      OthersSettled(queue, queue', pcb, WithSched(WithPrimap(pcb, p, PrimapSet(pcb[p].primap, r)), p, s'), |cb|, p);
      assert pcb[p].dspflg ==> s' == q[0];
    } else {
      OthersSettled(queue, queue', pcb, WithPrimap(pcb, p, PrimapSet(pcb[p].primap, r)), |cb|, p);
    }
  }

  /** make_runnable: the task goes behind its equals, and runs if it is the highest. */
  method MakeRunnable(k: Kernel, t: int) returns (ghost i: int)
    requires k.Queues(t, None) && t != NULL && k.cb[t].tstat.runnable
    modifies k`queue, k`pcb
    ensures k.Queues(NULL, None) && SameMode(old(k.pcb), k.pcb) && |k.pcb| == old(|k.pcb|)
    ensures var q := Ready(k.cb[t].prc, k.cb[t].priority);
      Placed(k.cb, old(k.queue), k.sub, k.tpri, q, t, false, i) && PutIn(old(k.queue), k.queue, q, t, i)
  {
    hide Linked, Ordered, Settled, Placed, PutIn, SameMode, WithSched, WithPrimap, PrimapSet;
    var p, r := k.cb[t].prc, k.cb[t].priority;
    ghost var queue, pcb := k.queue, k.pcb;
    i := InsertReady(k, t, false);
    RunnableSettled(k.cb, queue, k.queue, pcb, t, p, r, i);
    SetPrimap(k, p, PrimapSet(k.pcb[p].primap, r));
    ghost var pcb1 := k.pcb;
    var s := k.pcb[p].schedtsk;
    if s == NULL || r < k.cb[s].priority {
      UpdateSchedtsk(k, p, t);
      SameModeTrans(pcb, pcb1, k.pcb);
    } else if r == k.cb[s].priority {
      UpdateSchedtsk(k, p, Q(k.queue, Ready(p, r))[0]);
      SameModeTrans(pcb, pcb1, k.pcb);
    }
    assert Settled(k.queue, k.pcb, |k.cb|);
  }

  /** search_schedtsk, or NULL if no task is ready. */
  method HighestTask(k: Kernel, p: int) returns (s: int)
    requires 0 <= p < |k.pcb| && Mapped(k.queue, p, k.pcb[p].primap)
    requires forall r {:trigger Q(k.queue, Ready(p, r))} :: NULL !in Q(k.queue, Ready(p, r))
    ensures Highest(k.queue, p, s)
  {
    EmptyMap(k.pcb[p].primap);
    hide Bit;
    if k.pcb[p].primap == 0 {
      return NULL;
    }
    var r := BitmapSearch(k.pcb[p].primap);
    s := Q(k.queue, Ready(p, r))[0];
    assert Top(k.queue, p, r, s);
  }

  lemma RemappedOut(queue: map<Qid, seq<int>>, queue': map<Qid, seq<int>>, p: int, r: int, t: int, primap: bv16)
    requires 0 <= r < TNUM_TPRI && t in Q(queue, Ready(p, r)) && TakenOut(queue, queue', Ready(p, r), t)
    requires Mapped(queue, p, primap)
    ensures Mapped(queue', p, if Q(queue', Ready(p, r)) == [] then PrimapClear(primap, r) else primap)
  {
    var cleared := PrimapClear(primap, r);
    hide Bit, PrimapClear, Minus;
    assert forall r' {:trigger Q(queue', Ready(p, r'))} :: r' != r ==>
           Q(queue', Ready(p, r')) == Q(queue, Ready(p, r'));
  }

  lemma RemappedIn(queue: map<Qid, seq<int>>, queue': map<Qid, seq<int>>, p: int, r: int, t: int, i: int, primap: bv16)
    requires 0 <= r < TNUM_TPRI && PutIn(queue, queue', Ready(p, r), t, i) && Mapped(queue, p, primap)
    ensures Mapped(queue', p, PrimapSet(primap, r))
  {
    var marked := PrimapSet(primap, r);
    hide Bit, PrimapSet;
    assert forall r' {:trigger Q(queue', Ready(p, r'))} :: r' != r ==>
           Q(queue', Ready(p, r')) == Q(queue, Ready(p, r'));
    assert Q(queue', Ready(p, r)) != [];
  }

  /** Taking out a task that is not the one to run leaves that one the highest; if it
      is, its successor in the queue is the highest. */
  lemma RemovedTop(cb: seq<TCB>, queue: map<Qid, seq<int>>, queue': map<Qid, seq<int>>, t: int, p: int, r: int, s: int)
    requires Linked(cb, queue, t, Some(Ready(p, r))) && 0 <= t < |cb| && 0 <= r < TNUM_TPRI
    requires TakenOut(queue, queue', Ready(p, r), t)
    requires Highest(queue, p, s)
    ensures s != t ==> Highest(queue', p, s)
    ensures s == t && Q(queue', Ready(p, r)) != [] ==> Highest(queue', p, Q(queue', Ready(p, r))[0])
  {
    if s == t {
      SuccessorTop(cb, queue, queue', t, p, r);
    } else {
      hide Linked, Distinct, Minus;
      DeletedLinked(cb, queue, t, Ready(p, r));
      var k := MinusPlace(Q(queue, Ready(p, r)), t);
      assert forall r' {:trigger Q(queue', Ready(p, r'))} :: r' != r ==>
             Q(queue', Ready(p, r')) == Q(queue, Ready(p, r'));
      if s != NULL {
        ScheduledTop(cb, queue, t, Some(Ready(p, r)), p, s);
        assert Top(queue', p, cb[s].priority, s);
      }
    }
  }

  lemma SuccessorTop(cb: seq<TCB>, queue: map<Qid, seq<int>>, queue': map<Qid, seq<int>>, t: int, p: int, r: int)
    requires Linked(cb, queue, t, Some(Ready(p, r))) && 0 <= t < |cb| && 0 <= r < TNUM_TPRI
    requires TakenOut(queue, queue', Ready(p, r), t)
    requires Highest(queue, p, t)
    ensures Q(queue', Ready(p, r)) != [] ==> Highest(queue', p, Q(queue', Ready(p, r))[0])
  {
    hide Minus, Distinct;
    var q := Q(queue', Ready(p, r));
    DeletedLinked(cb, queue, t, Ready(p, r));
    ScheduledTop(cb, queue, t, Some(Ready(p, r)), p, t);
    assert forall r' {:trigger Q(queue', Ready(p, r'))} :: r' != r ==>
           Q(queue', Ready(p, r')) == Q(queue, Ready(p, r'));
    if q != [] {
      assert q[0] in q;
      assert At(cb, t, None, q[0], Ready(p, r));
      assert Top(queue', p, r, q[0]);
    }
  }

  lemma RemovedSettled(cb: seq<TCB>, queue: map<Qid, seq<int>>, queue': map<Qid, seq<int>>, pcb: seq<PCB>, t: int,
      p: int, r: int)
    requires Linked(cb, queue, t, Some(Ready(p, r))) && Settled(queue, pcb, |cb|) && 0 <= t < |cb|
    requires 0 <= p < |pcb| && 0 <= r < TNUM_TPRI && TakenOut(queue, queue', Ready(p, r), t)
    ensures var q, pcb' := Q(queue', Ready(p, r)), WithPrimap(pcb, p, PrimapClear(pcb[p].primap, r));
      && (q != [] ==> if pcb[p].schedtsk == t then Settled(queue', WithSched(pcb, p, q[0]), |cb|)
         else Settled(queue', pcb, |cb|))
      && (q == [] && pcb[p].schedtsk != t ==> Settled(queue', pcb', |cb|))
      && (q == [] ==> Mapped(queue', p, pcb'[p].primap))
      && (q == [] && pcb[p].schedtsk == t ==>
            forall h {:trigger Highest(queue', p, h)} :: Highest(queue', p, h) ==>
              Settled(queue', WithSched(pcb', p, h), |cb|))
  {
    var s, q := pcb[p].schedtsk, Q(queue', Ready(p, r));
    if pcb[p].dspflg {
      RemovedTop(cb, queue, queue', t, p, r, s);
    }
    DeletedLinked(cb, queue, t, Ready(p, r));
    RemappedOut(queue, queue', p, r, t, pcb[p].primap);
    var cleared := PrimapClear(pcb[p].primap, r);
    hide Linked, Bit, Top, Highest, PrimapClear, Minus;
    if q != [] {
      assert Mapped(queue', p, pcb[p].primap);
      OthersSettled(queue, queue', pcb, if s == t then WithSched(pcb, p, q[0]) else pcb, |cb|, p);
    } else {
      var pcb' := WithPrimap(pcb, p, cleared);
      assert Mapped(queue', p, cleared);
      hide Mapped;
      if s != t {
        OthersSettled(queue, queue', pcb, pcb', |cb|, p);
      } else {
        forall h | Highest(queue', p, h)
          ensures Settled(queue', WithSched(pcb', p, h), |cb|)
        {
          OthersSettled(queue, queue', pcb, WithSched(pcb', p, h), |cb|, p);
        }
      }
    }
  }

  /** make_non_runnable: the task is taken out of the ready queue its priority says. */
  method MakeNonRunnable(k: Kernel, t: int)
    requires 0 <= t < |k.cb| && k.Queues(t, Some(Ready(k.cb[t].prc, k.cb[t].priority)))
    modifies k`queue, k`pcb
    ensures k.Queues(t, None) && SameMode(old(k.pcb), k.pcb) && |k.pcb| == old(|k.pcb|)
    ensures TakenOut(old(k.queue), k.queue, Ready(k.cb[t].prc, k.cb[t].priority), t)
  {
    hide Linked, Distinct, Ordered, Sorted, Settled, SameMode, WithSched, WithPrimap, PrimapClear, Minus, Mapped,
      Highest, Bit;
    var p, r := k.cb[t].prc, k.cb[t].priority;
    var q := Ready(p, r);
    ghost var queue, pcb := k.queue, k.pcb;
    DeletedLinked(k.cb, k.queue, t, q);
    DeletedOrdered(k.cb, k.queue, k.sub, k.tpri, t, q);
    k.queue := k.queue[q := Minus(Q(k.queue, q), t)];
    RemovedSettled(k.cb, queue, k.queue, pcb, t, p, r);
    Rescheduled(k, t, p, r, k.pcb);
  }

  /** The second half of make_non_runnable. */
  method Rescheduled(k: Kernel, t: int, p: int, r: int, ghost pcb: seq<PCB>)
    requires Linked(k.cb, k.queue, t, None) && 0 <= p < |k.pcb| && 0 <= r < TNUM_TPRI && k.pcb == pcb
    requires var q, pcb' := Q(k.queue, Ready(p, r)), WithPrimap(pcb, p, PrimapClear(pcb[p].primap, r));
      && (q != [] ==> if pcb[p].schedtsk == t then Settled(k.queue, WithSched(pcb, p, q[0]), |k.cb|)
         else Settled(k.queue, pcb, |k.cb|))
      && (q == [] && pcb[p].schedtsk != t ==> Settled(k.queue, pcb', |k.cb|))
      && (q == [] ==> Mapped(k.queue, p, pcb'[p].primap))
      && (q == [] && pcb[p].schedtsk == t ==>
            forall h {:trigger Highest(k.queue, p, h)} :: Highest(k.queue, p, h) ==>
              Settled(k.queue, WithSched(pcb', p, h), |k.cb|))
    modifies k`pcb
    ensures Settled(k.queue, k.pcb, |k.cb|) && SameMode(pcb, k.pcb) && |k.pcb| == |pcb|
  {
    hide Linked, Distinct, Settled, WithSched, WithPrimap, PrimapClear, Mapped, Highest, Bit;
    NullNotQueued(k.cb, k.queue, t, None, p);
    if Q(k.queue, Ready(p, r)) == [] {
      SetPrimap(k, p, PrimapClear(k.pcb[p].primap, r));
      ghost var pcb1 := k.pcb;
      if k.pcb[p].schedtsk == t {
        var h := HighestTask(k, p);
        UpdateSchedtsk(k, p, h);
        SameModeTrans(pcb, pcb1, k.pcb);
      }
    } else if k.pcb[p].schedtsk == t {
      UpdateSchedtsk(k, p, Q(k.queue, Ready(p, r))[0]);
    }
  }

  lemma NullNotQueued(cb: seq<TCB>, queue: map<Qid, seq<int>>, t0: int, place: Option<Qid>, p: int)
    requires Linked(cb, queue, t0, place)
    ensures forall r {:trigger Q(queue, Ready(p, r))} :: NULL !in Q(queue, Ready(p, r))
  {
    forall r
      ensures NULL !in Q(queue, Ready(p, r))
    {
      assert !At(cb, t0, place, NULL, Ready(p, r));
    }
  }

  // ------ change_priority

  /** The scheduled task itself rises to another queue. */
  lemma SelfRises(cb: seq<TCB>, queue: map<Qid, seq<int>>, mid: map<Qid, seq<int>>, queue': map<Qid, seq<int>>, t: int,
      p: int, r: int, r': int, i: int)
    requires Linked(cb, queue, t, Some(Ready(p, r))) && Highest(queue, p, t) && 0 <= t < |cb| && 0 <= r' < r < TNUM_TPRI
    requires TakenOut(queue, mid, Ready(p, r), t) && PutIn(mid, queue', Ready(p, r'), t, i)
    ensures Highest(queue', p, t)
  {
    hide Minus;
    ScheduledTop(cb, queue, t, Some(Ready(p, r)), p, t);
    assert forall q {:trigger Q(mid, q)} :: q != Ready(p, r) ==> Q(mid, q) == Q(queue, q);
    assert forall q {:trigger Q(queue', q)} :: q != Ready(p, r') ==> Q(queue', q) == Q(mid, q);
    assert Q(mid, Ready(p, r')) == [];
    assert Q(queue', Ready(p, r')) == [t];
    assert Top(queue', p, r', t);
  }

  /** The scheduled task itself moves to another queue. */
  lemma SelfRequeued(cb: seq<TCB>, queue: map<Qid, seq<int>>, mid: map<Qid, seq<int>>, queue': map<Qid, seq<int>>,
      pcb: seq<PCB>, t: int, p: int, r: int, r': int, i: int)
    requires Linked(cb, queue, t, Some(Ready(p, r))) && Settled(queue, pcb, |cb|) && 0 <= t < |cb|
    requires 0 <= p < |pcb| && 0 <= r < TNUM_TPRI && 0 <= r' < TNUM_TPRI && pcb[p].schedtsk == t
    requires TakenOut(queue, mid, Ready(p, r), t) && PutIn(mid, queue', Ready(p, r'), t, i)
    ensures var pcb1 := if Q(mid, Ready(p, r)) == [] then WithPrimap(pcb, p, PrimapClear(pcb[p].primap, r)) else pcb;
      var pcb2 := WithPrimap(pcb1, p, PrimapSet(pcb1[p].primap, r'));
      && Mapped(queue', p, pcb2[p].primap)
      && (r' < r ==> Settled(queue', pcb2, |cb|))
      && forall h {:trigger Highest(queue', p, h)} :: Highest(queue', p, h) ==>
           Settled(queue', WithSched(pcb2, p, h), |cb|)
  {
    hide Linked, Distinct, Settled, Mapped, Highest, Bit, PrimapClear, PrimapSet, PutIn, TakenOut, WithPrimap,
      WithSched, Minus, Plus;
    var pcb1 := if Q(mid, Ready(p, r)) == [] then WithPrimap(pcb, p, PrimapClear(pcb[p].primap, r)) else pcb;
    var pcb2 := WithPrimap(pcb1, p, PrimapSet(pcb1[p].primap, r'));
    DeletedLinked(cb, queue, t, Ready(p, r));
    SettledHere(queue, pcb, |cb|, p);
    RemappedOut(queue, mid, p, r, t, pcb[p].primap);
    RemappedIn(mid, queue', p, r', t, i, pcb1[p].primap);
    MovedElsewhere(queue, mid, queue', p, r, r', t, i);
    WithPrimapOnly(pcb, p, PrimapClear(pcb[p].primap, r), PrimapSet(pcb1[p].primap, r'));
    if r' < r {
      if pcb[p].dspflg {
        SelfRises(cb, queue, mid, queue', t, p, r, r', i);
      }
      OthersSettled(queue, queue', pcb, pcb2, |cb|, p);
    }
    forall h | Highest(queue', p, h)
      ensures Settled(queue', WithSched(pcb2, p, h), |cb|)
    {
      WithSchedOnly(pcb, pcb2, p, h);
      OthersSettled(queue, queue', pcb, WithSched(pcb2, p, h), |cb|, p);
    }
  }

  lemma SettledHere(queue: map<Qid, seq<int>>, pcb: seq<PCB>, ntsk: int, p: int)
    requires Settled(queue, pcb, ntsk) && 0 <= p < |pcb|
    ensures Mapped(queue, p, pcb[p].primap)
    ensures if pcb[p].dspflg then Highest(queue, p, pcb[p].schedtsk) else 0 <= pcb[p].schedtsk < ntsk
  {
  }

  lemma MovedElsewhere(queue: map<Qid, seq<int>>, mid: map<Qid, seq<int>>, queue': map<Qid, seq<int>>, p: int, r: int,
      r': int, t: int, i: int)
    requires TakenOut(queue, mid, Ready(p, r), t) && PutIn(mid, queue', Ready(p, r'), t, i)
    ensures forall q: Qid {:trigger Q(queue', q)} :: q.Ready? && q.prc != p ==> Q(queue', q) == Q(queue, q)
  {
  }

  lemma WithPrimapOnly(pcb: seq<PCB>, p: int, m1: bv16, m2: bv16)
    requires 0 <= p < |pcb|
    ensures WithPrimap(WithPrimap(pcb, p, m1), p, m2) == WithPrimap(pcb, p, m2)
    ensures WithPrimap(pcb, p, m2)[p].dspflg == pcb[p].dspflg
    ensures forall i {:trigger WithPrimap(pcb, p, m2)[i]} :: 0 <= i < |pcb| && i != p ==>
            WithPrimap(pcb, p, m2)[i] == pcb[i]
  {
  }

  lemma WithSchedOnly(pcb: seq<PCB>, pcb': seq<PCB>, p: int, s: int)
    requires 0 <= p < |pcb| == |pcb'|
    requires forall i {:trigger pcb'[i]} :: 0 <= i < |pcb| && i != p ==> pcb'[i] == pcb[i]
    ensures WithSched(pcb', p, s)[p] == pcb'[p].(schedtsk := if pcb'[p].dspflg then s else pcb'[p].schedtsk)
    ensures forall i {:trigger WithSched(pcb', p, s)[i]} :: 0 <= i < |pcb| && i != p ==>
            WithSched(pcb', p, s)[i] == pcb[i]
  {
  }

  /** The first step of change_priority for a runnable task: its new priority takes it
      out of its ready queue. */
  method LeaveLevel(k: Kernel, t: int, newpri: int)
    requires 0 <= t < |k.cb| && k.cb[t].tstat.runnable && 0 <= newpri < TNUM_TPRI
    requires k.Queues(t, Home(k.cb[t]))
    modifies k`cb, k`queue
    ensures var p, r := old(k.cb[t]).prc, old(k.cb[t]).priority;
      && k.cb == old(k.cb)[t := old(k.cb[t]).(priority := newpri)]
      && TakenOut(old(k.queue), k.queue, Ready(p, r), t)
      && Linked(k.cb, old(k.queue), t, Some(Ready(p, r))) && Linked(k.cb, k.queue, t, None)
    ensures Ordered(k.cb, k.queue, k.sub, k.tpri, t) && InRange(k.cb, |k.pcb|) && k.cb[t].prc == old(k.cb[t]).prc
    ensures |k.cb| == old(|k.cb|)
  {
    var q := Ready(k.cb[t].prc, k.cb[t].priority);
    var x := k.cb[t].(priority := newpri);
    RewrittenInTransit(k.cb, k.queue, t, Home(k.cb[t]), x);
    RewrittenOrdered(k.cb, k.queue, k.sub, k.tpri, t, x);
    hide Linked, Ordered, Settled;
    k.cb := k.cb[t := x];
    DeletedLinked(k.cb, k.queue, t, q);
    DeletedOrdered(k.cb, k.queue, k.sub, k.tpri, t, q);
    k.queue := k.queue[q := Minus(Q(k.queue, q), t)];
  }

  /** change_priority for a runnable task. */
  method ChangeRunnable(k: Kernel, t: int, newpri: int, mtxmode: bool)
    requires 0 <= t < |k.cb| && k.cb[t].tstat.runnable && 0 <= newpri < TNUM_TPRI
    requires k.Queues(t, Home(k.cb[t]))
    modifies k`cb, k`queue, k`pcb
    ensures k.Queues(NULL, None) && SameMode(old(k.pcb), k.pcb) && |k.pcb| == old(|k.pcb|)
    ensures k.cb == old(k.cb)[t := old(k.cb[t]).(priority := newpri)]
    ensures var p, r := old(k.cb[t]).prc, old(k.cb[t]).priority;
      Requeued(k.cb, old(k.queue), k.queue, k.sub, k.tpri, Ready(p, r), Ready(p, newpri), t, mtxmode)
  {
    hide Linked, Distinct, Ordered, Sorted, Settled, PutIn, TakenOut, Placed, Plus, Minus, WithPrimap, WithSched,
      Mapped, Highest, SameMode, PrimapSet, PrimapClear, Bit;
    var p, r := k.cb[t].prc, k.cb[t].priority;
    ghost var queue, pcb := k.queue, k.pcb;
    LeaveLevel(k, t, newpri);
    ghost var mid := k.queue;
    RemovedSettled(k.cb, queue, mid, pcb, t, p, r);
    if Q(k.queue, Ready(p, r)) == [] {
      SetPrimap(k, p, PrimapClear(k.pcb[p].primap, r));
    }
    ghost var pcb1 := k.pcb;
    ghost var i := InsertReady(k, t, mtxmode);
    RequeuedAt(k.cb, queue, mid, k.queue, k.sub, k.tpri, Ready(p, r), Ready(p, newpri), t, mtxmode, i);
    SetPrimap(k, p, PrimapSet(k.pcb[p].primap, newpri));
    ghost var pcb2 := k.pcb;
    SameModeTrans(pcb, pcb1, pcb2);
    NotEmptied(k.cb, queue, pcb, t, p, r);
    if k.pcb[p].schedtsk == t {
      SelfRequeued(k.cb, queue, mid, k.queue, pcb, t, p, r, newpri, i);
      if newpri >= r {
        NullNotQueued(k.cb, k.queue, NULL, None, p);
        var h := HighestTask(k, p);
        UpdateSchedtsk(k, p, h);
        SameModeTrans(pcb, pcb2, k.pcb);
      }
    } else {
      RunnableSettled(k.cb, mid, k.queue, pcb1, t, p, newpri, i);
      if newpri <= k.cb[k.pcb[p].schedtsk].priority {
        UpdateSchedtsk(k, p, Q(k.queue, Ready(p, newpri))[0]);
        SameModeTrans(pcb, pcb2, k.pcb);
      }
    }
    assert Settled(k.queue, k.pcb, |k.cb|);
    assert SameMode(pcb, k.pcb);
  }

  lemma RequeuedAt(cb: seq<TCB>, was: map<Qid, seq<int>>, mid: map<Qid, seq<int>>, now: map<Qid, seq<int>>,
      sub: set<int>, tpri: set<int>, from: Qid, to: Qid, t: int, head: bool, i: int)
    requires 0 <= t < |cb| && TakenOut(was, mid, from, t) && PutIn(mid, now, to, t, i)
    requires Placed(cb, mid, sub, tpri, to, t, head, i)
    ensures Requeued(cb, was, now, sub, tpri, from, to, t, head)
  {
  }

  /** While a task is ready on it, the processor has a task to run. */
  lemma NotEmptied(cb: seq<TCB>, queue: map<Qid, seq<int>>, pcb: seq<PCB>, t: int, p: int, r: int)
    requires Linked(cb, queue, t, Some(Ready(p, r))) && 0 <= t < |cb| && Settled(queue, pcb, |cb|) && 0 <= p < |pcb|
    requires 0 <= r < TNUM_TPRI
    ensures 0 <= pcb[p].schedtsk < |cb|
  {
    SchedInRange(cb, queue, pcb, t, Some(Ready(p, r)), p);
    assert At(cb, t, Some(Ready(p, r)), t, Ready(p, r));
  }

  // ------ wait queues

  /** The loop of queue_insert_tpri. */
  method TpriPlace(k: Kernel, w: int, pri: int) returns (i: int)
    requires w in k.tpri
    requires forall u {:trigger u in Q(k.queue, Object(w))} :: u in Q(k.queue, Object(w)) ==> 0 <= u < |k.cb|
    requires Sorted(k.cb, Q(k.queue, Object(w)), k.sub, k.tpri, Object(w), NULL)
    ensures TailPlace(k.cb, Q(k.queue, Object(w)), k.sub, k.tpri, Object(w), pri, i)
  {
    var s := Q(k.queue, Object(w));
    i := 0;
    while i < |s|
      invariant 0 <= i <= |s|
      invariant forall j {:trigger s[j]} :: 0 <= j < i && 0 <= s[j] < |k.cb| ==> k.cb[s[j]].priority <= pri
    {
      assert s[i] in Q(k.queue, Object(w));
      if pri < k.cb[s[i]].priority {
        break;
      }
      i := i + 1;
    }
    forall j {:trigger s[j]} | i <= j < |s|
      ensures 0 <= s[j] < |k.cb| && pri < k.cb[s[j]].priority
    {
      assert s[i] in Q(k.queue, Object(w)) && s[j] in Q(k.queue, Object(w));
    }
  }

  /** wobj_queue_insert, and the insertion into a receive queue: by priority where the
      object has TA_TPRI, else at the end. */
  method InsertWait(k: Kernel, t: int, q: Qid) returns (i: int)
    requires 0 <= t < |k.cb| && !q.Ready? && Home(k.cb[t]) == Some(q)
    requires Linked(k.cb, k.queue, t, None) && Ordered(k.cb, k.queue, k.sub, k.tpri, t)
    modifies k`queue
    ensures Placed(k.cb, old(k.queue), k.sub, k.tpri, q, t, false, i) && PutIn(old(k.queue), k.queue, q, t, i)
    ensures Linked(k.cb, k.queue, NULL, None) && Ordered(k.cb, k.queue, k.sub, k.tpri, NULL)
  {
    hide Linked, Ordered, Sorted, Distinct;
    ReadyToInsert(k.cb, k.queue, k.sub, k.tpri, t, q);
    if q.Object? && q.w in k.tpri {
      i := TpriPlace(k, q.w, k.cb[t].priority);
    } else {
      i := |Q(k.queue, q)|;
    }
    Inserted(k.cb, k.queue, k.sub, k.tpri, t, q, i);
    k.queue := k.queue[q := Plus(Q(k.queue, q), i, t)];
  }

  lemma WaitMoved(cb: seq<TCB>, queue: map<Qid, seq<int>>, pcb: seq<PCB>, queue': map<Qid, seq<int>>, ntsk: int)
    requires Settled(queue, pcb, ntsk)
    requires forall p, r {:trigger Q(queue', Ready(p, r))} :: Q(queue', Ready(p, r)) == Q(queue, Ready(p, r))
    ensures Settled(queue', pcb, ntsk)
  {
    forall p | 0 <= p < |pcb|
      ensures Mapped(queue', p, pcb[p].primap) && (pcb[p].dspflg ==> Highest(queue', p, pcb[p].schedtsk))
    {
      assert Mapped(queue, p, pcb[p].primap);
      if pcb[p].dspflg && pcb[p].schedtsk != NULL {
        var r :| Top(queue, p, r, pcb[p].schedtsk);
        assert Top(queue', p, r, pcb[p].schedtsk);
      }
    }
  }

  /** wobj_change_priority, for an object with TA_TPRI: the task in the wait queue gets
      the place its new priority says. */
  method WobjChangePriority(k: Kernel, t: int, w: int)
    requires 0 <= t < |k.cb| && !k.cb[t].tstat.runnable && k.cb[t].tstat.wait == On(w)
    requires k.Queues(t, Some(Object(w)))
    modifies k`queue
    ensures k.Queues(NULL, None)
    ensures Requeued(k.cb, old(k.queue), k.queue, k.sub, k.tpri, Object(w), Object(w), t, false)
  {
    hide Linked, Ordered, Sorted, Distinct, Settled, PutIn, Placed, Requeued, Minus;
    ghost var queue, q := k.queue, Object(w);
    DeletedLinked(k.cb, k.queue, t, q);
    DeletedOrdered(k.cb, k.queue, k.sub, k.tpri, t, q);
    k.queue := k.queue[Object(w) := Minus(Q(k.queue, Object(w)), t)];
    ghost var mid := k.queue;
    ghost var i := InsertWait(k, t, Object(w));
    RequeuedAt(k.cb, queue, mid, k.queue, k.sub, k.tpri, q, q, t, false, i);
    RequeuedReady(k.cb, queue, mid, k.queue, w, t, i);
    WaitMoved(k.cb, queue, k.pcb, k.queue, |k.cb|);
  }

  lemma RequeuedReady(cb: seq<TCB>, queue: map<Qid, seq<int>>, mid: map<Qid, seq<int>>, queue': map<Qid, seq<int>>,
      w: int, t: int, i: int)
    requires TakenOut(queue, mid, Object(w), t) && PutIn(mid, queue', Object(w), t, i)
    ensures forall p, r {:trigger Q(queue', Ready(p, r))} :: Q(queue', Ready(p, r)) == Q(queue, Ready(p, r))
  {
  }

  /** Task t, whose control block was x, has got the place its new priority says: in its
      new ready queue before or behind its equals, or in a wait queue with TA_TPRI. */
  ghost predicate Repositioned(cb: seq<TCB>, was: map<Qid, seq<int>>, now: map<Qid, seq<int>>, sub: set<int>,
      tpri: set<int>, x: TCB, t: int, head: bool)
    requires 0 <= t < |cb|
  {
    if x.tstat.runnable then
      Requeued(cb, was, now, sub, tpri, Ready(x.prc, x.priority), Ready(x.prc, cb[t].priority), t, head)
    else if x.tstat.wait.On? && x.tstat.wait.w in tpri then
      Requeued(cb, was, now, sub, tpri, Object(x.tstat.wait.w), Object(x.tstat.wait.w), t, false)
    else now == was
  }

  /** change_priority: a runnable task goes to its new ready queue, before its equals
      in mutex mode and behind them otherwise; a task in a wait queue sorted by
      priority goes to its new place there. */
  method ChangePriority(k: Kernel, t: int, newpri: int, mtxmode: bool)
    requires 0 <= t < |k.cb| && 0 <= newpri < TNUM_TPRI
    requires k.Queues(t, Home(k.cb[t]))
    modifies k`cb, k`queue, k`pcb
    ensures k.Queues(NULL, None) && SameMode(old(k.pcb), k.pcb) && |k.pcb| == old(|k.pcb|)
    ensures k.cb == old(k.cb)[t := old(k.cb[t]).(priority := newpri)]
    ensures Repositioned(k.cb, old(k.queue), k.queue, k.sub, k.tpri, old(k.cb[t]), t, mtxmode)
  {
    hide Linked, Ordered, Sorted, Distinct, Settled, Requeued, SameMode;
    if k.cb[t].tstat.runnable {
      ChangeRunnable(k, t, newpri, mtxmode);
    } else {
      ghost var pcb := k.pcb;
      SameModeRefl(pcb);
      var x := k.cb[t].(priority := newpri);
      RewrittenInTransit(k.cb, k.queue, t, Home(k.cb[t]), x);
      RewrittenOrdered(k.cb, k.queue, k.sub, k.tpri, t, x);
      k.cb := k.cb[t := x];
      if x.tstat.wait.On? && x.tstat.wait.w in k.tpri {
        WobjChangePriority(k, t, x.tstat.wait.w);
      } else {
        UnkeyedOrdered(k.cb, k.queue, k.sub, k.tpri, t);
      }
    }
  }

  lemma SameModeRefl(pcb: seq<PCB>)
    ensures SameMode(pcb, pcb)
  {
  }

  // ------ change_subprio and rotate_ready_queue

  /** Another order within one ready queue: only the head of it can become the task to
      run, and only if this is the queue of the one before. */
  lemma ReorderedSettled(cb: seq<TCB>, queue: map<Qid, seq<int>>, queue': map<Qid, seq<int>>, pcb: seq<PCB>, t0: int,
      place: Option<Qid>, p: int, r: int, q: seq<int>)
    requires Linked(cb, queue, t0, place) && Settled(queue, pcb, |cb|) && 0 <= p < |pcb| && 0 <= r < TNUM_TPRI
    requires t0 == NULL || (0 <= t0 < |cb| && place == Home(cb[t0]))
    requires queue' == queue[Ready(p, r) := q] && Q(queue, Ready(p, r)) != [] && q != [] && NULL !in q
    ensures 0 <= pcb[p].schedtsk < |cb|
    ensures Settled(queue', if cb[pcb[p].schedtsk].priority == r then WithSched(pcb, p, q[0]) else pcb, |cb|)
    ensures pcb[p].dspflg ==> (pcb[p].schedtsk == Q(queue, Ready(p, r))[0] <==> cb[pcb[p].schedtsk].priority == r)
  {
    var s := pcb[p].schedtsk;
    assert Mapped(queue, p, pcb[p].primap);
    assert Mapped(queue', p, pcb[p].primap) by {
      hide Bit;
      assert forall r' {:trigger Q(queue', Ready(p, r'))} :: r' != r ==>
             Q(queue', Ready(p, r')) == Q(queue, Ready(p, r'));
    }
    if pcb[p].dspflg {
      assert s != NULL;
      ScheduledTop(cb, queue, t0, place, p, s);
      assert Top(queue, p, cb[s].priority, s);
      if cb[s].priority == r {
        TopRises(queue, queue', p, r, q, s);
      } else {
        if Q(queue, Ready(p, r))[0] == s {
          assert s in Q(queue, Ready(p, r));
          assert At(cb, t0, place, s, Ready(p, r));
        }
        TopStays(queue, queue', p, r, q, cb[s].priority, s);
      }
    }
    hide Linked, Mapped, Highest, Bit;
    OthersSettled(queue, queue', pcb, if cb[s].priority == r then WithSched(pcb, p, q[0]) else pcb, |cb|, p);
  }

  /** change_subprio: a runnable task goes behind those of its new sub-priority. */
  method ChangeSubprio(k: Kernel, t: int, subpri: int)
    requires 0 <= t < |k.cb| && 0 <= subpri
    requires if k.cb[t].tstat.runnable then k.Queues(t, Home(k.cb[t])) else k.Queues(NULL, None)
    modifies k`cb, k`queue, k`pcb
    ensures k.Queues(NULL, None) && SameMode(old(k.pcb), k.pcb) && |k.pcb| == old(|k.pcb|)
    ensures k.cb == old(k.cb)[t := old(k.cb[t]).(subpri := subpri)]
    ensures var x := k.cb[t]; var q := Ready(x.prc, x.priority);
      if x.tstat.runnable && x.priority in k.sub then
        Requeued(k.cb, old(k.queue), k.queue, k.sub, k.tpri, q, q, t, false)
      else k.queue == old(k.queue)
  {
    hide Linked, Ordered, Sorted, Distinct, Settled, Requeued, SameMode, Plus, Minus, PutIn, Placed, TakenOut,
      WithSched;
    ghost var pcb, queue := k.pcb, k.queue;
    SameModeRefl(pcb);
    var x := k.cb[t].(subpri := subpri);
    var p, r := x.prc, x.priority;
    if x.tstat.runnable {
      RewrittenInTransit(k.cb, k.queue, t, Home(k.cb[t]), x);
      RewrittenOrdered(k.cb, k.queue, k.sub, k.tpri, t, x);
      k.cb := k.cb[t := x];
      if r in k.sub {
        Resort(k, t, p, r);
      } else {
        UnkeyedOrdered(k.cb, k.queue, k.sub, k.tpri, t);
      }
      ResortedSettled(k.cb, queue, k.queue, pcb, t, p, r);
      if r == k.cb[k.pcb[p].schedtsk].priority {
        UpdateSchedtsk(k, p, Q(k.queue, Ready(p, r))[0]);
      }
    } else {
      SubpriOrdered(k.cb, k.queue, k.sub, k.tpri, t, x);
      k.cb := k.cb[t := x];
    }
    assert Settled(k.queue, k.pcb, |k.cb|);
  }

  method Resort(k: Kernel, t: int, p: int, r: int)
    requires 0 <= t < |k.cb| && k.cb[t].tstat.runnable && k.cb[t].prc == p && k.cb[t].priority == r
    requires Linked(k.cb, k.queue, t, Some(Ready(p, r))) && Ordered(k.cb, k.queue, k.sub, k.tpri, t)
    modifies k`queue
    ensures Linked(k.cb, k.queue, NULL, None) && Ordered(k.cb, k.queue, k.sub, k.tpri, NULL)
    ensures Requeued(k.cb, old(k.queue), k.queue, k.sub, k.tpri, Ready(p, r), Ready(p, r), t, false)
    ensures k.queue == old(k.queue)[Ready(p, r) := Q(k.queue, Ready(p, r))]
  {
    hide Linked, Ordered, Sorted, Distinct, Requeued, Plus, Minus, Placed;
    ghost var queue := k.queue;
    DeletedLinked(k.cb, k.queue, t, Ready(p, r));
    DeletedOrdered(k.cb, k.queue, k.sub, k.tpri, t, Ready(p, r));
    k.queue := k.queue[Ready(p, r) := Minus(Q(k.queue, Ready(p, r)), t)];
    ghost var mid := k.queue;
    ghost var i := InsertReady(k, t, false);
    RequeuedAt(k.cb, queue, mid, k.queue, k.sub, k.tpri, Ready(p, r), Ready(p, r), t, false, i);
  }

  lemma ResortedSettled(cb: seq<TCB>, queue: map<Qid, seq<int>>, queue': map<Qid, seq<int>>, pcb: seq<PCB>, t: int,
      p: int, r: int)
    requires 0 <= t < |cb| && Home(cb[t]) == Some(Ready(p, r)) && Linked(cb, queue, t, Home(cb[t]))
    requires Linked(cb, queue', NULL, None)
    requires Settled(queue, pcb, |cb|) && 0 <= p < |pcb| && 0 <= r < TNUM_TPRI
    requires queue' == queue || queue' == queue[Ready(p, r) := Q(queue', Ready(p, r))]
    ensures 0 <= pcb[p].schedtsk < |cb| && Q(queue', Ready(p, r)) != []
    ensures Settled(queue', if cb[pcb[p].schedtsk].priority == r then WithSched(pcb, p, Q(queue', Ready(p, r))[0])
            else pcb, |cb|)
  {
    hide Settled, WithSched;
    var q := Q(queue', Ready(p, r));
    assert At(cb, t, Home(cb[t]), t, Ready(p, r)) && At(cb, NULL, None, t, Ready(p, r));
    assert t in Q(queue, Ready(p, r)) && t in q;
    NullNotQueued(cb, queue', NULL, None, p);
    assert queue' == queue[Ready(p, r) := q];
    ReorderedSettled(cb, queue, queue', pcb, t, Home(cb[t]), p, r, q);
  }

  /** rotate_ready_queue, for a level that does not use sub-priorities: the first task
      becomes the last. */
  method RotateReadyQueue(k: Kernel, pri: int, p: int)
    requires k.Queues(NULL, None) && 0 <= p < |k.pcb| && 0 <= pri < TNUM_TPRI && pri !in k.sub
    modifies k`queue, k`pcb
    ensures k.Queues(NULL, None) && SameMode(old(k.pcb), k.pcb) && |k.pcb| == old(|k.pcb|)
    ensures var q := Q(old(k.queue), Ready(p, pri));
      if |q| > 1 then k.queue == old(k.queue)[Ready(p, pri) := q[1..] + [q[0]]] else k.queue == old(k.queue)
  {
    hide Linked, Ordered, Sorted, Distinct, Settled, SameMode, WithSched;
    ghost var pcb, queue := k.pcb, k.queue;
    SameModeRefl(pcb);
    var q := Q(k.queue, Ready(p, pri));
    if |q| > 1 {
      var entry := q[0];
      RotatedLinked(k.cb, k.queue, k.sub, k.tpri, p, pri);
      k.queue := k.queue[Ready(p, pri) := q[1..] + [entry]];
      NullNotQueued(k.cb, k.queue, NULL, None, p);
      assert Q(k.queue, Ready(p, pri)) == q[1..] + [entry];
      ReorderedSettled(k.cb, queue, k.queue, pcb, NULL, None, p, pri, Q(k.queue, Ready(p, pri)));
      RotatedSettled(pcb, p, Q(k.queue, Ready(p, pri))[0]);
      if k.pcb[p].schedtsk == entry {
        UpdateSchedtsk(k, p, Q(k.queue, Ready(p, pri))[0]);
      }
      assert Settled(k.queue, k.pcb, |k.cb|);
    }
  }

  /** While dispatching is disabled p_schedtsk does not matter. */
  lemma RotatedSettled(pcb: seq<PCB>, p: int, s: int)
    requires 0 <= p < |pcb|
    ensures !pcb[p].dspflg ==> WithSched(pcb, p, s) == pcb
  {
  }

  lemma RotatedLinked(cb: seq<TCB>, queue: map<Qid, seq<int>>, sub: set<int>, tpri: set<int>, p: int, r: int)
    requires Linked(cb, queue, NULL, None) && Ordered(cb, queue, sub, tpri, NULL) && r !in sub
    requires |Q(queue, Ready(p, r))| > 1
    ensures var q := Q(queue, Ready(p, r)); var queue' := queue[Ready(p, r) := q[1..] + [q[0]]];
      Linked(cb, queue', NULL, None) && Ordered(cb, queue', sub, tpri, NULL)
  {
    var q := Q(queue, Ready(p, r));
    var q' := q[1..] + [q[0]];
    var queue' := queue[Ready(p, r) := q'];
    assert Distinct(q);
    assert forall i {:trigger q'[i]} :: 0 <= i < |q'| ==> q'[i] == if i < |q| - 1 then q[i + 1] else q[0];
    assert forall u :: u in q' <==> u in q by {
      assert q == [q[0]] + q[1..];
    }
    forall x, u
      ensures u in Q(queue', x) <==> At(cb, NULL, None, u, x)
    {
      assert u in Q(queue, x) <==> At(cb, NULL, None, u, x);
    }
    forall x
      ensures Distinct(Q(queue', x)) && Sorted(cb, Q(queue', x), sub, tpri, x, NULL)
    {
      assert Distinct(Q(queue, x)) && Sorted(cb, Q(queue, x), sub, tpri, x, NULL);
    }
  }

  // ------ dspflg

  /** set_dspflg: the task to run is searched from scratch. */
  method SetDspflg(k: Kernel, p: int)
    requires k.Queues(NULL, None) && 0 <= p < |k.pcb|
    modifies k`pcb
    ensures k.Queues(NULL, None) && |k.pcb| == old(|k.pcb|) && k.pcb[p].dspflg && Highest(k.queue, p, k.pcb[p].schedtsk)
    ensures k.pcb == old(k.pcb)[p := old(k.pcb[p]).(dspflg := true, schedtsk := k.pcb[p].schedtsk)]
  {
    hide Linked, Ordered, Highest, Mapped;
    NullNotQueued(k.cb, k.queue, NULL, None, p);
    var h := HighestTask(k, p);
    k.pcb := k.pcb[p := k.pcb[p].(dspflg := true, schedtsk := h)];
  }

  /** The last step of dis_dsp and of chg_ipm, which have just seen that the calling
      task is the one to run. */
  method ClearDspflg(k: Kernel, p: int, self: int)
    requires k.Queues(NULL, None) && 0 <= p < |k.pcb| && 0 <= self < |k.cb| && k.pcb[p].schedtsk == self
    modifies k`pcb
    ensures k.Queues(NULL, None) && k.pcb == old(k.pcb)[p := old(k.pcb[p]).(dspflg := false)]
  {
    hide Linked, Ordered, Highest, Mapped;
    k.pcb := k.pcb[p := k.pcb[p].(dspflg := false)];
  }
}

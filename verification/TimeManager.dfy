/** Time events against the clock: registration, the timer interrupt handler, the
    setting of the timers, and clock adjustment (kernel/time_event.c,
    kernel/time_manage.c).

    Every method is one section under the giant lock; `p` is a processor that
    handles time events, its own or, on the time master, also those of the
    processors that do not.  `due` is the unbounded
    time of every time event; `alarm` is what each processor's timer was last
    told.
  */
module TimeManager {
  import opened TimeEventHeap
  import opened TimeWindow
  import opened TimeEventHeaps
  import opened Clock
  import opened ClockRuns

  datatype ER = E_OK | E_PAR | E_OBJ

  /** A timer is off, or raises an interrupt at a count of the unbounded timer. */
  datatype Alarm = Never | At(hrt: int)

  /** What the timer interrupt handler does next. */
  datatype Signal = Call(e: Event) | Done

  /** The events of a heap show their times, which lie between two bounds. */
  ghost predicate TimedBy(es: set<Event>, evttim: seq<EVTTIM>, due: map<Event, int>, lo: int, hi: int) {
    forall e {:trigger e in es} :: e in es ==>
      e < |evttim| && e in due && evttim[e] == Wrap(due[e]) && lo <= due[e] <= hi
  }

  /** The timer does not ring later than the time `d`, seen from the present. */
  ghost predicate RingsBy(alarm: Alarm, d: int, now: int, hrt: int) {
    alarm.At? && alarm.hrt <= hrt + Max(0, d - now)
  }

  /** It rings at count h at the latest. */
  ghost predicate Within(alarm: Alarm, h: int) {
    alarm.At? && alarm.hrt <= h
  }

  /** The 32-bit tests on a root event's time decide as the unbounded times do. */
  ghost predicate RootTests(evttim: EVTTIM, d: int, now: int) {
    && (EvttimLe(evttim, Wrap(now), Boundary(now)) <==> d <= now)
    && (now <= d ==> Wrap(evttim - Wrap(now)) == d - now)
    && (EvttimLe(Wrap(evttim + TMAX_ADJTIM), Wrap(now), Boundary(now)) <==> d + TMAX_ADJTIM <= now)
  }

  lemma TestsDecide(d: int, now: int)
    requires now - BOUNDARY_MARGIN <= d < now + HORIZON
    ensures RootTests(Wrap(d), d, now)
  {
    AdvanceIsDistance(d, now);
    AdvanceIsDistance(now, now);
    AdvanceIsDistance(d + TMAX_ADJTIM, now);
    WrapAdd(d, TMAX_ADJTIM);
    WrapDiff(d, now);
  }

  lemma FirstIsEarliest(es: set<Event>, evttim: seq<EVTTIM>, due: map<Event, int>, now: int, hi: int, root: Event)
    requires TimedBy(es, evttim, due, now - BOUNDARY_MARGIN, hi) && hi < now + HORIZON && root in es
    requires forall e :: e in es ==> EvttimLe(evttim[root], evttim[e], Boundary(now))
    ensures forall e :: e in es ==> due[root] <= due[e]
  {
    forall e | e in es
      ensures due[root] <= due[e]
    {
      CompareAgrees(due[root], due[e], now);
    }
  }

  ghost function Below(n: nat): (s: set<nat>)
    ensures forall q: nat :: q in s <==> q < n
  {
    if n == 0 then {} else Below(n - 1) + {n - 1}
  }

  class TimeManager {
    const clk: Clock
    const hs: Heaps
    const tstep: nat           // TSTEP_HRTCNT
    const bound: nat           // HRTCNT_BOUND
    const master: nat          // the time master processor

    var inSignalTime: seq<bool>
    ghost var due: map<Event, int>
    ghost var alarm: seq<Alarm>

    ghost predicate Configured() {
      && tstep <= TMAX_TSTEP && bound < clk.cycle && bound < 4_294_000_000
      && master < |hs.heap| && hs.Wired()
      && clk !in hs.repr && this !in hs.repr
    }

    /** The timer of a processor with a pending event is set no later than the time of
        its root event and, like that of the time master in any case, no later than
        HRTCNT_BOUND from now. */
    ghost predicate Rings(p: int)
      requires Configured() && |alarm| == |hs.heap| && 0 <= p < |hs.heap|
      reads this`due, this`alarm, clk`hrt, clk`now, hs.heap[p], hs.heap[p].node
    {
      && (hs.heap[p].lastIndex > 0 ==>
            && hs.heap[p].node.Length > 1 && hs.heap[p].node[1] in due
            && RingsBy(alarm[p], due[hs.heap[p].node[1]], clk.now, clk.hrt))
      && (hs.heap[p].lastIndex > 0 || p == master ==> Within(alarm[p], clk.hrt + bound))
    }

    /** That holds outside the timer interrupt handler; the processors in `but` are
        excepted. */
    ghost predicate Armed(but: set<nat>)
      requires Configured() && |inSignalTime| == |alarm| == |hs.heap|
      reads this, clk, hs.repr
    {
      forall p {:trigger Rings(p)} {:trigger hs.heap[p]} ::
        0 <= p < |hs.heap| && p !in but && !inSignalTime[p] ==> Rings(p)
    }

    /** Outside its handler the time master's timer rings within HRTCNT_BOUND. */
    ghost predicate MasterSet()
      requires Configured() && |inSignalTime| == |alarm| == |hs.heap|
      reads this, clk
    {
      !inSignalTime[master] ==> alarm[master].At? && alarm[master].hrt <= clk.hrt + bound
    }

    /** What this means for the clock: an update less than cycle - HRTCNT_BOUND after the
        interrupt of the time master's timer is within a cycle of the last one.  The
        timer of any processor with a pending event is as near. */
    lemma TimerRings(p: nat)
      requires Sound() && Armed({}) && p < |hs.heap| && !inSignalTime[p]
      requires p == master || hs.heap[p].lastIndex > 0
      ensures alarm[p].At? && alarm[p].hrt <= clk.hrt + bound
      ensures alarm[p].hrt + (clk.cycle - bound) <= clk.hrt + clk.cycle
      ensures hs.heap[p].lastIndex > 0 ==>
                && hs.heap[p].node.Length > 1 && hs.heap[p].node[1] in due
                && alarm[p].hrt <= clk.hrt + Max(0, due[hs.heap[p].node[1]] - clk.now)
    {
      assert hs.heap[p].lastIndex >= 0;
    }

    lemma MasterRings()
      requires Sound() && Armed({})
      ensures MasterSet()
    {
      hide Heaps.Valid, TimedBy, RingsBy;
      if !inSignalTime[master] {
        TimerRings(master);
      }
    }

    /** All but the timers. */
    ghost predicate Sound()
      reads this, clk, hs.repr
    {
      && Configured() && clk.Valid() && |inSignalTime| == |alarm| == |hs.heap|
      && hs.Valid(clk.boundaryEvttim)
      && (forall p {:trigger hs.heap[p]} :: 0 <= p < |hs.heap| ==>
            TimedBy(hs.heap[p].events, hs.evttim[..], due, clk.now - BOUNDARY_MARGIN,
                    clk.mono + TMAX_RELTIM + TMAX_TSTEP))
    }

    /** No registered event would be overdue by more than the margin at time t. */
    ghost predicate Timely(t: int)
      requires hs.Wired()
      reads this`due, hs.repr
    {
      forall p, e {:trigger e in hs.heap[p].events} :: 0 <= p < |hs.heap| && e in hs.heap[p].events && e in due ==>
        t - BOUNDARY_MARGIN <= due[e]
    }

    constructor (clk: Clock, hs: Heaps, tstep: nat, bound: nat, master: nat)
      requires clk.Valid() && hs.Valid(clk.boundaryEvttim) && clk !in hs.repr
      requires forall p {:trigger hs.heap[p]} :: 0 <= p < |hs.heap| ==>
               hs.heap[p].events == {} && hs.heap[p].lastIndex == 0
      requires tstep <= TMAX_TSTEP && bound < clk.cycle && bound < 4_294_000_000 && master < |hs.heap|
      ensures Sound() && Armed({}) && this.clk == clk && this.hs == hs && due == map[]
      ensures this.tstep == tstep && this.bound == bound && this.master == master
      ensures forall p {:trigger inSignalTime[p]} :: 0 <= p < |hs.heap| ==> !inSignalTime[p]
    {
      this.clk, this.hs, this.tstep, this.bound, this.master := clk, hs, tstep, bound, master;
      inSignalTime := seq(|hs.heap|, _ => false);
      due := map[];
      alarm := seq(|hs.heap|, _ => Never);
      new;
      assert forall p {:trigger hs.heap[p]} :: 0 <= p < |hs.heap| ==>
             hs.heap[p].events == {} && hs.heap[p].lastIndex == 0;
      SetAllHrtEvents();
    }

    /** update_current_evttim under the assumption that no event becomes overdue by
        more than the margin: heaps and timers stay right. */
    method UpdateCurrentEvttim(newHrtcnt: nat, ghost advance: nat, ghost but: set<nat>)
      requires Sound() && Armed(but) && advance < clk.cycle && newHrtcnt == Reading(clk.hrt + advance, clk.cycle)
      requires Timely(clk.now + advance)
      modifies clk
      ensures Sound() && Armed(but) && clk.hrt == old(clk.hrt) + advance && clk.now == old(clk.now) + advance
      ensures clk.mono == Max(old(clk.mono), clk.now) && clk.systim == old(clk.systim) + (clk.mono - old(clk.mono))
    {
      hide Heaps.Valid, Wrap, Boundary, Reading, Wrap64;
      clk.UpdateCurrentEvttim(newHrtcnt, advance);
      assert clk.boundaryEvttim == Boundary(clk.now);
      hs.Rebased(due, old(clk.now), clk.now);
    }

    /** The root event is the earliest one in unbounded time, and the 32-bit tests
        against the current time decide as the unbounded times do. */
    lemma RootIsEarliest(p: nat)
      requires Sound() && p < |hs.heap| && hs.heap[p].lastIndex > 0
      ensures hs.heap[p].node.Length > 1 && hs.heap[p].node[1] in hs.heap[p].events
      ensures var root := hs.heap[p].node[1];
        && root < hs.evttim.Length && root in due
        && hs.index.Length == hs.evttim.Length && hs.index[root] == ROOT_INDEX
        && (forall e :: e in hs.heap[p].events ==> e in due && due[root] <= due[e])
        && RootTests(hs.evttim[root], due[root], clk.now)
    {
      var v, es := hs.heap[p].Now(), hs.heap[p].events;
      v.RootFirst(es, clk.boundaryEvttim);
      var lo, hi := clk.now - BOUNDARY_MARGIN, clk.mono + TMAX_RELTIM + TMAX_TSTEP;
      assert TimedBy(es, hs.evttim[..], due, lo, hi);
      FirstIsEarliest(es, hs.evttim[..], due, clk.now, hi, v.node[1]);
      TestsDecide(due[v.node[1]], clk.now);
    }

    /** What the timer of heap p should be told now. */
    ghost function Setting(p: nat): Alarm
      requires Configured() && p < |hs.heap|
      reads this`due, clk, hs.repr
    {
      if hs.heap[p].lastIndex > 0 && hs.heap[p].node.Length > 1 && hs.heap[p].node[1] in due then
        var left := Max(0, due[hs.heap[p].node[1]] - clk.now);
        At(clk.hrt + if left > bound then bound else left)
      else if p == master then
        At(clk.hrt + bound)
      else
        Never
    }

    /** set_hrt_event: rings at the root event, at once if it is due, and after
        HRTCNT_BOUND at the latest. */
    method SetHrtEvent(p: nat, ghost but: set<nat>)
      requires Sound() && Armed(but) && p < |hs.heap|
      modifies this`alarm
      ensures Sound() && Armed(but - {p})
      ensures (hs.heap[p].lastIndex > 0 ==> hs.heap[p].node.Length > 1 && hs.heap[p].node[1] in due)
      ensures alarm == old(alarm)[p := Setting(p)]
    {
      hide Heaps.Valid, TimedBy, View.Holed, Wrap, Boundary, EvttimLe, Reading, Wrap64;
      if hs.heap[p].lastIndex == 0 {
        if p == master {
          alarm := alarm[p := At(clk.hrt + bound)];
        } else {
          alarm := alarm[p := Never];
        }
      } else {
        RootIsEarliest(p);
        var top := hs.evttim[hs.heap[p].node[ROOT_INDEX]];
        if EvttimLe(top, clk.currentEvttim, clk.boundaryEvttim) {
          alarm := alarm[p := At(clk.hrt)];
        } else {
          var hrtcnt := Wrap(top - clk.currentEvttim);
          if hrtcnt > bound {
            alarm := alarm[p := At(clk.hrt + bound)];
          } else {
            alarm := alarm[p := At(clk.hrt + hrtcnt)];
          }
        }
      }
    }

    /** No heap holds event e. */
    ghost predicate Unregistered(e: Event)
      requires hs.Wired()
      reads hs.repr
    {
      forall q {:trigger hs.heap[q]} :: 0 <= q < |hs.heap| ==> e !in hs.heap[q].events
    }

    ghost predicate Registrable(e: Event)
      requires hs.Wired()
      reads this, clk, hs.repr
    {
      && e < hs.evttim.Length && Unregistered(e) && e in due && hs.evttim[e] == Wrap(due[e])
      && clk.now - BOUNDARY_MARGIN <= due[e] <= clk.mono + TMAX_RELTIM + TMAX_TSTEP
    }

    /** Sets the time of an event that is in no heap. */
    method SetDue(e: Event, evttim: EVTTIM, ghost d: int)
      requires Sound() && Armed({}) && e < hs.evttim.Length && evttim == Wrap(d)
      requires Unregistered(e) && clk.now - BOUNDARY_MARGIN <= d <= clk.mono + TMAX_RELTIM + TMAX_TSTEP
      modifies this`due, hs.evttim
      ensures Sound() && Armed({}) && due == old(due)[e := d] && Registrable(e)
    {
      hide Wrap, Boundary, Reading, Wrap64, View.Holed;
      forall q | 0 <= q < |hs.heap| && hs.heap[q].lastIndex > 0
        ensures hs.heap[q].node.Length > 1 && hs.heap[q].node[1] != e
      {
        RootIsEarliest(q);
      }
      hs.evttim[e] := evttim;
      due := due[e := d];
      forall q | 0 <= q < |hs.heap|
        ensures hs.heap[q].Now().Holed(0, hs.heap[q].events, clk.boundaryEvttim)
      {
        OtherBlocks(old(hs.heap[q].Now()), hs.heap[q].Now(), hs.heap[q].events, clk.boundaryEvttim);
      }
    }

    /** tmevtb_register: the timer may have to be set afterwards only if the event
        became the root. */
    method Register(e: Event, p: nat)
      requires Sound() && Armed({}) && p < |hs.heap| && Registrable(e)
      requires hs.heap[p].lastIndex + 1 < hs.heap[p].node.Length
      modifies hs.index, hs.heap[p], hs.heap[p].node
      ensures Sound() && Armed({p}) && (inSignalTime[p] || hs.index[e] != ROOT_INDEX ==> Armed({}))
      ensures hs.heap[p].events == old(hs.heap[p].events) + {e}
    {
      hide Wrap, Boundary, Reading, Wrap64, View.Holed, Heaps.Valid, RingsBy, Within;
      hs.Insert(p, e, clk.boundaryEvttim);
    }

    /** Registers an event and sets the timer if the event became the root. */
    method Enqueue(e: Event, p: nat)
      requires Sound() && Armed({}) && p < |hs.heap| && Registrable(e)
      requires hs.heap[p].lastIndex + 1 < hs.heap[p].node.Length
      modifies this`alarm, hs.index, hs.heap[p], hs.heap[p].node
      ensures Sound() && Armed({}) && hs.heap[p].events == old(hs.heap[p].events) + {e} && e < hs.index.Length
      ensures alarm == if !inSignalTime[p] && hs.index[e] == ROOT_INDEX then old(alarm)[p := Setting(p)] else old(alarm)
    {
      Register(e, p);
      assert Configured() && |inSignalTime| == |alarm| == |hs.heap|;
      hide Sound;
      if !inSignalTime[p] && hs.index[e] == ROOT_INDEX {
        SetHrtEvent(p, {p});
        assert {p} - {p} == {};
      }
    }

    /** The event time for a relative time: counted from the updated current time,
        rounded up by one timer step. */
    method Aim(time: nat, newHrtcnt: nat, ghost advance: nat) returns (evttim: EVTTIM, ghost d: int)
      requires Sound() && Armed({}) && advance < clk.cycle && newHrtcnt == Reading(clk.hrt + advance, clk.cycle)
      requires Timely(clk.now + advance)
      requires time <= TMAX_RELTIM
      modifies clk
      ensures Sound() && Armed({}) && clk.hrt == old(clk.hrt) + advance && clk.now == old(clk.now) + advance
      ensures clk.mono >= old(clk.mono)
      ensures d == clk.now + tstep + time && evttim == Wrap(d)
      ensures clk.now - BOUNDARY_MARGIN <= d <= clk.mono + TMAX_RELTIM + TMAX_TSTEP
    {
      UpdateCurrentEvttim(newHrtcnt, advance, {});
      evttim := clk.EvttimAfter(tstep, time);
      d := clk.now + tstep + time;
    }

    /** tmevtb_enqueue_reltim: the event will fire no earlier than `time` from now. */
    method EnqueueReltim(e: Event, time: nat, p: nat, newHrtcnt: nat, ghost advance: nat)
      requires Sound() && Armed({}) && advance < clk.cycle && newHrtcnt == Reading(clk.hrt + advance, clk.cycle)
      requires Timely(clk.now + advance)
      requires time <= TMAX_RELTIM && p < |hs.heap| && e < hs.evttim.Length && Unregistered(e)
      requires hs.heap[p].lastIndex + 1 < hs.heap[p].node.Length
      modifies this`due, this`alarm, clk, hs.evttim, hs.index, hs.heap[p], hs.heap[p].node
      ensures Sound() && Armed({}) && clk.hrt == old(clk.hrt) + advance && clk.now == old(clk.now) + advance
      ensures clk.mono >= old(clk.mono)
      ensures due == old(due)[e := clk.now + tstep + time]
      ensures hs.heap[p].events == old(hs.heap[p].events) + {e} && e < hs.index.Length
      ensures alarm == if !inSignalTime[p] && hs.index[e] == ROOT_INDEX then old(alarm)[p := Setting(p)] else old(alarm)
      ensures MasterSet()
    {
      hide Wrap, Boundary, Reading, Wrap64, View.Holed, Heaps.Valid, TimedBy, Armed;
      assert Configured();
      hide Sound;
      ghost var d;
      var evttim;
      evttim, d := Aim(time, newHrtcnt, advance);
      SetDue(e, evttim, d);
      Enqueue(e, p);
      MasterRings();
    }

    /** Takes an event out; the timer may have to be set afterwards only if the
        event was the root. */
    method Unregister(e: Event, p: nat)
      requires Sound() && Armed({}) && p < |hs.heap| && e in hs.heap[p].events
      modifies hs.index, hs.heap[p], hs.heap[p].node
      ensures Sound() && Armed({p}) && e < hs.index.Length
      ensures inSignalTime[p] || old(hs.index[e]) != ROOT_INDEX ==> Armed({})
      ensures hs.heap[p].events == old(hs.heap[p].events) - {e}
    {
      hide Wrap, Boundary, Reading, Wrap64, View.Holed, Heaps.Valid, RingsBy, Within;
      hs.Delete(p, e, clk.boundaryEvttim);
    }

    /** tmevtb_dequeue: the event is cancelled, wherever it is in its heap. */
    method Dequeue(e: Event, p: nat, newHrtcnt: nat, ghost advance: nat)
      requires Sound() && Armed({}) && advance < clk.cycle && newHrtcnt == Reading(clk.hrt + advance, clk.cycle)
      requires Timely(clk.now + advance)
      requires p < |hs.heap| && e in hs.heap[p].events
      modifies this`alarm, clk, hs.index, hs.heap[p], hs.heap[p].node
      ensures Sound() && Armed({}) && hs.heap[p].events == old(hs.heap[p].events) - {e}
      ensures clk.hrt == old(clk.hrt) || clk.hrt == old(clk.hrt) + advance
      ensures clk.now == old(clk.now) + (clk.hrt - old(clk.hrt))
      ensures e < |old(hs.index[..])|
      ensures if !inSignalTime[p] && old(hs.index[..])[e] == ROOT_INDEX
              then clk.hrt == old(clk.hrt) + advance && alarm == old(alarm)[p := Setting(p)]
              else unchanged(clk) && alarm == old(alarm)
      ensures MasterSet()
    {
      RegisteredSize(e, p);
      var index := hs.index[e];
      Unregister(e, p);
      assert Configured() && |inSignalTime| == |alarm| == |hs.heap| && Timely(clk.now + advance);
      hide Sound, Armed, Timely, Reading, Setting, MasterSet;
      if !inSignalTime[p] && index == ROOT_INDEX {
        UpdateCurrentEvttim(newHrtcnt, advance, {p});
        SetHrtEvent(p, {p});
        assert {p} - {p} == {};
      }
      MasterRings();
    }

    lemma RegisteredSize(e: Event, p: nat)
      requires Sound() && p < |hs.heap| && e in hs.heap[p].events
      ensures e < hs.index.Length
    {
    }

    /** At time `now`, some event of heap p is overdue by a second or more. */
    ghost predicate Overdue(p: nat, now: int)
      requires hs.Wired() && p < |hs.heap|
      reads this`due, hs.repr
    {
      exists e :: e in hs.heap[p].events && e in due && due[e] + TMAX_ADJTIM <= now
    }

    /** What forbids an adjustment at time `now`, while the most advanced time is `mono`: an
        event of heap p overdue by a second forbids to put the clock forward, a lag of a
        second to put it back. */
    ghost predicate Forbidden(adjtim: int, p: nat, now: int, mono: int)
      requires hs.Wired() && p < |hs.heap|
      reads this`due, hs.repr
    {
      (adjtim > 0 && Overdue(p, now)) || (adjtim < 0 && mono - now >= -TMIN_ADJTIM)
    }

    /** check_adjtim. */
    method CheckAdjtim(adjtim: int, p: nat) returns (refuse: bool)
      requires Sound() && p < |hs.heap|
      ensures refuse <==> Forbidden(adjtim, p, clk.now, clk.mono)
    {
      if adjtim > 0 {
        if hs.heap[p].lastIndex > 0 {
          OverdueAtRoot(p);
          hide RootTests, Heaps.Valid, TimedBy, View.Holed, Wrap, Boundary, EvttimLe, Overdue;
          var top := hs.evttim[hs.heap[p].node[ROOT_INDEX]];
          refuse := EvttimLe(Wrap(top + TMAX_ADJTIM), clk.currentEvttim, clk.boundaryEvttim);
        } else {
          NothingRegistered(p);
          refuse := false;
        }
      } else if adjtim < 0 {
        refuse := clk.Lag() >= -TMIN_ADJTIM;
      } else {
        refuse := false;
      }
    }

    lemma OverdueAtRoot(p: nat)
      requires Sound() && p < |hs.heap| && hs.heap[p].lastIndex > 0
      ensures hs.heap[p].node.Length > 1 && hs.heap[p].node[1] < hs.evttim.Length
      ensures Overdue(p, clk.now) <==>
              EvttimLe(Wrap(hs.evttim[hs.heap[p].node[1]] + TMAX_ADJTIM), clk.currentEvttim, clk.boundaryEvttim)
    {
      RootIsEarliest(p);
      hide Heaps.Valid, TimedBy, View.Holed, Wrap, Boundary, EvttimLe;
      var root := hs.heap[p].node[1];
      assert Overdue(p, clk.now) <==> due[root] + TMAX_ADJTIM <= clk.now;
    }

    lemma NothingRegistered(p: nat)
      requires Sound() && p < |hs.heap| && hs.heap[p].lastIndex == 0
      ensures hs.heap[p].events == {}
    {
    }

    /** Moves the event time by an accepted adjustment; the timers are not set yet. */
    method Shift(adjtim: int, p: nat)
      requires Sound() && p < |hs.heap| && TMIN_ADJTIM <= adjtim <= TMAX_ADJTIM
      requires adjtim > 0 ==> !Overdue(p, clk.now) && TimelyBut(p, clk.now + adjtim)
      requires adjtim < 0 ==> clk.mono - clk.now < -TMIN_ADJTIM
      modifies clk
      ensures Sound() && clk.hrt == old(clk.hrt) && clk.now == old(clk.now) + adjtim
      ensures clk.mono == Max(old(clk.mono), clk.now) && clk.systim == old(clk.systim) + (clk.mono - old(clk.mono))
    {
      hide Heaps.Valid, Wrap, Boundary, Reading, Wrap64;
      clk.Adjust(adjtim);
      hs.Rebased(due, old(clk.now), clk.now);
    }

    /** No event of another processor would be overdue by more than the margin. */
    ghost predicate TimelyBut(p: nat, t: int)
      requires hs.Wired()
      reads this`due, hs.repr
    {
      forall q, e {:trigger e in hs.heap[q].events} ::
        0 <= q < |hs.heap| && q != p && e in hs.heap[q].events && e in due ==> t - BOUNDARY_MARGIN <= due[e]
    }

    /** adj_tim called on processor p: either nothing but the passing of time
        happens, or the event time moves by exactly `adjtim` and every timer outside
        its interrupt handler is set anew.  The system time never goes back. */
    method AdjTim(adjtim: int, p: nat, newHrtcnt: nat, ghost advance: nat) returns (ercd: ER)
      requires Sound() && Armed({}) && advance < clk.cycle && newHrtcnt == Reading(clk.hrt + advance, clk.cycle)
      requires Timely(clk.now + advance)
      requires p < |hs.heap| && TimelyBut(p, clk.now + advance + adjtim)
      modifies this`alarm, clk
      ensures Sound() && Armed({}) && clk.mono >= old(clk.mono)
      ensures clk.systim == old(clk.systim) + (clk.mono - old(clk.mono))
      ensures ercd == E_PAR <==> !(TMIN_ADJTIM <= adjtim <= TMAX_ADJTIM)
      ensures ercd == E_PAR ==> unchanged(clk)
      ensures ercd != E_OK ==> alarm == old(alarm)
      ensures ercd == E_OK ==> forall q {:trigger alarm[q]} :: 0 <= q < |hs.heap| ==>
                alarm[q] == if inSignalTime[q] then old(alarm)[q] else Setting(q)
      ensures MasterSet()
      ensures ercd != E_PAR ==>
                var now := old(clk.now) + advance;
                var mono := Max(old(clk.mono), now);
                && (ercd == E_OBJ <==> old(Forbidden(adjtim, p, now, mono)))
                && clk.hrt == old(clk.hrt) + advance
                && clk.now == (if ercd == E_OK then now + adjtim else now) && clk.mono == Max(mono, clk.now)
    {
      hide Heaps.Valid, TimedBy, RingsBy, Within, Reading, Overdue, Setting, MasterSet;
      MasterRings();
      if !(TMIN_ADJTIM <= adjtim <= TMAX_ADJTIM) {
        return E_PAR;
      }
      UpdateCurrentEvttim(newHrtcnt, advance, {});
      var refuse := CheckAdjtim(adjtim, p);
      if refuse {
        MasterRings();
        return E_OBJ;
      }
      Shift(adjtim, p);
      SetAllHrtEvents();
      MasterRings();
      ercd := E_OK;
    }

    /** Sets the timer of every processor that is not in its timer interrupt handler. */
    method SetAllHrtEvents()
      requires Sound()
      modifies this`alarm
      ensures Sound() && Armed({})
      ensures forall q {:trigger alarm[q]} :: 0 <= q < |hs.heap| ==>
                alarm[q] == if inSignalTime[q] then old(alarm)[q] else Setting(q)
    {
      hide Sound, Armed, Setting, Configured;
      ghost var rest := Below(|hs.heap|);
      var n := |hs.heap|;
      AllExcepted(rest);
      for p := 0 to n
        invariant |inSignalTime| == |alarm| == n && Configured()
        invariant Sound() && Armed(rest) && forall q :: 0 <= q < p ==> q !in rest
        invariant forall q {:trigger alarm[q]} :: 0 <= q < n ==>
                    alarm[q] == if inSignalTime[q] || q >= p then old(alarm)[q] else Setting(q)
      {
        SetUnlessHandler(p, rest);
        rest := rest - {p};
      }
      AllArmed(rest);
    }

    /** One round of the loop of adj_tim. */
    method SetUnlessHandler(p: nat, ghost but: set<nat>)
      requires Sound() && Armed(but) && p < |hs.heap|
      modifies this`alarm
      ensures Sound() && Armed(but - {p})
      ensures alarm == if inSignalTime[p] then old(alarm) else old(alarm)[p := Setting(p)]
    {
      assert |inSignalTime| == |hs.heap|;
      hide Sound, Armed, Setting;
      if !inSignalTime[p] {
        SetHrtEvent(p, but);
      } else {
        SkipHandler(p, but);
      }
    }

    lemma AllExcepted(but: set<nat>)
      requires Sound() && forall p: nat :: p in but <==> p < |hs.heap|
      ensures Configured() && |inSignalTime| == |alarm| == |hs.heap| && Armed(but)
    {
    }

    lemma AllArmed(but: set<nat>)
      requires Sound() && Armed(but) && forall q :: 0 <= q < |hs.heap| ==> q !in but
      ensures Armed({})
    {
    }

    /** A processor in its handler needs no timer. */
    lemma SkipHandler(p: nat, but: set<nat>)
      requires Sound() && Armed(but) && p < |hs.heap| && inSignalTime[p]
      ensures Armed(but - {p})
    {
    }

    /** The outcome of a round of the handler: a due event to call back, or the end
        of the handler with nothing due. */
    ghost predicate Signalled(p: nat, s: Signal)
      requires hs.Wired() && p < |hs.heap| == |inSignalTime|
      reads this, clk, hs.repr
    {
      match s
      case Call(e) => inSignalTime[p] && e in due && due[e] <= clk.now
      case Done => !inSignalTime[p] && forall e :: e in hs.heap[p].events ==> e in due && clk.now < due[e]
    }

    /** s.e was the earliest event of the heap and is no longer in it. */
    twostate predicate Fired(p: nat, s: Signal)
      requires hs.Wired() && p < |hs.heap|
      reads this, hs.repr
    {
      && hs.heap[p].events == (if s.Call? then old(hs.heap[p].events) - {s.e} else old(hs.heap[p].events))
      && (s.Call? ==> s.e in old(hs.heap[p].events) && s.e in due && forall e :: e in old(hs.heap[p].events) ==>
           e in due && due[s.e] <= due[e])
    }

    /** The test of the inner loop of signal_time. */
    method RootDue(p: nat) returns (r: bool)
      requires Sound() && p < |hs.heap|
      ensures r ==> hs.heap[p].lastIndex > 0
      ensures r <==> exists e :: e in hs.heap[p].events && e in due && due[e] <= clk.now
    {
      if hs.heap[p].lastIndex > 0 {
        RootIsEarliest(p);
        r := EvttimLe(hs.evttim[hs.heap[p].node[ROOT_INDEX]], clk.currentEvttim, clk.boundaryEvttim);
      } else {
        NothingRegistered(p);
        r := false;
      }
    }

    /** Takes the due root event out of the heap; its callback is to run next. */
    method FireRoot(p: nat) returns (e: Event)
      requires Sound() && Armed({}) && p < |hs.heap| && inSignalTime[p] && hs.heap[p].lastIndex > 0
      requires exists x :: x in hs.heap[p].events && x in due && due[x] <= clk.now
      modifies hs.index, hs.heap[p], hs.heap[p].node
      ensures Sound() && Armed({}) && Signalled(p, Call(e)) && Fired(p, Call(e))
    {
      hide Wrap, Boundary, Reading, Wrap64, View.Holed, Heaps.Valid, RootTests, RingsBy, Within;
      RootIsEarliest(p);
      e := hs.DeleteTop(p, clk.boundaryEvttim);
    }

    lemma Sizes()
      requires Sound()
      ensures Configured() && |inSignalTime| == |alarm| == |hs.heap| && hs.Wired()
    {
    }

    /** The end of signal_time. */
    method Finish(p: nat)
      requires Sound() && Armed({}) && p < |hs.heap| && inSignalTime[p]
      requires !exists x :: x in hs.heap[p].events && x in due && due[x] <= clk.now
      modifies this`inSignalTime, this`alarm
      ensures Sound() && Armed({}) && Signalled(p, Done)
      ensures inSignalTime == old(inSignalTime)[p := false] && alarm == old(alarm)[p := Setting(p)]
      ensures MasterSet()
    {
      RootIfAny(p);
      assert Configured() && |inSignalTime| == |hs.heap|;
      assert forall e :: e in hs.heap[p].events ==> e in due && clk.now < due[e];
      hide Sound, Armed;
      SetHrtEvent(p, {});
      assert {} - {p} == {};
      hide Setting, MasterSet;
      LeaveHandler(p);
      MasterRings();
    }

    /** The timer is set, so the handler may end. */
    method LeaveHandler(p: nat)
      requires Sound() && Armed({}) && p < |hs.heap|
      requires hs.heap[p].lastIndex > 0 ==>
                 && hs.heap[p].node.Length > 1 && hs.heap[p].node[1] in due
                 && RingsBy(alarm[p], due[hs.heap[p].node[1]], clk.now, clk.hrt)
      requires hs.heap[p].lastIndex > 0 || p == master ==> Within(alarm[p], clk.hrt + bound)
      modifies this`inSignalTime
      ensures Sound() && Armed({}) && inSignalTime == old(inSignalTime)[p := false]
    {
      hide Heaps.Valid, Wrap, Boundary, Reading, Wrap64, TimedBy, View.Holed, RingsBy;
      inSignalTime := inSignalTime[p := false];
    }

    lemma RootIfAny(p: nat)
      requires Sound() && p < |hs.heap|
      ensures forall e :: e in hs.heap[p].events ==> e in due
      ensures hs.heap[p].lastIndex > 0 ==> hs.heap[p].node.Length > 1 && hs.heap[p].node[1] in due
    {
      if hs.heap[p].lastIndex > 0 {
        RootIsEarliest(p);
      } else {
        NothingRegistered(p);
      }
    }

    /** One pass of the outer loop of signal_time, up to the first callback: the
        current time is taken anew, and the handler ends only if then nothing is due. */
    method RunPass(p: nat, newHrtcnt: nat, ghost advance: nat) returns (s: Signal)
      requires Sound() && Armed({}) && advance < clk.cycle && newHrtcnt == Reading(clk.hrt + advance, clk.cycle)
      requires Timely(clk.now + advance)
      requires p < |hs.heap| && inSignalTime[p]
      modifies this`inSignalTime, this`alarm, clk, hs.index, hs.heap[p], hs.heap[p].node
      ensures Sound() && Armed({}) && clk.now == old(clk.now) + advance && Signalled(p, s) && Fired(p, s)
      ensures inSignalTime == old(inSignalTime)[p := s.Call?]
      ensures alarm == if s == Done then old(alarm)[p := Setting(p)] else old(alarm)
      ensures MasterSet()
    {
      hide Sound, Armed, Timely, Reading, Setting, MasterSet, Configured;
      Sizes();
      UpdateCurrentEvttim(newHrtcnt, advance, {});
      var r := RootDue(p);
      if r {
        var e := FireRoot(p);
        s := Call(e);
        MasterRings();
      } else {
        Finish(p);
        s := Done;
      }
    }

    /** signal_time begins: while it runs it need not set the timer. */
    method SignalEnter(p: nat, newHrtcnt: nat, ghost advance: nat) returns (s: Signal)
      requires Sound() && Armed({}) && advance < clk.cycle && newHrtcnt == Reading(clk.hrt + advance, clk.cycle)
      requires Timely(clk.now + advance)
      requires p < |hs.heap| && !inSignalTime[p]
      modifies this`inSignalTime, this`alarm, clk, hs.index, hs.heap[p], hs.heap[p].node
      ensures Sound() && Armed({}) && clk.now == old(clk.now) + advance && Signalled(p, s) && Fired(p, s)
      ensures inSignalTime == old(inSignalTime)[p := s.Call?]
      ensures alarm == if s == Done then old(alarm)[p := Setting(p)] else old(alarm)
      ensures MasterSet()
    {
      hide Sound, Armed, Timely, Reading, Setting, MasterSet;
      EnterHandler(p);
      s := RunPass(p, newHrtcnt, advance);
    }

    method EnterHandler(p: nat)
      requires Sound() && Armed({}) && p < |hs.heap|
      modifies this`inSignalTime
      ensures Configured() && |old(inSignalTime)| == |inSignalTime| == |alarm| == |hs.heap|
      ensures Sound() && Armed({}) && inSignalTime == old(inSignalTime)[p := true]
    {
      hide Heaps.Valid, TimedBy, Rings;
      inSignalTime := inSignalTime[p := true];
    }

    /** signal_time after a callback, during which any other operation may have run:
        the next due event of this pass, or else a new pass. */
    method SignalResume(p: nat, newHrtcnt: nat, ghost advance: nat) returns (s: Signal)
      requires Sound() && Armed({}) && advance < clk.cycle && newHrtcnt == Reading(clk.hrt + advance, clk.cycle)
      requires Timely(clk.now + advance)
      requires p < |hs.heap| && inSignalTime[p]
      modifies this`inSignalTime, this`alarm, clk, hs.index, hs.heap[p], hs.heap[p].node
      ensures Sound() && Armed({}) && Signalled(p, s) && Fired(p, s)
      ensures if old(exists e :: e in hs.heap[p].events && e in due && due[e] <= clk.now) then unchanged(clk) && s.Call?
              else clk.now == old(clk.now) + advance
      ensures inSignalTime == old(inSignalTime)[p := s.Call?]
      ensures alarm == if s == Done then old(alarm)[p := Setting(p)] else old(alarm)
      ensures MasterSet()
    {
      hide Sound, Armed, Timely, Reading, Setting, MasterSet, Configured;
      Sizes();
      var r := RootDue(p);
      if r {
        var e := FireRoot(p);
        s := Call(e);
        MasterRings();
      } else {
        s := RunPass(p, newHrtcnt, advance);
      }
    }
  }
}

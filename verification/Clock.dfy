/** The event clock and the system time (kernel/time_event.c, kernel/time_manage.c).

    Next to the machine variables of the source the clock keeps their unbounded
    counterparts: `hrt` for the high-resolution timer counter, `now` for the
    current event time, `mono` for the most advanced event time and `systim` for
    the system time.  The contracts speak about the unbounded times.
  */
module Clock {
  import opened Arithmetic
  import opened ClockRuns
  import opened TimeEventHeap
  import opened TimeWindow

  const SYSTIM_CYCLE: int := 0x1_0000_0000_0000_0000

  /** The 64-bit image of an unbounded system time. */
  function Wrap64(t: int): nat {
    t % SYSTIM_CYCLE
  }

  /** What the timer shows at its unbounded count t. */
  ghost function Reading(t: int, cycle: nat): nat
    requires 0 < cycle
  {
    t % cycle
  }

  /** Adding less than a cycle to a counter wraps it at most once. */
  lemma CounterReading(hrt: int, advance: nat, cycle: nat)
    requires advance < cycle
    ensures 0 <= hrt % cycle < cycle
    ensures (hrt + advance) % cycle ==
            if hrt % cycle + advance < cycle then hrt % cycle + advance else hrt % cycle + advance - cycle
  {
    var a := hrt % cycle;
    if a + advance < cycle {
      ModUnique(hrt + advance, hrt / cycle, a + advance, cycle);
    } else {
      ModUnique(hrt + advance, hrt / cycle + 1, a + advance - cycle, cycle);
    }
  }

  /** The advance the source computes from two readings of the counter. */
  function HrtAdvance(newHrtcnt: nat, oldHrtcnt: nat, cycle: nat): EVTTIM {
    if cycle < CYCLE && newHrtcnt < oldHrtcnt then Wrap(Wrap(newHrtcnt - oldHrtcnt) + cycle)
    else Wrap(newHrtcnt - oldHrtcnt)
  }

  /** The computed advance is the true one. */
  lemma AdvanceIsTrue(hrt: int, advance: nat, cycle: nat)
    requires advance < cycle <= CYCLE
    ensures HrtAdvance(Reading(hrt + advance, cycle), Reading(hrt, cycle), cycle) == advance
  {
    CounterReading(hrt, advance, cycle);
    AdvanceFromReadings(hrt % cycle, advance, cycle);
  }

  lemma AdvanceFromReadings(a: nat, advance: nat, cycle: nat)
    requires advance < cycle <= CYCLE && a < cycle
    ensures HrtAdvance(if a + advance < cycle then a + advance else a + advance - cycle, a, cycle) == advance
  {
  }

  lemma WrapAdd(x: int, k: nat)
    requires k < CYCLE
    ensures Wrap(x + k) == Wrap(Wrap(x) + k) == if Wrap(x) + k < CYCLE then Wrap(x) + k else Wrap(x) + k - CYCLE
  {
    assert x == CYCLE * (x / CYCLE) + Wrap(x);
    WrapShift(Wrap(x) + k, x / CYCLE);
  }

  lemma SameClass(a: int, b: int, m: nat, d: int)
    requires m > 0 && a % m == b % m
    ensures (a + d) % m == (b + d) % m
  {
    assert a == m * (a / m) + a % m && b == m * (b / m) + b % m;
    var r := (a + d) % m;
    assert a + d == m * ((a + d) / m) + r;
    var q := (a + d) / m - a / m + b / m;
    assert b + d == m * q + r by {
      Distribute(m, (a + d) / m, a / m, b / m);
    }
    ModUnique(b + d, q, r, m);
  }

  lemma Distribute(m: int, x: int, y: int, z: int)
    ensures m * (x - y + z) == m * x - m * y + m * z
  {
  }

  /** The carry into the 64-bit offset when the most advanced time moves on. */
  lemma Carry(mono: int, mono': int, offset: nat, systim: int)
    requires mono <= mono' < mono + CYCLE && Wrap64(offset + Wrap(mono)) == Wrap64(systim)
    ensures Wrap(mono') < Wrap(mono) ==> Wrap64(Wrap64(offset + CYCLE) + Wrap(mono')) == Wrap64(systim + (mono' - mono))
    ensures Wrap(mono') >= Wrap(mono) ==> Wrap64(offset + Wrap(mono')) == Wrap64(systim + (mono' - mono))
  {
    WrapAdd(mono, mono' - mono);
    SameClass(offset + Wrap(mono), systim, SYSTIM_CYCLE, mono' - mono);
    SameClass(Wrap64(offset + CYCLE), offset + CYCLE, SYSTIM_CYCLE, Wrap(mono'));
  }

  lemma PassTaken(t: Times, advance: nat, t': Times)
    requires t'.hrt == t.hrt + advance && t'.now == t.now + advance
    requires t'.mono == Max(t.mono, t'.now) && t'.systim == t.systim + (t'.mono - t.mono)
    ensures Takes(t, Pass(advance), t')
  {
  }

  /** The offset set_tim computes makes the system time what it was set to. */
  lemma OffsetFor(time: int, mono: EVTTIM)
    ensures Wrap64(Wrap64(time - mono) + mono) == Wrap64(time)
  {
    SameClass(Wrap64(time - mono), time - mono, SYSTIM_CYCLE, mono);
  }

  /** The 32-bit test whether the current time, moved on by `step`, overtakes the
      most advanced time. */
  lemma Overtakes(now: int, mono: int, step: nat)
    requires 0 <= mono - now < LAG && step < CYCLE
    ensures Wrap(Wrap(mono) - Wrap(now)) < step <==> mono < now + step
  {
    WrapDiff(mono, now);
  }

  class Clock {
    const cycle: nat               // the timer counts modulo this: TCYC_HRTCNT, or 2^32
    var currentHrtcnt: nat
    var currentEvttim: EVTTIM
    var boundaryEvttim: EVTTIM
    var monotonicEvttim: EVTTIM
    var systimOffset: nat

    ghost var hrt: int
    ghost var now: int
    ghost var mono: int
    ghost var systim: int

    /** The machine variables are the images of the unbounded ones, and the current
        time lags the most advanced one by less than two seconds. */
    ghost predicate Valid()
      reads this
    {
      && 0 < cycle <= CYCLE && currentHrtcnt == Reading(hrt, cycle)
      && currentEvttim == Wrap(now) && monotonicEvttim == Wrap(mono) && boundaryEvttim == Boundary(now)
      && 0 <= mono - now < LAG
      && Wrap64(systimOffset + monotonicEvttim) == Wrap64(systim)
    }

    ghost function Time(): Times
      reads this
    {
      Times(hrt, now, mono, systim)
    }

    /** initialize_tmevt on the time master. */
    constructor (cycle: nat, hrtcnt: nat)
      requires hrtcnt < cycle <= CYCLE
      ensures Valid() && hrt == hrtcnt && now == mono == systim == 0 && this.cycle == cycle
    {
      this.cycle := cycle;
      currentEvttim := 0;
      boundaryEvttim := Wrap(0 - BOUNDARY_MARGIN);
      monotonicEvttim := 0;
      systimOffset := 0;
      currentHrtcnt := hrtcnt;
      hrt, now, mono, systim := hrtcnt, 0, 0, 0;
      ModUnique(hrtcnt, 0, hrtcnt, cycle);
    }

    /** The common tail of a step of the clock: the current time has moved from
        `previous` by the 32-bit amount `step`. */
    method MoveMonotonic(previous: EVTTIM, ghost was: int, step: EVTTIM)
      requires previous == Wrap(was) && now == was + step && currentEvttim == Wrap(now)
      requires 0 <= mono - was < LAG && monotonicEvttim == Wrap(mono)
      requires Wrap64(systimOffset + monotonicEvttim) == Wrap64(systim)
      modifies this`systimOffset, this`monotonicEvttim, this`mono, this`systim
      ensures mono == Max(old(mono), now) && monotonicEvttim == Wrap(mono)
      ensures systim == old(systim) + (mono - old(mono)) && Wrap64(systimOffset + monotonicEvttim) == Wrap64(systim)
    {
      Overtakes(was, mono, step);
      if mono < now {
        Carry(mono, now, systimOffset, systim);
      }
      hide Wrap64, Wrap;
      if Wrap(monotonicEvttim - previous) < step {
        if currentEvttim < monotonicEvttim {
          systimOffset := Wrap64(systimOffset + CYCLE);
        }
        monotonicEvttim := currentEvttim;
        systim, mono := systim + (now - mono), now;
      }
    }

    /** The timer has advanced by `advance`, less than one of its cycles, since the
        last call: event time and the most advanced time follow exactly. */
    method UpdateCurrentEvttim(newHrtcnt: nat, ghost advance: nat)
      requires Valid() && advance < cycle && newHrtcnt == Reading(hrt + advance, cycle)
      modifies this
      ensures Valid() && hrt == old(hrt) + advance && now == old(now) + advance
      ensures mono == Max(old(mono), now) && systim == old(systim) + (mono - old(mono))
      ensures Takes(old(Time()), Pass(advance), Time())
    {
      hide Takes, HrtAdvance, Reading, Wrap64, Wrap;
      AdvanceIsTrue(hrt, advance, cycle);
      WrapAdd(now, advance);
      WrapDiff(now + advance, BOUNDARY_MARGIN);
      var hrtcntAdvance := HrtAdvance(newHrtcnt, currentHrtcnt, cycle);
      assert hrtcntAdvance == advance;
      currentHrtcnt := newHrtcnt;
      var previous := currentEvttim;
      currentEvttim := Wrap(currentEvttim + hrtcntAdvance);
      boundaryEvttim := Wrap(currentEvttim - BOUNDARY_MARGIN);
      hrt, now := hrt + advance, now + advance;
      MoveMonotonic(previous, old(now), hrtcntAdvance);
      PassTaken(old(Time()), advance, Time());
    }

    /** The event time `time` after calc_current_evttim_ub, the current time rounded
        up by one step of the timer. */
    function EvttimAfter(tstep: nat, time: nat): (evttim: EVTTIM)
      requires Valid() && tstep < CYCLE && time < CYCLE
      reads this
      ensures evttim == Wrap(now + tstep + time)
    {
      WrapAdd(now, tstep);
      WrapAdd(now + tstep, time);
      Wrap(Wrap(currentEvttim + tstep) + time)
    }

    /** How far the current time is behind the most advanced one. */
    function Lag(): (lag: EVTTIM)
      requires Valid()
      reads this
      ensures lag == mono - now
    {
      WrapDiff(mono, now);
      Wrap(monotonicEvttim - currentEvttim)
    }

    /** The accepted case of adj_tim: moves the event time, possibly backwards, and
        never the system time backwards. */
    method Adjust(adjtim: int)
      requires Valid() && TMIN_ADJTIM <= adjtim <= TMAX_ADJTIM
      requires adjtim < 0 ==> mono - now < -TMIN_ADJTIM
      modifies this
      ensures Valid() && hrt == old(hrt) && now == old(now) + adjtim
      ensures mono == Max(old(mono), now) && systim == old(systim) + (mono - old(mono))
      ensures Takes(old(Time()), Step.Adjust(adjtim), Time())
    {
      WrapDiff(now, 0 - adjtim);
      WrapDiff(now + adjtim, BOUNDARY_MARGIN);
      hide Wrap64, Wrap, Reading;
      var previous := currentEvttim;
      currentEvttim := Wrap(currentEvttim + adjtim);
      boundaryEvttim := Wrap(currentEvttim - BOUNDARY_MARGIN);
      now := now + adjtim;
      if adjtim > 0 {
        MoveMonotonic(previous, old(now), adjtim);
      }
    }

    /** set_tim: from now on the system time counts from the given value. */
    method SetTim(time: nat, newHrtcnt: nat, ghost advance: nat)
      requires Valid() && advance < cycle && newHrtcnt == Reading(hrt + advance, cycle) && time < SYSTIM_CYCLE
      modifies this
      ensures Valid() && hrt == old(hrt) + advance && now == old(now) + advance && mono == Max(old(mono), now)
      ensures systim == time
    {
      hide Wrap64, Wrap, Reading, Boundary, Takes;
      UpdateCurrentEvttim(newHrtcnt, advance);
      OffsetFor(time, monotonicEvttim);
      systimOffset := Wrap64(time - monotonicEvttim);
      systim := time;
    }

    /** get_tim: the result is the 64-bit image of the system time, which has moved
        on by exactly what the most advanced time moved on. */
    method GetTim(newHrtcnt: nat, ghost advance: nat) returns (time: nat)
      requires Valid() && advance < cycle && newHrtcnt == Reading(hrt + advance, cycle)
      modifies this
      ensures Valid() && hrt == old(hrt) + advance && now == old(now) + advance && mono == Max(old(mono), now)
      ensures systim == old(systim) + (mono - old(mono)) && time == Wrap64(systim)
    {
      UpdateCurrentEvttim(newHrtcnt, advance);
      time := Wrap64(systimOffset + monotonicEvttim);
    }
  }
}

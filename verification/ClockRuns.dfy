/** Runs of the event clock in unbounded time: what any sequence of updates, accepted
    adjustments and settings of the system time does (kernel/time_event.c,
    kernel/time_manage.c). */
module ClockRuns {

  import opened TimeWindow

  /** The timer's count, the current event time, the most advanced event time and the system time. */
  datatype Times = Times(hrt: int, now: int, mono: int, systim: int)

  /** The timer moves on, adj_tim is accepted, or set_tim sets the system time. */
  datatype Step = Pass(advance: int) | Adjust(adjtim: int) | Set(time: int)

  function Max(a: int, b: int): int {
    if a < b then b else a
  }

  /** How far a step moves the current event time. */
  function Moved(s: Step): int {
    match s
    case Pass(advance) => advance
    case Adjust(adjtim) => adjtim
    case Set(_) => 0
  }

  /** How far the timer itself moves. */
  function Elapsed(s: Step): int {
    if s.Pass? then s.advance else 0
  }

  ghost predicate Takes(t: Times, s: Step, t': Times) {
    && (match s
        case Pass(advance) => advance >= 0
        case Adjust(adjtim) => TMIN_ADJTIM <= adjtim <= TMAX_ADJTIM && (adjtim < 0 ==> t.mono - t.now < -TMIN_ADJTIM)
        case Set(_) => true)
    && t'.hrt == t.hrt + Elapsed(s)
    && t'.now == t.now + Moved(s)
    && t'.mono == Max(t.mono, t'.now)
    && t'.systim == if s.Set? then s.time else t.systim + (t'.mono - t.mono)
  }

  ghost predicate Run(ts: seq<Times>, steps: seq<Step>) {
    && |ts| == |steps| + 1
    && 0 <= ts[0].mono - ts[0].now < LAG
    && forall i {:trigger steps[i]} :: 0 <= i < |steps| ==> Takes(ts[i], steps[i], ts[i + 1])
  }

  /** The adjustments accepted from step i up to step j. */
  ghost function Adjusted(steps: seq<Step>, i: nat, j: nat): int
    requires i <= j <= |steps|
    decreases j
  {
    if i == j then 0 else Adjusted(steps, i, j - 1) + (if steps[j - 1].Adjust? then steps[j - 1].adjtim else 0)
  }

  /** The current time never lags the most advanced one by two seconds or more. */
  lemma {:induction false} LagBounded(ts: seq<Times>, steps: seq<Step>, j: nat)
    requires Run(ts, steps) && j <= |steps|
    ensures 0 <= ts[j].mono - ts[j].now < LAG
  {
    if j > 0 {
      LagBounded(ts, steps, j - 1);
      assert Takes(ts[j - 1], steps[j - 1], ts[j]);
    }
  }

  /** The most advanced time is the greatest that the current time has been. */
  lemma {:induction false} MonoIsGreatest(ts: seq<Times>, steps: seq<Step>, i: nat, j: nat)
    requires Run(ts, steps) && i <= j <= |steps|
    ensures ts[i].mono <= ts[j].mono
    ensures forall k {:trigger ts[k]} :: i <= k <= j ==> ts[k].now <= ts[j].mono
    ensures ts[j].mono == ts[i].mono || exists k {:trigger ts[k]} :: i < k <= j && ts[k].now == ts[j].mono
  {
    if i < j {
      MonoIsGreatest(ts, steps, i, j - 1);
      assert Takes(ts[j - 1], steps[j - 1], ts[j]);
      assert ts[j].mono == ts[j - 1].mono || ts[j].now == ts[j].mono;
    } else {
      LagBounded(ts, steps, i);
    }
  }

  /** Between two settings, the system time advances by exactly what the most advanced event time advances,
      and so never goes back. */
  lemma {:induction false} SystimExact(ts: seq<Times>, steps: seq<Step>, i: nat, j: nat)
    requires Run(ts, steps) && i <= j <= |steps|
    requires forall k :: i <= k < j ==> !steps[k].Set?
    ensures ts[j].systim - ts[i].systim == ts[j].mono - ts[i].mono >= 0
  {
    if i < j {
      SystimExact(ts, steps, i, j - 1);
      assert Takes(ts[j - 1], steps[j - 1], ts[j]);
    }
  }

  /** The event time follows the timer exactly, up to the accepted adjustments. */
  lemma {:induction false} NowExact(ts: seq<Times>, steps: seq<Step>, i: nat, j: nat)
    requires Run(ts, steps) && i <= j <= |steps|
    ensures ts[j].now - ts[i].now == (ts[j].hrt - ts[i].hrt) + Adjusted(steps, i, j)
  {
    if i < j {
      NowExact(ts, steps, i, j - 1);
      assert Takes(ts[j - 1], steps[j - 1], ts[j]);
    }
  }

  /** While nothing is adjusted or set, the system time is behind the true advance of the timer by
      no more than the lag it began with, and never ahead of it. */
  lemma SystimFollowsTimer(ts: seq<Times>, steps: seq<Step>, i: nat, j: nat)
    requires Run(ts, steps) && i <= j <= |steps|
    requires forall k :: i <= k < j ==> steps[k].Pass?
    ensures var elapsed := ts[j].hrt - ts[i].hrt;
      elapsed - (ts[i].mono - ts[i].now) <= ts[j].systim - ts[i].systim <= elapsed
  {
    OnlyPassing(ts, steps, i, j);
    SystimExact(ts, steps, i, j);
    NowExact(ts, steps, i, j);
    LagBounded(ts, steps, i);
    MonoIsGreatest(ts, steps, i, j);
  }

  lemma {:induction false} OnlyPassing(ts: seq<Times>, steps: seq<Step>, i: nat, j: nat)
    requires Run(ts, steps) && i <= j <= |steps|
    requires forall k :: i <= k < j ==> steps[k].Pass?
    ensures Adjusted(steps, i, j) == 0
    ensures forall k {:trigger ts[k]} :: i <= k <= j ==> ts[k].now <= ts[j].now
  {
    if i < j {
      OnlyPassing(ts, steps, i, j - 1);
      assert Takes(ts[j - 1], steps[j - 1], ts[j]);
    }
  }

  /** An event registered for `time` from now, rounded up by one step of the timer, and found due later:
      at least that time has passed on the timer, less what the clock was put forward. */
  lemma NeverEarly(ts: seq<Times>, steps: seq<Step>, i: nat, j: nat, tstep: nat, time: nat)
    requires Run(ts, steps) && i <= j <= |steps|
    requires ts[i].now + tstep + time <= ts[j].now
    ensures ts[j].hrt - ts[i].hrt >= tstep + time - Adjusted(steps, i, j)
  {
    NowExact(ts, steps, i, j);
  }
}

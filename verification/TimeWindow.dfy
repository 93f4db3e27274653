/** Why 32-bit wrap-around event times can be compared safely
    (kernel/time_event.c): every registered event lies in a window around the
    current time that is shorter than one cycle of the 32-bit counter, so the
    comparison relative to the boundary agrees with the order of the unbounded
    times, and stays right when the boundary moves.
  */
module TimeWindow {
  import opened TimeEventHeap

  const BOUNDARY_MARGIN: int := 200_000_000
  const TMAX_RELTIM: int := 4_000_000_000
  const TMAX_TSTEP: int := 4_000
  const TMAX_ADJTIM: int := 1_000_000
  const TMIN_ADJTIM: int := -1_000_000
  /** The current time lags the most advanced time by less than this. */
  const LAG: int := 2_000_000
  /** No registered event is this far ahead of the current time. */
  const HORIZON: int := TMAX_RELTIM + TMAX_TSTEP + LAG

  ghost function Boundary(now: int): EVTTIM {
    Wrap(now - BOUNDARY_MARGIN)
  }

  /** Not overdue by more than the margin, not beyond the horizon. */
  ghost predicate InWindow(t: int, now: int) {
    now - BOUNDARY_MARGIN <= t < now + HORIZON
  }

  lemma WrapDiff(x: int, y: int)
    ensures Wrap(Wrap(x) - y) == Wrap(x - y) == Wrap(Wrap(x) - Wrap(y))
  {
    assert x == CYCLE * (x / CYCLE) + Wrap(x);
    assert y == CYCLE * (y / CYCLE) + Wrap(y);
    WrapShift(x - y, -(x / CYCLE));
    WrapShift(x - y, -(x / CYCLE) + y / CYCLE);
  }

  lemma WrapShift(x: int, k: int)
    ensures Wrap(x + CYCLE * k) == Wrap(x)
  {
    var q := x / CYCLE;
    assert x + CYCLE * k == CYCLE * (q + k) + Wrap(x);
  }

  /** A time within the next 2^32 units after the boundary is seen at its true distance. */
  lemma AdvanceIsDistance(t: int, now: int)
    requires now - BOUNDARY_MARGIN <= t < now - BOUNDARY_MARGIN + CYCLE
    ensures EvttimAdvance(Wrap(t), Boundary(now)) == t - (now - BOUNDARY_MARGIN)
  {
    WrapDiff(t, now - BOUNDARY_MARGIN);
  }

  /** In the window the wrapped comparisons are the true ones. */
  lemma CompareAgrees(t1: int, t2: int, now: int)
    requires InWindow(t1, now) && InWindow(t2, now)
    ensures EvttimLe(Wrap(t1), Wrap(t2), Boundary(now)) <==> t1 <= t2
    ensures EvttimLt(Wrap(t1), Wrap(t2), Boundary(now)) <==> t1 < t2
  {
    AdvanceIsDistance(t1, now);
    AdvanceIsDistance(t2, now);
  }

  /** The exact limit of the due test: an event in the past is recognised as due
      precisely when it is overdue by no more than the margin. */
  lemma DueExactly(t: int, now: int)
    requires now - CYCLE < t <= now
    ensures EvttimLe(Wrap(t), Wrap(now), Boundary(now)) <==> now - t <= BOUNDARY_MARGIN
  {
    AdvanceIsDistance(now, now);
    if now - t <= BOUNDARY_MARGIN {
      AdvanceIsDistance(t, now);
    } else if t + CYCLE < now - BOUNDARY_MARGIN + CYCLE {
      AdvanceIsDistance(t + CYCLE, now);
      WrapShift(t, 1);
    }
  }

  /** An event overdue by one unit more than the margin looks as if it were in
      the far future. */
  lemma OverdueByMore()
    ensures !EvttimLe(Wrap(0), Wrap(200_000_001), Boundary(200_000_001))
  {
    DueExactly(0, 200_000_001);
  }
}

/** barrier_sync (kernel/startup.c:74-113): the barrier the processors pass together
    when the kernel starts and ends.

    Every processor passes the same sequence of barriers; `phase[k]` is the argument
    of the k-th call.  A step is one access to the shared variables, so the counting
    scan of the master processor is not atomic.
  */
module Barrier {

  /** Phases that follow each other differ, and the first differs from the initial 0. */
  predicate AdjacentDistinct(phase: seq<int>) {
    && (|phase| > 0 ==> phase[0] != 0)
    && forall k {:trigger phase[k]} :: 0 < k < |phase| ==> phase[k] != phase[k - 1]
  }

  /** The phases of sta_ker followed by those of ext_ker (kernel/startup.c:171-236 and
      345-358). */
  const KERNEL_PHASES := [1, 2, 3, 4, 5, 6, 5, 6, 7]

  lemma KernelPhasesDiffer()
    ensures AdjacentDistinct(KERNEL_PHASES)
  {
  }

  /** Before its k-th barrier a processor has the phase of the one before. */
  function Previous(phase: seq<int>, k: int): int {
    if 0 < k <= |phase| then phase[k - 1] else 0
  }

  datatype Step =
    | Enter(prc: int)      // prc_phase[prcidx] = phase
    | Look                 // the master reads prc_phase[i]
    | Retry                // it has not counted all: it starts to count again
    | Release              // it has counted all: sys_phase = phase, and it returns
    | Leave(prc: int)      // another processor finds sys_phase == phase and returns

  datatype State = State(
    phase: seq<int>,
    master: int,
    prcPhase: seq<int>,
    sysPhase: int,
    round: seq<int>,       // how many barriers each processor has left
    inside: seq<bool>,     // whether it is in the next one
    i: int,                // the master's loop
    count: int)
  {
    ghost predicate Initial() {
      && 0 <= master < |prcPhase| == |round| == |inside|
      && sysPhase == 0 && i == 0 && count == 0
      && forall p {:trigger round[p]} :: 0 <= p < |round| ==> prcPhase[p] == 0 && round[p] == 0 && !inside[p]
    }

    ghost predicate Moves(step: Step, b: State)
      requires |prcPhase| == |round| == |inside| && 0 <= master < |round|
    {
      var k := round[master];
      match step
      case Enter(p) =>
        && 0 <= p < |round| && !inside[p] && 0 <= round[p] < |phase|
        && b == this.(prcPhase := prcPhase[p := phase[round[p]]], inside := inside[p := true],
                      i := if p == master then 0 else i, count := if p == master then 0 else count)
      case Look =>
        && inside[master] && 0 <= k < |phase| && 0 <= i < |round|
        && b == this.(i := i + 1, count := if prcPhase[i] == phase[k] then count + 1 else count)
      case Retry =>
        inside[master] && i == |round| && count < |round| && b == this.(i := 0, count := 0)
      case Release =>
        && inside[master] && 0 <= k < |phase| && i == |round| && count >= |round|
        && b == this.(sysPhase := phase[k], round := round[master := k + 1], inside := inside[master := false])
      case Leave(p) =>
        && 0 <= p < |round| && p != master && inside[p] && 0 <= round[p] < |phase| && sysPhase == phase[round[p]]
        && b == this.(round := round[p := round[p] + 1], inside := inside[p := false])
    }

    /** Processor p has entered its k-th barrier. */
    ghost predicate Entered(p: int, k: int)
      requires 0 <= p < |round| == |inside|
    {
      round[p] > k || (round[p] == k && inside[p])
    }

    /** Processor p is in the barrier the master is at, on the way to it, or has not
        yet noticed that the master has released the one before. */
    ghost predicate Near(p: int)
      requires 0 <= p < |round| == |inside| == |prcPhase| && 0 <= master < |round|
    {
      var k := round[master];
      && 0 <= k <= |phase| && 0 <= round[p] <= k && (round[p] < k ==> round[p] == k - 1 && inside[p])
      && (inside[p] ==> round[p] < |phase|)
      && prcPhase[p] == if inside[p] then phase[round[p]] else Previous(phase, round[p])
    }

    ghost predicate Inv() {
      && AdjacentDistinct(phase) && |prcPhase| == |round| == |inside| && 0 <= master < |round|
      && (forall p {:trigger Near(p)} :: 0 <= p < |round| ==> Near(p))
      && sysPhase == Previous(phase, round[master])
      && (inside[master] ==> 0 <= count <= i <= |round|)
      && (inside[master] && count == i ==> forall p {:trigger Entered(p, round[master])} :: 0 <= p < i ==>
           Entered(p, round[master]))
    }

    lemma InitialInv()
      requires Initial() && AdjacentDistinct(phase)
      ensures Inv()
    {
      assert round[master] == 0;
      forall p | 0 <= p < |round|
        ensures Near(p)
      {
        assert round[p] == 0;
      }
    }

    /** The master counts a processor only if it is in the master's barrier. */
    lemma CountedIsInside(p: int)
      requires Inv() && inside[master] && 0 <= p < |round| && 0 <= round[master] < |phase|
      ensures prcPhase[p] == phase[round[master]] <==> Entered(p, round[master])
    {
      assert Near(p) && Near(master);
    }

    /** No processor but the master leaves a barrier the master is still in. */
    lemma LeavesOnlyReleased(p: int)
      requires Inv() && 0 <= p < |round| && inside[p] && round[p] < |phase|
      ensures 0 <= round[p] && (sysPhase == phase[round[p]] <==> round[p] < round[master])
    {
      assert Near(p) && Near(master);
      var k := round[master];
      assert 0 < k < |phase| ==> phase[k] != phase[k - 1];
    }

    lemma MovesKeep(step: Step, b: State)
      requires Inv() && Moves(step, b)
      ensures b.Inv()
    {
      assert Near(master);
      var k := round[master];
      match step {
        case Enter(p) =>
          forall q | 0 <= q < |round|
            ensures b.Near(q) && (Entered(q, k) ==> b.Entered(q, k))
          {
            assert Near(q);
          }
        case Look =>
          CountedIsInside(i);
          StillNear(b);
        case Retry =>
          StillNear(b);
        case Release =>
          forall q | 0 <= q < |round|
            ensures b.Near(q)
          {
            assert Near(q) && Entered(q, k);
          }
        case Leave(p) =>
          LeavesOnlyReleased(p);
          forall q | 0 <= q < |round|
            ensures b.Near(q) && (Entered(q, k) ==> b.Entered(q, k))
          {
            assert Near(q);
          }
      }
    }

    lemma StillNear(b: State)
      requires Inv() && b == this.(i := b.i, count := b.count)
      ensures forall q {:trigger b.Near(q)} :: 0 <= q < |round| ==> b.Near(q)
      ensures forall q, k {:trigger b.Entered(q, k)} :: 0 <= q < |round| ==> b.Entered(q, k) == Entered(q, k)
    {
      forall q | 0 <= q < |round|
        ensures b.Near(q)
      {
        assert Near(q);
      }
    }

    /** Nobody has left barrier k before everybody has entered it; nobody is more than
        one barrier ahead of another. */
    lemma Synchronised(p: int, q: int, k: int)
      requires Inv() && 0 <= p < |round| && 0 <= q < |round|
      ensures round[p] > k ==> Entered(q, k)
      ensures round[p] <= round[q] + 1
    {
      assert Near(p) && Near(q);
    }

    /** Once all have entered, a counting scan that begins counts all. */
    lemma CountsAll(step: Step, b: State)
      requires Inv() && Moves(step, b) && inside[master] && count == i
      requires forall p {:trigger Entered(p, round[master])} :: 0 <= p < |round| ==> Entered(p, round[master])
      ensures step != Retry
      ensures step != Release ==> b.inside[master] && b.count == b.i && b.round[master] == round[master]
      ensures step != Release ==> forall p {:trigger b.Entered(p, b.round[master])} :: 0 <= p < |b.round| ==>
              b.Entered(p, b.round[master])
    {
      var k := round[master];
      if step == Look {
        CountedIsInside(i);
      }
      assert step.Leave? ==> Near(step.prc);
      forall p | 0 <= p < |round| && step != Release
        ensures b.Entered(p, k)
      {
        assert Entered(p, k);
        if step.Leave? {
          LeavesOnlyReleased(step.prc);
        }
      }
    }
  }

  ghost predicate Run(states: seq<State>, steps: seq<Step>) {
    && |states| == |steps| + 1 && states[0].Initial()
    && forall j {:trigger steps[j]} :: 0 <= j < |steps| ==> Moving(states[j], steps[j], states[j + 1])
  }

  ghost predicate Moving(a: State, step: Step, b: State) {
    |a.prcPhase| == |a.round| == |a.inside| && 0 <= a.master < |a.round| && a.Moves(step, b)
  }

  lemma {:induction false} RunKeeps(states: seq<State>, steps: seq<Step>, j: nat)
    requires Run(states, steps) && j < |states| && AdjacentDistinct(states[0].phase)
    ensures states[j].Inv()
  {
    if j == 0 {
      states[0].InitialInv();
    } else {
      RunKeeps(states, steps, j - 1);
      hide State.Inv, State.Moves;
      assert Moving(states[j - 1], steps[j - 1], states[j - 1 + 1]);
      states[j - 1].MovesKeep(steps[j - 1], states[j]);
    }
  }

  /** In every run, whoever has left barrier k finds that all have entered it, and no
      one is more than one barrier ahead. */
  lemma Barriers(states: seq<State>, steps: seq<Step>, j: nat, p: int, q: int, k: int)
    requires Run(states, steps) && j < |states| && AdjacentDistinct(states[0].phase)
    requires 0 <= p < |states[j].round| && 0 <= q < |states[j].round|
    ensures |states[j].round| == |states[j].inside|
    ensures states[j].round[p] > k ==> states[j].Entered(q, k)
    ensures states[j].round[p] <= states[j].round[q] + 1
  {
    RunKeeps(states, steps, j);
    states[j].Synchronised(p, q, k);
  }

  ghost predicate Reachable(s: State) {
    exists states, steps :: Run(states, steps) && states[|steps|] == s
  }

  lemma ReachableStep(a: State, step: Step, b: State)
    requires Reachable(a) && Moving(a, step, b)
    ensures Reachable(b)
  {
    hide Moving;
    var states, steps :| Run(states, steps) && states[|steps|] == a;
    var states', steps' := states + [b], steps + [step];
    forall j {:trigger steps'[j]} | 0 <= j < |steps'|
      ensures Moving(states'[j], steps'[j], states'[j + 1])
    {
      assert j < |steps| ==> steps'[j] == steps[j];
    }
    assert Run(states', steps') && states'[|steps'|] == b;
  }

  // ------ why the phases must differ

  ghost predicate Sized(s: State, phase: seq<int>, n: int, m: int) {
    s.phase == phase && s.master == m && |s.prcPhase| == |s.round| == |s.inside| == n && 0 <= m < n
  }

  /** All processors have left k barriers, and none is in the next one. */
  ghost predicate Together(s: State, k: int) {
    && |s.prcPhase| == |s.round| == |s.inside| && s.sysPhase == Previous(s.phase, k)
    && forall p {:trigger s.round[p]} {:trigger s.inside[p]} :: 0 <= p < |s.round| ==> s.round[p] == k && !s.inside[p]
  }

  /** The first e processors have entered barrier k; if the master is among them it has not begun to count. */
  ghost predicate Entering(s: State, k: int, e: int) {
    && |s.prcPhase| == |s.round| == |s.inside| && 0 <= k < |s.phase| && 0 <= e <= |s.round|
    && (forall p {:trigger s.round[p]} {:trigger s.inside[p]} {:trigger s.prcPhase[p]} :: 0 <= p < |s.round| ==>
          s.round[p] == k && s.inside[p] == (p < e) && (p < e ==> s.prcPhase[p] == s.phase[k]))
    && (s.master < e ==> s.i == s.count == 0)
  }

  /** The master has released barrier k, and it and the first e processors have left it. */
  ghost predicate Leaving(s: State, k: int, e: int) {
    && |s.prcPhase| == |s.round| == |s.inside| && 0 <= k < |s.phase| && 0 <= e <= |s.round| && s.sysPhase == s.phase[k]
    && forall p {:trigger s.round[p]} {:trigger s.inside[p]} :: 0 <= p < |s.round| ==>
         if p < e || p == s.master then s.round[p] == k + 1 && !s.inside[p] else s.round[p] == k && s.inside[p]
  }

  lemma {:induction false} AllEnter(s: State, phase: seq<int>, n: int, m: int, k: int, e: int) returns (t: State)
    requires Reachable(s) && Sized(s, phase, n, m) && Entering(s, k, e)
    ensures Reachable(t) && Sized(t, phase, n, m) && Entering(t, k, n)
    decreases n - e
  {
    hide Reachable;
    if e == n {
      t := s;
    } else {
      t := s.(prcPhase := s.prcPhase[e := phase[k]], inside := s.inside[e := true],
              i := if e == m then 0 else s.i, count := if e == m then 0 else s.count);
      assert s.round[e] == k && !s.inside[e];
      ReachableStep(s, Enter(e), t);
      t := AllEnter(t, phase, n, m, k, e + 1);
    }
  }

  /** With all processors in it the master counts all. */
  lemma {:induction false} AllCounted(s: State, phase: seq<int>, n: int, m: int, k: int, c: int) returns (t: State)
    requires Reachable(s) && Sized(s, phase, n, m) && Entering(s.(i := 0, count := 0), k, n) && s.i == s.count == c <= n
    requires 0 <= c
    ensures Reachable(t) && Sized(t, phase, n, m) && Entering(t.(i := 0, count := 0), k, n) && t.i == t.count == n
    decreases n - c
  {
    hide Reachable;
    if c == n {
      t := s;
    } else {
      t := s.(i := c + 1, count := c + 1);
      var u := s.(i := 0, count := 0);
      assert u.prcPhase[c] == phase[k] && u.round[m] == k && u.inside[m];
      ReachableStep(s, Look, t);
      t := AllCounted(t, phase, n, m, k, c + 1);
    }
  }

  lemma {:induction false} AllLeave(s: State, phase: seq<int>, n: int, m: int, k: int, e: int) returns (t: State)
    requires Reachable(s) && Sized(s, phase, n, m) && Leaving(s, k, e)
    ensures Reachable(t) && Sized(t, phase, n, m) && Leaving(t, k, n)
    decreases n - e
  {
    hide Reachable;
    if e == n {
      t := s;
    } else if e == m {
      t := AllLeave(s, phase, n, m, k, e + 1);
    } else {
      t := s.(round := s.round[e := k + 1], inside := s.inside[e := false]);
      assert s.round[e] == k && s.inside[e];
      ReachableStep(s, Leave(e), t);
      t := AllLeave(t, phase, n, m, k, e + 1);
    }
  }

  /** Whatever the phases, all processors can pass the first k barriers in step. */
  lemma {:induction false} InStep(phase: seq<int>, n: int, m: int, k: int) returns (s: State)
    requires 0 <= m < n && 0 <= k <= |phase|
    ensures Reachable(s) && Sized(s, phase, n, m) && Together(s, k)
    decreases k
  {
    if k == 0 {
      s := State(phase, m, seq(n, _ => 0), 0, seq(n, _ => 0), seq(n, _ => false), 0, 0);
      var none: seq<Step> := [];
      assert Run([s], none) && [s][|none|] == s;
    } else {
      hide Reachable;
      s := InStep(phase, n, m, k - 1);
      s := AllEnter(s, phase, n, m, k - 1, 0);
      s := AllCounted(s, phase, n, m, k - 1, 0);
      var u := s.(i := 0, count := 0);
      assert u.round[m] == k - 1 && u.inside[m];
      var t := s.(sysPhase := phase[k - 1], round := s.round[m := k], inside := s.inside[m := false]);
      assert forall p {:trigger t.round[p]} {:trigger t.inside[p]} :: 0 <= p < n && p != m ==>
             u.round[p] == k - 1 && u.inside[p];
      ReachableStep(s, Release, t);
      s := AllLeave(t, phase, n, m, k - 1, 0);
    }
  }

  /** At a phase equal to the one before it, any processor but the master enters and leaves at once. */
  lemma Overtakes(phase: seq<int>, n: int, m: int, k: int, p: int) returns (s: State)
    requires 0 <= m < n && 0 <= p < n && p != m && 0 <= k < |phase| && phase[k] == Previous(phase, k)
    ensures Reachable(s) && Sized(s, phase, n, m) && s.round[p] > k && !s.Entered(m, k)
  {
    hide Reachable;
    var t := InStep(phase, n, m, k);
    assert t.round[p] == k && !t.inside[p] && t.round[m] == k && !t.inside[m];
    var u := t.(prcPhase := t.prcPhase[p := phase[k]], inside := t.inside[p := true]);
    ReachableStep(t, Enter(p), u);
    s := u.(round := u.round[p := k + 1], inside := u.inside[p := false]);
    ReachableStep(u, Leave(p), s);
  }

  lemma {:induction false} StillSized(states: seq<State>, steps: seq<Step>, j: nat)
    requires Run(states, steps) && j < |states|
    ensures states[j].phase == states[0].phase
  {
    if j > 0 {
      StillSized(states, steps, j - 1);
      assert Moving(states[j - 1], steps[j - 1], states[j - 1 + 1]);
    }
  }

  /** n processors with master m are safe with these phases: in no reachable state has one left a barrier that
      another has not entered. */
  ghost predicate Safe(phase: seq<int>, n: int, m: int) {
    forall s, p, q, k {:trigger s.Entered(q, k), s.round[p]} {:trigger Reachable(s), s.round[p], s.Entered(q, k)} ::
      Reachable(s) && Sized(s, phase, n, m) && 0 <= p < n && 0 <= q < n && s.round[p] > k ==> s.Entered(q, k)
  }

  lemma SafeIfDistinct(phase: seq<int>, n: int, m: int)
    requires AdjacentDistinct(phase)
    ensures Safe(phase, n, m)
  {
    forall s, p, q, k | Reachable(s) && Sized(s, phase, n, m) && 0 <= p < n && 0 <= q < n && s.round[p] > k
      ensures s.Entered(q, k)
    {
      var states, steps :| Run(states, steps) && states[|steps|] == s;
      StillSized(states, steps, |steps|);
      Barriers(states, steps, |steps|, p, q, k);
    }
  }

  /** The condition on the phases is exact: with two or more processors, whichever is the master, the barriers
      hold if and only if adjacent phases differ and the first is not 0.  A single processor is always safe. */
  lemma SafeExactly(phase: seq<int>, n: int, m: int)
    requires 0 <= m < n
    ensures Safe(phase, n, m) <==> n == 1 || AdjacentDistinct(phase)
  {
    if AdjacentDistinct(phase) {
      SafeIfDistinct(phase, n, m);
    } else if n > 1 {
      var k: int := 0;
      if |phase| == 0 || phase[0] != 0 {
        k :| 0 < k < |phase| && phase[k] == phase[k - 1];
      }
      var p := if m == 0 then 1 else 0;
      var s := Overtakes(phase, n, m, k, p);
      assert s.round[p] > k && !s.Entered(m, k);
    }
  }

  /** The shared variables, and each access of barrier_sync to them. */
  class BarrierSync {
    var prcPhase: array<int>
    var sysPhase: int
    const master: int
    ghost var phase: seq<int>
    ghost var round: seq<int>
    ghost var inside: seq<bool>
    var i: int
    var count: int

    ghost function Now(): State
      reads this, prcPhase
    {
      State(phase, master, prcPhase[..], sysPhase, round, inside, i, count)
    }

    /** Before the first barrier: prc_phase and sys_phase are 0. */
    constructor (n: nat, master: int, ghost phase: seq<int>)
      requires 0 <= master < n && AdjacentDistinct(phase)
      ensures Now().Initial() && Now().Inv() && this.phase == phase && this.master == master && prcPhase.Length == n
    {
      this.master, this.phase := master, phase;
      prcPhase := new int[n](_ => 0);
      sysPhase, i, count := 0, 0, 0;
      round, inside := seq(n, _ => 0), seq(n, _ => false);
      new;
      Now().InitialInv();
    }

    /** A processor comes to its next barrier. */
    method EnterBarrier(p: int, k: int)
      requires Now().Inv() && 0 <= p < |round| && !inside[p] && 0 <= round[p] < |phase| && k == phase[round[p]]
      modifies this, prcPhase
      ensures prcPhase == old(prcPhase) && old(Now()).Moves(Enter(p), Now()) && Now().Inv()
    {
      assert Now().Near(p);
      ghost var v := Now();
      prcPhase[p] := k;
      inside := inside[p := true];
      if p == master {
        i, count := 0, 0;
      }
      v.MovesKeep(Enter(p), Now());
    }

    /** One pass of the master's loops, waiting for phase k: it looks at a processor, or
        counts again, or releases the others and is done. */
    method CountOne(k: int) returns (done: bool)
      requires Now().Inv() && inside[master] && 0 <= round[master] < |phase| && k == phase[round[master]]
      modifies this
      ensures Now().Inv() && prcPhase == old(prcPhase)
      ensures old(Now()).Moves(if old(i) < prcPhase.Length then Look else if done then Release else Retry, Now())
      ensures done ==> forall p :: 0 <= p < |round| ==> old(Now()).Entered(p, old(round[master]))
    {
      ghost var v := Now();
      assert v.Near(master);
      done := false;
      if i < prcPhase.Length {
        if prcPhase[i] == k {
          count := count + 1;
        }
        i := i + 1;
        v.MovesKeep(Look, Now());
      } else if count < prcPhase.Length {
        i, count := 0, 0;
        v.MovesKeep(Retry, Now());
      } else {
        sysPhase := k;
        round, inside := round[master := round[master] + 1], inside[master := false];
        done := true;
        v.MovesKeep(Release, Now());
      }
    }

    /** Another processor looks whether phase k is released. */
    method Poll(p: int, k: int) returns (done: bool)
      requires Now().Inv() && 0 <= p < |round| && p != master && inside[p] && 0 <= round[p] < |phase|
      requires k == phase[round[p]]
      modifies this
      ensures Now().Inv() && prcPhase == old(prcPhase)
      ensures done <==> old(round[p] < round[master])
      ensures if done then old(Now()).Moves(Leave(p), Now()) else Now() == old(Now())
    {
      ghost var v := Now();
      v.LeavesOnlyReleased(p);
      done := sysPhase == k;
      if done {
        round, inside := round[p := round[p] + 1], inside[p := false];
        v.MovesKeep(Leave(p), Now());
      }
    }
  }
}

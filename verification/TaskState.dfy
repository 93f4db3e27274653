/** The bits of tstat (kernel/task.h:84-140): the macros that test them read exactly
    the state TaskQueues.Tstat records, and the assignments to tstat in the kernel write
    it. */
module TaskState {

  import opened TaskQueues

  const TS_DORMANT: bv8 := 0x00
  const TS_RUNNABLE: bv8 := 0x01
  const TS_SUSPENDED: bv8 := 0x02
  const TS_WAITING_MASK: bv8 := 0x1f << 2

  /** The wait factors. */
  datatype Factor = Slp | Dly | Rdtq | Rpdq | Sem | Flg | Sdtq | Spdq | Mtx | Mpf

  function Waiting(f: Factor): bv8 {
    match f
    case Slp => 0x01 << 2
    case Dly => 0x02 << 2
    case Rdtq => 0x08 << 2
    case Rpdq => 0x09 << 2
    case Sem => 0x10 << 2
    case Flg => 0x11 << 2
    case Sdtq => 0x12 << 2
    case Spdq => 0x13 << 2
    case Mtx => 0x14 << 2
    case Mpf => 0x15 << 2
  }

  /** Which factors stand for a wait. */
  predicate Stands(f: Factor, w: Wait) {
    match w
    case NoWait => false
    case Sleep => f == Slp
    case Delay => f == Dly
    case Receiving(_) => f == Rdtq || f == Rpdq
    case On(_) => f != Slp && f != Dly && f != Rdtq && f != Rpdq
  }

  /** tstat of a task in state s whose wait, if any, has factor f. */
  function Encode(s: Tstat, f: Factor): bv8 {
    (if s.runnable then TS_RUNNABLE else 0) | (if s.suspended then TS_SUSPENDED else 0) | (if s.wait == NoWait then 0
     else Waiting(f))
  }

  ghost predicate Legal(s: Tstat, f: Factor) {
    (s.runnable ==> !s.suspended && s.wait == NoWait) && (s.wait == NoWait || Stands(f, s.wait))
  }

  /** TSTAT_DORMANT, TSTAT_RUNNABLE, TSTAT_WAITING, TSTAT_SUSPENDED, TSTAT_WAIT_SLP,
      TSTAT_WAIT_MTX, TSTAT_WAIT_WOBJ and TSTAT_WAIT_WOBJCB. */
  lemma MacrosAgree(s: Tstat, f: Factor)
    requires Legal(s, f)
    ensures var b := Encode(s, f);
      && (b == TS_DORMANT <==> s == DORMANT)
      && (b & TS_RUNNABLE != 0 <==> s.runnable)
      && (b & TS_WAITING_MASK != 0 <==> s.wait != NoWait)
      && (b & TS_SUSPENDED != 0 <==> s.suspended)
      && (b & !TS_SUSPENDED == Waiting(Slp) <==> s.wait == Sleep)
      && (b & !TS_SUSPENDED == Waiting(Mtx) <==> s.wait != NoWait && f == Mtx)
      && (b & (0x18 << 2) != 0 <==> s.wait.On? || s.wait.Receiving?)
      && (b & (0x10 << 2) != 0 <==> s.wait.On?)
  {
  }

  /** The assignments: to runnable, to suspended, into and out of a wait, and the
      setting and clearing of TS_SUSPENDED. */
  lemma AssignmentsAgree(s: Tstat, f: Factor, w: Wait)
    requires Legal(s, f) && !s.runnable
    ensures Encode(RUNNABLE, f) == TS_RUNNABLE && Encode(SUSPENDED, f) == TS_SUSPENDED
    ensures Encode(DORMANT, f) == TS_DORMANT
    ensures w != NoWait ==> Encode(Tstat(false, false, w), f) == Waiting(f)
    ensures s.wait == NoWait && w != NoWait ==> Encode(s, f) | Waiting(f) == Encode(s.(wait := w), f)
    ensures Encode(s, f) | TS_SUSPENDED == Encode(s.(suspended := true), f)
    ensures Encode(s, f) & !TS_SUSPENDED == Encode(s.(suspended := false), f)
  {
  }

  /** The encoding loses nothing but which object is waited for. */
  lemma EncodeInjective(s: Tstat, f: Factor, s': Tstat, f': Factor)
    requires Legal(s, f) && Legal(s', f') && Encode(s, f) == Encode(s', f')
    ensures s.runnable == s'.runnable && s.suspended == s'.suspended && (s.wait == NoWait <==> s'.wait == NoWait)
    ensures s.wait != NoWait ==> f == f'
  {
    MacrosAgree(s, f);
    MacrosAgree(s', f');
  }
}

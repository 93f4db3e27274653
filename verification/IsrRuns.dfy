/** Whole runs of the protocol of IsrProtocol: any number of processors scanning any
    queues, interleaved with the creation and deletion of ISRs. */
module IsrRuns {

  import opened IsrProtocol
  import opened Sequences
  import opened Options

  /** One section under the giant lock. */
  datatype Step =
    | CallStep(core: Core, next: Option<Slot>)
    | CreateStep(slot: Slot, queue: nat, pri: int, pos: nat, rest: seq<Slot>)
    | UnlinkStep(slot: Slot, index: nat)
    | ReleaseStep(slot: Slot)

  ghost predicate Moves(a: State, step: Step, b: State) {
    match step
    case CallStep(k, next) =>
      && a.IsNext(k, next)
      && (next.Some? ==> next.value < |a.isrcb| && next.value < |a.reg| && next.value < |a.running|)
      && b == a.Call(k, next)
    case CreateStep(s, q, pri, pos, rest) =>
      a.Available(s, rest) && s < |a.reg| && a.InsertAt(q, pri, pos) && b == a.Enqueued(s, q, pri, pos, rest)
    case UnlinkStep(s, i) =>
      a.Linked(s, i) && b == a.Unlinked(s, i)
    case ReleaseStep(s) =>
      s in a.quiescing && s < |a.running| && a.running[s] == {} && s < |a.reg| && b == a.Released(s)
  }

  /** A run from a state of the invariant: states[i] moves to states[i + 1] by steps[i]. */
  ghost predicate Run(states: seq<State>, steps: seq<Step>) {
    && |states| == |steps| + 1 && states[0].Inv()
    && forall i {:trigger steps[i]} :: 0 <= i < |steps| ==> Moves(states[i], steps[i], states[i + 1])
  }

  lemma MovesKeep(a: State, step: Step, b: State)
    requires a.Inv() && Moves(a, step, b)
    ensures b.Inv()
  {
    hide State.Inv, State.IsNext, State.Call, State.InsertAt, State.Enqueued, State.Available, State.Linked,
      State.Unlinked, State.Released;
    match step
    case CallStep(k, next) => a.CallKeeps(k, next);
    case CreateStep(s, q, pri, pos, rest) => a.EnqueuedKeeps(s, q, pri, pos, rest);
    case UnlinkStep(s, i) => a.UnlinkedKeeps(s, i);
    case ReleaseStep(s) => a.ReleasedKeeps(s);
  }

  /** The invariant holds all along a run. */
  lemma {:induction false} RunKeeps(states: seq<State>, steps: seq<Step>, i: nat)
    requires Run(states, steps) && i < |states|
    ensures states[i].Inv()
  {
    hide State.Inv, Moves;
    if i > 0 {
      RunKeeps(states, steps, i - 1);
      assert Moves(states[i - 1], steps[i - 1], states[i - 1 + 1]);
      MovesKeep(states[i - 1], steps[i - 1], states[i]);
    }
  }

  // ------ blocks

  ghost predicate Queued(st: State, s: Slot) {
    exists q {:trigger st.queue[q]} :: 0 <= q < |st.queue| && s in st.queue[q]
  }

  /** A block for dynamic creation is exactly one of queued, quiescing or free; it
      stands in no second queue, and no bit is set in a free one. */
  lemma ExactlyOne(st: State, s: Slot)
    requires st.Inv() && st.nstatic <= s < |st.isrcb|
    ensures Queued(st, s) <==> st.isrcb[s].exs
    ensures Queued(st, s) <==> s !in st.free && s !in st.quiescing
    ensures !(s in st.free && s in st.quiescing)
    ensures forall q, q' :: 0 <= q < |st.queue| && 0 <= q' < |st.queue| && s in st.queue[q] && s in st.queue[q'] ==>
            q == q'
    ensures s in st.free ==> s < |st.running| && st.running[s] == {}
  {
    hide Shown, Traced, Archive, Ascending;
    assert Home(st.isrcb, st.queue, st.free, st.quiescing, st.nstatic, s);
    forall q | 0 <= q < |st.queue| && s in st.queue[q]
      ensures st.isrcb[s].exs && st.isrcb[s].queue == Some(q)
    {
      assert Members(st.isrcb, st.queue[q], q, st.isrseq[q]);
    }
  }

  // ------ del_isr

  /** While del_isr waits for a block, no activation enters its body: the wait can
      only get shorter. */
  lemma QuiesceShrinks(a: State, step: Step, b: State, s: Slot)
    requires a.Inv() && Moves(a, step, b) && s in a.quiescing && s in b.quiescing
    ensures s < |a.running| && s < |b.running| && b.running[s] <= a.running[s]
  {
    hide Archive, Unique, Shown, Traced, Ascending, Known, Kept, Trace;
    InTable(a, s);
    assert Home(a.isrcb, a.queue, a.free, a.quiescing, a.nstatic, s);
    if step.CallStep? && step.next.Some? {
      assert Members(a.isrcb, a.queue[step.core.queue], step.core.queue, a.isrseq[step.core.queue]);
    }
  }

  lemma InTable(st: State, s: Slot)
    requires st.Inv() && s in st.quiescing
    ensures s < |st.running|
  {
    hide Archive, Unique, Shown, Traced, Ascending, Members, Home;
  }

  lemma {:induction false} QuiesceShrinksAlong(states: seq<State>, steps: seq<Step>, i: nat, j: nat, s: Slot)
    requires Run(states, steps) && i <= j < |states|
    requires forall h {:trigger states[h]} :: i <= h <= j ==> s in states[h].quiescing
    ensures s < |states[i].running| && s < |states[j].running| && states[j].running[s] <= states[i].running[s]
  {
    hide State.Inv, Moves;
    RunKeeps(states, steps, i);
    if i == j {
      InTable(states[i], s);
    } else {
      QuiesceShrinksAlong(states, steps, i, j - 1, s);
      RunKeeps(states, steps, j - 1);
      assert Moves(states[j - 1], steps[j - 1], states[j - 1 + 1]);
      QuiesceShrinks(states[j - 1], steps[j - 1], states[j], s);
    }
  }

  lemma {:induction false} RetiredStays(states: seq<State>, steps: seq<Step>, i: nat, j: nat)
    requires Run(states, steps) && i <= j < |states|
    ensures states[i].retired <= states[j].retired
  {
    if i < j {
      RetiredStays(states, steps, i, j - 1);
      assert Moves(states[j - 1], steps[j - 1], states[j - 1 + 1]);
    }
  }

  /** Once del_isr has returned E_OK, the registration is in no queue and in no ISR
      body, and stays so for ever, whatever becomes of its block. */
  lemma DeletedNeverRuns(states: seq<State>, steps: seq<Step>, i: nat, j: nat, r: nat)
    requires Run(states, steps) && i <= j < |states| && r in states[i].retired
    ensures forall k :: k in states[j].scan ==>
              states[j].scan[k].slot < |states[j].reg| && states[j].reg[states[j].scan[k].slot] != r
    ensures forall q, s :: 0 <= q < |states[j].queue| && s in states[j].queue[q] ==>
            s < |states[j].reg| && states[j].reg[s] != r
  {
    RunKeeps(states, steps, j);
    RetiredStays(states, steps, i, j);
    hide Placed, Running, Archive, Unique, Traced, Run;
    var st := states[j];
    forall k | k in st.scan
      ensures st.scan[k].slot < |st.reg| && st.reg[st.scan[k].slot] != r
    {
      assert Shows(st.isrcb, st.regs, st.reg, st.retired, st.scan[k].slot, k.queue);
    }
    forall q, s | 0 <= q < |st.queue| && s in st.queue[q]
      ensures s < |st.reg| && st.reg[s] != r
    {
      assert Shows(st.isrcb, st.regs, st.reg, st.retired, s, q);
    }
  }

  // ------ call_isr

  lemma Owes(st: State, k: Core)
    requires st.Inv() && k in st.scan
    ensures k in st.owed && k in st.called
  {
    hide Placed, Running, Archive, Unique, Shown, Trace, Kept, Known;
  }

  /** An activation never forgets what it owes or what it has called. */
  lemma DebtsStay(a: State, step: Step, b: State, k: Core)
    requires a.Inv() && Moves(a, step, b) && k in a.scan && k in b.scan
    ensures k in a.owed && k in b.owed && a.owed[k] <= b.owed[k]
    ensures k in a.called && k in b.called && a.called[k] <= b.called[k]
  {
    hide Placed, Archive, Unique, Shown, Kept, Trace, Known, Running;
  }

  lemma {:induction false} DebtsStayAlong(states: seq<State>, steps: seq<Step>, i: nat, j: nat, k: Core)
    requires Run(states, steps) && i <= j < |states|
    requires forall h {:trigger states[h]} :: i <= h <= j ==> k in states[h].scan
    ensures k in states[i].owed && k in states[j].owed && states[i].owed[k] <= states[j].owed[k]
  {
    hide State.Inv, Moves;
    RunKeeps(states, steps, i);
    if i == j {
      Owes(states[i], k);
    } else {
      DebtsStayAlong(states, steps, i, j - 1, k);
      RunKeeps(states, steps, j - 1);
      assert Moves(states[j - 1], steps[j - 1], states[j - 1 + 1]);
      DebtsStay(states[j - 1], steps[j - 1], states[j], k);
    }
  }

  /** A whole activation of call_isr: it calls its first ISR in step 0 and finds no
      next one in the last state. */
  ghost predicate Activation(states: seq<State>, steps: seq<Step>, k: Core) {
    && Run(states, steps) && |steps| > 0
    && k !in states[0].scan && steps[0].CallStep? && steps[0].core == k && steps[0].next.Some?
    && (forall h {:trigger states[h]} :: 0 < h < |states| ==> k in states[h].scan)
    && states[|steps|].IsNext(k, None)
  }

  /** Registration r stands in the queue of the activation. */
  ghost predicate InQueue(st: State, k: Core, r: nat) {
    k.queue < |st.queue| && exists s :: s in st.queue[k.queue] && s < |st.reg| && st.reg[s] == r
  }

  lemma OwesWhatWasQueued(states: seq<State>, steps: seq<Step>, k: Core, r: nat)
    requires Activation(states, steps, k) && InQueue(states[0], k, r)
    ensures k in states[1].owed && r in states[1].owed[k]
  {
    assert Moves(states[0], steps[0], states[0 + 1]);
    hide Run, State.Inv;
  }

  lemma OwesWhatIsCreated(a: State, step: Step, b: State, k: Core)
    requires a.Inv() && Moves(a, step, b) && k in a.scan
    requires step.CreateStep? && step.queue == k.queue && step.pri >= a.scan[k].pri
    ensures k in b.owed && |a.regs| in b.owed[k] && step.slot < |b.reg| && b.reg[step.slot] == |a.regs|
  {
    hide Placed, Archive, Unique, Shown, Kept, Trace, Known, Running;
  }

  /** The order of the calls: by isrpri, and among one isrpri by the numbers of the
      registrations. */
  ghost predicate InOrder(regs: seq<Reg>, c: seq<nat>) {
    forall i, j {:trigger c[i], c[j]} :: 0 <= i < j < |c| ==>
      && c[i] < |regs| && c[j] < |regs|
      && (regs[c[i]].pri < regs[c[j]].pri || (regs[c[i]].pri == regs[c[j]].pri && regs[c[i]].seqno < regs[c[j]].seqno))
  }

  /** No registration is called twice, even when blocks are reused; each one queued at
      the start and at the end is called; and all in the order of their priorities. */
  lemma CallsAllQueued(states: seq<State>, steps: seq<Step>, k: Core)
    requires Activation(states, steps, k)
    ensures var st := states[|steps|];
      && Distinct(st.Done(k)) && Trace(st.regs, st.Done(k), k.queue) && InOrder(st.regs, st.Done(k))
      && forall r :: InQueue(states[0], k, r) && InQueue(st, k, r) ==> r in st.Done(k)
  {
    var n := |steps|;
    RunKeeps(states, steps, n);
    states[n].ScanComplete(k);
    DebtsStayAlong(states, steps, 1, n, k);
    TraceInOrder(states[n].regs, states[n].Done(k), k.queue);
    hide Run, State.Inv, State.IsNext, Moves, Trace, InOrder;
    forall r | InQueue(states[0], k, r) && InQueue(states[n], k, r)
      ensures r in states[n].Done(k)
    {
      OwesWhatWasQueued(states, steps, k, r);
    }
  }

  lemma TraceInOrder(regs: seq<Reg>, c: seq<nat>, q: nat)
    requires Trace(regs, c, q)
    ensures InOrder(regs, c)
  {
  }

  /** So is each one that acre_isr adds meanwhile, in step i, at the isrpri the scan is
      at or a later one, if it is still queued at the end. */
  lemma CallsAllCreated(states: seq<State>, steps: seq<Step>, k: Core, i: nat)
    requires Activation(states, steps, k) && 0 < i < |steps| && steps[i].CreateStep?
    requires steps[i].queue == k.queue && steps[i].pri >= states[i].scan[k].pri
    ensures var st := states[|steps|]; InQueue(st, k, |states[i].regs|) ==> |states[i].regs| in st.Done(k)
  {
    hide State.Inv, State.IsNext, Moves;
    var n := |steps|;
    RunKeeps(states, steps, n);
    states[n].ScanComplete(k);
    RunKeeps(states, steps, i);
    assert Moves(states[i], steps[i], states[i + 1]);
    OwesWhatIsCreated(states[i], steps[i], states[i + 1], k);
    DebtsStayAlong(states, steps, i + 1, n, k);
    hide Run;
  }
}

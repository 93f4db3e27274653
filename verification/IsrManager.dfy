/** The dynamic ISR service calls of kernel/interrupt.c.

    Every method is one section under the giant lock.  The ring links of the queues
    are sequences here (see Queue for the ring itself), the bit mask `running` of a
    block is a set of processors.  The ghost fields record the history that
    IsrProtocol reasons about; no method reads them.
  */
module IsrManager {

  import opened IsrProtocol
  import opened Sequences
  import opened Options

  const UINT32 := 0x1_0000_0000

  datatype Ercd = EOk | ENoId | ENoExs | EObj

  datatype Created = Slot(slot: nat) | Refused(ercd: Ercd)

  /** del_isr either returns or drops the lock and looks again later. */
  datatype Deletion = Returned(ercd: Ercd) | Waiting

  /** The isrpri and p_isr_queue of a statically created ISR. */
  datatype IsrIni = IsrIni(isrpri: int, queue: Option<nat>)

  datatype QueueEntry = QueueEntry(intno: int, queue: nat)

  /** isr_queue_list is in ascending order of interrupt numbers. */
  ghost predicate Sorted(list: seq<QueueEntry>) {
    forall i, j {:trigger list[i], list[j]} :: 0 <= i < j < |list| ==> list[i].intno < list[j].intno
  }

  /** search_isr_queue: the binary search finds the queue of an interrupt number
      exactly if it has one. */
  method SearchIsrQueue(list: seq<QueueEntry>, intno: int) returns (r: Option<nat>)
    requires Sorted(list)
    ensures r.Some? ==> QueueEntry(intno, r.value) in list
    ensures r.None? ==> forall e :: e in list ==> e.intno != intno
  {
    if |list| == 0 {
      return None;
    }
    var left, right := 0, |list| - 1;
    while left < right
      invariant 0 <= left <= right < |list|
      invariant forall i :: 0 <= i < left ==> list[i].intno < list[left].intno
      invariant left == 0 || list[left].intno <= intno
      invariant forall i :: right < i < |list| ==> list[i].intno > intno
    {
      var i := (left + right + 1) / 2;
      if intno < list[i].intno {
        right := i - 1;
      } else {
        left := i;
      }
    }
    if list[left].intno == intno {
      return Some(list[left].queue);
    } else {
      return None;
    }
  }

  class IsrManager {
    const nstatic: nat
    var isrcb: seq<ISRCB>
    var running: seq<set<Prc>>
    var queue: seq<seq<Slot>>
    var isrseq: seq<nat>
    var free: seq<Slot>
    ghost var quiescing: set<Slot>
    ghost var scan: map<Core, Scan>
    ghost var regs: seq<Reg>
    ghost var reg: seq<nat>
    ghost var retired: set<nat>
    ghost var called: map<Core, seq<nat>>
    ghost var owed: map<Core, set<nat>>

    ghost function Now(): State
      reads this
    {
      State(nstatic, isrcb, running, queue, isrseq, free, quiescing, scan, regs, reg, retired, called, owed)
    }

    // ------ initialize_isr

    /** initialize_isr: the static ISRs of `init` are queued in the order of
        isrorder_table, then the blocks for dynamic creation are made free.  A queue
        is the stable sort of its static ISRs by isrpri. */
    constructor (nqueue: nat, init: seq<IsrIni>, order: seq<Slot>, dynamic: nat)
      requires Distinct(order) && |order| == |init| < UINT32
      requires forall i {:trigger order[i]} :: 0 <= i < |order| ==> order[i] < |init|
      requires forall s {:trigger init[s]} :: 0 <= s < |init| && init[s].queue.Some? ==> init[s].queue.value < nqueue
      ensures Now().Inv() && nstatic == |init| && |isrcb| == |init| + dynamic && |queue| == nqueue
      ensures |free| == dynamic && forall i {:trigger free[i]} :: 0 <= i < dynamic ==> free[i] == |init| + i
      ensures forall i {:trigger order[i]} :: 0 <= i < |order| ==>
              isrcb[order[i]].isrpri == init[order[i]].isrpri && isrcb[order[i]].queue == init[order[i]].queue
      ensures forall i, j {:trigger order[i], order[j]} ::
              0 <= i < j < |order| && init[order[i]].queue.Some? && init[order[i]].queue == init[order[j]].queue ==>
                isrcb[order[i]].isrseq < isrcb[order[j]].isrseq
    {
      nstatic := |init|;
      isrcb := seq(|init|, (s: int) requires 0 <= s < |init| => ISRCB(true, init[s].isrpri, None, 0));
      running := seq(|init|, _ => {});
      queue := seq(nqueue, _ => []);
      isrseq := seq(nqueue, _ => 0);
      free, quiescing, scan := [], {}, map[];
      regs, reg, retired := [], seq(|init|, _ => 0), {};
      called, owed := map[], map[];
      new;
      Now().NothingQueued();
      hide State.Inv;
      EnqueueStatic(init, order);
      FreeDynamic(dynamic);
    }

    method EnqueueStatic(init: seq<IsrIni>, order: seq<Slot>)
      requires Now().Inv() && nstatic == |isrcb| == |init| && |isrseq| == |queue| && free == []
      requires Distinct(order) && |order| == |init| < UINT32
      requires forall i {:trigger order[i]} :: 0 <= i < |order| ==> order[i] < |init|
      requires forall s {:trigger init[s]} :: 0 <= s < |init| && init[s].queue.Some? ==> init[s].queue.value < |queue|
      requires forall s {:trigger isrcb[s]} :: 0 <= s < |init| ==> isrcb[s] == ISRCB(true, init[s].isrpri, None, 0)
      requires forall q {:trigger isrseq[q]} :: 0 <= q < |isrseq| ==> isrseq[q] == 0
      modifies this
      ensures Now().Inv() && |isrcb| == |init| && |queue| == old(|queue|) && free == []
      ensures forall i {:trigger order[i]} :: 0 <= i < |order| ==>
              isrcb[order[i]].isrpri == init[order[i]].isrpri && isrcb[order[i]].queue == init[order[i]].queue
      ensures forall i, j {:trigger order[i], order[j]} ::
              0 <= i < j < |order| && init[order[i]].queue.Some? && init[order[i]].queue == init[order[j]].queue ==>
                isrcb[order[i]].isrseq < isrcb[order[j]].isrseq
    {
      hide State.Inv;
      var i := 0;
      while i < |order|
        invariant 0 <= i <= |order| && |queue| == |isrseq| == old(|queue|) && |isrcb| == |init|
        invariant Now().Inv() && free == []
        invariant forall j {:trigger order[j]} :: 0 <= j < i ==>
                  isrcb[order[j]].queue == init[order[j]].queue && isrcb[order[j]].isrpri == init[order[j]].isrpri
        invariant forall j {:trigger order[j]} :: i <= j < |order| ==>
                  isrcb[order[j]] == ISRCB(true, init[order[j]].isrpri, None, 0)
        invariant forall q {:trigger isrseq[q]} :: 0 <= q < |isrseq| ==> isrseq[q] <= i
        invariant forall j {:trigger order[j]} :: 0 <= j < i && init[order[j]].queue.Some? ==>
                  isrcb[order[j]].isrseq < isrseq[init[order[j]].queue.value]
        invariant forall j, h {:trigger order[j], order[h]} ::
                  0 <= j < h < i && init[order[j]].queue.Some? && init[order[j]].queue == init[order[h]].queue ==>
                    isrcb[order[j]].isrseq < isrcb[order[h]].isrseq
      {
        var s := order[i];
        if init[s].queue.Some? {
          var q := init[s].queue.value;
          ghost var v := Now();
          isrcb := isrcb[s := isrcb[s].(queue := Some(q))];
          var _ := EnqueueIsr(q, s, v, free);
        }
        i := i + 1;
      }
    }

    method FreeDynamic(dynamic: nat)
      requires Now().Inv() && |isrcb| == nstatic && free == []
      modifies this
      ensures Now().Inv() && |isrcb| == nstatic + dynamic && isrcb[..nstatic] == old(isrcb) && queue == old(queue)
      ensures |free| == dynamic && forall i {:trigger free[i]} :: 0 <= i < dynamic ==> free[i] == nstatic + i
    {
      hide State.Inv;
      var i := 0;
      while i < dynamic
        invariant 0 <= i <= dynamic && |isrcb| == nstatic + i && isrcb[..nstatic] == old(isrcb) && queue == old(queue)
        invariant Now().Inv()
        invariant |free| == i && forall j {:trigger free[j]} :: 0 <= j < i ==> free[j] == nstatic + j
      {
        Now().AddedKeeps();
        ghost var v := Now();
        isrcb := isrcb + [ISRCB(false, 0, None, 0)];
        running := running + [{}];
        reg := reg + [0];
        free := free + [nstatic + i];
        assert Now() == v.Added();
        i := i + 1;
      }
    }

    // ------ call_isr

    /** The first entry of the queue that lies after the key, or the first of all. */
    method ScanNext(q: nat, first: bool, pri: int, seqno: nat) returns (next: Option<Slot>)
      requires q < |queue| && Ascending(isrcb, queue[q])
      ensures next.Some? ==>
                next.value in queue[q] && next.value < |isrcb| && (first || After(isrcb, next.value, pri, seqno))
      ensures next.Some? ==> forall s ::
                s in queue[q] && s < |isrcb| && s != next.value && (first || After(isrcb, s, pri, seqno)) ==>
                After(isrcb, s, isrcb[next.value].isrpri, isrcb[next.value].isrseq)
      ensures next.None? ==> forall s :: s in queue[q] && s < |isrcb| ==> !first && !After(isrcb, s, pri, seqno)
    {
      var i := 0;
      while i < |queue[q]|
        invariant 0 <= i <= |queue[q]|
        invariant forall j {:trigger queue[q][j]} :: 0 <= j < i ==> !first && !After(isrcb, queue[q][j], pri, seqno)
      {
        var s := queue[q][i];
        if first || KeyGt(isrcb[s].isrpri, isrcb[s].isrseq, pri, seqno) {
          return Some(s);
        }
        i := i + 1;
      }
      return None;
    }

    /** One section of call_isr, for processor and queue k.  `cur` is what the
        activation remembers of the body it comes from, None if it is just starting;
        the new value says which body it goes into, None if the scan is over. */
    method CallIsr(k: Core, cur: Option<Scan>) returns (next: Option<Scan>)
      requires Now().Inv() && k.queue < |queue|
      requires cur == if k in scan then Some(scan[k]) else None
      modifies this
      ensures var slot := if next.Some? then Some(next.value.slot) else None;
        old(Now()).IsNext(k, slot) && Now().Inv()
        && (slot.Some? ==> slot.value < |old(isrcb)| && slot.value < |old(reg)| && slot.value < |old(running)|)
        && Now() == old(Now()).Call(k, slot)
      ensures next == if k in scan then Some(scan[k]) else None
    {
      ghost var v := Now();
      v.ScanReady(k);
      hide State.Inv;
      var first, pri, seqno := true, 0, 0;
      if cur.Some? {
        LeaveBody(k, cur.value.slot);
        first, pri, seqno := false, cur.value.pri, cur.value.seqno;
      }
      var p := ScanNext(k.queue, first, pri, seqno);
      assert v.IsNext(k, p);
      v.CallKeeps(k, p);
      hide State.IsNext;
      next := None;
      if p.Some? {
        EnterBody(k, p.value, v.Done(k), v.Due(k));
        next := Some(Scan(p.value, isrcb[p.value].isrpri, isrcb[p.value].isrseq));
      }
    }

    method LeaveBody(k: Core, s: Slot)
      requires s < |running| && k in scan && scan[k].slot == s
      modifies this`running, this`scan
      ensures Now() == old(Now()).Left(k)
    {
      running := running[s := running[s] - {k.prc}];
      scan := scan - {k};
    }

    method EnterBody(k: Core, s: Slot, ghost done: seq<nat>, ghost due: set<nat>)
      requires s < |running| && s < |isrcb| && s < |reg|
      modifies this`running, this`scan, this`called, this`owed
      ensures Now() == old(Now()).Entered(k, s, done, due)
    {
      running := running[s := running[s] + {k.prc}];
      scan := scan[k := Scan(s, isrcb[s].isrpri, isrcb[s].isrseq)];
      called := called[k := done + [reg[s]]];
      owed := owed[k := due];
    }

    // ------ acre_isr

    /** The place before the first entry of a greater isrpri. */
    method FirstAbove(q: nat, isrpri: int) returns (i: nat)
      requires q < |queue|
      requires forall s {:trigger s in queue[q]} :: s in queue[q] ==> s < |isrcb|
      requires forall i, j {:trigger queue[q][i], queue[q][j]} ::
               0 <= i < j < |queue[q]| && queue[q][i] < |isrcb| && queue[q][j] < |isrcb| ==>
                 isrcb[queue[q][i]].isrpri <= isrcb[queue[q][j]].isrpri
      ensures i <= |queue[q]|
      ensures forall j {:trigger queue[q][j]} :: 0 <= j < i ==>
              queue[q][j] < |isrcb| && isrcb[queue[q][j]].isrpri <= isrpri
      ensures forall j {:trigger queue[q][j]} :: i <= j < |queue[q]| ==>
              queue[q][j] < |isrcb| && isrcb[queue[q][j]].isrpri > isrpri
    {
      i := 0;
      while i < |queue[q]|
        invariant i <= |queue[q]|
        invariant forall j {:trigger queue[q][j]} :: 0 <= j < i ==>
                  queue[q][j] < |isrcb| && isrcb[queue[q][j]].isrpri <= isrpri
      {
        assert queue[q][i] in queue[q];
        if isrpri < isrcb[queue[q][i]].isrpri {
          break;
        }
        i := i + 1;
      }
      forall j {:trigger queue[q][j]} | i <= j < |queue[q]|
        ensures queue[q][j] < |isrcb| && isrcb[queue[q][j]].isrpri > isrpri
      {
        assert queue[q][j] in queue[q] && queue[q][i] in queue[q];
      }
    }

    /** enqueue_isr, for a block s whose attributes are already written.  `st` is the
        state before, `rest` what is left of its free list. */
    method EnqueueIsr(q: nat, s: Slot, ghost st: State, ghost rest: seq<Slot>) returns (ghost pos: nat)
      requires st.Inv() && q < |st.queue| && st.Available(s, rest) && s < |isrcb|
      requires Now() == st.Prepared(s, q, isrcb[s].isrpri, rest)
      requires isrseq[q] + 1 < UINT32
      modifies this
      ensures s < |st.isrcb| && s < |st.reg| && st.InsertAt(q, old(isrcb[s]).isrpri, pos)
      ensures Now() == st.Enqueued(s, q, old(isrcb[s]).isrpri, pos, rest) && Now().Inv()
    {
      st.AvailableIsIdle(s, rest);
      st.QueueOrdered(q);
      hide State.Inv, State.Available;
      var isrpri := isrcb[s].isrpri;
      isrcb := isrcb[s := isrcb[s].(isrseq := isrseq[q])];
      isrseq := isrseq[q := (isrseq[q] + 1) % UINT32];
      var i := FirstAbove(q, isrpri);
      assert st.InsertAt(q, isrpri, i);
      pos := i;
      queue := queue[q := queue[q][..i] + [s] + queue[q][i..]];
      owed := st.NewOwed(q, isrpri);
      reg := reg[s := |regs|];
      regs := regs + [Reg(q, isrpri, st.isrseq[q])];
      st.EnqueuedKeeps(s, q, isrpri, pos, rest);
      hide State.InsertAt;
    }

    /** acre_isr, after the lookup of the queue of the interrupt number. */
    method AcreIsr(q: nat, isrpri: int) returns (r: Created, ghost pos: nat)
      requires Now().Inv() && q < |queue| && isrseq[q] + 1 < UINT32
      modifies this
      ensures Now().Inv()
      ensures r == if old(free) == [] then Refused(ENoId) else Slot(old(free[0]))
      ensures r.Refused? ==> Now() == old(Now())
      ensures r.Slot? ==> old(Now()).Available(r.slot, old(free)[1..]) && r.slot < |old(reg)|
      ensures r.Slot? ==> old(Now()).InsertAt(q, isrpri, pos)
                          && Now() == old(Now()).Enqueued(r.slot, q, isrpri, pos, old(free)[1..])
    {
      pos := 0;
      if free == [] {
        return Refused(ENoId), 0;
      }
      ghost var v := Now();
      var s := free[0];
      v.FreeIsIdle(s);
      hide State.Inv;
      free := free[1..];
      isrcb := isrcb[s := ISRCB(true, isrpri, Some(q), isrcb[s].isrseq)];
      running := running[s := {}];
      pos := EnqueueIsr(q, s, v, free);
      return Slot(s), pos;
    }

    // ------ del_isr

    /** The first section of del_isr: refuse, or unlink the block and see whether its
        body has to be waited for. */
    method DelIsr(s: Slot) returns (r: Deletion, ghost index: nat)
      requires Now().Inv() && s < |isrcb|
      modifies this
      ensures Now().Inv()
      ensures r == Returned(ENoExs) <==> !old(isrcb[s].exs)
      ensures r == Returned(EObj) <==> old(isrcb[s].exs) && s < nstatic
      ensures r.Returned? && r.ercd != EOk ==> Now() == old(Now())
      ensures old(isrcb[s].exs) && nstatic <= s ==>
                old(Now()).Linked(s, index)
                && (r == Waiting <==> old(running[s]) != {})
                && Now() == if r == Waiting then old(Now()).Unlinked(s, index)
                   else old(Now()).Unlinked(s, index).Released(s)
    {
      index := 0;
      if !isrcb[s].exs {
        return Returned(ENoExs), 0;
      }
      if s < nstatic {
        return Returned(EObj), 0;
      }
      ghost var v := Now();
      v.QueuedOnce(s);
      hide State.Inv;
      var q := isrcb[s].queue.value;
      var i :| 0 <= i < |queue[q]| && queue[q][i] == s;
      index := i;
      queue := queue[q := queue[q][..i] + queue[q][i + 1..]];
      isrcb := isrcb[s := isrcb[s].(exs := false)];
      quiescing := quiescing + {s};
      assert Now() == v.Unlinked(s, i);
      v.UnlinkedKeeps(s, i);
      r := Quiesce(s);
    }

    /** Every later section: with the lock taken again, del_isr looks whether the body
        is still running somewhere, and frees the block if not. */
    method Quiesce(s: Slot) returns (r: Deletion)
      requires Now().Inv() && s in quiescing && s < |isrcb| && s < |running| && s < |reg|
      modifies this
      ensures Now().Inv()
      ensures r == if old(running[s]) != {} then Waiting else Returned(EOk)
      ensures Now() == if r == Waiting then old(Now()) else old(Now()).Released(s)
    {
      if running[s] != {} {
        return Waiting;
      }
      Now().ReleasedKeeps(s);
      hide State.Inv;
      retired := retired + {reg[s]};
      quiescing := quiescing - {s};
      free := free + [s];
      return Returned(EOk);
    }
  }
}

/** The protocol between call_isr, acre_isr and del_isr (kernel/interrupt.c) as a
    state machine.

    call_isr scans the queue of an interrupt number under the giant lock but calls
    every ISR with the lock dropped; meanwhile other processors may scan the same
    queue, and tasks may create and delete ISRs.  A step of the machine is one
    section under the lock.

    A registration is one stay of an ISR in its queue: a control block (a slot) that
    is deleted and created again begins a new one.  `regs` lists all registrations
    there have ever been, `reg[s]` is the latest one of slot s.
  */
module IsrProtocol {

  import opened Options
  import opened Sequences

  type Slot = nat
  type Prc = nat

  /** The ISRCB together with the fields of its ISRINIB; `exs` is false for TA_NOEXS,
      `queue` is None for an ISR of an interrupt number without a queue. */
  datatype ISRCB = ISRCB(exs: bool, isrpri: int, queue: Option<nat>, isrseq: nat)

  /** One registration: where and with which key it was queued. */
  datatype Reg = Reg(queue: nat, pri: int, seqno: nat)

  /** An activation of call_isr: a processor scanning a queue. */
  datatype Core = Core(prc: Prc, queue: nat)

  /** What call_isr remembers while it runs an ISR body: the block, and the key it
      continues from. */
  datatype Scan = Scan(slot: Slot, pri: int, seqno: nat)

  /** ISR_KEY_GT: (pri1, seq1) lies after (pri2, seq2). */
  predicate KeyGt(pri1: int, seq1: nat, pri2: int, seq2: nat) {
    pri1 > pri2 || (pri1 == pri2 && seq1 > seq2)
  }

  lemma RestDistinct<T>(s: seq<T>, x: T, r: seq<T>)
    requires s == [x] + r && Distinct(s)
    ensures Distinct(r) && forall u :: u in r <==> u in s && u != x
  {
    assert s[0] == x && r == s[1..];
    assert forall i {:trigger r[i]} :: 0 <= i < |r| ==> r[i] == s[i + 1] && r[i] != s[0];
  }

  lemma AppendDistinct<T>(s: seq<T>, x: T)
    requires Distinct(s) && x !in s
    ensures Distinct(s + [x])
  {
    assert forall i {:trigger s[i]} :: 0 <= i < |s| ==> s[i] in s;
  }

  /** Slot s is behind the key. */
  ghost predicate After(cb: seq<ISRCB>, s: Slot, pri: int, seqno: nat)
    requires s < |cb|
  {
    KeyGt(cb[s].isrpri, cb[s].isrseq, pri, seqno)
  }

  /** The queue is in strictly ascending order of keys. */
  ghost predicate Ascending(cb: seq<ISRCB>, q: seq<Slot>) {
    && (forall i {:trigger q[i]} :: 0 <= i < |q| ==> q[i] < |cb|)
    && (forall i, j {:trigger q[i], q[j]} :: 0 <= i < j < |q| ==> After(cb, q[j], cb[q[i]].isrpri, cb[q[i]].isrseq))
  }

  /** The entries of a queue are live, belong to it and are older than its counter. */
  ghost predicate Members(cb: seq<ISRCB>, q: seq<Slot>, n: nat, counter: nat) {
    forall s {:trigger s in q} :: s in q ==> s < |cb| && cb[s].exs && cb[s].queue == Some(n) && cb[s].isrseq < counter
  }

  /** Where a block is: a live one in its queue, a dead one free or quiescing. */
  ghost predicate Home(cb: seq<ISRCB>, queue: seq<seq<Slot>>, free: seq<Slot>, quiescing: set<Slot>, nstatic: nat,
      s: Slot)
    requires s < |cb|
  {
    && (cb[s].exs <==> s !in free && s !in quiescing)
    && !(s in free && s in quiescing)
    && (cb[s].exs && cb[s].queue.Some? ==> cb[s].queue.value < |queue| && s in queue[cb[s].queue.value])
    && (nstatic <= s && cb[s].exs ==> cb[s].queue.Some?)
    && (s < nstatic ==> cb[s].exs)
  }

  /** Every block is exactly one of queued, quiescing or free; only static blocks of
      interrupt numbers without a queue are none of these. */
  ghost predicate Placed(cb: seq<ISRCB>, queue: seq<seq<Slot>>, isrseq: seq<nat>, free: seq<Slot>, quiescing: set<Slot>,
      nstatic: nat) {
    && |isrseq| == |queue|
    && (forall q {:trigger queue[q]} :: 0 <= q < |queue| ==>
         Ascending(cb, queue[q]) && Members(cb, queue[q], q, isrseq[q]))
    && (forall s {:trigger cb[s]} :: 0 <= s < |cb| ==> Home(cb, queue, free, quiescing, nstatic, s))
    && (forall s {:trigger s in free} :: s in free ==> s < |cb|)
    && (forall s {:trigger s in quiescing} :: s in quiescing ==> s < |cb|)
    && Distinct(free)
  }

  /** Bit p of `running` is set exactly while processor p is in the ISR's body; a
      free block runs nowhere. */
  ghost predicate Running(cb: seq<ISRCB>, running: seq<set<Prc>>, scan: map<Core, Scan>, free: seq<Slot>) {
    && |running| == |cb|
    && (forall k {:trigger k in scan} :: k in scan ==>
          scan[k].slot < |cb| && cb[scan[k].slot].queue == Some(k.queue) && k.prc in running[scan[k].slot])
    && (forall s, p {:trigger p in running[s]} :: 0 <= s < |running| && p in running[s] ==>
          cb[s].queue.Some? && Core(p, cb[s].queue.value) in scan && scan[Core(p, cb[s].queue.value)].slot == s)
    && (forall s {:trigger s in free} :: s in free && s < |running| ==> running[s] == {})
  }

  /** Slot s, queued at q, has a registration of its own that is not retired. */
  ghost predicate Shows(cb: seq<ISRCB>, regs: seq<Reg>, reg: seq<nat>, retired: set<nat>, s: Slot, q: nat) {
    && s < |reg| && s < |cb| && reg[s] < |regs| && reg[s] !in retired
    && regs[reg[s]] == Reg(q, cb[s].isrpri, cb[s].isrseq)
  }

  /** Registrations have keys of their own, older than the counter of their queue. */
  ghost predicate Archive(regs: seq<Reg>, isrseq: seq<nat>, retired: set<nat>) {
    && (forall r {:trigger regs[r]} :: 0 <= r < |regs| ==>
         regs[r].queue < |isrseq| && regs[r].seqno < isrseq[regs[r].queue])
    && (forall r, r' {:trigger regs[r], regs[r']} :: 0 <= r < r' < |regs| && regs[r].queue == regs[r'].queue ==>
         regs[r].seqno < regs[r'].seqno)
    && (forall r {:trigger r in retired} :: r in retired ==> r < |regs|)
  }

  /** No two blocks in use have the same registration. */
  ghost predicate Unique(cb: seq<ISRCB>, quiescing: set<Slot>, regs: seq<Reg>, reg: seq<nat>) {
    && |reg| == |cb|
    && (forall s: nat {:trigger InUse(cb, quiescing, s)} :: s < |cb| && InUse(cb, quiescing, s) ==> reg[s] < |regs|)
    && (forall s: nat, s': nat {:trigger InUse(cb, quiescing, s), InUse(cb, quiescing, s')} ::
         s < s' < |cb| && InUse(cb, quiescing, s) && InUse(cb, quiescing, s') ==> reg[s] != reg[s'])
  }

  /** Registered and not yet freed. */
  ghost predicate InUse(cb: seq<ISRCB>, quiescing: set<Slot>, s: Slot)
    requires s < |cb|
  {
    (cb[s].exs && cb[s].queue.Some?) || s in quiescing
  }

  /** The blocks queued and those in a body show their registrations. */
  ghost predicate Shown(cb: seq<ISRCB>, queue: seq<seq<Slot>>, scan: map<Core, Scan>, regs: seq<Reg>, reg: seq<nat>,
      retired: set<nat>) {
    && |reg| == |cb|
    && (forall q, s {:trigger s in queue[q]} :: 0 <= q < |queue| && s in queue[q] ==>
         Shows(cb, regs, reg, retired, s, q))
    && (forall k {:trigger k in scan} :: k in scan ==>
          && Shows(cb, regs, reg, retired, scan[k].slot, k.queue)
          && scan[k].pri == cb[scan[k].slot].isrpri && scan[k].seqno == cb[scan[k].slot].isrseq)
  }

  /** A list of registrations of queue q in ascending order of keys. */
  ghost predicate Trace(regs: seq<Reg>, c: seq<nat>, q: nat) {
    && (forall i {:trigger c[i]} :: 0 <= i < |c| ==> c[i] < |regs| && regs[c[i]].queue == q)
    && (forall i, j {:trigger c[i], c[j]} :: 0 <= i < j < |c| ==>
         KeyGt(regs[c[j]].pri, regs[c[j]].seqno, regs[c[i]].pri, regs[c[i]].seqno))
  }

  /** A scan that has called c and is in the body of sc.slot has passed, of what it
      owes, only what it has called. */
  ghost predicate Kept(cb: seq<ISRCB>, q: seq<Slot>, reg: seq<nat>, sc: Scan, c: seq<nat>, owed: set<nat>) {
    && sc.slot < |reg| && |c| > 0 && c[|c| - 1] == reg[sc.slot]
    && forall s {:trigger s in q} :: s in q && s < |cb| && s < |reg| && reg[s] in owed ==>
         After(cb, s, sc.pri, sc.seqno) || reg[s] in c
  }

  ghost predicate Known(regs: seq<Reg>, owed: set<nat>) {
    forall r {:trigger r in owed} :: r in owed ==> r < |regs|
  }

  /** Everything an activation has called is ascending, and it has kept its debts. */
  ghost predicate Traced(cb: seq<ISRCB>, queue: seq<seq<Slot>>, scan: map<Core, Scan>, regs: seq<Reg>, reg: seq<nat>,
      called: map<Core, seq<nat>>, owed: map<Core, set<nat>>) {
    forall k {:trigger k in scan} :: k in scan ==>
      && k in called && k in owed && k.queue < |queue| && Known(regs, owed[k])
      && Trace(regs, called[k], k.queue) && Kept(cb, queue[k.queue], reg, scan[k], called[k], owed[k])
  }

  datatype State = State(
    nstatic: nat,
    isrcb: seq<ISRCB>,
    running: seq<set<Prc>>,      // isrcb[].running
    queue: seq<seq<Slot>>,       // isr_queue_table[].isr_queue
    isrseq: seq<nat>,            // isr_queue_table[].isrseq
    free: seq<Slot>,             // free_isrcb
    quiescing: set<Slot>,        // del_isr is waiting for these blocks
    scan: map<Core, Scan>,       // the activations that are in an ISR body
    regs: seq<Reg>,
    reg: seq<nat>,
    retired: set<nat>,                 // registrations whose del_isr has returned E_OK
    called: map<Core, seq<nat>>,       // what each activation has called, in order
    owed: map<Core, set<nat>>)         // what it must call if it stays queued
  {
    ghost predicate Inv() {
      && Placed(isrcb, queue, isrseq, free, quiescing, nstatic)
      && Running(isrcb, running, scan, free)
      && Archive(regs, isrseq, retired)
      && Unique(isrcb, quiescing, regs, reg)
      && Shown(isrcb, queue, scan, regs, reg, retired)
      && Traced(isrcb, queue, scan, regs, reg, called, owed)
    }

    // ------ initialize_isr

    lemma NothingQueued()
      requires |isrseq| == |queue| && |isrcb| == nstatic == |running| == |reg|
      requires forall q {:trigger queue[q]} :: 0 <= q < |queue| ==> queue[q] == []
      requires forall s {:trigger isrcb[s]} :: 0 <= s < |isrcb| ==> isrcb[s].exs && isrcb[s].queue == None
      requires forall s {:trigger running[s]} :: 0 <= s < |running| ==> running[s] == {}
      requires free == [] && quiescing == {} && scan == map[] && regs == [] && retired == {}
      ensures Inv()
    {
      forall s | 0 <= s < |isrcb|
        ensures Home(isrcb, queue, free, quiescing, nstatic, s)
      {
        assert isrcb[s].exs && isrcb[s].queue == None;
      }
      assert Placed(isrcb, queue, isrseq, free, quiescing, nstatic);
    }

    /** One more block for dynamic creation, at the end of the free list. */
    ghost function Added(): State {
      this.(isrcb := isrcb + [ISRCB(false, 0, None, 0)], running := running + [{}], reg := reg + [0],
            free := free + [|isrcb|])
    }

    lemma AddedKeeps()
      requires Inv() && nstatic <= |isrcb|
      ensures Added().Inv()
    {
      AddedPlaced();
      AddedUnique();
      var t := Added();
      assert forall s {:trigger t.isrcb[s]} :: 0 <= s < |isrcb| ==>
             t.isrcb[s] == isrcb[s] && t.running[s] == running[s] && t.reg[s] == reg[s];
      hide Placed, Archive, Trace, Known, Unique;
      assert Running(t.isrcb, t.running, scan, t.free);
      hide Running;
      assert Shown(t.isrcb, queue, scan, regs, t.reg, retired);
      assert Traced(t.isrcb, queue, scan, regs, t.reg, called, owed);
    }

    lemma AddedUnique()
      requires Inv()
      ensures var t := Added(); Unique(t.isrcb, quiescing, regs, t.reg)
    {
      hide Running, Shown, Traced, Archive, Home;
      var t := Added();
      assert forall s {:trigger t.isrcb[s]} :: 0 <= s < |isrcb| ==> t.isrcb[s] == isrcb[s] && t.reg[s] == reg[s];
      forall u: nat | u < |t.isrcb| && InUse(t.isrcb, quiescing, u)
        ensures u < |isrcb| && InUse(isrcb, quiescing, u)
      {
        assert t.isrcb[|isrcb|].exs == false;
      }
    }

    lemma AddedPlaced()
      requires Inv() && nstatic <= |isrcb|
      ensures var t := Added(); Placed(t.isrcb, t.queue, t.isrseq, t.free, t.quiescing, nstatic)
    {
      hide Running, Archive, Unique, Shown, Traced;
      var t := Added();
      var n: Slot := |isrcb|;
      AppendDistinct(free, n);
      assert forall s {:trigger t.isrcb[s]} :: 0 <= s < |isrcb| ==> t.isrcb[s] == isrcb[s];
      forall q | 0 <= q < |queue|
        ensures Ascending(t.isrcb, queue[q]) && Members(t.isrcb, queue[q], q, isrseq[q])
      {
        assert Ascending(isrcb, queue[q]) && Members(isrcb, queue[q], q, isrseq[q]);
      }
      hide Ascending, Members;
      forall u | 0 <= u < |t.isrcb|
        ensures Home(t.isrcb, queue, t.free, quiescing, nstatic, u)
      {
        assert u < |isrcb| ==> Home(isrcb, queue, free, quiescing, nstatic, u);
      }
    }

    // ------ call_isr

    /** The entries not yet passed: all of them at the beginning of a scan, later
        those behind the key the scan continues from. */
    ghost predicate Ahead(s: Slot, k: Core)
      requires s < |isrcb|
    {
      k in scan ==> After(isrcb, s, scan[k].pri, scan[k].seqno)
    }

    /** The first entry ahead, in queue order. */
    ghost predicate IsNext(k: Core, next: Option<Slot>) {
      k.queue < |queue| &&
      match next
      case None => forall s :: s in queue[k.queue] && s < |isrcb| ==> !Ahead(s, k)
      case Some(n) =>
        && n in queue[k.queue] && n < |isrcb| && Ahead(n, k)
        && forall s :: s in queue[k.queue] && s < |isrcb| && Ahead(s, k) && s != n ==>
             After(isrcb, s, isrcb[n].isrpri, isrcb[n].isrseq)
    }

    /** The processor leaves the body it is in, if any. */
    ghost function Left(k: Core): State {
      if k in scan && scan[k].slot < |running| then
        var s := scan[k].slot;
        this.(running := running[s := running[s] - {k.prc}], scan := scan - {k})
      else
        this
    }

    /** It enters the body of slot n. */
    ghost function Entered(k: Core, n: Slot, done: seq<nat>, due: set<nat>): State
      requires n < |isrcb| && n < |reg| && n < |running|
    {
      this.(running := running[n := running[n] + {k.prc}],
            scan := scan[k := Scan(n, isrcb[n].isrpri, isrcb[n].isrseq)],
            called := called[k := done + [reg[n]]],
            owed := owed[k := due])
    }

    /** The registrations this activation has called so far. */
    ghost function Done(k: Core): seq<nat> {
      if k in scan && k in called then called[k] else []
    }

    /** What it has to call: at the beginning of a scan, all that is queued. */
    ghost function Due(k: Core): set<nat> {
      if k in scan && k in owed then owed[k]
      else if k.queue < |queue| then set s | s in queue[k.queue] && s < |reg| :: reg[s]
      else {}
    }

    /** A step of call_isr: from the end of one body, or from the interrupt, to the
        next body, or to the end. */
    ghost function Call(k: Core, next: Option<Slot>): State
      requires next.Some? ==> next.value < |isrcb| && next.value < |reg| && next.value < |running|
    {
      match next
      case None => Left(k)
      case Some(n) => Left(k).Entered(k, n, Done(k), Due(k))
    }

    lemma ScanReady(k: Core)
      requires Inv() && k.queue < |queue|
      ensures Ascending(isrcb, queue[k.queue]) && |running| == |isrcb| == |reg|
      ensures k in scan ==> scan[k].slot < |isrcb|
    {
      hide Home, Members, Archive, Traced;
    }

    lemma LeftKeeps(k: Core)
      requires Inv()
      ensures Left(k).Inv() && k !in Left(k).scan
    {
      hide Placed, Archive, Unique, Shows, Trace, Kept, Known;
    }

    lemma EnteredKeeps(k: Core, n: Slot, done: seq<nat>, due: set<nat>)
      requires Inv() && k.queue < |queue| && n in queue[k.queue] && n < |isrcb| && k !in scan
      requires Trace(regs, done + [reg[n]], k.queue) && Known(regs, due)
      requires Kept(isrcb, queue[k.queue], reg, Scan(n, isrcb[n].isrpri, isrcb[n].isrseq), done + [reg[n]], due)
      ensures Entered(k, n, done, due).Inv()
    {
      assert Members(isrcb, queue[k.queue], k.queue, isrseq[k.queue]);
      assert Home(isrcb, queue, free, quiescing, nstatic, n);
      hide Placed, Archive, Unique, Trace, Kept, Known, Home;
    }

    /** The next body continues the trace, and skips nothing that is owed. */
    lemma NextContinues(k: Core, n: Slot)
      requires Inv() && IsNext(k, Some(n))
      ensures n < |reg|
      ensures Trace(regs, Done(k) + [reg[n]], k.queue) && Known(regs, Due(k))
      ensures Kept(isrcb, queue[k.queue], reg, Scan(n, isrcb[n].isrpri, isrcb[n].isrseq), Done(k) + [reg[n]], Due(k))
    {
      hide Placed, Running, Archive, Unique;
      var c, c' := Done(k), Done(k) + [reg[n]];
      assert Shows(isrcb, regs, reg, retired, n, k.queue);
      if k in scan {
        assert Shows(isrcb, regs, reg, retired, scan[k].slot, k.queue);
        assert Trace(regs, c, k.queue) && Kept(isrcb, queue[k.queue], reg, scan[k], c, Due(k));
        assert regs[c[|c| - 1]] == Reg(k.queue, scan[k].pri, scan[k].seqno);
      }
      assert reg[n] == c'[|c|];
      forall s | s in queue[k.queue] && s < |isrcb| && s < |reg| && reg[s] in Due(k)
        ensures After(isrcb, s, isrcb[n].isrpri, isrcb[n].isrseq) || reg[s] in c'
      {
        if !Ahead(s, k) {
          assert reg[s] in c;
        }
      }
    }

    /** Every step of call_isr keeps the invariant. */
    lemma CallKeeps(k: Core, next: Option<Slot>)
      requires Inv() && IsNext(k, next)
      ensures next.Some? ==> next.value < |isrcb| && next.value < |reg| && next.value < |running|
      ensures Call(k, next).Inv()
    {
      LeftKeeps(k);
      if next.Some? {
        NextContinues(k, next.value);
        hide Inv, Trace, Kept;
        Left(k).EnteredKeeps(k, next.value, Done(k), Due(k));
      }
    }

    /** When call_isr finds no next ISR, it has called everything it owes that is
        still queued, each registration once, in ascending order of keys. */
    lemma ScanComplete(k: Core)
      requires Inv() && IsNext(k, None)
      ensures forall s :: s in queue[k.queue] ==> s < |reg| && (reg[s] in Due(k) ==> reg[s] in Done(k))
      ensures Distinct(Done(k)) && Trace(regs, Done(k), k.queue)
    {
      forall s | s in queue[k.queue]
        ensures s < |reg| && s < |isrcb| && (reg[s] in Due(k) ==> reg[s] in Done(k))
      {
        assert Members(isrcb, queue[k.queue], k.queue, isrseq[k.queue]);
      }
      if k in scan {
        assert Trace(regs, called[k], k.queue);
      }
    }

    // ------ acre_isr and del_isr

    /** Where enqueue_isr inserts: before the first entry of a greater isrpri. */
    ghost predicate InsertAt(q: nat, pri: int, pos: nat) {
      && q < |queue| && q < |isrseq| && pos <= |queue[q]|
      && (forall i {:trigger queue[q][i]} :: 0 <= i < |queue[q]| ==> queue[q][i] < |isrcb|)
      && (forall i {:trigger queue[q][i]} :: 0 <= i < pos ==> isrcb[queue[q][i]].isrpri <= pri)
      && (forall i {:trigger queue[q][i]} :: pos <= i < |queue[q]| ==> isrcb[queue[q][i]].isrpri > pri)
    }

    /** A new registration is owed by the activations that have not passed its isrpri. */
    ghost function NewDue(k: Core, q: nat, pri: int): set<nat>
      requires k in owed
    {
      if k in scan && k.queue == q && pri >= scan[k].pri then owed[k] + {|regs|} else owed[k]
    }

    ghost function NewOwed(q: nat, pri: int): map<Core, set<nat>> {
      map k | k in owed :: NewDue(k, q, pri)
    }

    /** Block s, taken from what leaves `free'`, is queued under the next number. */
    ghost function Enqueued(s: Slot, q: nat, pri: int, pos: nat, free': seq<Slot>): State
      requires s < |isrcb| && s < |reg| && InsertAt(q, pri, pos)
    {
      this.(isrcb := isrcb[s := ISRCB(true, pri, Some(q), isrseq[q])],
            queue := queue[q := queue[q][..pos] + [s] + queue[q][pos..]],
            isrseq := isrseq[q := isrseq[q] + 1],
            free := free',
            regs := regs + [Reg(q, pri, isrseq[q])],
            reg := reg[s := |regs|],
            owed := NewOwed(q, pri))
    }

    /** Not in use: the first free block, or a static one not queued yet. */
    ghost predicate Available(s: Slot, free': seq<Slot>) {
      s < |isrcb| && (free == [s] + free' || (s < nstatic && isrcb[s].queue == None && free == free'))
    }

    /** An available block is in no queue and runs nowhere. */
    lemma AvailableIsIdle(s: Slot, free': seq<Slot>)
      requires Inv() && Available(s, free')
      ensures s < |running| && s < |reg| && running[s] == {} && s !in quiescing && s !in free'
      ensures forall q :: 0 <= q < |queue| ==> s !in queue[q]
      ensures forall k :: k in scan ==> scan[k].slot != s
    {
      hide Archive, Shown, Traced, Shows;
      assert Home(isrcb, queue, free, quiescing, nstatic, s);
      if free == [s] + free' {
        RestDistinct(free, s, free');
      }
      forall q | 0 <= q < |queue|
        ensures s !in queue[q]
      {
        assert Members(isrcb, queue[q], q, isrseq[q]);
      }
    }

    lemma FreeIsIdle(s: Slot)
      requires Inv() && free != [] && s == free[0]
      ensures Available(s, free[1..]) && s < |running| && running[s] == {}
    {
      assert free == [s] + free[1..];
      assert s in free;
      hide Traced, Archive, Unique, Shown;
    }

    lemma QueueOrdered(q: nat)
      requires Inv() && q < |queue|
      ensures |isrseq| == |queue| && |reg| == |isrcb|
      ensures forall s {:trigger s in queue[q]} :: s in queue[q] ==> s < |isrcb|
      ensures forall i, j {:trigger queue[q][i], queue[q][j]} ::
              0 <= i < j < |queue[q]| && queue[q][i] < |isrcb| && queue[q][j] < |isrcb| ==>
                isrcb[queue[q][i]].isrpri <= isrcb[queue[q][j]].isrpri
    {
      hide Home, Archive, Traced, Shown, Running;
      assert Ascending(isrcb, queue[q]) && Members(isrcb, queue[q], q, isrseq[q]);
    }

    /** The block and the free list as acre_isr leaves them to enqueue_isr. */
    ghost function Prepared(s: Slot, q: nat, pri: int, free': seq<Slot>): State
      requires s < |isrcb|
    {
      this.(isrcb := isrcb[s := ISRCB(true, pri, Some(q), isrcb[s].isrseq)], free := free')
    }

    /** The insertion keeps the queue in order: the new entry has the greatest
        number, so it goes behind everything of its isrpri. */
    lemma EnqueuedAscending(s: Slot, q: nat, pri: int, pos: nat, free': seq<Slot>, p: nat)
      requires s < |isrcb| && s < |reg| && InsertAt(q, pri, pos) && p < |queue| && |isrseq| == |queue|
      requires Ascending(isrcb, queue[p]) && Members(isrcb, queue[p], p, isrseq[p]) && s !in queue[p]
      ensures var t := Enqueued(s, q, pri, pos, free'); Ascending(t.isrcb, t.queue[p])
    {
      var t := Enqueued(s, q, pri, pos, free');
      var old', new' := queue[p], t.queue[p];
      forall i {:trigger old'[i]} | 0 <= i < |old'|
        ensures old'[i] != s && t.isrcb[old'[i]] == isrcb[old'[i]] && isrcb[old'[i]].isrseq < isrseq[p]
      {
        assert old'[i] in old';
      }
      hide Members;
      if p == q {
        assert forall i {:trigger new'[i]} :: 0 <= i < |new'| ==>
               new'[i] == if i < pos then old'[i] else if i == pos then s else old'[i - 1];
      }
    }

    lemma EnqueuedMembers(s: Slot, q: nat, pri: int, pos: nat, free': seq<Slot>, p: nat)
      requires s < |isrcb| && s < |reg| && InsertAt(q, pri, pos) && p < |queue| && |isrseq| == |queue|
      requires Members(isrcb, queue[p], p, isrseq[p]) && s !in queue[p]
      ensures var t := Enqueued(s, q, pri, pos, free'); Members(t.isrcb, t.queue[p], p, t.isrseq[p])
    {
      var t := Enqueued(s, q, pri, pos, free');
      assert forall u :: u in t.queue[p] ==> u in queue[p] || (u == s && p == q);
    }

    lemma EnqueuedPlaced(s: Slot, q: nat, pri: int, pos: nat, free': seq<Slot>)
      requires Inv() && Available(s, free') && s < |reg| && InsertAt(q, pri, pos)
      ensures var t := Enqueued(s, q, pri, pos, free');
        Placed(t.isrcb, t.queue, t.isrseq, t.free, t.quiescing, nstatic)
    {
      AvailableIsIdle(s, free');
      var t := Enqueued(s, q, pri, pos, free');
      hide Archive, Unique, Shown, Traced, Running;
      forall p | 0 <= p < |queue|
        ensures Ascending(t.isrcb, t.queue[p]) && Members(t.isrcb, t.queue[p], p, t.isrseq[p])
      {
        EnqueuedAscending(s, q, pri, pos, free', p);
        EnqueuedMembers(s, q, pri, pos, free', p);
      }
      assert Distinct(free') && forall u {:trigger u in free'} :: u in free' ==> u in free by {
        if free != free' {
          RestDistinct(free, s, free');
        }
      }
      forall u | 0 <= u < |t.isrcb|
        ensures Home(t.isrcb, t.queue, t.free, t.quiescing, nstatic, u)
      {
        hide Ascending, Members;
        assert Home(isrcb, queue, free, quiescing, nstatic, u);
        if u != s {
          assert u in free <==> u in free';
          if isrcb[u].queue == Some(q) && u in queue[q] {
            assert u in queue[q][..pos] + queue[q][pos..];
          }
        }
      }
    }

    lemma EnqueuedRunning(s: Slot, q: nat, pri: int, pos: nat, free': seq<Slot>)
      requires Inv() && Available(s, free') && s < |reg| && InsertAt(q, pri, pos)
      ensures var t := Enqueued(s, q, pri, pos, free');
        && Running(t.isrcb, running, scan, t.free) && Archive(t.regs, t.isrseq, retired)
        && Unique(t.isrcb, quiescing, t.regs, t.reg)
    {
      AvailableIsIdle(s, free');
      var t := Enqueued(s, q, pri, pos, free');
      hide Placed, Shown, Traced, Inv;
      assert Running(isrcb, running, scan, free) && Archive(regs, isrseq, retired);
      assert Unique(isrcb, quiescing, regs, reg);
      assert forall u :: u in free' ==> u in free;
      assert forall u {:trigger t.isrcb[u]} :: 0 <= u < |isrcb| && u != s ==> isrcb[u] == t.isrcb[u];
      forall u: nat | u < |isrcb| && u != s && InUse(t.isrcb, quiescing, u)
        ensures InUse(isrcb, quiescing, u)
      {
        assert t.isrcb[u] == isrcb[u];
      }
    }

    lemma EnqueuedShown(s: Slot, q: nat, pri: int, pos: nat, free': seq<Slot>)
      requires Inv() && Available(s, free') && s < |reg| && InsertAt(q, pri, pos)
      ensures var t := Enqueued(s, q, pri, pos, free');
        Shown(t.isrcb, t.queue, scan, t.regs, t.reg, retired)
    {
      AvailableIsIdle(s, free');
      var t := Enqueued(s, q, pri, pos, free');
      assert |regs| !in retired;
      hide Placed, Traced, Running;
      forall p, u | 0 <= p < |t.queue| && u in t.queue[p]
        ensures Shows(t.isrcb, t.regs, t.reg, retired, u, p)
      {
        assert u == s || u in queue[p];
      }
    }

    lemma EnqueuedTraced(s: Slot, q: nat, pri: int, pos: nat, free': seq<Slot>)
      requires Inv() && Available(s, free') && s < |reg| && InsertAt(q, pri, pos)
      ensures var t := Enqueued(s, q, pri, pos, free');
        Traced(t.isrcb, t.queue, scan, t.regs, t.reg, called, t.owed)
    {
      AvailableIsIdle(s, free');
      var t := Enqueued(s, q, pri, pos, free');
      hide Placed, Running, Unique;
      forall k | k in scan
        ensures k in called && k in t.owed && Known(t.regs, t.owed[k]) && Trace(t.regs, called[k], k.queue)
        ensures Kept(t.isrcb, t.queue[k.queue], t.reg, scan[k], called[k], t.owed[k])
      {
        var sc := scan[k];
        assert Shows(isrcb, regs, reg, retired, sc.slot, k.queue);
        assert regs[reg[sc.slot]].seqno < isrseq[k.queue];
        assert Trace(regs, called[k], k.queue) && Kept(isrcb, queue[k.queue], reg, sc, called[k], owed[k]);
        forall u | u in t.queue[k.queue] && u < |t.isrcb| && u < |t.reg| && t.reg[u] in t.owed[k]
          ensures After(t.isrcb, u, sc.pri, sc.seqno) || t.reg[u] in called[k]
        {
          if u != s {
            assert u in queue[k.queue];
            assert Shows(isrcb, regs, reg, retired, u, k.queue);
          }
        }
      }
    }

    /** acre_isr keeps the invariant. */
    lemma EnqueuedKeeps(s: Slot, q: nat, pri: int, pos: nat, free': seq<Slot>)
      requires Inv() && Available(s, free') && s < |reg| && InsertAt(q, pri, pos)
      ensures Enqueued(s, q, pri, pos, free').Inv()
    {
      EnqueuedPlaced(s, q, pri, pos, free');
      EnqueuedRunning(s, q, pri, pos, free');
      EnqueuedShown(s, q, pri, pos, free');
      EnqueuedTraced(s, q, pri, pos, free');
      hide Placed, Running, Archive, Unique, Shown, Traced;
    }

    /** del_isr may take block s, the i-th entry of its queue. */
    ghost predicate Linked(s: Slot, i: nat) {
      && s < |isrcb| && isrcb[s].exs && nstatic <= s && isrcb[s].queue.Some? && isrcb[s].queue.value < |queue|
      && i < |queue[isrcb[s].queue.value]| && queue[isrcb[s].queue.value][i] == s
    }

    lemma QueuedOnce(s: Slot)
      requires Inv() && s < |isrcb| && isrcb[s].exs && nstatic <= s
      ensures isrcb[s].queue.Some? && isrcb[s].queue.value < |queue| && s in queue[isrcb[s].queue.value]
      ensures s !in quiescing && |running| == |reg| == |isrcb|
    {
      hide Ascending, Members, Archive, Traced, Shown;
      assert Home(isrcb, queue, free, quiescing, nstatic, s);
    }

    /** del_isr takes it out of its queue and marks it TA_NOEXS before it waits. */
    ghost function Unlinked(s: Slot, i: nat): State
      requires Linked(s, i)
    {
      var q := isrcb[s].queue.value;
      this.(isrcb := isrcb[s := isrcb[s].(exs := false)],
            queue := queue[q := queue[q][..i] + queue[q][i + 1..]],
            quiescing := quiescing + {s})
    }

    /** Nobody is in its body any more: it goes back to the end of the free list. */
    ghost function Released(s: Slot): State
      requires s < |reg|
    {
      this.(free := free + [s], quiescing := quiescing - {s}, retired := retired + {reg[s]})
    }

    lemma UnlinkedPlaced(s: Slot, i: nat)
      requires Inv() && Linked(s, i)
      ensures var t := Unlinked(s, i); Placed(t.isrcb, t.queue, isrseq, free, t.quiescing, nstatic)
    {
      var t := Unlinked(s, i);
      hide Archive, Unique, Shown, Traced, Running;
      forall p | 0 <= p < |queue|
        ensures Ascending(t.isrcb, t.queue[p]) && Members(t.isrcb, t.queue[p], p, isrseq[p])
      {
        UnlinkedAscending(s, i, p);
      }
      assert Home(isrcb, queue, free, quiescing, nstatic, s);
      forall u | 0 <= u < |t.isrcb|
        ensures Home(t.isrcb, t.queue, free, t.quiescing, nstatic, u)
      {
        hide Ascending, Members;
        assert Home(isrcb, queue, free, quiescing, nstatic, u);
      }
    }

    lemma UnlinkedAscending(s: Slot, i: nat, p: nat)
      requires Linked(s, i) && p < |queue| && |isrseq| == |queue|
      requires Ascending(isrcb, queue[p]) && Members(isrcb, queue[p], p, isrseq[p])
      ensures var t := Unlinked(s, i); Ascending(t.isrcb, t.queue[p]) && Members(t.isrcb, t.queue[p], p, isrseq[p])
    {
      var t := Unlinked(s, i);
      var old', new' := queue[p], t.queue[p];
      if Some(p) == isrcb[s].queue {
        assert forall j {:trigger new'[j]} :: 0 <= j < |new'| ==> new'[j] == (if j < i then old'[j] else old'[j + 1]);
      }
      forall j {:trigger new'[j]} | 0 <= j < |new'|
        ensures new'[j] in old' && new'[j] != s
      {
        if Some(p) == isrcb[s].queue {
          assert old'[i] == s;
        }
      }
    }

    lemma UnlinkedRest(s: Slot, i: nat)
      requires Inv() && Linked(s, i)
      ensures var t := Unlinked(s, i);
        && Running(t.isrcb, running, scan, free) && Unique(t.isrcb, t.quiescing, regs, reg)
        && Shown(t.isrcb, t.queue, scan, regs, reg, retired) && Traced(t.isrcb, t.queue, scan, regs, reg, called, owed)
    {
      var t := Unlinked(s, i);
      hide Placed, Archive, Trace, Known;
      assert forall q, u {:trigger u in t.queue[q]} :: 0 <= q < |queue| && u in t.queue[q] ==> u in queue[q];
      assert forall u {:trigger t.isrcb[u]} :: 0 <= u < |isrcb| ==> t.isrcb[u] == isrcb[u].(exs := t.isrcb[u].exs);
      assert forall u: nat {:trigger InUse(t.isrcb, t.quiescing, u)} :: u < |isrcb| ==>
             InUse(t.isrcb, t.quiescing, u) == InUse(isrcb, quiescing, u);
      assert Running(t.isrcb, running, scan, free) && Unique(t.isrcb, t.quiescing, regs, reg);
      hide Running, Unique, InUse;
      forall k | k in scan
        ensures Kept(t.isrcb, t.queue[k.queue], reg, scan[k], called[k], owed[k])
      {
        assert Kept(isrcb, queue[k.queue], reg, scan[k], called[k], owed[k]);
        assert forall u :: u in t.queue[k.queue] ==> u in queue[k.queue];
      }
    }

    /** Taking the block out keeps the invariant, and leaves its registration nowhere
        to be called from. */
    lemma UnlinkedKeeps(s: Slot, i: nat)
      requires Inv() && Linked(s, i)
      ensures Unlinked(s, i).Inv()
      ensures forall q :: 0 <= q < |queue| ==> s !in Unlinked(s, i).queue[q]
    {
      UnlinkedPlaced(s, i);
      UnlinkedRest(s, i);
      var t := Unlinked(s, i);
      forall q | 0 <= q < |queue|
        ensures s !in t.queue[q]
      {
        assert Members(t.isrcb, t.queue[q], q, isrseq[q]);
      }
      hide Placed, Running, Archive, Unique, Shown, Traced;
    }

    lemma ReleasedPlaced(s: Slot)
      requires Inv() && s in quiescing && s < |reg|
      ensures var t := Released(s); Placed(isrcb, queue, isrseq, t.free, t.quiescing, nstatic)
    {
      hide Running, Archive, Unique, Shown, Traced, Ascending, Members;
      var t := Released(s);
      assert Home(isrcb, queue, free, quiescing, nstatic, s);
      assert s !in free;
      AppendDistinct(free, s);
      assert forall u :: u in t.free <==> u in free || u == s;
      forall u | 0 <= u < |isrcb|
        ensures Home(isrcb, queue, t.free, t.quiescing, nstatic, u)
      {
        assert Home(isrcb, queue, free, quiescing, nstatic, u);
      }
    }

    /** What is queued or in a body is in use, and is not a quiescing block that
        nobody runs. */
    lemma BusyInUse(s: Slot)
      requires Inv() && s in quiescing && s < |running| && running[s] == {}
      ensures forall q, u {:trigger u in queue[q]} :: 0 <= q < |queue| && u in queue[q] ==>
              u < |isrcb| && u != s && InUse(isrcb, quiescing, u)
      ensures forall k {:trigger k in scan} :: k in scan ==>
              scan[k].slot < |isrcb| && scan[k].slot != s && InUse(isrcb, quiescing, scan[k].slot)
    {
      hide Archive, Unique, Shown, Traced, Ascending;
      assert Home(isrcb, queue, free, quiescing, nstatic, s);
      forall q, u | 0 <= q < |queue| && u in queue[q]
        ensures u < |isrcb| && u != s && InUse(isrcb, quiescing, u)
      {
        assert Members(isrcb, queue[q], q, isrseq[q]);
      }
      forall k | k in scan
        ensures scan[k].slot < |isrcb| && scan[k].slot != s && InUse(isrcb, quiescing, scan[k].slot)
      {
        assert k.prc in running[scan[k].slot];
        assert Home(isrcb, queue, free, quiescing, nstatic, scan[k].slot);
      }
    }

    /** Freeing a block whose body nobody is in keeps the invariant. */
    lemma ReleasedKeeps(s: Slot)
      requires Inv() && s in quiescing && s < |running| && running[s] == {}
      ensures s < |reg| && Released(s).Inv()
    {
      assert InUse(isrcb, quiescing, s);
      ReleasedPlaced(s);
      BusyInUse(s);
      var t := Released(s);
      hide Placed, Traced;
      assert forall u: nat :: u < |isrcb| && u != s && InUse(isrcb, quiescing, u) ==> reg[u] != reg[s];
      assert Shown(isrcb, queue, scan, regs, reg, t.retired);
      assert Archive(regs, isrseq, t.retired) && Running(isrcb, running, scan, t.free);
      hide Shown, Archive, Running;
      assert forall u: nat {:trigger InUse(isrcb, t.quiescing, u)} :: u < |isrcb| && InUse(isrcb, t.quiescing, u) ==>
             InUse(isrcb, quiescing, u);
      assert Unique(isrcb, t.quiescing, regs, reg);
    }
  }
}

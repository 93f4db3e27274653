/** Data queues (kernel/dataqueue.c:195-328 and the service calls at 519-1000): a ring
    buffer and the tasks waiting to send and to receive refine one unbounded FIFO. */
module DataQueues {

  import opened Rings
  import opened TaskQueues
  import opened Sequences
  import opened MutexProtocol
  import opened KernelTables
  import opened Scheduler
  import opened WaitState
  import opened MutexServices
  import opened Waiters

  /** The data of the waiting senders, in the order of the wait queue. */
  ghost function Pending(senders: seq<int>, sdata: map<int, int>): (r: seq<int>)
    ensures |r| == |senders|
    ensures forall i {:trigger r[i]} :: 0 <= i < |senders| ==> r[i] == Datum(sdata, senders[i])
  {
    seq(|senders|, (i: int) requires 0 <= i < |senders| => Datum(sdata, senders[i]))
  }

  ghost function Datum(sdata: map<int, int>, t: int): int {
    if t in sdata then sdata[t] else 0
  }

  class DataQueue {
    const k: Kernel
    const w: int               // the number of the object
    const dtqcnt: int
    const dtqmb: array<int>
    var count: int
    var head: int
    var tail: int
    var sdata: map<int, int>   // winfo_obj.sdtq.data of the waiting senders
    var rdata: map<int, int>   // winfo_obj.rdtq.data of the receivers released

    ghost function Senders(): seq<int>
      reads k`queue
    {
      Q(k.queue, Object(w))
    }

    ghost function Receivers(): seq<int>
      reads k`queue
    {
      Q(k.queue, Receive(w))
    }

    /** Among these queues of the kernel: the indices fit; receivers wait only at an
        empty queue, senders only at a full one. */
    ghost predicate SoundAmong(queue: map<Qid, seq<int>>)
      reads this, dtqmb
    {
      && 0 <= dtqcnt == dtqmb.Length && 0 <= count <= dtqcnt
      && (if dtqcnt == 0 then head == tail == 0 else 0 <= head < dtqcnt && tail == After(head, count, dtqcnt))
      && Rests(Q(queue, Object(w)), Q(queue, Receive(w)), count, dtqcnt, sdata)
    }

    ghost predicate Valid()
      reads this, dtqmb, k`queue
    {
      SoundAmong(k.queue)
    }

    ghost function Buffer(): seq<int>
      requires Valid()
      reads this, dtqmb, k`queue
    {
      Ring(dtqmb[..], head, count)
    }

    /** The unbounded FIFO: what is in the ring, then what the waiting senders bring. */
    ghost function Fifo(): seq<int>
      requires Valid()
      reads this, dtqmb, k`queue
    {
      FifoAmong(k.queue)
    }

    ghost function FifoAmong(queue: map<Qid, seq<int>>): seq<int>
      requires SoundAmong(queue)
      reads this, dtqmb
    {
      Ring(dtqmb[..], head, count) + Pending(Q(queue, Object(w)), sdata)
    }

    /** initialize_dataqueue, for one data queue. */
    constructor (k: Kernel, w: int, dtqcnt: nat)
      requires Q(k.queue, Object(w)) == [] && Q(k.queue, Receive(w)) == []
      ensures Valid() && Fifo() == [] && this.k == k && this.w == w && this.dtqcnt == dtqcnt && fresh(dtqmb)
      ensures sdata == map[] && rdata == map[]
    {
      this.k, this.w, this.dtqcnt := k, w, dtqcnt;
      dtqmb := new int[dtqcnt];
      count, head, tail := 0, 0, 0;
      sdata, rdata := map[], map[];
    }

    /** enqueue_data. */
    method EnqueueData(data: int)
      requires 0 <= count < dtqcnt == dtqmb.Length && 0 <= head < dtqcnt && tail == After(head, count, dtqcnt)
      modifies dtqmb, this`count, this`tail
      ensures count == old(count) + 1 && tail == After(head, count, dtqcnt)
      ensures Ring(dtqmb[..], head, count) == old(Ring(dtqmb[..], head, count)) + [data]
    {
      RingEnqueued(dtqmb[..], head, count, data);
      dtqmb[tail] := data;
      count := count + 1;
      tail := tail + 1;
      if tail >= dtqcnt {
        tail := 0;
      }
      assert dtqmb[..] == old(dtqmb[..])[old(tail) := data];
    }

    /** force_enqueue_data: into a full ring, the oldest item makes room. */
    method ForceEnqueueData(data: int)
      requires 0 <= count <= dtqcnt == dtqmb.Length && 0 <= head < dtqcnt && tail == After(head, count, dtqcnt)
      modifies dtqmb, this`count, this`head, this`tail
      ensures 0 <= head < dtqcnt && tail == After(head, count, dtqcnt)
      ensures count == if old(count) < dtqcnt then old(count) + 1 else dtqcnt
      ensures var r := old(Ring(dtqmb[..], head, count));
        Ring(dtqmb[..], head, count) == if old(count) < dtqcnt then r + [data] else r[1..] + [data]
    {
      if count < dtqcnt {
        RingEnqueued(dtqmb[..], head, count, data);
      } else {
        RingForced(dtqmb[..], head, data);
      }
      dtqmb[tail] := data;
      assert dtqmb[..] == old(dtqmb[..])[old(tail) := data];
      tail := tail + 1;
      if tail >= dtqcnt {
        tail := 0;
      }
      if count < dtqcnt {
        count := count + 1;
      } else {
        head := tail;
      }
    }

    /** dequeue_data. */
    method DequeueData() returns (data: int)
      requires 0 < count <= dtqcnt == dtqmb.Length && 0 <= head < dtqcnt && tail == After(head, count, dtqcnt)
      modifies this`count, this`head
      ensures 0 <= head < dtqcnt && count == old(count) - 1 && tail == After(head, count, dtqcnt)
      ensures old(Ring(dtqmb[..], head, count)) == [data] + Ring(dtqmb[..], head, count)
    {
      RingDequeued(dtqmb[..], head, count);
      data := dtqmb[head];
      count := count - 1;
      head := head + 1;
      if head >= dtqcnt {
        head := 0;
      }
    }

    /** The first waiting receiver gets the datum. */
    method HandToReceiver(data: int) returns (t: int)
      requires k.Inv() && Valid() && Receivers() != []
      modifies this`rdata, k`cb, k`queue, k`pcb, k`timer
      ensures k.Inv() && Valid()
      ensures Elsewhere(old(k.queue), k.queue, w)
      ensures t == old(Receivers())[0] && Receivers() == old(Receivers())[1..] && Senders() == []
      ensures rdata == old(rdata)[t := data]
      ensures Released(old(k.cb), k.cb, t)
      ensures SameMode(old(k.pcb), k.pcb)
    {
      hide Linked, Ordered, Sorted, Distinct, Settled, Lists, SameMode, Timers;
      t := Q(k.queue, Receive(w))[0];
      DeleteFirst(k, Receiving(w), t);
      rdata := rdata[t := data];
      WaitComplete(k, t, NULL);
    }

    /** send_data. */
    method SendData(data: int) returns (ok: bool)
      requires k.Inv() && Valid()
      modifies this`count, this`tail, this`rdata, dtqmb, k`cb, k`queue, k`pcb, k`timer
      ensures k.Inv() && Valid()
      ensures Elsewhere(old(k.queue), k.queue, w)
      ensures ok <==> old(Receivers()) != [] || old(count) < dtqcnt
      ensures !ok ==> count == dtqcnt && Receivers() == [] && Buffer() == old(Buffer())
      ensures old(Receivers()) != [] ==>
                && Receivers() == old(Receivers())[1..] && rdata == old(rdata)[old(Receivers())[0] := data]
                && Fifo() == old(Fifo()) == []
                && Released(old(k.cb), k.cb, old(Receivers())[0])
      ensures old(Receivers()) == [] ==>
                && k.cb == old(k.cb) && k.queue == old(k.queue) && rdata == old(rdata)
                && Fifo() == if ok then old(Fifo()) + [data] else old(Fifo())
      ensures SameMode(old(k.pcb), k.pcb)
    {
      hide Linked, Ordered, Sorted, Distinct, Settled, Lists, SameMode, Timers;
      SameModeRefl(k.pcb);
      if Q(k.queue, Receive(w)) != [] {
        var t := HandToReceiver(data);
        return true;
      } else if count < dtqcnt {
        EnqueueData(data);
        assert Pending(Senders(), sdata) == [];
        return true;
      } else {
        return false;
      }
    }

    /** The first waiting sender's wait is over; its datum is returned. */
    method ReleaseSender() returns (data: int)
      requires k.Inv() && Senders() != [] && Receivers() == [] && Covered(Senders(), sdata)
      modifies k`cb, k`queue, k`pcb, k`timer
      ensures k.Inv() && SameMode(old(k.pcb), k.pcb) && Receivers() == []
      ensures Elsewhere(old(k.queue), k.queue, w)
      ensures Senders() == old(Senders())[1..] && Released(old(k.cb), k.cb, old(Senders())[0])
      ensures Covered(Senders(), sdata) && old(Senders())[0] in sdata && data == sdata[old(Senders())[0]]
    {
      hide Linked, Ordered, Sorted, Distinct, Settled, Lists, SameMode, Timers, Joins, Covered;
      PendingFirst(Senders(), sdata);
      var t := Q(k.queue, Object(w))[0];
      DeleteFirst(k, On(w), t);
      data := sdata[t];
      WaitComplete(k, t, NULL);
    }

    /** With room in the ring again, the first waiting sender's datum goes to its end. */
    method AdmitSender()
      requires k.Inv() && Senders() != [] && Receivers() == [] && Covered(Senders(), sdata)
      requires 0 <= count < dtqcnt == dtqmb.Length && 0 <= head < dtqcnt && tail == After(head, count, dtqcnt)
      modifies this`count, this`tail, dtqmb, k`cb, k`queue, k`pcb, k`timer
      ensures k.Inv() && SameMode(old(k.pcb), k.pcb) && Receivers() == []
      ensures Elsewhere(old(k.queue), k.queue, w)
      ensures Senders() == old(Senders())[1..] && Released(old(k.cb), k.cb, old(Senders())[0])
      ensures Covered(Senders(), sdata) && old(Senders())[0] in sdata
      ensures count == old(count) + 1 && tail == After(head, count, dtqcnt)
      ensures Ring(dtqmb[..], head, count) == old(Ring(dtqmb[..], head, count)) + [sdata[old(Senders())[0]]]
    {
      hide Linked, Ordered, Sorted, Distinct, Settled, Lists, SameMode, Timers, Joins, Covered, After, Ring;
      PendingFirst(Senders(), sdata);
      var t := Q(k.queue, Object(w))[0];
      DeleteFirst(k, On(w), t);
      EnqueueData(sdata[t]);
      WaitComplete(k, t, NULL);
    }

    /** receive_data: it succeeds exactly if the FIFO is not empty, and takes its first
        item. */
    method ReceiveData() returns (ok: bool, data: int)
      requires k.Inv() && Valid()
      modifies this`count, this`head, this`tail, dtqmb, k`cb, k`queue, k`pcb, k`timer
      ensures k.Inv() && Valid() && Receivers() == old(Receivers())
      ensures Elsewhere(old(k.queue), k.queue, w)
      ensures ok <==> old(Fifo()) != []
      ensures if ok then old(Fifo()) == [data] + Fifo()
              else Fifo() == [] && k.cb == old(k.cb) && k.queue == old(k.queue)
      ensures old(Senders()) != [] ==> Senders() == old(Senders())[1..] && Released(old(k.cb), k.cb, old(Senders())[0])
      ensures old(Senders()) == [] ==> Senders() == [] && k.cb == old(k.cb)
      ensures SameMode(old(k.pcb), k.pcb)
    {
      hide Linked, Ordered, Sorted, Distinct, Settled, Lists, SameMode, Timers, Ring, Joins, After, Released, Covered;
      SameModeRefl(k.pcb);
      ghost var senders := Senders();
      if senders != [] {
        PendingFirst(senders, sdata);
      }
      RingSize(dtqmb[..], head, count);
      if count > 0 {
        data := DequeueData();
        if Q(k.queue, Object(w)) != [] {
          AdmitSender();
        }
        return true, data;
      } else if Q(k.queue, Object(w)) != [] {
        data := ReleaseSender();
        return true, data;
      } else {
        return false, 0;
      }
    }

    /** snd_dtq (Forever), tsnd_dtq (Within, or TmoPol for TMO_POL) and psnd_dtq (Polling). */
    method SndDtq(self: int, data: int, tmo: Tmo) returns (r: Outcome)
      requires k.Inv() && Valid() && (tmo != Polling ==> IsRunning(k, self)) && |k.mtx| <= w
      modifies this`count, this`tail, this`rdata, this`sdata, dtqmb, k`cb, k`queue, k`pcb, k`timer
      ensures k.Inv() && Valid() && |k.cb| == |old(k.cb)|
      ensures Elsewhere(old(k.queue), k.queue, w)
      ensures var full := old(Receivers()) == [] && old(count) == dtqcnt;
        r == if tmo != Polling && old(k.cb[self]).raster then Done(ERaster)
             else if !full then Done(EOk) else if Polls(tmo) then Done(ETmout) else Blocked
      ensures r == Blocked ==> tmo == Forever || tmo == Within
      ensures r == Done(ETmout) ==> tmo == Polling || tmo == TmoPol
      ensures r == Done(EOk) ==> Fifo() == if old(Receivers()) == [] then old(Fifo()) + [data] else old(Fifo())
      ensures r == Done(EOk) && old(Receivers()) != [] ==>
              rdata == old(rdata)[old(Receivers())[0] := data] && Receivers() == old(Receivers())[1..]
      ensures r.Done? && r.ercd != EOk ==> Fifo() == old(Fifo()) && k.cb == old(k.cb)
      ensures r == Blocked ==>
                && Buffer() == old(Buffer()) && sdata == old(sdata)[self := data]
                && forall t {:trigger t in Senders()} :: t in Senders() <==> t in old(Senders()) || t == self
      ensures r == Done(EOk) ==> if old(Receivers()) != [] then Released(old(k.cb), k.cb, old(Receivers())[0])
              else k.cb == old(k.cb)
      ensures r == Blocked ==> Waiting(old(k.cb), k.cb, self, On(w), tmo)
      ensures r != Blocked ==> sdata == old(sdata)
      ensures r != Done(EOk) || old(Receivers()) == [] ==> rdata == old(rdata)
      ensures r == Blocked ==> Queued(k.cb, old(Senders()), Senders(), k.sub, k.tpri, Object(w), self)
      ensures r == Blocked && w !in k.tpri ==> Fifo() == old(Fifo()) + [data] && Senders() == old(Senders()) + [self]
      ensures SameMode(old(k.pcb), k.pcb)
    {
      hide Linked, Ordered, Sorted, Distinct, Settled, Lists, SameMode, Timers, WaitRule, Ring, Queued;
      SameModeRefl(k.pcb);
      ghost var pcb := k.pcb;
      if tmo != Polling && k.cb[self].raster {
        return Done(ERaster);
      }
      var ok := SendData(data);
      if ok {
        return Done(EOk);
      } else if Polls(tmo) {
        return Done(ETmout);
      }
      ghost var pcb1 := k.pcb;
      WaitToSend(self, data, tmo);
      SameModeTrans(pcb, pcb1, k.pcb);
      return Blocked;
    }

    /** The caller leaves its datum and waits, last or at the place of its priority. */
    method WaitToSend(self: int, data: int, tmo: Tmo)
      requires k.Inv() && Valid() && IsRunning(k, self) && |k.mtx| <= w && Receivers() == [] && count == dtqcnt
      modifies this`sdata, k`cb, k`queue, k`pcb, k`timer
      ensures k.Inv() && Valid()
      ensures Elsewhere(old(k.queue), k.queue, w)
      ensures Buffer() == old(Buffer()) && sdata == old(sdata)[self := data]
      ensures Waiting(old(k.cb), k.cb, self, On(w), tmo)
      ensures forall t {:trigger t in Senders()} :: t in Senders() <==> t in old(Senders()) || t == self
      ensures Queued(k.cb, old(Senders()), Senders(), k.sub, k.tpri, Object(w), self)
      ensures w !in k.tpri ==> Fifo() == old(Fifo()) + [data] && Senders() == old(Senders()) + [self]
      ensures SameMode(old(k.pcb), k.pcb)
    {
      hide Linked, Ordered, Sorted, Distinct, Settled, Lists, SameMode, Timers, WaitRule, Ring, After, Queued;
      ghost var senders, was := Senders(), sdata;
      AwakeNowhere(k, self);
      sdata := sdata[self := data];
      NotMutex(k, self, On(w));
      WobjMakeWait(k, On(w), self, tmo == Within);
      assert Covered(Senders(), sdata);
      PendingSame(senders, was, sdata);
      if w !in k.tpri {
        PendingLast(senders, sdata, self);
      }
    }

    /** fsnd_dtq: without capacity it is an error; into a full buffer the datum drives
        out the oldest one. */
    method FsndDtq(data: int) returns (ercd: Ercd)
      requires k.Inv() && Valid()
      modifies this`count, this`head, this`tail, this`rdata, dtqmb, k`cb, k`queue, k`pcb, k`timer
      ensures k.Inv() && Valid()
      ensures Elsewhere(old(k.queue), k.queue, w)
      ensures ercd == if dtqcnt == 0 then EIluse else EOk
      ensures ercd == EIluse ==> Fifo() == old(Fifo()) && k.cb == old(k.cb) && rdata == old(rdata)
      ensures ercd == EOk && old(Receivers()) != [] ==>
                && rdata == old(rdata)[old(Receivers())[0] := data] && Receivers() == old(Receivers())[1..]
                && Fifo() == old(Fifo()) && Released(old(k.cb), k.cb, old(Receivers())[0])
      ensures ercd == EOk && old(Receivers()) == [] ==>
                && Senders() == old(Senders()) && k.cb == old(k.cb) && rdata == old(rdata)
                && |old(Buffer())| == old(count)
                && Buffer() == if old(count) < dtqcnt then old(Buffer()) + [data] else old(Buffer())[1..] + [data]
      ensures SameMode(old(k.pcb), k.pcb)
    {
      hide Linked, Ordered, Sorted, Distinct, Settled, Lists, SameMode, Timers, Ring;
      SameModeRefl(k.pcb);
      RingSize(dtqmb[..], head, count);
      if dtqcnt == 0 {
        return EIluse;
      }
      if Q(k.queue, Receive(w)) != [] {
        var t := HandToReceiver(data);
      } else {
        ForceEnqueueData(data);
      }
      return EOk;
    }

    /** rcv_dtq (Forever), trcv_dtq (Within, or TmoPol for TMO_POL) and prcv_dtq (Polling). */
    method RcvDtq(self: int, tmo: Tmo) returns (r: Outcome, data: int)
      requires k.Inv() && Valid() && IsRunning(k, self)
      modifies this`count, this`head, this`tail, dtqmb, k`cb, k`queue, k`pcb, k`timer
      ensures k.Inv() && Valid()
      ensures Elsewhere(old(k.queue), k.queue, w)
      ensures r == if old(k.cb[self]).raster && tmo != Polling then Done(ERaster)
                   else if old(Fifo()) != [] then Done(EOk) else if Polls(tmo) then Done(ETmout) else Blocked
      ensures r == Blocked ==> tmo == Forever || tmo == Within
      ensures r == Done(ETmout) ==> tmo == Polling || tmo == TmoPol
      ensures r == Done(EOk) ==> old(Fifo()) == [data] + Fifo()
      ensures r == Done(EOk) && old(Senders()) != [] ==>
              Senders() == old(Senders())[1..] && Released(old(k.cb), k.cb, old(Senders())[0])
      ensures r == Done(EOk) && old(Senders()) == [] ==> Senders() == [] && k.cb == old(k.cb)
      ensures r == Blocked ==> Waiting(old(k.cb), k.cb, self, Receiving(w), tmo)
      ensures r == Blocked ==> Fifo() == old(Fifo()) == [] && Receivers() == old(Receivers()) + [self]
      ensures r.Done? && r.ercd != EOk ==> Fifo() == old(Fifo()) && k.cb == old(k.cb)
      ensures SameMode(old(k.pcb), k.pcb)
    {
      hide Linked, Ordered, Sorted, Distinct, Settled, Lists, SameMode, Timers, WaitRule, Ring;
      SameModeRefl(k.pcb);
      ghost var pcb := k.pcb;
      data := 0;
      if k.cb[self].raster && tmo != Polling {
        return Done(ERaster), data;
      }
      var ok;
      ok, data := ReceiveData();
      if ok {
        return Done(EOk), data;
      } else if Polls(tmo) {
        return Done(ETmout), data;
      }
      ghost var pcb1 := k.pcb;
      WaitToReceive(self, tmo);
      SameModeTrans(pcb, pcb1, k.pcb);
      return Blocked, data;
    }

    /** The caller waits for a datum, behind all others. */
    method WaitToReceive(self: int, tmo: Tmo)
      requires k.Inv() && Valid() && IsRunning(k, self) && Fifo() == []
      modifies k`cb, k`queue, k`pcb, k`timer
      ensures k.Inv() && Valid()
      ensures Elsewhere(old(k.queue), k.queue, w)
      ensures Waiting(old(k.cb), k.cb, self, Receiving(w), tmo)
      ensures Fifo() == [] && Receivers() == old(Receivers()) + [self]
      ensures SameMode(old(k.pcb), k.pcb)
    {
      hide Linked, Ordered, Sorted, Distinct, Settled, Lists, SameMode, Timers, WaitRule, Ring, Queued, After;
      assert Senders() == [] && count == 0 by {
        RingSize(dtqmb[..], head, count);
      }
      NotMutex(k, self, Receiving(w));
      WobjMakeWait(k, Receiving(w), self, tmo == Within);
    }

    /** ini_dtq: the waiting tasks are released with E_DLT and the buffer is emptied. */
    method IniDtq()
      requires k.Inv() && Valid()
      modifies this`count, this`head, this`tail, k`cb, k`queue, k`pcb, k`timer
      ensures k.Inv() && Valid() && Fifo() == [] && Senders() == [] && Receivers() == []
      ensures Elsewhere(old(k.queue), k.queue, w)
      ensures AllDeleted(old(k.cb), k.cb, {On(w), Receiving(w)})
      ensures SameMode(old(k.pcb), k.pcb)
    {
      hide Linked, Ordered, Sorted, Distinct, Settled, Lists, SameMode, Timers, AllDeleted;
      ghost var cb, pcb := k.cb, k.pcb;
      InitWaitQueue(k, On(w));
      ghost var cb1, pcb1 := k.cb, k.pcb;
      InitWaitQueue(k, Receiving(w));
      SameModeTrans(pcb, pcb1, k.pcb);
      DeletedInTurn(cb, cb1, k.cb, On(w), Receiving(w));
      count, head, tail := 0, 0, 0;
    }
  }

  lemma PendingFirst(senders: seq<int>, sdata: map<int, int>)
    requires senders != [] && Covered(senders, sdata)
    ensures senders[0] in sdata && Covered(senders[1..], sdata)
    ensures Pending(senders, sdata) == [sdata[senders[0]]] + Pending(senders[1..], sdata)
  {
    CoveredRest(senders, sdata);
  }

  lemma PendingLast(senders: seq<int>, sdata: map<int, int>, t: int)
    requires t in sdata
    ensures Pending(senders + [t], sdata) == Pending(senders, sdata) + [sdata[t]]
  {
  }

  lemma PendingSame(senders: seq<int>, was: map<int, int>, now: map<int, int>)
    requires forall t {:trigger t in senders} :: t in senders ==> (t in was <==> t in now) && (t in was ==>
             was[t] == now[t])
    ensures Pending(senders, was) == Pending(senders, now)
  {
    forall i | 0 <= i < |senders|
      ensures Datum(was, senders[i]) == Datum(now, senders[i])
    {
      assert senders[i] in senders;
    }
  }
}

/** What the objects that tasks wait at have in common: data queues, priority data
    queues and fixed-size memory pools. */
module Waiters {

  import opened TaskQueues
  import opened MutexProtocol
  import opened KernelTables
  import opened WaitState
  import opened MutexServices

  /** Each waiting sender has left its datum. */
  ghost predicate Covered<T>(senders: seq<int>, sdata: map<int, T>) {
    forall t {:trigger t in senders} {:trigger t in sdata} :: t in senders ==> t in sdata
  }

  /** Receivers wait only at an empty queue, senders only at a full one. */
  ghost predicate Rests<T>(senders: seq<int>, receivers: seq<int>, count: int, capacity: int, sdata: map<int, T>) {
    && (receivers != [] ==> count == 0 && senders == [])
    && (senders != [] ==> count == capacity)
    && Covered(senders, sdata)
  }

  /** That remains so when only tasks that waited there before still do. */
  lemma FewerRest<T>(was: map<Qid, seq<int>>, now: map<Qid, seq<int>>, w: int, count: int, capacity: int,
      sdata: map<int, T>)
    requires Rests(Q(was, Object(w)), Q(was, Receive(w)), count, capacity, sdata) && Fewer(was, now, w)
    ensures Rests(Q(now, Object(w)), Q(now, Receive(w)), count, capacity, sdata)
  {
    NoneLeft(Q(now, Object(w)), Q(was, Object(w)));
    NoneLeft(Q(now, Receive(w)), Q(was, Receive(w)));
  }

  lemma NoneLeft(s: seq<int>, all: seq<int>)
    requires forall t {:trigger t in s} :: t in s ==> t in all
    ensures s != [] ==> all != []
  {
    if s != [] {
      var t := s[0];
      assert t in s;
    }
  }

  lemma ElsewhereSame(was: map<Qid, seq<int>>, now: map<Qid, seq<int>>, w: int, w': int)
    requires Elsewhere(was, now, w) && w' != w
    ensures Q(now, Object(w')) == Q(was, Object(w')) && Q(now, Receive(w')) == Q(was, Receive(w'))
    ensures Fewer(was, now, w')
  {
  }

  /** A released task: its wait is over with E_OK. */
  ghost predicate Released(was: seq<TCB>, now: seq<TCB>, t: int) {
    0 <= t < |was| && var s := was[t].tstat.suspended;
                       now == was[t := was[t].(tstat := Tstat(!s, s, NoWait), winfo := Wercd(EOk))]
  }

  /** The calling task waits now, with a timeout or without. */
  ghost predicate Waiting(was: seq<TCB>, now: seq<TCB>, self: int, wait: Wait, tmo: Tmo) {
    && 0 <= self < |was|
    && now == was[self := was[self].(tstat := Tstat(false, was[self].tstat.suspended, wait),
                                     winfo := Tmevtb(tmo == Within))]
  }

  lemma CoveredAt<T>(senders: seq<int>, sdata: map<int, T>, t: int)
    requires Covered(senders, sdata) && t in senders
    ensures t in sdata
  {
  }

  lemma CoveredRest<T>(senders: seq<int>, sdata: map<int, T>)
    requires Covered(senders, sdata) && senders != []
    ensures senders[0] in sdata && Covered(senders[1..], sdata)
  {
    CoveredAt(senders, sdata, senders[0]);
    var rest := senders[1..];
    forall t {:trigger t in rest} | t in rest
      ensures t in sdata
    {
      assert t in senders;
    }
    assert Covered(rest, sdata);
  }

  /** The running task is in no wait queue. */
  lemma AwakeNowhere(k: Kernel, t: int)
    requires k.Inv() && IsRunning(k, t)
    ensures forall q: Qid {:trigger Q(k.queue, q)} :: !q.Ready? ==> t !in Q(k.queue, q)
  {
    hide Ordered, Settled, Lists, Timers;
    AtHome(k.cb, k.queue, t);
  }

  /** Nothing but a mutex restricts who may wait for it. */
  lemma NotMutex(k: Kernel, self: int, wait: Wait)
    requires IsRunning(k, self) && (wait.Receiving? || (wait.On? && |k.mtx| <= wait.w))
    ensures WaitRule(k.mtx, self, k.cb[self].(tstat := Waits(k.cb[self].tstat, wait)))
  {
  }
}

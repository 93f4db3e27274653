/** Priority data queues (kernel/pridataq.c:189-305 and the service calls at 484-901): a list
    of nodes linked in the order of their data priorities, and a free list, in one array. */
module PriDataQueues {

  import opened IndexList
  import opened Sequences
  import opened TaskQueues
  import opened MutexProtocol
  import opened KernelTables
  import opened Scheduler
  import opened WaitState
  import opened MutexServices
  import opened Waiters

  datatype Item = Item(data: int, pri: int)

  // ------ the reference: a stable priority queue

  /** The new item goes behind all of its priority or a higher one. */
  ghost function InsertStable(s: seq<Item>, x: Item): seq<Item> {
    if s == [] then [x]
    else if s[0].pri > x.pri then [x] + s
    else [s[0]] + InsertStable(s[1..], x)
  }

  ghost predicate InOrder(s: seq<Item>) {
    forall i, j {:trigger s[i], s[j]} :: 0 <= i < j < |s| ==> s[i].pri <= s[j].pri
  }

  /** The items of priority p, in their order. */
  ghost function OfPriority(s: seq<Item>, p: int): seq<Item> {
    if s == [] then [] else (if s[0].pri == p then [s[0]] else []) + OfPriority(s[1..], p)
  }

  lemma {:induction false} InsertedMembers(s: seq<Item>, x: Item)
    ensures multiset(InsertStable(s, x)) == multiset(s) + multiset{x}
    ensures forall y: Item {:trigger y in InsertStable(s, x)} :: y in InsertStable(s, x) <==> y in s || y == x
  {
    if s != [] {
      InsertedMembers(s[1..], x);
      assert s == [s[0]] + s[1..];
    }
  }

  lemma {:induction false} InsertedInOrder(s: seq<Item>, x: Item)
    requires InOrder(s)
    ensures InOrder(InsertStable(s, x))
  {
    if s != [] && s[0].pri <= x.pri {
      var rest := s[1..];
      assert forall i {:trigger rest[i]} :: 0 <= i < |rest| ==> rest[i] == s[i + 1];
      InsertedInOrder(rest, x);
      InsertedMembers(rest, x);
      var r := InsertStable(rest, x);
      forall j {:trigger r[j]} | 0 <= j < |r|
        ensures s[0].pri <= r[j].pri
      {
        assert r[j] in r;
      }
    }
  }

  lemma {:induction false} InsertedLast(s: seq<Item>, x: Item, p: int)
    requires InOrder(s)
    ensures OfPriority(InsertStable(s, x), p) == OfPriority(s, p) + if x.pri == p then [x] else []
  {
    if s == [] {
    } else if s[0].pri > x.pri {
      NoneBelow(s, p, x.pri);
      assert ([x] + s)[1..] == s;
    } else {
      InsertedLast(s[1..], x, p);
      var r := InsertStable(s[1..], x);
      assert ([s[0]] + r)[1..] == r;
    }
  }

  /** An ordered list stays ordered, gains exactly the item, and is a FIFO for every
      priority. */
  lemma StableInsertion(s: seq<Item>, x: Item, p: int)
    requires InOrder(s)
    ensures InOrder(InsertStable(s, x)) && multiset(InsertStable(s, x)) == multiset(s) + multiset{x}
    ensures OfPriority(InsertStable(s, x), p) == OfPriority(s, p) + if x.pri == p then [x] else []
  {
    InsertedInOrder(s, x);
    InsertedMembers(s, x);
    InsertedLast(s, x, p);
  }

  lemma {:induction false} NoneBelow(s: seq<Item>, p: int, q: int)
    requires InOrder(s) && s != [] && s[0].pri > q
    ensures p <= q ==> OfPriority(s, p) == []
  {
    if |s| > 1 {
      NoneBelow(s[1..], p, q);
    }
  }

  // ------ the nodes

  /** Items in order: the place behind the last one not after x. */
  lemma {:induction false} InsertStableAt(s: seq<Item>, x: Item, i: int)
    requires 0 <= i <= |s| && (forall j {:trigger s[j]} :: 0 <= j < i ==> s[j].pri <= x.pri)
    requires (i < |s| ==> s[i].pri > x.pri)
    ensures InsertStable(s, x) == s[..i] + [x] + s[i..]
  {
    if i == 0 {
      assert s[..0] + [x] + s[0..] == [x] + s;
    } else {
      InsertStableAt(s[1..], x, i - 1);
      BehindFirst(s, x, i);
    }
  }

  lemma BehindFirst(s: seq<Item>, x: Item, i: int)
    requires 0 < i <= |s|
    ensures [s[0]] + (s[1..][..i - 1] + [x] + s[1..][i - 1..]) == s[..i] + [x] + s[i..]
  {
    assert s[1..][..i - 1] == s[1..i] && s[1..][i - 1..] == s[i..];
    assert [s[0]] + s[1..i] == s[..i];
  }

  /** What the nodes of a list hold. */
  ghost function Items(data: seq<int>, pri: seq<int>, s: seq<int>): (r: seq<Item>)
    ensures |r| == |s|
    ensures forall i {:trigger r[i]} :: 0 <= i < |s| && 0 <= s[i] < |data| && s[i] < |pri| ==>
            r[i] == Item(data[s[i]], pri[s[i]])
  {
    seq(|s|, (i: int) requires 0 <= i < |s| =>
      if 0 <= s[i] < |data| && s[i] < |pri| then Item(data[s[i]], pri[s[i]]) else Item(0, 0))
  }

  /** Used and free nodes are apart, and are all those below `unused`. */
  ghost predicate Parted(used: seq<int>, free: seq<int>, unused: int) {
    && (forall n {:trigger n in used} :: n in used ==> 0 <= n < unused && n !in free)
    && (forall n {:trigger n in free} :: n in free ==> 0 <= n < unused && n !in used)
    && (forall n {:trigger n in used} {:trigger n in free} :: 0 <= n < unused ==> n in used || n in free)
  }

  class PriDataQueue {
    const pdqcnt: int
    var next: seq<int>         // p_next of the nodes, by index; NULL is -1
    var data: seq<int>
    var pri: seq<int>
    var count: int
    var head: int
    var unused: int
    var freelist: int
    ghost var used: seq<int>
    ghost var free: seq<int>

    ghost predicate Valid()
      reads this
    {
      && |next| == |data| == |pri| == pdqcnt
      && Path(NULL, next, head, used) && Path(NULL, next, freelist, free) && Parted(used, free, unused)
      && count == |used| && count + |free| == unused <= pdqcnt
      && InOrder(Contents())
    }

    ghost function Contents(): seq<Item>
      reads this
    {
      Items(data, pri, used)
    }

    lemma CountIsSize()
      requires Valid()
      ensures count == |Contents()| && 0 <= count <= pdqcnt
    {
    }

    /** initialize_pridataq, for one queue. */
    constructor (pdqcnt: nat)
      ensures Valid() && Contents() == [] && this.pdqcnt == pdqcnt
    {
      this.pdqcnt := pdqcnt;
      next, data, pri := seq(pdqcnt, _ => NULL), seq(pdqcnt, _ => 0), seq(pdqcnt, _ => 0);
      count, head, unused, freelist := 0, NULL, 0, NULL;
      used, free := [], [];
    }

    /** The end of ini_pdq. */
    method Reset()
      requires Valid()
      modifies this`count, this`head, this`unused, this`freelist, this`used, this`free
      ensures Valid() && Contents() == [] && count == 0
    {
      count, head, unused, freelist := 0, NULL, 0, NULL;
      used, free := [], [];
    }

    /** The first half of enqueue_pridata: a node from the free list, or the first one
        never used, which is in the array because the queue is not full. */
    method TakeNode() returns (n: int)
      requires Valid() && count < pdqcnt
      modifies this`freelist, this`unused, this`free
      ensures 0 <= n < pdqcnt && n < unused <= pdqcnt && n !in used && n !in free && Path(NULL, next, freelist, free)
      ensures forall m {:trigger m in used} {:trigger m in free} :: 0 <= m < unused ==> m in used || m in free || m == n
      ensures forall m {:trigger m in used} :: m in used ==> 0 <= m < unused && m !in free
      ensures forall m {:trigger m in free} :: m in free ==> 0 <= m < unused && m !in used
      ensures count + 1 + |free| == unused
    {
      hide InOrder;
      if freelist != NULL {
        PathPopped(NULL, next, freelist, free);
        n := freelist;
        FirstIn(free, n);
        freelist := next[freelist];
        free := free[1..];
      } else {
        assert free == [];
        n := unused;
        unused := unused + 1;
      }
    }

    /** p_pdqmb->p_next = p_next; *pp_prev_next = p_pdqmb: the place that points to p is
        the link in node prev, or p_head. */
    method LinkIn(n: int, ghost i: int, prev: int, p: int)
      requires Path(NULL, next, head, used) && Path(NULL, next, freelist, free) && 0 <= n < |next| && n !in used
      requires n !in free && 0 <= i <= |used|
      requires p == (if i < |used| then used[i] else NULL) && prev == if i == 0 then NULL else used[i - 1]
      requires forall m {:trigger m in used} :: m in used ==> m !in free
      modifies this`next, this`head, this`count, this`used
      ensures Path(NULL, next, head, used) && Path(NULL, next, freelist, free) && |next| == |old(next)|
      ensures used == Plus(old(used), i, n) && count == old(count) + 1
    {
      hide Path, Plus;
      PathInserted(NULL, next, head, used, n, i);
      ApartFrom(used, free, n, i);
      InPath(next, head, used);
      ghost var next0 := next;
      next := next[n := p];
      if prev == NULL {
        head := n;
      } else {
        next := next[prev := n];
      }
      PathSame(NULL, next0, next, freelist, free);
      count := count + 1;
      used := Plus(used, i, n);
    }

    /** The search of enqueue_pridata: the first node of a lower priority, the node before
        it, and its position. */
    method PridataPlace(datapri: int, ghost items: seq<Item>) returns (ghost i: int, prev: int, p: int)
      requires Path(NULL, next, head, used) && |next| == |data| == |pri| && items == Contents()
      ensures 0 <= i <= |used| && p == (if i < |used| then used[i] else NULL)
      ensures prev == if i == 0 then NULL else used[i - 1]
      ensures forall j {:trigger items[j]} :: 0 <= j < i ==> items[j].pri <= datapri
      ensures i < |used| ==> items[i].pri > datapri
    {
      i, prev, p := 0, NULL, head;
      while p != NULL
        invariant 0 <= i <= |used| && p == (if i < |used| then used[i] else NULL)
        invariant prev == if i == 0 then NULL else used[i - 1]
        invariant forall j {:trigger items[j]} :: 0 <= j < i ==> items[j].pri <= datapri
        decreases |used| - i
      {
        assert items[i] == Item(data[p], pri[p]);
        if pri[p] > datapri {
          break;
        }
        prev, p := p, next[p];
        i := i + 1;
      }
    }

    /** enqueue_pridata. */
    method EnqueuePridata(x: int, datapri: int)
      requires Valid() && count < pdqcnt
      modifies this
      ensures Valid() && count == old(count) + 1 && Contents() == InsertStable(old(Contents()), Item(x, datapri))
    {
      ghost var was, items := used, Contents();
      var n := TakeNode();
      data := data[n := x];
      pri := pri[n := datapri];
      ItemsSame(old(data), data, old(pri), pri, used, n);
      var prev, p;
      ghost var i;
      i, prev, p := PridataPlace(datapri, items);
      assert Distinct(used);
      LinkIn(n, i, prev, p);
      PartedWith(was, used, free, unused, n, i);
      InsertStableAt(items, Item(x, datapri), i);
      ItemsInserted(data, pri, was, n, i);
      InsertedInOrder(items, Item(x, datapri));
    }

    /** dequeue_pridata: the first item is taken and its node is freed. */
    method DequeuePridata() returns (x: Item)
      requires Valid() && count > 0
      modifies this`next, this`head, this`count, this`freelist, this`used, this`free
      ensures Valid() && count == old(count) - 1 && old(Contents()) == [x] + Contents()
    {
      hide Path, Parted, InOrder;
      InHead(next, head, used);
      PathPopped(NULL, next, head, used);
      PartedFirst(used, free, unused);
      ghost var items := Contents();
      var n := head;
      head := next[n];
      count := count - 1;
      x := Item(data[n], pri[n]);
      PathPushed(NULL, next, freelist, free, n);
      RestSame(next, n, freelist, head, used[1..]);
      next := next[n := freelist];
      freelist := n;
      used, free := used[1..], [n] + free;
      assert items == [x] + Contents();
      RestInOrder(items);
    }
  }

  lemma ApartFrom(used: seq<int>, free: seq<int>, n: int, i: int)
    requires n !in free && 0 <= i <= |used| && forall m {:trigger m in used} :: m in used ==> m !in free
    ensures forall j {:trigger free[j]} :: 0 <= j < |free| ==> free[j] != n && (i > 0 ==> free[j] != used[i - 1])
  {
    forall j {:trigger free[j]} | 0 <= j < |free|
      ensures free[j] != n && (i > 0 ==> free[j] != used[i - 1])
    {
      InSeq(free, j);
      if i > 0 {
        InSeq(used, i - 1);
      }
    }
  }

  lemma InHead(next: seq<int>, first: int, s: seq<int>)
    requires Path(NULL, next, first, s) && s != []
    ensures first == s[0] && 0 <= first < |next| && Distinct(s)
  {
  }

  lemma PartedFirst(used: seq<int>, free: seq<int>, unused: int)
    requires Parted(used, free, unused) && used != [] && Distinct(used)
    ensures Parted(used[1..], [used[0]] + free, unused) && used[0] !in free
  {
    FirstIn(used, used[0]);
    FirstIn([used[0]] + free, used[0]);
    assert ([used[0]] + free)[1..] == free;
    assert used[0] !in used[1..];
  }

  lemma RestSame(next: seq<int>, n: int, x: int, first: int, s: seq<int>)
    requires Path(NULL, next, first, s) && n !in s && 0 <= n < |next|
    ensures Path(NULL, next[n := x], first, s)
  {
    forall i {:trigger s[i]} | 0 <= i < |s|
      ensures s[i] != n
    {
      InSeq(s, i);
    }
    PathSame(NULL, next, next[n := x], first, s);
  }

  lemma RestInOrder(s: seq<Item>)
    requires InOrder(s) && s != []
    ensures InOrder(s[1..])
  {
    var r := s[1..];
    assert forall i {:trigger r[i]} :: 0 <= i < |r| ==> r[i] == s[i + 1];
  }

  lemma InSeq(s: seq<int>, j: int)
    requires 0 <= j < |s|
    ensures s[j] in s
  {
  }

  lemma InPath(next: seq<int>, first: int, s: seq<int>)
    requires Path(NULL, next, first, s)
    ensures NULL !in s
  {
  }

  /** Parting after a node has moved into the used list. */
  lemma PartedWith(was: seq<int>, used: seq<int>, free: seq<int>, unused: int, n: int, i: int)
    requires 0 <= i <= |was| && used == Plus(was, i, n) && 0 <= n < unused && n !in was && n !in free && Distinct(was)
    requires forall m {:trigger m in was} {:trigger m in free} :: 0 <= m < unused ==> m in was || m in free || m == n
    requires forall m {:trigger m in was} :: m in was ==> 0 <= m < unused && m !in free
    requires forall m {:trigger m in free} :: m in free ==> 0 <= m < unused && m !in was
    ensures Parted(used, free, unused) && |used| == |was| + 1
  {
    PlusAdds(was, i, n);
    hide Plus, Distinct;
    PlusPlaces(was, i, n);
  }

  lemma ItemsSame(data: seq<int>, data': seq<int>, pri: seq<int>, pri': seq<int>, s: seq<int>, n: int)
    requires n !in s && |data'| == |data| && |pri'| == |pri|
    requires forall m {:trigger data'[m]} :: 0 <= m < |data| && m != n ==> data'[m] == data[m]
    requires forall m {:trigger pri'[m]} :: 0 <= m < |pri| && m != n ==> pri'[m] == pri[m]
    ensures Items(data', pri', s) == Items(data, pri, s)
  {
    assert forall i {:trigger s[i]} :: 0 <= i < |s| ==> s[i] in s;
  }

  lemma ItemsInserted(data: seq<int>, pri: seq<int>, s: seq<int>, n: int, i: int)
    requires 0 <= i <= |s| && 0 <= n < |data| && n < |pri|
    ensures var r := Items(data, pri, s); Items(data, pri, Plus(s, i, n)) == r[..i] + [Item(data[n], pri[n])] + r[i..]
  {
  }

  /** The item a waiting sender has left. */
  ghost function ItemOf(sdata: map<int, Item>, t: int): Item {
    if t in sdata then sdata[t] else Item(0, 0)
  }

  /** A priority data queue with the tasks that wait at it. */
  class PdqObject {
    const k: Kernel
    const w: int
    const q: PriDataQueue
    const maxdpri: int
    var sdata: map<int, Item>  // winfo_obj.spdq of the waiting senders
    var rdata: map<int, Item>  // winfo_obj.rpdq of the receivers released

    ghost function Senders(): seq<int>
      reads k`queue
    {
      Q(k.queue, Object(w))
    }

    ghost function Receivers(): seq<int>
      reads k`queue
    {
      Q(k.queue, Receive(w))
    }

    /** Among these queues of the kernel: receivers wait only at an empty queue, senders
        only at a full one. */
    ghost predicate SoundAmong(queue: map<Qid, seq<int>>)
      reads this, q
    {
      q.Valid() && Rests(Q(queue, Object(w)), Q(queue, Receive(w)), q.count, q.pdqcnt, sdata)
    }

    ghost predicate Valid()
      reads this, q, k`queue
    {
      SoundAmong(k.queue)
    }

    constructor (k: Kernel, w: int, q: PriDataQueue, maxdpri: int)
      requires Q(k.queue, Object(w)) == [] && Q(k.queue, Receive(w)) == [] && q.Valid()
      ensures Valid() && this.k == k && this.w == w && this.q == q && this.maxdpri == maxdpri
      ensures sdata == map[] && rdata == map[]
    {
      this.k, this.w, this.q, this.maxdpri := k, w, q, maxdpri;
      sdata, rdata := map[], map[];
    }

    /** send_pridata. */
    method SendPridata(x: int, datapri: int) returns (ok: bool)
      requires k.Inv() && Valid()
      modifies this`rdata, q, k`cb, k`queue, k`pcb, k`timer
      ensures k.Inv() && Valid()
      ensures Elsewhere(old(k.queue), k.queue, w)
      ensures ok <==> old(Receivers()) != [] || old(q.count) < q.pdqcnt
      ensures !ok ==> q.count == q.pdqcnt
      ensures old(Receivers()) != [] ==>
                && Receivers() == old(Receivers())[1..] && rdata == old(rdata)[old(Receivers())[0] := Item(x, datapri)]
                && q.Contents() == old(q.Contents()) == [] && Released(old(k.cb), k.cb, old(Receivers())[0])
      ensures old(Receivers()) == [] ==>
                && k.cb == old(k.cb) && k.queue == old(k.queue) && rdata == old(rdata)
                && q.Contents() == if ok then InsertStable(old(q.Contents()), Item(x, datapri)) else old(q.Contents())
      ensures SameMode(old(k.pcb), k.pcb)
    {
      hide Linked, Ordered, Sorted, Distinct, Settled, Lists, SameMode, Timers, PriDataQueue.Valid, InsertStable;
      SameModeRefl(k.pcb);
      q.CountIsSize();
      if Q(k.queue, Receive(w)) != [] {
        var t := Q(k.queue, Receive(w))[0];
        DeleteFirst(k, Receiving(w), t);
        rdata := rdata[t := Item(x, datapri)];
        WaitComplete(k, t, NULL);
        return true;
      } else if q.count < q.pdqcnt {
        q.EnqueuePridata(x, datapri);
        return true;
      } else {
        return false;
      }
    }

    /** receive_pridata: the first item of the queue; if a sender waits, its item then
        takes its stable place.  Without capacity a sender hands over directly. */
    method ReceivePridata() returns (ok: bool, x: Item)
      requires k.Inv() && Valid()
      modifies q, k`cb, k`queue, k`pcb, k`timer
      ensures Elsewhere(old(k.queue), k.queue, w)
      ensures ok <==> old(q.Contents()) != [] || old(Senders()) != []
      ensures !ok ==> q.Contents() == [] && k.cb == old(k.cb) && k.queue == old(k.queue)
      ensures old(Senders()) != [] ==>
                && Senders() == old(Senders())[1..] && old(Senders())[0] in sdata
                && Released(old(k.cb), k.cb, old(Senders())[0])
      ensures old(Senders()) == [] ==> Senders() == [] && k.cb == old(k.cb)
      ensures old(q.Contents()) != [] ==>
                && x == old(q.Contents())[0]
                && q.Contents() == if old(Senders()) == [] then old(q.Contents())[1..]
                   else InsertStable(old(q.Contents())[1..], ItemOf(sdata, First(old(Senders()))))
      ensures old(q.Contents()) == [] && ok ==> q.Contents() == [] && x == ItemOf(sdata, First(old(Senders())))
      ensures k.Inv() && Valid() && Receivers() == old(Receivers())
      ensures SameMode(old(k.pcb), k.pcb)
    {
      hide Linked, Ordered, Sorted, Distinct, Settled, Lists, SameMode, Timers, PriDataQueue.Valid, InsertStable;
      SameModeRefl(k.pcb);
      q.CountIsSize();
      ghost var senders, items := Senders(), q.Contents();
      if Q(k.queue, Object(w)) != [] {
        CoveredRest(senders, sdata);
      }
      x := Item(0, 0);
      if q.count > 0 {
        x := q.DequeuePridata();
        assert q.Contents() == items[1..];
        if Q(k.queue, Object(w)) != [] {
          var t := Q(k.queue, Object(w))[0];
          DeleteFirst(k, On(w), t);
          q.EnqueuePridata(sdata[t].data, sdata[t].pri);
          WaitComplete(k, t, NULL);
        }
        return true, x;
      } else if Q(k.queue, Object(w)) != [] {
        var t := Q(k.queue, Object(w))[0];
        DeleteFirst(k, On(w), t);
        x := sdata[t];
        WaitComplete(k, t, NULL);
        return true, x;
      } else {
        return false, x;
      }
    }

    /** snd_pdq (Forever), tsnd_pdq (Within, or TmoPol for TMO_POL) and psnd_pdq (Polling).
        The data priority is compared with maxdpri before anything else. */
    method SndPdq(self: int, x: int, datapri: int, tmo: Tmo) returns (r: Outcome)
      requires k.Inv() && Valid() && (tmo != Polling ==> IsRunning(k, self)) && |k.mtx| <= w
      modifies this`rdata, this`sdata, q, k`cb, k`queue, k`pcb, k`timer
      ensures k.Inv() && Valid() && |k.cb| == |old(k.cb)|
      ensures Elsewhere(old(k.queue), k.queue, w)
      ensures var full := old(Receivers()) == [] && old(q.count) == q.pdqcnt;
        r == if datapri > maxdpri then Done(EPar)
             else if tmo != Polling && old(k.cb[self]).raster then Done(ERaster)
             else if !full then Done(EOk) else if Polls(tmo) then Done(ETmout) else Blocked
      ensures r == Blocked ==> tmo == Forever || tmo == Within
      ensures r == Done(ETmout) ==> tmo == Polling || tmo == TmoPol
      ensures r == Done(EOk) && old(Receivers()) != [] ==>
                && Receivers() == old(Receivers())[1..] && rdata == old(rdata)[old(Receivers())[0] := Item(x, datapri)]
                && q.Contents() == old(q.Contents()) == [] && Released(old(k.cb), k.cb, old(Receivers())[0])
      ensures r == Done(EOk) && old(Receivers()) == [] ==>
                && k.cb == old(k.cb) && k.queue == old(k.queue)
                && q.Contents() == InsertStable(old(q.Contents()), Item(x, datapri))
      ensures r != Done(EOk) ==> q.Contents() == old(q.Contents())
      ensures r.Done? && r.ercd != EOk ==> k.cb == old(k.cb) && k.queue == old(k.queue)
      ensures r == Blocked ==>
                && sdata == old(sdata)[self := Item(x, datapri)] && Waiting(old(k.cb), k.cb, self, On(w), tmo)
                && forall t {:trigger t in Senders()} :: t in Senders() <==> t in old(Senders()) || t == self
      ensures r != Blocked ==> sdata == old(sdata)
      ensures r != Done(EOk) || old(Receivers()) == [] ==> rdata == old(rdata)
      ensures r == Blocked ==> Queued(k.cb, old(Senders()), Senders(), k.sub, k.tpri, Object(w), self)
      ensures r == Blocked && w !in k.tpri ==> Senders() == old(Senders()) + [self]
      ensures SameMode(old(k.pcb), k.pcb)
    {
      hide Linked, Ordered, Sorted, Distinct, Settled, Lists, SameMode, Timers, WaitRule, PriDataQueue.Valid,
        InsertStable, Queued;
      SameModeRefl(k.pcb);
      ghost var pcb := k.pcb;
      if datapri > maxdpri {
        return Done(EPar);
      } else if tmo != Polling && k.cb[self].raster {
        return Done(ERaster);
      }
      q.CountIsSize();
      var ok := SendPridata(x, datapri);
      if ok {
        return Done(EOk);
      } else if Polls(tmo) {
        return Done(ETmout);
      }
      ghost var pcb1 := k.pcb;
      WaitToSend(self, Item(x, datapri), tmo);
      SameModeTrans(pcb, pcb1, k.pcb);
      return Blocked;
    }

    /** The caller leaves its item and waits, last or at the place of its priority. */
    method WaitToSend(self: int, x: Item, tmo: Tmo)
      requires k.Inv() && Valid() && IsRunning(k, self) && |k.mtx| <= w && Receivers() == [] && q.count == q.pdqcnt
      modifies this`sdata, k`cb, k`queue, k`pcb, k`timer
      ensures k.Inv() && Valid()
      ensures Elsewhere(old(k.queue), k.queue, w)
      ensures sdata == old(sdata)[self := x] && Waiting(old(k.cb), k.cb, self, On(w), tmo)
      ensures forall t {:trigger t in Senders()} :: t in Senders() <==> t in old(Senders()) || t == self
      ensures Queued(k.cb, old(Senders()), Senders(), k.sub, k.tpri, Object(w), self)
      ensures w !in k.tpri ==> Senders() == old(Senders()) + [self]
      ensures SameMode(old(k.pcb), k.pcb)
    {
      hide Linked, Ordered, Sorted, Distinct, Settled, Lists, SameMode, Timers, WaitRule, PriDataQueue.Valid, Queued;
      sdata := sdata[self := x];
      NotMutex(k, self, On(w));
      WobjMakeWait(k, On(w), self, tmo == Within);
      assert Covered(Senders(), sdata);
    }

    /** rcv_pdq (Forever), trcv_pdq (Within, or TmoPol for TMO_POL) and prcv_pdq (Polling). */
    method RcvPdq(self: int, tmo: Tmo) returns (r: Outcome, x: Item)
      requires k.Inv() && Valid() && IsRunning(k, self)
      modifies q, k`cb, k`queue, k`pcb, k`timer
      ensures k.Inv() && Valid()
      ensures Elsewhere(old(k.queue), k.queue, w)
      ensures r == if old(k.cb[self]).raster && tmo != Polling then Done(ERaster)
                   else if old(q.Contents()) != [] || old(Senders()) != [] then Done(EOk)
                   else if Polls(tmo) then Done(ETmout) else Blocked
      ensures r == Blocked ==> tmo == Forever || tmo == Within
      ensures r == Done(ETmout) ==> tmo == Polling || tmo == TmoPol
      ensures r == Done(EOk) && old(Senders()) != [] ==>
                && Senders() == old(Senders())[1..] && old(Senders())[0] in sdata
                && Released(old(k.cb), k.cb, old(Senders())[0])
      ensures r == Done(EOk) && old(Senders()) == [] ==> Senders() == [] && k.cb == old(k.cb)
      ensures r == Done(EOk) && old(q.Contents()) != [] ==>
                && x == old(q.Contents())[0]
                && q.Contents() == if old(Senders()) == [] then old(q.Contents())[1..]
                   else InsertStable(old(q.Contents())[1..], ItemOf(sdata, First(old(Senders()))))
      ensures r == Done(EOk) && old(q.Contents()) == [] ==>
                q.Contents() == [] && x == ItemOf(sdata, First(old(Senders())))
      ensures r != Done(EOk) ==> q.Contents() == old(q.Contents()) && Senders() == old(Senders())
      ensures r.Done? && r.ercd != EOk ==> k.cb == old(k.cb) && k.queue == old(k.queue)
      ensures r == Blocked ==>
                Waiting(old(k.cb), k.cb, self, Receiving(w), tmo) && Receivers() == old(Receivers()) + [self]
      ensures SameMode(old(k.pcb), k.pcb)
    {
      hide Linked, Ordered, Sorted, Distinct, Settled, Lists, SameMode, Timers, WaitRule, PriDataQueue.Valid,
        InsertStable;
      SameModeRefl(k.pcb);
      ghost var pcb := k.pcb;
      x := Item(0, 0);
      if k.cb[self].raster && tmo != Polling {
        return Done(ERaster), x;
      }
      q.CountIsSize();
      var ok;
      ok, x := ReceivePridata();
      if ok {
        return Done(EOk), x;
      } else if Polls(tmo) {
        return Done(ETmout), x;
      }
      q.CountIsSize();
      ghost var pcb1 := k.pcb;
      WaitToReceive(self, tmo);
      SameModeTrans(pcb, pcb1, k.pcb);
      return Blocked, x;
    }

    /** The caller waits for an item, behind all others. */
    method WaitToReceive(self: int, tmo: Tmo)
      requires k.Inv() && Valid() && IsRunning(k, self) && q.count == 0 && Senders() == []
      modifies k`cb, k`queue, k`pcb, k`timer
      ensures k.Inv() && Valid()
      ensures Elsewhere(old(k.queue), k.queue, w)
      ensures Waiting(old(k.cb), k.cb, self, Receiving(w), tmo)
      ensures Senders() == [] && Receivers() == old(Receivers()) + [self]
      ensures SameMode(old(k.pcb), k.pcb)
    {
      hide Linked, Ordered, Sorted, Distinct, Settled, Lists, SameMode, Timers, WaitRule, PriDataQueue.Valid, Queued;
      NotMutex(k, self, Receiving(w));
      WobjMakeWait(k, Receiving(w), self, tmo == Within);
    }

    /** ini_pdq: the waiting tasks are released with E_DLT and the queue is emptied. */
    method IniPdq()
      requires k.Inv() && Valid()
      modifies q, k`cb, k`queue, k`pcb, k`timer
      ensures k.Inv() && Valid() && q.Contents() == [] && Senders() == [] && Receivers() == []
      ensures Elsewhere(old(k.queue), k.queue, w)
      ensures AllDeleted(old(k.cb), k.cb, {On(w), Receiving(w)})
      ensures SameMode(old(k.pcb), k.pcb)
    {
      hide Linked, Ordered, Sorted, Distinct, Settled, Lists, SameMode, Timers, AllDeleted, PriDataQueue.Valid;
      ghost var cb, pcb := k.cb, k.pcb;
      InitWaitQueue(k, On(w));
      ghost var cb1, pcb1 := k.cb, k.pcb;
      InitWaitQueue(k, Receiving(w));
      SameModeTrans(pcb, pcb1, k.pcb);
      DeletedInTurn(cb, cb1, k.cb, On(w), Receiving(w));
      q.Reset();
    }
  }
}

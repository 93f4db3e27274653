/** Fixed-size memory pools (kernel/mempfix.c:171-188, 442-680): blocks of one size, a
    free list of indices, and the tasks waiting for a block. */
module MemPfixes {

  import opened Arithmetic
  import opened IndexList
  import opened Sequences
  import opened TaskQueues
  import opened MutexProtocol
  import opened KernelTables
  import opened Scheduler
  import opened WaitState
  import opened MutexServices
  import opened Waiters

  const UINT_RANGE := 0x1_0000_0000
  const INDEX_NULL := 0xffff_ffff
  const INDEX_ALLOC := 0xffff_fffe

  /** Every block below `unused` is marked allocated or is in the free list; the count of
      free blocks is the length of that list and the blocks never used. */
  ghost predicate Sound(next: seq<int>, freelist: int, free: seq<int>, unused: int, fblkcnt: int) {
    && |next| < INDEX_ALLOC && 0 <= unused <= |next|
    && Path(INDEX_NULL, next, freelist, free)
    && (forall i {:trigger i in free} :: i in free ==> 0 <= i < unused && next[i] != INDEX_ALLOC)
    && (forall i {:trigger next[i]} :: 0 <= i < unused ==> next[i] == INDEX_ALLOC || i in free)
    && fblkcnt == |free| + (|next| - unused)
  }

  lemma GotFree(next: seq<int>, freelist: int, free: seq<int>, unused: int, fblkcnt: int)
    requires Sound(next, freelist, free, unused, fblkcnt) && freelist != INDEX_NULL
    ensures free != [] && freelist == free[0] && 0 <= freelist < unused && next[freelist] != INDEX_ALLOC
    ensures Sound(next[freelist := INDEX_ALLOC], next[freelist], free[1..], unused, fblkcnt - 1)
  {
    PathPopped(INDEX_NULL, next, freelist, free);
    var n, rest := freelist, free[1..];
    FirstIn(free, free[0]);
    NotIn(rest, n);
    PathSame(INDEX_NULL, next, next[n := INDEX_ALLOC], next[n], rest);
  }

  lemma NotIn(s: seq<int>, n: int)
    requires n !in s
    ensures forall i {:trigger s[i]} :: 0 <= i < |s| ==> s[i] != n
  {
  }

  lemma GotUnused(next: seq<int>, freelist: int, free: seq<int>, unused: int, fblkcnt: int)
    requires Sound(next, freelist, free, unused, fblkcnt) && freelist == INDEX_NULL && fblkcnt > 0
    ensures unused < |next|
    ensures Sound(next[unused := INDEX_ALLOC], freelist, free, unused + 1, fblkcnt - 1)
  {
    NoneFree(next, freelist, free);
    assert free == [];
  }

  lemma NoneFree(next: seq<int>, freelist: int, free: seq<int>)
    requires Path(INDEX_NULL, next, freelist, free) && freelist == INDEX_NULL && |next| < INDEX_ALLOC
    ensures free == []
  {
  }

  lemma Returned(next: seq<int>, freelist: int, free: seq<int>, unused: int, fblkcnt: int, i: int)
    requires Sound(next, freelist, free, unused, fblkcnt) && 0 <= i < unused && next[i] == INDEX_ALLOC
    ensures freelist != INDEX_ALLOC && Sound(next[i := freelist], i, [i] + free, unused, fblkcnt + 1)
  {
    assert i !in free;
    PathPushed(INDEX_NULL, next, freelist, free, i);
    var all := [i] + free;
    assert forall m {:trigger m in all} :: m in all <==> m == i || m in free;
    FirstLink(next, freelist, free);
  }

  lemma FirstLink(next: seq<int>, freelist: int, free: seq<int>)
    requires Path(INDEX_NULL, next, freelist, free) && |next| < INDEX_ALLOC
    ensures freelist != INDEX_ALLOC
  {
  }

  lemma InBounds(next: seq<int>, freelist: int, free: seq<int>, unused: int, fblkcnt: int)
    requires Sound(next, freelist, free, unused, fblkcnt)
    ensures 0 <= unused <= |next| < INDEX_ALLOC && 0 <= fblkcnt
  {
  }

  /** The checks of rel_mpf on an address: subtraction and truncation wrap around, but
      not for an address that passes. */
  lemma OffsetExact(mpf: int, blk: int, blksz: int, range: int, unused: int)
    requires 0 <= mpf && 0 <= blk < range && 0 < blksz && 0 <= unused < UINT_RANGE
    ensures var off := (blk - mpf) % range;
      mpf <= blk && off % blksz == 0 && off / blksz < unused ==>
        0 <= off / blksz && (off / blksz) % UINT_RANGE == off / blksz && blk == mpf + blksz * (off / blksz)
    ensures forall i {:trigger blksz * i} :: 0 <= i < unused && blk == mpf + blksz * i ==>
              mpf <= blk && (blk - mpf) % range % blksz == 0 && (blk - mpf) % range / blksz == i
  {
    var off := (blk - mpf) % range;
    if mpf <= blk {
      ModUnique(blk - mpf, 0, blk - mpf, range);
      assert off == blksz * (off / blksz) + off % blksz;
      if 0 <= off / blksz < unused {
        ModUnique(off / blksz, 0, off / blksz, UINT_RANGE);
      }
    }
    forall i | 0 <= i < unused && blk == mpf + blksz * i
      ensures mpf <= blk && off % blksz == 0 && off / blksz == i
    {
      assert blksz * i >= 0;
      ModUnique(off, i, 0, blksz);
      MulAtLeast(blksz, off / blksz - i);
      assert blksz * (off / blksz - i) == 0;
    }
  }

  class MemPfix {
    const k: Kernel
    const w: int
    const blkcnt: int
    const blksz: int
    const mpf: int             // the address of the pool area
    const range: int           // the addresses are 0 .. range - 1
    var mpfmb: seq<int>        // p_mpfmb[].next
    var fblkcnt: int
    var unused: int
    var freelist: int
    var granted: map<int, int> // winfo_obj.mpf.blk of the tasks released
    ghost var free: seq<int>

    ghost function Waiters(): seq<int>
      reads k`queue
    {
      Q(k.queue, Object(w))
    }

    /** Among these queues of the kernel: tasks wait only while no block is free. */
    ghost predicate SoundAmong(queue: map<Qid, seq<int>>)
      reads this
    {
      && |mpfmb| == blkcnt && 0 < blksz && 0 <= mpf && mpf + blkcnt * blksz <= range
      && Sound(mpfmb, freelist, free, unused, fblkcnt)
      && (Q(queue, Object(w)) != [] ==> fblkcnt == 0)
    }

    ghost predicate Valid()
      reads this, k`queue
    {
      SoundAmong(k.queue)
    }

    /** Block i is allocated. */
    ghost predicate Allocated(i: int)
      reads this`mpfmb, this`unused
    {
      0 <= i < unused && i < |mpfmb| && mpfmb[i] == INDEX_ALLOC
    }

    ghost function Address(i: int): int {
      mpf + blksz * i
    }

    /** Different blocks have different addresses. */
    lemma Injective(i: int)
      requires 0 < blksz
      ensures forall j {:trigger Address(j)} :: Address(j) == Address(i) ==> j == i
    {
      forall j | Address(j) == Address(i)
        ensures j == i
      {
        assert blksz * (j - i) == 0;
        MulAtLeast(blksz, j - i);
      }
    }

    /** initialize_mempfix, for one pool. */
    constructor (k: Kernel, w: int, blkcnt: nat, blksz: int, mpf: int, range: int)
      requires Q(k.queue, Object(w)) == [] && blkcnt < INDEX_ALLOC && 0 < blksz && 0 <= mpf
      requires mpf + blkcnt * blksz <= range
      ensures Valid() && fblkcnt == blkcnt && (forall i :: !Allocated(i)) && granted == map[]
      ensures this.k == k && this.w == w && this.blkcnt == blkcnt && this.blksz == blksz && this.mpf == mpf
      ensures this.range == range
    {
      this.k, this.w, this.blkcnt, this.blksz, this.mpf, this.range := k, w, blkcnt, blksz, mpf, range;
      mpfmb := seq(blkcnt, _ => 0);
      fblkcnt, unused, freelist := blkcnt, 0, INDEX_NULL;
      granted, free := map[], [];
    }

    /** Different blocks do not overlap, and all lie in the pool. */
    lemma BlocksApart(i: int, j: int)
      requires Valid() && 0 <= i < j < blkcnt
      ensures mpf <= Address(i) && Address(i) + blksz <= Address(j) && Address(j) + blksz <= mpf + blkcnt * blksz
    {
      assert blksz * (i + 1) <= blksz * j && blksz * (j + 1) <= blksz * blkcnt;
    }

    /** get_mpf_block: the block handed out was not allocated. */
    method GetMpfBlock() returns (blk: int, ghost i: int)
      requires Valid() && fblkcnt > 0
      modifies this`mpfmb, this`fblkcnt, this`unused, this`freelist, this`free
      ensures Valid() && fblkcnt == old(fblkcnt) - 1 && 0 <= i < blkcnt && blk == Address(i) && !old(Allocated(i))
      ensures forall j {:trigger Allocated(j)} :: Allocated(j) <==> old(Allocated(j)) || j == i
    {
      hide Sound;
      InBounds(mpfmb, freelist, free, unused, fblkcnt);
      var blkidx;
      if freelist != INDEX_NULL {
        GotFree(mpfmb, freelist, free, unused, fblkcnt);
        blkidx := freelist;
        freelist := mpfmb[blkidx];
        free := free[1..];
      } else {
        GotUnused(mpfmb, freelist, free, unused, fblkcnt);
        blkidx := unused;
        unused := unused + 1;
      }
      blk := mpf + blksz * blkidx;
      fblkcnt := fblkcnt - 1;
      mpfmb := mpfmb[blkidx := INDEX_ALLOC];
      i := blkidx;
    }

    /** get_mpf (Forever), tget_mpf (Within, or TmoPol for TMO_POL) and pget_mpf (Polling). */
    method GetMpf(self: int, tmo: Tmo) returns (r: Outcome, blk: int, ghost i: int)
      requires k.Inv() && Valid() && IsRunning(k, self) && |k.mtx| <= w
      modifies this`mpfmb, this`fblkcnt, this`unused, this`freelist, this`free, k`cb, k`queue, k`pcb, k`timer
      ensures k.Inv() && Valid()
      ensures Elsewhere(old(k.queue), k.queue, w)
      ensures r == if old(k.cb[self]).raster && tmo != Polling then Done(ERaster)
                   else if old(fblkcnt) > 0 then Done(EOk) else if Polls(tmo) then Done(ETmout) else Blocked
      ensures r == Blocked ==> tmo == Forever || tmo == Within
      ensures r == Done(ETmout) ==> tmo == Polling || tmo == TmoPol
      ensures r == Done(EOk) ==>
                && 0 <= i < blkcnt && blk == Address(i) && !old(Allocated(i))
                && forall j {:trigger Allocated(j)} :: Allocated(j) <==> old(Allocated(j)) || j == i
      ensures r != Done(EOk) ==> fblkcnt == old(fblkcnt) && forall j {:trigger Allocated(j)} :: Allocated(j) <==>
              old(Allocated(j))
      ensures r != Blocked ==> k.cb == old(k.cb) && k.queue == old(k.queue)
      ensures r == Blocked ==> Waiting(old(k.cb), k.cb, self, On(w), tmo)
      ensures r == Blocked ==> Queued(k.cb, old(Waiters()), Waiters(), k.sub, k.tpri, Object(w), self)
      ensures r == Blocked ==> (w !in k.tpri ==> Waiters() == old(Waiters()) + [self]) && forall t ::
              t in Waiters() <==> t in old(Waiters()) || t == self
      ensures SameMode(old(k.pcb), k.pcb)
    {
      hide Linked, Ordered, Sorted, Distinct, Settled, Lists, SameMode, Timers, WaitRule, Sound, Queued;
      SameModeRefl(k.pcb);
      blk, i := 0, 0;
      if k.cb[self].raster && tmo != Polling {
        return Done(ERaster), blk, i;
      } else if fblkcnt > 0 {
        blk, i := GetMpfBlock();
        return Done(EOk), blk, i;
      } else if Polls(tmo) {
        return Done(ETmout), blk, i;
      }
      InBounds(mpfmb, freelist, free, unused, fblkcnt);
      NotMutex(k, self, On(w));
      WobjMakeWait(k, On(w), self, tmo == Within);
      return Blocked, blk, i;
    }

    /** rel_mpf: it accepts exactly the addresses of allocated blocks.  The block goes to
        the first waiting task, or back to the free list. */
    method RelMpf(blk: int) returns (ok: bool)
      requires k.Inv() && Valid() && 0 <= blk < range
      modifies this`mpfmb, this`fblkcnt, this`freelist, this`free, this`granted, k`cb, k`queue, k`pcb, k`timer
      ensures k.Inv() && Valid()
      ensures Elsewhere(old(k.queue), k.queue, w)
      ensures ok <==> exists i :: old(Allocated(i)) && blk == Address(i)
      ensures !ok ==> k.cb == old(k.cb) && mpfmb == old(mpfmb) && fblkcnt == old(fblkcnt)
      ensures ok && old(Waiters()) != [] ==>
                var t := old(Waiters())[0];
                && Waiters() == old(Waiters())[1..] && granted == old(granted)[t := blk]
                && mpfmb == old(mpfmb) && fblkcnt == old(fblkcnt)
                && Released(old(k.cb), k.cb, t)
      ensures !ok || old(Waiters()) == [] ==> granted == old(granted)
      ensures ok && old(Waiters()) == [] ==>
                && fblkcnt == old(fblkcnt) + 1 && k.cb == old(k.cb)
                && forall j {:trigger Allocated(j)} :: Allocated(j) <==> old(Allocated(j)) && Address(j) != blk
      ensures SameMode(old(k.pcb), k.pcb)
    {
      hide Linked, Ordered, Sorted, Distinct, Settled, Lists, SameMode, Timers, Sound;
      SameModeRefl(k.pcb);
      InBounds(mpfmb, freelist, free, unused, fblkcnt);
      var blkoffset := (blk - mpf) % range;
      var blkidx := (blkoffset / blksz) % UINT_RANGE;
      OffsetExact(mpf, blk, blksz, range, unused);
      if !(mpf <= blk) || !(blkoffset % blksz == 0) || !(blkoffset / blksz < unused)
         || !(mpfmb[blkidx] == INDEX_ALLOC) {
        return false;
      }
      assert Allocated(blkidx) && blk == Address(blkidx);
      Injective(blkidx);
      if Q(k.queue, Object(w)) != [] {
        var t := Q(k.queue, Object(w))[0];
        DeleteFirst(k, On(w), t);
        granted := granted[t := blk];
        WaitComplete(k, t, NULL);
      } else {
        PutBack(blkidx);
      }
      return true;
    }

    /** The block goes to the head of the free list. */
    method PutBack(blkidx: int)
      requires Valid() && Waiters() == [] && Allocated(blkidx)
      modifies this`mpfmb, this`fblkcnt, this`freelist, this`free
      ensures Valid() && fblkcnt == old(fblkcnt) + 1
      ensures forall j {:trigger Allocated(j)} :: Allocated(j) <==> old(Allocated(j)) && j != blkidx
    {
      hide Sound;
      Returned(mpfmb, freelist, free, unused, fblkcnt, blkidx);
      fblkcnt := fblkcnt + 1;
      mpfmb := mpfmb[blkidx := freelist];
      free := [blkidx] + free;
      freelist := blkidx;
    }

    /** ini_mpf: the waiting tasks are released with E_DLT and all blocks are free. */
    method IniMpf()
      requires k.Inv() && Valid()
      modifies this`fblkcnt, this`unused, this`freelist, this`free, k`cb, k`queue, k`pcb, k`timer
      ensures k.Inv() && Valid() && fblkcnt == blkcnt && Waiters() == [] && forall i :: !Allocated(i)
      ensures AllDeleted(old(k.cb), k.cb, {On(w)})
      ensures Elsewhere(old(k.queue), k.queue, w)
      ensures SameMode(old(k.pcb), k.pcb)
    {
      hide Linked, Ordered, Sorted, Distinct, Settled, Lists, SameMode, Timers;
      InitWaitQueue(k, On(w));
      fblkcnt, unused, freelist, free := blkcnt, 0, INDEX_NULL, [];
    }
  }
}

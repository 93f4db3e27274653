/** The time event heaps of all time-event processors (kernel/time_event.c).
    They share the time event blocks; an operation on one heap leaves the other
    heaps as they were. */
module TimeEventHeaps {
  import opened TimeEventHeap
  import opened TimeWindow

  /** A heap does not notice changes to blocks it does not hold. */
  lemma OtherBlocks(v: View, w: View, es: set<Event>, boundary: EVTTIM)
    requires v.Holed(0, es, boundary)
    requires w.node == v.node && w.last == v.last && |w.index| == |v.index| && |w.evttim| == |v.evttim|
    requires forall e {:trigger e in es} :: e in es && e < |v.index| ==>
             w.index[e] == v.index[e] && w.evttim[e] == v.evttim[e]
    ensures w.Holed(0, es, boundary)
  {
    assert w.Placed(0, es);
    forall i | 1 <= i <= v.last
      ensures w.Keys(boundary)[i] == v.Keys(boundary)[i]
    {
      assert v.node[i] in es;
    }
    var kv, kw := v.Keys(boundary), w.Keys(boundary);
    assert |kv| == |kw|;
  }

  /** Every event of the heap shows its unbounded time, and lies in the window. */
  ghost predicate Timed(es: set<Event>, evttim: seq<EVTTIM>, due: map<Event, int>, now: int) {
    forall e {:trigger e in es} :: e in es ==>
      e < |evttim| && e in due && evttim[e] == Wrap(due[e]) && InWindow(due[e], now)
  }

  /** Moving the boundary with the current time never breaks heap order. */
  lemma Rebase(v: View, es: set<Event>, due: map<Event, int>, now: int, now': int)
    requires v.Holed(0, es, Boundary(now)) && Timed(es, v.evttim, due, now) && Timed(es, v.evttim, due, now')
    ensures v.Holed(0, es, Boundary(now'))
  {
    var k, k' := v.Keys(Boundary(now)), v.Keys(Boundary(now'));
    forall i, j | 1 <= i <= v.last && 1 <= j <= v.last
      ensures k[i] <= k[j] <==> k'[i] <= k'[j]
    {
      var a, b := v.node[i], v.node[j];
      assert a in es && b in es;
      CompareAgrees(due[a], due[b], now);
      CompareAgrees(due[a], due[b], now');
    }
    assert Ordered(k', 0);
  }

  /** An empty heap for each processor. */
  method MakeHeaps(nprc: nat, capacity: nat, index: array<nat>, evttim: array<EVTTIM>) returns (heap: seq<TmevtHeap>)
    requires index.Length == evttim.Length && index as object != evttim
    ensures |heap| == nprc
    ensures forall p {:trigger heap[p]} :: 0 <= p < nprc ==>
              && fresh(heap[p]) && fresh(heap[p].node) && heap[p].Apart()
              && heap[p].index == index && heap[p].evttim == evttim
              && heap[p].events == {} && heap[p].lastIndex == 0 && heap[p].node.Length == capacity + 1
    ensures forall p, q {:trigger heap[p], heap[q]} :: 0 <= p < q < nprc ==>
              heap[p] != heap[q] && heap[p].node != heap[q].node
  {
    hide View.Holed;
    heap := [];
    while |heap| < nprc
      invariant |heap| <= nprc
      invariant forall p {:trigger heap[p]} :: 0 <= p < |heap| ==>
                  && fresh(heap[p]) && fresh(heap[p].node) && heap[p].Apart()
                  && heap[p].index == index && heap[p].evttim == evttim
                  && heap[p].events == {} && heap[p].lastIndex == 0 && heap[p].node.Length == capacity + 1
      invariant forall p, q {:trigger heap[p], heap[q]} :: 0 <= p < q < |heap| ==>
                  heap[p] != heap[q] && heap[p].node != heap[q].node
    {
      var h := new TmevtHeap(capacity, index, evttim);
      heap := heap + [h];
    }
  }

  class Heaps {
    const heap: seq<TmevtHeap>
    const index: array<nat>
    const evttim: array<EVTTIM>
    ghost const repr: set<object>

    /** initialize_tmevt on every processor: all heaps are empty.  There are `capacity` time
        event blocks, and each heap has room for all of them. */
    constructor (nprc: nat, capacity: nat)
      ensures forall boundary: EVTTIM {:trigger Valid(boundary)} :: Valid(boundary)
      ensures |heap| == nprc && evttim.Length == capacity && fresh(repr)
      ensures forall p {:trigger heap[p]} :: 0 <= p < |heap| ==>
                heap[p].events == {} && heap[p].lastIndex == 0 && heap[p].node.Length == capacity + 1
    {
      hide View.Holed;
      var blocks, times := new nat[capacity], new EVTTIM[capacity];
      var heaps := MakeHeaps(nprc, capacity, blocks, times);
      heap, index, evttim := heaps, blocks, times;
      repr := {blocks as object, times} + (set h | h in heaps) + (set h | h in heaps :: h.node);
      new;
      forall boundary: EVTTIM
        ensures Valid(boundary)
      {
        EmptyValid(boundary);
      }
    }

    lemma EmptyValid(boundary: EVTTIM)
      requires Wired()
      requires forall p {:trigger heap[p]} :: 0 <= p < |heap| ==>
                 heap[p].events == {} && heap[p].lastIndex == 0 && heap[p].node.Length > 0
      ensures Valid(boundary)
    {
    }

    /** The heaps use the shared blocks and have node arrays of their own. */
    ghost predicate Wired() {
      && index in repr && evttim in repr && index.Length == evttim.Length
      && (forall p {:trigger heap[p]} :: 0 <= p < |heap| ==>
            && heap[p].index == index && heap[p].evttim == evttim && heap[p].Apart()
            && heap[p] in repr && heap[p].node in repr)
      && (forall p, q {:trigger heap[p], heap[q]} :: 0 <= p < |heap| && 0 <= q < |heap| && p != q ==>
            heap[p] != heap[q] && heap[p].node != heap[q].node)
    }

    /** Every heap is in order, and no event is registered in two of them. */
    ghost predicate Valid(boundary: EVTTIM)
      reads repr
    {
      && Wired()
      && (forall p {:trigger heap[p]} :: 0 <= p < |heap| ==> heap[p].Now().Holed(0, heap[p].events, boundary))
      && (forall p, q {:trigger heap[p], heap[q]} :: 0 <= p < |heap| && 0 <= q < |heap| && p != q ==>
           heap[p].events !! heap[q].events)
    }

    /** Moving the current time, and with it the boundary, keeps all heaps in order. */
    lemma Rebased(due: map<Event, int>, now: int, now': int)
      requires Valid(Boundary(now))
      requires forall p {:trigger heap[p]} :: 0 <= p < |heap| ==>
               Timed(heap[p].events, evttim[..], due, now) && Timed(heap[p].events, evttim[..], due, now')
      ensures Valid(Boundary(now'))
    {
      forall p | 0 <= p < |heap|
        ensures heap[p].Now().Holed(0, heap[p].events, Boundary(now'))
      {
        hide View.Holed, Timed;
        Rebase(heap[p].Now(), heap[p].events, due, now, now');
      }
    }

    method Insert(p: nat, e: Event, boundary: EVTTIM)
      requires Valid(boundary) && p < |heap| && e < index.Length && heap[p].lastIndex + 1 < heap[p].node.Length
      requires forall q {:trigger heap[q]} :: 0 <= q < |heap| ==> e !in heap[q].events
      modifies heap[p], heap[p].node, index
      ensures Valid(boundary)
      ensures heap[p].events == old(heap[p].events) + {e} && heap[p].lastIndex == old(heap[p].lastIndex) + 1
      ensures index[e] == ROOT_INDEX || (old(heap[p].lastIndex) > 0 && heap[p].node[1] == old(heap[p].node[1]))
    {
      hide View.Holed;
      heap[p].Insert(e, boundary);
      forall q | 0 <= q < |heap| && q != p
        ensures heap[q].Now().Holed(0, heap[q].events, boundary)
      {
        assert heap[q].node[..] == old(heap[q].node[..]);
        assert old(heap[q].Now().Holed(0, heap[q].events, boundary));
        OtherBlocks(old(heap[q].Now()), heap[q].Now(), heap[q].events, boundary);
      }
    }

    method Delete(p: nat, e: Event, boundary: EVTTIM)
      requires Valid(boundary) && p < |heap| && e in heap[p].events
      modifies heap[p], heap[p].node, index
      ensures Valid(boundary)
      ensures heap[p].events == old(heap[p].events) - {e} && heap[p].lastIndex == old(heap[p].lastIndex) - 1
      ensures e < index.Length
      ensures (old(index[e]) != ROOT_INDEX ==> heap[p].lastIndex > 0 && heap[p].node[1] == old(heap[p].node[1]))
    {
      hide View.Holed;
      heap[p].Delete(e, boundary);
      forall q | 0 <= q < |heap| && q != p
        ensures heap[q].Now().Holed(0, heap[q].events, boundary)
      {
        assert heap[q].node[..] == old(heap[q].node[..]);
        assert old(heap[q].Now().Holed(0, heap[q].events, boundary));
        OtherBlocks(old(heap[q].Now()), heap[q].Now(), heap[q].events, boundary);
      }
    }

    method DeleteTop(p: nat, boundary: EVTTIM) returns (top: Event)
      requires Valid(boundary) && p < |heap| && heap[p].lastIndex > 0
      modifies heap[p], heap[p].node, index
      ensures Valid(boundary)
      ensures top == old(heap[p].node[1]) && top in old(heap[p].events)
      ensures heap[p].events == old(heap[p].events) - {top} && heap[p].lastIndex == old(heap[p].lastIndex) - 1
    {
      hide View.Holed;
      top := heap[p].DeleteTop(boundary);
      forall q | 0 <= q < |heap| && q != p
        ensures heap[q].Now().Holed(0, heap[q].events, boundary)
      {
        assert heap[q].node[..] == old(heap[q].node[..]);
        assert old(heap[q].Now().Holed(0, heap[q].events, boundary));
        OtherBlocks(old(heap[q].Now()), heap[q].Now(), heap[q].events, boundary);
      }
    }
  }
}

/** The binary heap of time events in kernel/time_event.c.

    Nodes 1..lastIndex of an array point to time event blocks, and every block
    stores its own position.  Event times are 32-bit and wrap around; they are
    compared by how far they lie ahead of a boundary time.  A deleted or a not
    yet placed event leaves a hole, which the search loops move through the
    heap until the waiting event fits.
  */
module TimeEventHeap {

  const CYCLE: int := 0x1_0000_0000
  const ROOT_INDEX: nat := 1

  type EVTTIM = t: int | 0 <= t < CYCLE

  /** The 32-bit image of an unbounded time. */
  function Wrap(t: int): EVTTIM {
    t % CYCLE
  }

  function EvttimAdvance(t: EVTTIM, boundary: EVTTIM): EVTTIM {
    Wrap(t - boundary)
  }

  predicate EvttimLt(t1: EVTTIM, t2: EVTTIM, boundary: EVTTIM) {
    EvttimAdvance(t1, boundary) < EvttimAdvance(t2, boundary)
  }

  predicate EvttimLe(t1: EVTTIM, t2: EVTTIM, boundary: EVTTIM) {
    EvttimAdvance(t1, boundary) <= EvttimAdvance(t2, boundary)
  }

  function Parent(index: nat): nat {
    index / 2
  }

  function LChild(index: nat): nat {
    2 * index
  }

  /** Heap order on the keys k[1..], ignoring the slot `hole` (0 for none): no
      parent is above its child, and the children of the hole are compared with
      the hole's own parent. */
  ghost predicate Ordered(k: seq<int>, hole: nat) {
    && (forall i {:trigger k[i]} :: 2 <= i < |k| && i != hole && Parent(i) != hole ==> k[Parent(i)] <= k[i])
    && (forall i {:trigger k[i]} :: 2 <= i < |k| && Parent(i) == hole > 1 ==> k[Parent(hole)] <= k[i])
  }

  ghost predicate BelowFits(k: seq<int>, hole: nat, t: int) {
    forall i {:trigger k[i]} :: 2 <= i < |k| && Parent(i) == hole ==> t <= k[i]
  }

  ghost predicate AboveFits(k: seq<int>, hole: nat, t: int) {
    1 < hole && Parent(hole) < |k| ==> k[Parent(hole)] <= t
  }

  lemma HoleUp(k: seq<int>, hole: nat, t: int)
    requires 1 < hole < |k| && Ordered(k, hole) && BelowFits(k, hole, t) && t < k[Parent(hole)]
    ensures Ordered(k[hole := k[Parent(hole)]], Parent(hole))
    ensures BelowFits(k[hole := k[Parent(hole)]], Parent(hole), t)
  {
  }

  /** An event earlier than the hole's parent is earlier than its children. */
  lemma EarlierThanParent(k: seq<int>, hole: nat, t: int)
    requires 1 < hole < |k| && Ordered(k, hole) && t < k[Parent(hole)]
    ensures BelowFits(k, hole, t)
  {
  }

  lemma HoleDown(k: seq<int>, hole: nat, child: nat, t: int)
    requires 1 <= hole && Parent(child) == hole && child < |k| && k[child] < t
    requires Ordered(k, hole) && BelowFits(k, hole, k[child])
    ensures Ordered(k[hole := k[child]], child)
    ensures AboveFits(k[hole := k[child]], child, t)
  {
  }

  lemma EarlierChild(k: seq<int>, hole: nat, child: nat)
    requires 1 <= hole && child < |k| && (child == LChild(hole) || child == LChild(hole) + 1)
    requires if child == LChild(hole) then child + 1 < |k| ==> k[child] <= k[child + 1] else k[child] <= k[child - 1]
    ensures BelowFits(k, hole, k[child])
  {
  }

  lemma ChildBound(k: seq<int>, hole: nat, least: int, t: int)
    requires BelowFits(k, hole, least) && t <= least
    ensures BelowFits(k, hole, t)
  {
  }

  lemma LeafFits(k: seq<int>, hole: nat, t: int)
    requires 1 <= hole && |k| <= LChild(hole)
    ensures BelowFits(k, hole, t)
  {
  }

  lemma HoleFilled(k: seq<int>, hole: nat, t: int)
    requires 1 <= hole < |k| && Ordered(k, hole) && BelowFits(k, hole, t) && AboveFits(k, hole, t)
    ensures Ordered(k[hole := t], 0)
  {
  }

  lemma HoleBehind(k: seq<int>, hole: nat)
    requires |k| <= hole && Ordered(k, hole)
    ensures Ordered(k, 0)
  {
  }

  lemma OrderedGrow(k: seq<int>, x: int, t: int)
    requires |k| > 0 && Ordered(k, 0)
    ensures Ordered(k + [x], |k|) && BelowFits(k + [x], |k|, t)
  {
  }

  /** Taking out one node and cutting off the last slot. */
  lemma OrderedPunch(k: seq<int>, hole: nat)
    requires 1 <= hole < |k| && Ordered(k, 0)
    ensures Ordered(k[..|k| - 1], hole) && (hole > 1 ==> k[Parent(hole)] <= k[hole])
  {
  }

  lemma {:induction false} RootIsLeast(k: seq<int>, i: nat)
    requires Ordered(k, 0) && 1 <= i < |k|
    ensures k[1] <= k[i]
  {
    if i > 1 {
      RootIsLeast(k, Parent(i));
    }
  }

  /** Time event blocks are numbered; a block is named by its number. */
  type Event = nat

  /** What the arrays of a heap hold: node[1..last] are the heap slots; `index`
      and `evttim` are the fields of the time event blocks. */
  datatype View = View(node: seq<Event>, index: seq<nat>, evttim: seq<EVTTIM>, last: nat) {

    /** Outside the hole, the slots 1..last hold exactly the events of `es`, each
        at the position recorded for it. */
    ghost predicate Placed(hole: nat, es: set<Event>) {
      && last < |node| && |index| == |evttim|
      && (forall e {:trigger e in es} :: e in es ==>
           e < |index| && 1 <= index[e] <= last && index[e] != hole && node[index[e]] == e)
      && (forall i {:trigger node[i]} :: 1 <= i <= last && i != hole ==> node[i] in es && index[node[i]] == i)
    }

    ghost function Key(e: Event, boundary: EVTTIM): int {
      if e < |evttim| then EvttimAdvance(evttim[e], boundary) else 0
    }

    /** How far the events at the nodes 0..last lie ahead; entry 0 is unused. */
    ghost function Keys(boundary: EVTTIM): (k: seq<int>)
      requires last < |node|
      ensures |k| == last + 1
    {
      seq(last + 1, i requires 0 <= i < |node| => Key(node[i], boundary))
    }

    /** A heap of the events `es` with a hole (0 for none). */
    ghost predicate Holed(hole: nat, es: set<Event>, boundary: EVTTIM) {
      Placed(hole, es) && Ordered(Keys(boundary), hole)
    }

    /** An event of time t is not earlier than what is above the hole. */
    ghost predicate Above(hole: nat, t: EVTTIM, boundary: EVTTIM)
      requires last < |node|
    {
      AboveFits(Keys(boundary), hole, EvttimAdvance(t, boundary))
    }

    /** An event of time t is not later than what is below the hole. */
    ghost predicate Below(hole: nat, t: EVTTIM, boundary: EVTTIM)
      requires last < |node|
    {
      BelowFits(Keys(boundary), hole, EvttimAdvance(t, boundary))
    }

    /** The node at `from` moves into the hole and leaves its place as the new hole. */
    ghost function Move(hole: nat, from: nat): View
      requires hole < |node| && from < |node| && node[from] < |index|
    {
      this.(node := node[hole := node[from]], index := index[node[from] := hole])
    }

    /** Event e is stored at slot i. */
    ghost function Put(i: nat, e: Event): View
      requires i < |node| && e < |index|
    {
      this.(node := node[i := e], index := index[e := i])
    }

    lemma Look(hole: nat, es: set<Event>, boundary: EVTTIM, i: nat)
      requires Placed(hole, es) && 1 <= i <= last && i != hole
      ensures node[i] in es && node[i] < |index| && index[node[i]] == i
      ensures Keys(boundary)[i] == EvttimAdvance(evttim[node[i]], boundary)
    {
    }

    lemma MovePlaced(hole: nat, from: nat, es: set<Event>, boundary: EVTTIM)
      requires Placed(hole, es) && 1 <= hole <= last && 1 <= from <= last && from != hole
      ensures node[from] < |index| && Move(hole, from).Placed(from, es)
      ensures Move(hole, from).Keys(boundary) == Keys(boundary)[hole := Keys(boundary)[from]]
    {
    }

    /** One step of the upward search. */
    lemma MoveUp(hole: nat, es: set<Event>, t: EVTTIM, boundary: EVTTIM)
      requires Holed(hole, es, boundary) && 1 < hole <= last && Below(hole, t, boundary)
      requires EvttimAdvance(t, boundary) < Keys(boundary)[Parent(hole)]
      ensures node[Parent(hole)] < |index|
      ensures Move(hole, Parent(hole)).Holed(Parent(hole), es, boundary)
      ensures Move(hole, Parent(hole)).Below(Parent(hole), t, boundary)
    {
      MovePlaced(hole, Parent(hole), es, boundary);
      HoleUp(Keys(boundary), hole, EvttimAdvance(t, boundary));
    }

    /** One step of the downward search, towards the earlier child. */
    lemma MoveDown(hole: nat, child: nat, es: set<Event>, t: EVTTIM, boundary: EVTTIM)
      requires Holed(hole, es, boundary) && 1 <= hole && child <= last && Parent(child) == hole
      requires BelowFits(Keys(boundary), hole, Keys(boundary)[child])
      requires Keys(boundary)[child] < EvttimAdvance(t, boundary)
      ensures node[child] < |index|
      ensures Move(hole, child).Holed(child, es, boundary) && Move(hole, child).Above(child, t, boundary)
    {
      MovePlaced(hole, child, es, boundary);
      HoleDown(Keys(boundary), hole, child, EvttimAdvance(t, boundary));
    }

    lemma PutPlaced(i: nat, e: Event, es: set<Event>)
      requires Placed(i, es) && 1 <= i < |node| && e < |index| && e !in es
      ensures Put(i, e).Placed(0, if i <= last then es + {e} else es)
    {
    }

    lemma PutKeys(i: nat, e: Event, boundary: EVTTIM)
      requires last < |node| && i < |node| && e < |index| && e < |evttim|
      ensures Put(i, e).Keys(boundary) ==
              if i <= last then Keys(boundary)[i := EvttimAdvance(evttim[e], boundary)] else Keys(boundary)
    {
      hide EvttimAdvance;
    }

    /** Storing an event that fits closes the hole. */
    lemma Fill(hole: nat, e: Event, es: set<Event>, boundary: EVTTIM)
      requires Holed(hole, es, boundary) && 1 <= hole < |node| && e < |index| && e !in es
      requires hole <= last ==> Above(hole, evttim[e], boundary) && Below(hole, evttim[e], boundary)
      ensures Put(hole, e).Holed(0, if hole <= last then es + {e} else es, boundary)
    {
      PutPlaced(hole, e, es);
      PutKeys(hole, e, boundary);
      hide Placed, Put, Keys;
      if hole <= last {
        HoleFilled(Keys(boundary), hole, EvttimAdvance(evttim[e], boundary));
      } else {
        HoleBehind(Keys(boundary), hole);
      }
    }

    /** A new last slot is a hole for any event. */
    lemma Grow(es: set<Event>, t: EVTTIM, boundary: EVTTIM)
      requires Holed(0, es, boundary) && last + 1 < |node|
      ensures this.(last := last + 1).Holed(last + 1, es, boundary)
      ensures this.(last := last + 1).Below(last + 1, t, boundary)
    {
      var k, k' := Keys(boundary), this.(last := last + 1).Keys(boundary);
      assert k' == k + [k'[last + 1]];
      OrderedGrow(k, k'[last + 1], EvttimAdvance(t, boundary));
    }

    lemma AboveRoot(t: EVTTIM, boundary: EVTTIM)
      requires last < |node|
      ensures Above(1, t, boundary)
    {
    }

    /** No registered event is earlier than the one at the root. */
    lemma RootFirst(es: set<Event>, boundary: EVTTIM)
      requires Holed(0, es, boundary) && last > 0
      ensures node[1] in es && node[1] < |index| && index[node[1]] == 1
      ensures forall e :: e in es ==> e < |index| && EvttimLe(evttim[node[1]], evttim[e], boundary)
    {
      Look(0, es, boundary, 1);
      forall e | e in es
        ensures e < |index| && EvttimLe(evttim[node[1]], evttim[e], boundary)
      {
        Look(0, es, boundary, index[e]);
        RootIsLeast(Keys(boundary), index[e]);
      }
    }

    lemma Trivial(hole: nat, es: set<Event>, boundary: EVTTIM)
      requires last == 0 && Holed(hole, es, boundary)
      ensures Holed(0, es, boundary)
    {
    }

    lemma PunchPlaced(p: Event, es: set<Event>)
      requires Placed(0, es) && p in es
      ensures p < |index| && 1 <= index[p] <= last && node[index[p]] == p
      ensures node[last] in es && node[last] < |index| && (index[p] == last <==> node[last] == p)
      ensures this.(last := last - 1).Placed(index[p], es - {p} - {node[last]})
    {
    }

    /** Taking out event p and the last node leaves a hole where p was; the last
        event is no earlier than the root, and no earlier than its own parent. */
    lemma Punch(p: Event, es: set<Event>, boundary: EVTTIM)
      requires Holed(0, es, boundary) && p in es
      ensures p < |index| && 1 <= index[p] <= last && node[index[p]] == p
      ensures node[last] in es && node[last] < |index| && (index[p] == last <==> node[last] == p)
      ensures this.(last := last - 1).Holed(index[p], es - {p} - {node[last]}, boundary)
      ensures EvttimLe(evttim[node[1]], evttim[node[last]], boundary)
      ensures index[p] == last > 1 ==> this.(last := last - 1).Above(index[p], evttim[node[last]], boundary)
    {
      PunchPlaced(p, es);
      Look(0, es, boundary, 1);
      Look(0, es, boundary, last);
      hide EvttimAdvance, Placed, Key;
      RootIsLeast(Keys(boundary), last);
      OrderedPunch(Keys(boundary), index[p]);
      assert this.(last := last - 1).Keys(boundary) == Keys(boundary)[..last];
    }
  }

  /** A time event heap.  The node array belongs to the heap; the `index` and
      `evttim` fields of the time event blocks are shared by all heaps. */
  class TmevtHeap {
    const node: array<Event>
    const index: array<nat>
    const evttim: array<EVTTIM>
    var lastIndex: nat
    ghost var events: set<Event>  // the registered events

    constructor (capacity: nat, index: array<nat>, evttim: array<EVTTIM>)
      requires index.Length == evttim.Length && index as object != evttim
      ensures Valid(0) && events == {} && lastIndex == 0
      ensures fresh(node) && node.Length == capacity + 1 && this.index == index && this.evttim == evttim
    {
      node := new Event[capacity + 1](_ => 0);
      this.index, this.evttim := index, evttim;
      lastIndex := 0;
      events := {};
    }

    /** The three arrays are different objects. */
    ghost predicate Apart() {
      node != index && node as object != evttim && index as object != evttim
    }

    ghost function Now(): View
      reads this`lastIndex, node, index, evttim
    {
      View(node[..], index[..], evttim[..], lastIndex)
    }

    ghost predicate Valid(boundary: EVTTIM)
      reads this, node, index, evttim
    {
      Apart() && Now().Holed(0, events, boundary)
    }

    /** The event at the root is not later than t. */
    ghost predicate RootNotLater(t: EVTTIM, boundary: EVTTIM)
      reads this`lastIndex, node, evttim
    {
      1 < node.Length && node[1] < evttim.Length && EvttimLe(evttim[node[1]], t, boundary)
    }

    /** Moves the hole up to where an event of time t belongs. */
    method TmevtUp(start: nat, t: EVTTIM, boundary: EVTTIM, ghost es: set<Event>) returns (i: nat)
      requires Apart() && 1 <= start <= lastIndex && Now().Holed(start, es, boundary) && Now().Below(start, t, boundary)
      modifies node, index
      ensures 1 <= i <= start && Now().Holed(i, es, boundary)
      ensures Now().Above(i, t, boundary) && Now().Below(i, t, boundary)
      ensures start > 1 && old(RootNotLater(t, boundary)) ==> i > 1
      ensures node[1] == old(node[1])
      ensures forall e :: 0 <= e < index.Length && e !in es ==> index[e] == old(index[e])
    {
      hide Ordered, BelowFits, EvttimAdvance, View.Keys;
      i := start;
      while i > ROOT_INDEX
        invariant 1 <= i <= start && Now().Holed(i, es, boundary) && Now().Below(i, t, boundary)
        invariant start > 1 && old(RootNotLater(t, boundary)) ==> i > 1
        invariant node[1] == old(node[1])
        invariant forall e :: 0 <= e < index.Length && e !in es ==> index[e] == old(index[e])
      {
        var parent := Parent(i);
        Now().Look(i, es, boundary, parent);
        if EvttimLe(evttim[node[parent]], t, boundary) {
          break;
        }
        Now().MoveUp(i, es, t, boundary);
        node[i] := node[parent];
        index[node[i]] := i;
        i := parent;
      }
    }

    /** The child of slot i whose event comes first, the left one on a tie. */
    method EarlierChildOf(i: nat, boundary: EVTTIM, ghost es: set<Event>) returns (child: nat)
      requires Apart() && 1 <= i && LChild(i) <= lastIndex && Now().Placed(i, es)
      ensures child <= lastIndex && Parent(child) == i && node[child] < evttim.Length && node[child] in es
      ensures Now().Keys(boundary)[child] == EvttimAdvance(evttim[node[child]], boundary)
      ensures BelowFits(Now().Keys(boundary), i, Now().Keys(boundary)[child])
    {
      child := LChild(i);
      Now().Look(i, es, boundary, child);
      if child + 1 <= lastIndex {
        Now().Look(i, es, boundary, child + 1);
        if EvttimLt(evttim[node[child + 1]], evttim[node[child]], boundary) {
          child := child + 1;
        }
      }
      hide View.Placed, View.Keys, EvttimAdvance;
      EarlierChild(Now().Keys(boundary), i, child);
    }

    /** Moves the hole down to where an event of time t belongs. */
    method TmevtDown(start: nat, t: EVTTIM, boundary: EVTTIM, ghost es: set<Event>) returns (i: nat)
      requires Apart() && 1 <= start <= lastIndex + 1 && Now().Holed(start, es, boundary)
      requires Now().Above(start, t, boundary)
      modifies node, index
      ensures start <= i && (i <= lastIndex || i == start) && Now().Holed(i, es, boundary)
      ensures Now().Above(i, t, boundary) && Now().Below(i, t, boundary)
      ensures forall j :: 0 <= j < node.Length && (j < start || j > lastIndex) ==> node[j] == old(node[j])
      ensures forall e :: 0 <= e < index.Length && e !in es ==> index[e] == old(index[e])
    {
      hide Ordered, BelowFits, AboveFits, EvttimAdvance, View.Keys;
      i := start;
      while LChild(i) <= lastIndex
        invariant start <= i && (i <= lastIndex || i == start) && Now().Holed(i, es, boundary)
        invariant Now().Above(i, t, boundary)
        invariant forall j :: 0 <= j < node.Length && (j < start || j > lastIndex) ==> node[j] == old(node[j])
        invariant forall e :: 0 <= e < index.Length && e !in es ==> index[e] == old(index[e])
        decreases lastIndex - i
      {
        var child := EarlierChildOf(i, boundary, es);
        if EvttimLe(t, evttim[node[child]], boundary) {
          ChildBound(Now().Keys(boundary), i, Now().Keys(boundary)[child], EvttimAdvance(t, boundary));
          return;
        }
        ghost var v := Now();
        v.MoveDown(i, child, es, t, boundary);
        node[i] := node[child];
        index[node[i]] := i;
        assert Now() == v.Move(i, child);
        i := child;
      }
      LeafFits(Now().Keys(boundary), i, EvttimAdvance(t, boundary));
    }

    /** Stores event e at slot i, where it fits.  A slot behind the heap occurs only
        when the last event itself was deleted, and nothing changes then. */
    method Store(i: nat, e: Event, boundary: EVTTIM, ghost es: set<Event>)
      requires Apart() && 1 <= i < node.Length && e < index.Length && e !in es && Now().Holed(i, es, boundary)
      requires i <= lastIndex ==> Now().Above(i, evttim[e], boundary) && Now().Below(i, evttim[e], boundary)
      modifies node, index
      ensures Now().Holed(0, if i <= lastIndex then es + {e} else es, boundary)
      ensures index[e] == i && (i > 1 ==> node[1] == old(node[1]))
      ensures forall j :: 0 <= j < index.Length && j != e ==> index[j] == old(index[j])
    {
      ghost var v := Now();
      v.Fill(i, e, es, boundary);
      hide View.Holed, View.Above, View.Below;
      node[i] := e;
      index[e] := i;
      assert Now() == v.Put(i, e);
    }

    /** Registers an event whose evttim is set. */
    method Insert(p: Event, boundary: EVTTIM)
      requires Valid(boundary) && p !in events && p < index.Length && lastIndex + 1 < node.Length
      modifies this, node, index
      ensures Valid(boundary) && events == old(events) + {p} && lastIndex == old(lastIndex) + 1
      ensures index[p] == ROOT_INDEX || (old(lastIndex) > 0 && node[1] == old(node[1]))
      ensures forall e :: 0 <= e < index.Length && e !in events ==> index[e] == old(index[e])
    {
      ghost var es := events;
      Now().Grow(es, evttim[p], boundary);
      hide View.Holed, View.Above, View.Below, View.Placed, View.Keys, View.Key, EvttimAdvance;
      lastIndex, events := lastIndex + 1, events + {p};
      var i := TmevtUp(lastIndex, evttim[p], boundary, es);
      Store(i, p, boundary, es);
    }

    /** Finds the place of the former last event, given the hole left by a deleted
        event: upwards if it is earlier than the hole's parent, else downwards. */
    method Settle(hole: nat, last: Event, boundary: EVTTIM, ghost es: set<Event>) returns (i: nat)
      requires Apart() && 1 <= hole <= lastIndex + 1 && 0 < lastIndex && Now().Holed(hole, es, boundary)
      requires last < index.Length && RootNotLater(evttim[last], boundary)
      requires hole > lastIndex ==> Now().Above(hole, evttim[last], boundary)
      modifies node, index
      ensures 1 <= i && (if hole <= lastIndex then i <= lastIndex else i == hole) && Now().Holed(i, es, boundary)
      ensures Now().Above(i, evttim[last], boundary) && Now().Below(i, evttim[last], boundary)
      ensures hole > 1 ==> i > 1 && node[1] == old(node[1])
      ensures forall e :: 0 <= e < index.Length && e !in es ==> index[e] == old(index[e])
    {
      i := hole;
      if i > ROOT_INDEX {
        var parent := Parent(i);
        ghost var v := Now();
        v.Look(i, es, boundary, parent);
        if EvttimLt(evttim[last], evttim[node[parent]], boundary) {
          EarlierThanParent(v.Keys(boundary), i, EvttimAdvance(evttim[last], boundary));
          v.MoveUp(i, es, evttim[last], boundary);
          hide View.Holed, View.Above, View.Below, View.Placed;
          node[i] := node[parent];
          index[node[i]] := i;
          assert Now() == v.Move(i, parent);
          i := TmevtUp(parent, evttim[last], boundary, es);
          return;
        }
      }
      hide View.Holed, View.Below, View.Placed;
      i := TmevtDown(i, evttim[last], boundary, es);
    }

    /** Unregisters an event, wherever it is in the heap. */
    method Delete(p: Event, boundary: EVTTIM)
      requires Valid(boundary) && p in events
      modifies this, node, index
      ensures Valid(boundary) && events == old(events) - {p} && lastIndex == old(lastIndex) - 1
      ensures p < index.Length && (old(index[p]) != ROOT_INDEX ==> lastIndex > 0 && node[1] == old(node[1]))
      ensures forall e :: 0 <= e < index.Length && e !in old(events) ==> index[e] == old(index[e])
    {
      ghost var v := Now();
      v.Punch(p, events, boundary);
      var i, last := index[p], node[lastIndex];
      ghost var es := events - {p} - {last};
      hide View.Holed, View.Above, View.Below, View.Placed;
      lastIndex, events := lastIndex - 1, events - {p};
      assert Now() == v.(last := v.last - 1);
      assert events == if i <= lastIndex then es + {last} else es;
      if lastIndex > 0 {
        i := Settle(i, last, boundary, es);
        Store(i, last, boundary, es);
      } else {
        Now().Trivial(i, es, boundary);
      }
    }

    /** Unregisters the event at the root and returns it. */
    method DeleteTop(boundary: EVTTIM) returns (top: Event)
      requires Valid(boundary) && lastIndex > 0
      modifies this, node, index
      ensures top == old(node[1]) && top in old(events) && Valid(boundary) && events == old(events) - {top}
      ensures lastIndex == old(lastIndex) - 1
      ensures top < evttim.Length && forall e :: e in old(events) ==>
              e < evttim.Length && EvttimLe(evttim[top], evttim[e], boundary)
      ensures forall e :: 0 <= e < index.Length && e !in old(events) ==> index[e] == old(index[e])
    {
      ghost var v := Now();
      v.RootFirst(events, boundary);
      top := node[ROOT_INDEX];
      var last := node[lastIndex];
      v.Punch(top, events, boundary);
      ghost var es := events - {top} - {last};
      hide View.Holed, View.Above, View.Below, View.Placed, EvttimAdvance;
      lastIndex, events := lastIndex - 1, events - {top};
      assert Now() == v.(last := v.last - 1);
      if lastIndex > 0 {
        assert events == es + {last};
        Now().AboveRoot(evttim[last], boundary);
        var i := TmevtDown(ROOT_INDEX, evttim[last], boundary, es);
        Store(i, last, boundary, es);
      } else {
        assert events == es;
        Now().Trivial(1, es, boundary);
      }
    }
  }
}

/** Ring buffers: the occupied cells of an array, from a read index on and around the
    end. */
module Rings {

  /** The `count` cells from `head` on, around the end of the array. */
  ghost function Ring(a: seq<int>, head: int, count: int): seq<int>
    requires 0 <= head <= |a| && 0 <= count <= |a|
  {
    if head + count <= |a| then a[head..head + count] else a[head..] + a[..head + count - |a|]
  }

  /** The cell after the last one: (head + count) mod n. */
  ghost function After(head: int, count: int, n: int): int {
    if head + count < n then head + count else head + count - n
  }

  function Next(i: int, n: int): int {
    if i + 1 >= n then 0 else i + 1
  }

  lemma RingAt(a: seq<int>, head: int, count: int, i: int)
    requires 0 <= head < |a| && 0 <= i < count <= |a|
    ensures |Ring(a, head, count)| == count && Ring(a, head, count)[i] == a[After(head, i, |a|)]
  {
  }

  lemma RingEnqueued(a: seq<int>, head: int, count: int, x: int)
    requires 0 <= head < |a| && 0 <= count < |a|
    ensures Ring(a[After(head, count, |a|) := x], head, count + 1) == Ring(a, head, count) + [x]
    ensures Next(After(head, count, |a|), |a|) == After(head, count + 1, |a|)
  {
    var r := Ring(a[After(head, count, |a|) := x], head, count + 1);
    forall i | 0 <= i <= count
      ensures r[i] == (Ring(a, head, count) + [x])[i]
    {
      RingAt(a[After(head, count, |a|) := x], head, count + 1, i);
      if i < count {
        RingAt(a, head, count, i);
      }
    }
  }

  lemma RingDequeued(a: seq<int>, head: int, count: int)
    requires 0 <= head < |a| && 0 < count <= |a|
    ensures |Ring(a, head, count)| == count && Ring(a, head, count)[0] == a[head]
    ensures Ring(a, Next(head, |a|), count - 1) == Ring(a, head, count)[1..]
    ensures After(head, count, |a|) == After(Next(head, |a|), count - 1, |a|)
  {
    var r := Ring(a, Next(head, |a|), count - 1);
    forall i | 0 <= i < count - 1
      ensures r[i] == Ring(a, head, count)[i + 1]
    {
      RingAt(a, Next(head, |a|), count - 1, i);
      RingAt(a, head, count, i + 1);
    }
    RingAt(a, head, count, 0);
  }

  lemma RingForced(a: seq<int>, head: int, x: int)
    requires 0 <= head < |a|
    ensures After(head, |a|, |a|) == head
    ensures Ring(a[head := x], Next(head, |a|), |a|) == Ring(a, head, |a|)[1..] + [x]
    ensures After(Next(head, |a|), |a|, |a|) == Next(head, |a|)
  {
    RingDequeued(a, head, |a|);
    RingEnqueued(a, Next(head, |a|), |a| - 1, x);
  }

  lemma RingSize(a: seq<int>, head: int, count: int)
    requires 0 <= head <= |a| && 0 <= count <= |a|
    ensures |Ring(a, head, count)| == count
  {
  }
}

/** The intrusive doubly linked ring of include/queue.h.

    A ring is a header followed by its entries; `Ring(h, s)` says that the
    links of header `h` and of the entries `s` describe exactly the sequence
    `s`.  Every operation rewrites the links of at most three nodes, and its
    contract says which sequence the ring describes afterwards.
  */
module Queue {

  import opened Sequences

  class QUEUE {
    var next: QUEUE
    var prev: QUEUE

    /** A node that belongs to no ring yet points to itself. */
    constructor ()
      ensures next == this && prev == this
    {
      next, prev := this, this;
    }
  }

  /** Consecutive nodes of `a` are linked both ways. */
  ghost predicate Linked(a: seq<QUEUE>)
    reads a
  {
    && (forall i {:trigger a[i].next} :: 0 <= i < |a| - 1 ==> a[i].next == a[i + 1])
    && (forall i {:trigger a[i].prev} :: 0 < i < |a| ==> a[i].prev == a[i - 1])
  }

  /** The cyclic order written out flat: header, entries, header again. */
  ghost function Around(h: QUEUE, s: seq<QUEUE>): seq<QUEUE> {
    [h] + s + [h]
  }

  ghost predicate Ring(h: QUEUE, s: seq<QUEUE>)
    reads h, s
  {
    && h !in s
    && Distinct(s)
    && Linked(Around(h, s))
  }

  ghost function Inserted<T>(s: seq<T>, k: nat, x: T): (r: seq<T>)
    requires k <= |s|
  {
    s[..k] + [x] + s[k..]
  }

  ghost function Removed<T>(s: seq<T>, k: nat): (r: seq<T>)
    requires k < |s|
  {
    s[..k] + s[k + 1..]
  }

  /** In the flat cyclic order only the two ends coincide. */
  lemma Apart(h: QUEUE, s: seq<QUEUE>, k: nat)
    requires h !in s && Distinct(s) && k <= |s|
    ensures var a := Around(h, s);
      && (forall i {:trigger a[i]} :: 0 <= i < |a| - 1 && i != k ==> a[i] != a[k])
      && (forall i {:trigger a[i]} :: 1 <= i < |a| && i != k + 1 ==> a[i] != a[k + 1])
  {
  }

  lemma AroundInserted(h: QUEUE, s: seq<QUEUE>, k: nat, e: QUEUE)
    requires k <= |s|
    ensures var a, b := Around(h, s), Around(h, Inserted(s, k, e));
      && |b| == |a| + 1 && b[k + 1] == e
      && (forall i {:trigger b[i]} :: 0 <= i <= k ==> b[i] == a[i])
      && (forall i {:trigger b[i]} :: k + 1 < i < |b| ==> b[i] == a[i - 1])
  {
  }

  /** The node before which an entry becomes the i-th one, and its neighbours. */
  lemma Neighbours(h: QUEUE, s: seq<QUEUE>, i: nat)
    requires Ring(h, s) && i <= |s|
    ensures var a := Around(h, s);
      && a[i + 1] == (if i == |s| then h else s[i])
      && a[i + 1].prev == a[i] && (i < |s| ==> a[i + 1].next == a[i + 2])
  {
  }

  method Initialize(h: QUEUE)
    modifies h
    ensures Ring(h, [])
  {
    h.prev := h;
    h.next := h;
  }

  /** Inserts `e` before `q`, which is the header (k = |s|) or the entry s[k]. */
  method InsertPrev(q: QUEUE, e: QUEUE, ghost h: QUEUE, ghost s: seq<QUEUE>, ghost k: nat)
    requires Ring(h, s) && k <= |s| && e != h && e !in s
    requires q == Around(h, s)[k + 1]
    modifies e, q, q.prev
    ensures Ring(h, Inserted(s, k, e))
  {
    ghost var a, b := Around(h, s), Around(h, Inserted(s, k, e));
    AroundInserted(h, s, k, e);
    Apart(h, s, k);
    assert q == a[k + 1] && a[k + 1].prev == a[k] && e !in a;
    e.prev := q.prev;
    e.next := q;
    q.prev.next := e;
    q.prev := e;
    assert Linked(b);
  }

  /** Inserts `e` after `q`, which is the header (k = 0) or the entry s[k - 1]. */
  method InsertNext(q: QUEUE, e: QUEUE, ghost h: QUEUE, ghost s: seq<QUEUE>, ghost k: nat)
    requires Ring(h, s) && k <= |s| && e != h && e !in s
    requires q == Around(h, s)[k]
    modifies e, q, q.next
    ensures Ring(h, Inserted(s, k, e))
  {
    ghost var a, b := Around(h, s), Around(h, Inserted(s, k, e));
    AroundInserted(h, s, k, e);
    Apart(h, s, k);
    assert q == a[k] && a[k].next == a[k + 1] && e !in a;
    e.prev := q;
    e.next := q.next;
    q.next.prev := e;
    q.next := e;
    assert Linked(b);
  }

  /** Unlinks the entry s[k]; its own links are left as they were. */
  method Delete(e: QUEUE, ghost h: QUEUE, ghost s: seq<QUEUE>, ghost k: nat)
    requires Ring(h, s) && k < |s| && e == s[k]
    modifies e.prev, e.next
    ensures Ring(h, Removed(s, k))
    ensures e.next == old(e.next) && e.prev == old(e.prev)
  {
    ghost var a, b := Around(h, s), Around(h, Removed(s, k));
    assert b == a[..k + 1] + a[k + 2..];
    Apart(h, s, k);
    Apart(h, s, k + 1);
    assert e == a[k + 1] && a[k + 1].prev == a[k] && a[k + 1].next == a[k + 2];
    e.prev.next := e.next;
    e.next.prev := e.prev;
    assert Linked(b);
  }

  /** Takes the first entry off a ring that has one. */
  method DeleteNext(h: QUEUE, ghost s: seq<QUEUE>) returns (e: QUEUE)
    requires Ring(h, s) && s != []
    modifies h, h.next.next
    ensures e == s[0] && Ring(h, s[1..])
  {
    ghost var a, b := Around(h, s), Around(h, s[1..]);
    assert b == a[..1] + a[2..];
    assert h == a[0] && h.next == a[1] && h.next.next == a[2];
    e := h.next;
    h.next := e.next;
    e.next.prev := h;
    assert Linked(b);
  }

  method Empty(h: QUEUE, ghost s: seq<QUEUE>) returns (r: bool)
    requires Ring(h, s)
    ensures r <==> s == []
  {
    ghost var a := Around(h, s);
    assert h == a[0] && a[1] == if s == [] then h else s[0];
    r := h.next == h;
  }

  ghost predicate Sorted(s: seq<QUEUE>, key: QUEUE -> int) {
    forall i, j :: 0 <= i < j < |s| ==> key(s[i]) <= key(s[j])
  }

  /** The search loop shared by the priority-ordered queues: insert before the
      first entry whose key is strictly greater.  A sorted queue stays sorted,
      and `e` goes behind every entry of its own key: first come, first served. */
  method InsertSorted(h: QUEUE, e: QUEUE, key: QUEUE -> int, ghost s: seq<QUEUE>) returns (ghost k: nat)
    requires Ring(h, s) && e != h && e !in s
    modifies e, h, s
    ensures k <= |s| && Ring(h, Inserted(s, k, e))
    ensures Sorted(s, key) ==> Sorted(Inserted(s, k, e), key)
    ensures Sorted(s, key) ==> forall i :: k < i <= |s| ==> key(e) < key(Inserted(s, k, e)[i])
  {
    ghost var a := Around(h, s);
    k := 0;
    var p := h.next;
    assert h == a[0] && h.next == a[1];
    while p != h
      invariant k <= |s| && p == a[k + 1]
      invariant forall i :: 0 <= i < k ==> key(s[i]) <= key(e)
      decreases |s| - k
    {
      if key(e) < key(p) {
        break;
      }
      assert p.next == a[k + 2];
      p, k := p.next, k + 1;
    }
    assert p.prev == a[k];
    InsertPrev(p, e, h, s, k);
  }
}

/** The kernel memory pool (kernel/startup.c:480-770): a bump allocator with one
    header word before every block and an exact-size LIFO free list threaded through
    the blocks themselves.

    Memory is a map from addresses to bytes.  A header and a link are words of
    w == sizeof(MPHDR) == sizeof(FREEBLK) bytes, a power of two; writing one writes all
    its bytes, also those past the end of a block that is shorter.  Address 0 is NULL.
  */
module MemPool {

  import opened Arithmetic
  import opened Bytes
  import opened Memory
  import opened Options
  import opened Sequences

  /** x & ~(a - 1) for a power of two a. */
  function MaskDown(x: nat, a: nat): (r: nat)
    requires a > 0
    ensures r % a == 0 && r <= x < r + a
  {
    var q := x / a;
    MultipleOf(a, q);
    assert x - x % a == a * q;
    x - x % a
  }

  /** The end of what a block occupies: of its user area, or of the link of the free
      list if that is longer. */
  ghost function High(w: int, u: int, n: int): int {
    u + if n < w then w else n
  }

  /** Blocks lie above `base` with their headers, and below brk and the limit. */
  ghost predicate Laid(w: int, base: int, brk: int, limit: int, size: map<int, int>) {
    forall u {:trigger u in size} :: u in size ==>
      0 < size[u] && base + w <= u && u + size[u] <= brk && High(w, u, size[u]) <= limit
  }

  /** The user addresses and the limit are multiples of the word. */
  ghost predicate Aligned(w: int, limit: int, size: map<int, int>) {
    w > 0 && limit % w == 0 && forall u {:trigger u in size} :: u in size ==> u % w == 0
  }

  /** No two blocks overlap, headers and links included. */
  ghost predicate Disjoint(w: int, size: map<int, int>) {
    forall u, v {:trigger u in size, v in size} :: u in size && v in size && u < v ==> High(w, u, size[u]) <= v - w
  }

  /** The header of every block holds the size it was requested with. */
  ghost predicate Headers(w: nat, size: map<int, int>, mem: Memory) {
    forall u {:trigger u in size} :: u in size ==> Load(mem, u - w, w) == size[u]
  }

  /** The free list: head and links lead through the freed blocks. */
  ghost predicate Chain(w: nat, head: int, freed: seq<int>, mem: Memory) {
    && head == (if freed == [] then 0 else freed[0])
    && (forall i {:trigger freed[i]} :: 0 <= i < |freed| ==> freed[i] != 0)
    && (freed != [] ==> Load(mem, freed[|freed| - 1], w) == 0)
    && (forall i, j {:trigger freed[i], freed[j]} :: 0 <= i < j < |freed| ==>
          freed[i] != freed[j] && (j == i + 1 ==> Load(mem, freed[i], w) == freed[j]))
  }

  /** Every block is either live or freed. */
  ghost predicate Parts(size: map<int, int>, live: set<int>, freed: seq<int>) {
    && (forall u {:trigger u in live} :: u in live ==> u in size && u !in freed)
    && (forall u {:trigger u in freed} :: u in freed ==> u in size)
    && (forall u {:trigger u in size} :: u in size ==> u in live || u in freed)
  }

  ghost function Without(s: seq<int>, i: int): seq<int>
    requires 0 <= i < |s|
  {
    s[..i] + s[i + 1..]
  }

  /** Address c lies in the user area of a block in use. */
  ghost predicate InUse(size: map<int, int>, live: set<int>, c: int) {
    exists u :: u in live && u in size && u <= c < u + size[u]
  }

  /** The contents of the blocks in use are as they were. */
  ghost predicate SameContents(was: Memory, now: Memory, size: map<int, int>, live: set<int>) {
    forall c {:trigger InUse(size, live, c)} :: InUse(size, live, c) ==> At(was, c) == At(now, c)
  }

  /** Nothing outside the pool has been written. */
  ghost predicate SameOutside(was: Memory, now: Memory, base: int, limit: int) {
    was.Keys == now.Keys && forall c {:trigger c in was} :: c in was && !(base <= c < limit) ==> was[c] == now[c]
  }

  lemma CutParts(size: map<int, int>, live: set<int>, freed: seq<int>, u: int, n: int)
    requires Parts(size, live, freed) && u !in size && u !in freed
    ensures Parts(size[u := n], live + {u}, freed)
  {
  }

  /** The pool: MEMPOOLCB, the memory, and for every block what was requested. */
  datatype State = State(
    w: nat,                // sizeof(MPHDR)
    base: int,             // the first address behind the control block
    brk: int,
    limit: int,
    count: int,
    freelist: int,
    mem: Memory,
    size: map<int, int>,   // the requested size of each block, live or freed
    live: set<int>,        // the user addresses handed out
    freed: seq<int>)       // the free list
  {
    ghost predicate Inv() {
      && 0 < w && 0 < base <= brk <= limit < Power256(w) && Aligned(w, limit, size) && Mapped(mem, base, limit)
      && Laid(w, base, brk, limit, size) && Disjoint(w, size) && Headers(w, size, mem)
      && Chain(w, freelist, freed, mem) && Parts(size, live, freed)
      && count == |live| && (count == 0 ==> brk == base && freed == [])
    }

    /** A block handed out again: the i-th of the free list. */
    ghost function Taken(i: int): State
      requires Inv() && 0 <= i < |freed|
    {
      InPool(if i == 0 then freed[i] else freed[i - 1]);
      var next := Load(mem, freed[i], w);
      this.(freelist := if i == 0 then next else freelist,
            mem := if i == 0 then mem else Store(mem, freed[i - 1], w, next),
            count := count + 1, live := live + {freed[i]}, freed := Without(freed, i))
    }

    /** A link fits into the pool wherever a block begins. */
    lemma InPool(u: int)
      requires Inv()
      ensures u in size || u in freed || u in live ==>
                u in size && base + w <= u && u + w <= limit && Mapped(mem, u, u + w)
    {
      hide Chain, Headers, Disjoint, Aligned, Power256;
    }

    /** Writing the link of a block, all w bytes of it, leaves the headers and the other
        blocks alone, and everything outside the pool. */
    lemma LinkWritten(p: int, next: int, users: set<int>)
      requires Inv() && p in size && p !in users
      ensures Mapped(mem, p, p + w)
      ensures Headers(w, size, Store(mem, p, w, next)) && SameContents(mem, Store(mem, p, w, next), size, users)
      ensures SameOutside(mem, Store(mem, p, w, next), base, limit) && Mapped(Store(mem, p, w, next), base, limit)
    {
      InPool(p);
      LinkHeaders(p, next);
      LinkContents(p, next, users);
      StoreMapped(mem, p, w, next, base, limit);
      hide Inv, Headers, SameContents, Mapped, Power256;
    }

    lemma LinkHeaders(p: int, next: int)
      requires Disjoint(w, size) && Headers(w, size, mem) && p in size && Mapped(mem, p, p + w)
      ensures Headers(w, size, Store(mem, p, w, next))
    {
      hide Load, Store, Mapped;
      forall u {:trigger u in size} | u in size
        ensures Load(Store(mem, p, w, next), u - w, w) == size[u]
      {
        LoadElsewhere(mem, p, w, next, u - w);
      }
    }

    /** The bytes of a link past the end of a short block are in no other block. */
    lemma LinkContents(p: int, next: int, users: set<int>)
      requires Disjoint(w, size) && p in size && p !in users && Mapped(mem, p, p + w)
      ensures SameContents(mem, Store(mem, p, w, next), size, users)
    {
      forall c | InUse(size, users, c)
        ensures At(mem, c) == At(Store(mem, p, w, next), c)
      {
        var u :| u in users && u in size && u <= c < u + size[u];
        assert u < p ==> High(w, u, size[u]) <= p - w;
        assert p < u ==> High(w, p, size[p]) <= u - w;
      }
    }

    /** The links of the free list do not overlap. */
    lemma LinksApart()
      requires Inv()
      ensures forall i, j {:trigger freed[i], freed[j]} :: 0 <= i < j < |freed| ==>
                freed[i] + w <= freed[j] || freed[j] + w <= freed[i]
    {
      hide Headers, Aligned, Power256, Laid, Mapped;
      forall i, j {:trigger freed[i], freed[j]} | 0 <= i < j < |freed|
        ensures freed[i] + w <= freed[j] || freed[j] + w <= freed[i]
      {
        assert freed[i] in freed && freed[j] in freed;
        assert freed[i] in size && freed[j] in size;
      }
    }

    lemma PrevInPool(i: int)
      requires Inv() && 0 <= i < |freed|
      ensures i > 0 ==> freed[i - 1] != 0 && Mapped(mem, freed[i - 1], freed[i - 1] + w)
    {
      if i > 0 {
        assert freed[i - 1] in freed;
        InPool(freed[i - 1]);
      }
    }

    lemma TakenKeeps(i: int)
      requires Inv() && 0 <= i < |freed|
      ensures freed[i] in size && Taken(i).Inv() && SameContents(mem, Taken(i).mem, size, live)
      ensures SameOutside(mem, Taken(i).mem, base, limit)
    {
      hide Laid, Disjoint, Aligned, Without, Headers, Mapped, Power256, Load, Store;
      var p := freed[i];
      assert p in freed && p in size;
      LinksApart();
      NextBounded(i);
      if i > 0 {
        assert freed[i - 1] in freed;
        LinkWritten(freed[i - 1], Load(mem, p, w), live);
      }
      ListTaken(w, freelist, freed, mem, i);
      WithoutMembers(freed, i);
    }

    /** A link is NULL or the address of a block. */
    lemma NextBounded(i: int)
      requires Inv() && 0 <= i < |freed|
      ensures 0 <= Load(mem, freed[i], w) < Power256(w)
    {
      hide Headers, Aligned, Disjoint, Power256, Mapped;
      if i + 1 < |freed| {
        assert freed[i + 1] in freed && Load(mem, freed[i], w) == freed[i + 1];
      }
    }

    /** The user address of the next block cut from the unused area. */
    ghost function Next(alignment: nat): int
      requires 0 < alignment && 0 <= brk && 0 <= w
    {
      MaskDown(brk + w + (alignment - 1), alignment)
    }

    /** A block of n bytes cut from the unused area at user address u. */
    ghost function Cut(u: int, n: int): State
      requires Mapped(mem, u - w, u)
    {
      this.(brk := u + n, count := count + 1, mem := Store(mem, u - w, w, n), size := size[u := n], live := live + {u})
    }

    /** Nothing is at or above brk: the bytes from there on are nobody's. */
    lemma Beyond(u: int)
      requires Inv() && u % w == 0 && brk + w <= u
      ensures u !in size && u !in live && u !in freed
      ensures forall v {:trigger v in size} :: v in size ==> High(w, v, size[v]) <= u - w
      ensures u <= limit ==> Mapped(mem, u - w, u)
    {
      hide Chain, Headers, Power256, Load;
      forall v | v in size
        ensures High(w, v, size[v]) <= u - w
      {
        MultiplesApart(v, u, w);
        assert v < u;
        MultiplesApart(v, u - w, w) by {
          SubMultiple(u, w);
        }
      }
    }

    lemma CutKeeps(u: int, n: int)
      requires Inv() && 0 < n && u % w == 0 && brk + w <= u && u + n <= limit
      ensures Mapped(mem, u - w, u) && Cut(u, n).Inv() && SameContents(mem, Cut(u, n).mem, size, live)
      ensures SameOutside(mem, Cut(u, n).mem, base, limit)
    {
      hide Laid, Disjoint, Aligned, Headers, Chain, Parts, SameContents, Power256, Store, Load, Mapped, SameOutside;
      Beyond(u);
      CutLaid(u, n);
      HeaderWritten(u, n);
      CutParts(size, live, freed, u, n);
    }

    lemma CutLaid(u: int, n: int)
      requires Inv() && 0 < n && u % w == 0 && brk + w <= u && u + n <= limit
      ensures Laid(w, base, u + n, limit, size[u := n]) && Disjoint(w, size[u := n]) && Aligned(w, limit, size[u := n])
      ensures base <= u - w && u <= limit
    {
      hide Headers, Chain, Parts, Power256, Store, Load, Mapped;
      Beyond(u);
      MultiplesApart(u, limit, w);
    }

    lemma HeaderWritten(u: int, n: int)
      requires 0 < w && Headers(w, size, mem) && Chain(w, freelist, freed, mem) && Parts(size, live, freed)
      requires u !in size
      requires forall v {:trigger v in size} :: v in size ==> High(w, v, size[v]) <= u - w
      requires Mapped(mem, base, limit) && base <= u - w && u <= limit && 0 <= n < Power256(w)
      ensures var now := Store(mem, u - w, w, n);
        && Headers(w, size[u := n], now) && Chain(w, freelist, freed, now)
        && SameContents(mem, now, size, live) && SameOutside(mem, now, base, limit) && Mapped(now, base, limit)
    {
      hide Power256, Load;
      var now := Store(mem, u - w, w, n);
      LoadStored(mem, u - w, w, n);
      forall b | b + w <= u - w
        ensures Load(now, b, w) == Load(mem, b, w)
      {
        LoadElsewhere(mem, u - w, w, n, b);
      }
      assert forall v {:trigger v in size} :: v in size ==> v + w <= u - w && v - w + w <= u - w;
      assert Headers(w, size[u := n], now);
      forall i {:trigger freed[i]} | 0 <= i < |freed|
        ensures Load(now, freed[i], w) == Load(mem, freed[i], w)
      {
        assert freed[i] in freed && freed[i] in size;
      }
      assert SameContents(mem, now, size, live) by {
        hide Headers, Chain, Parts;
        forall c | InUse(size, live, c)
          ensures c < u - w
        {
          var v :| v in live && v in size && v <= c < v + size[v];
        }
      }
    }

    /** The next block is aligned to words as well; past the end of the address space
        it fits in no pool. */
    lemma NextFits(alignment: int, max: int)
      requires Inv() && limit <= max && PowerOfTwo(w) && PowerOfTwo(alignment) && PowerOfTwo(max + 1)
      requires w <= alignment <= max
      ensures Next(alignment) % alignment == 0 && Next(alignment) % w == 0 && brk + w <= Next(alignment)
      ensures brk + w + (alignment - 1) > max ==> limit < Next(alignment)
    {
      hide Laid, Disjoint, Headers, Chain, Parts, Aligned, Mapped, Power256, PowerOfTwo;
      PowersDivide(alignment, w);
      PowersDivide(max + 1, alignment);
      DividesThrough(Next(alignment), alignment, w);
      if brk + w + (alignment - 1) > max {
        RoundedUpBeyond(brk + w + (alignment - 1), alignment, max + 1);
      }
    }

    /** A byte that the owner of a block writes is in no header, no link and no other block. */
    lemma WriteKeeps(u: int, c: int, x: int)
      requires Inv() && u in live && u in size && u <= c < u + size[u]
      ensures this.(mem := mem[c := x]).Inv() && SameContents(mem, mem[c := x], size, live - {u})
      ensures c in mem && SameOutside(mem, mem[c := x], base, limit)
    {
      hide Aligned, Power256, Load, Headers, Chain, SameContents, SameOutside;
      assert u !in freed && c in mem;
      HeadersPast(u, c, x);
      LinksPast(u, c, x);
      OthersPast(u, c, x);
    }

    lemma HeadersPast(u: int, c: int, x: int)
      requires Laid(w, base, brk, limit, size) && Disjoint(w, size) && Headers(w, size, mem) && 0 < w
      requires Mapped(mem, base, limit) && u in size && u <= c < u + size[u]
      ensures Headers(w, size, mem[c := x])
    {
      hide Load;
      forall v {:trigger v in size} | v in size
        ensures Load(mem[c := x], v - w, w) == Load(mem, v - w, w)
      {
        LoadPast(mem, c, x, v - w, w);
      }
    }

    lemma LinksPast(u: int, c: int, x: int)
      requires Laid(w, base, brk, limit, size) && Disjoint(w, size) && Chain(w, freelist, freed, mem) && 0 < w
      requires Mapped(mem, base, limit) && Parts(size, live, freed) && u in live && u in size && u <= c < u + size[u]
      ensures Chain(w, freelist, freed, mem[c := x])
    {
      hide Load;
      forall i {:trigger freed[i]} | 0 <= i < |freed|
        ensures Load(mem[c := x], freed[i], w) == Load(mem, freed[i], w)
      {
        assert freed[i] in freed && freed[i] in size;
        LoadPast(mem, c, x, freed[i], w);
      }
    }

    lemma OthersPast(u: int, c: int, x: int)
      requires Disjoint(w, size) && Laid(w, base, brk, limit, size) && Mapped(mem, base, limit)
      requires u in live && u in size && u <= c < u + size[u]
      ensures c in mem && Mapped(mem[c := x], base, limit)
      ensures SameContents(mem, mem[c := x], size, live - {u}) && SameOutside(mem, mem[c := x], base, limit)
    {
      forall d | InUse(size, live - {u}, d)
        ensures d != c
      {
        var v :| v in live - {u} && v in size && v <= d < v + size[v];
      }
    }

    /** All blocks, live or freed, lie in the pool with header and link, each apart from
        the others. */
    lemma BlocksApart(u: int, v: int)
      requires Inv() && u in size && v in size
      ensures base <= u - w && u < High(w, u, size[u]) <= limit && u + w <= High(w, u, size[u])
      ensures u != v ==> High(w, u, size[u]) <= v - w || High(w, v, size[v]) <= u - w
    {
    }

    /** Block u given back: pushed on the free list, or, if it was the last one in use,
        the whole pool starts afresh. */
    ghost function Freed(u: int): State
      requires Mapped(mem, u, u + w)
    {
      var now := Store(mem, u, w, freelist);
      if count == 1 then
        this.(brk := base, count := 0, freelist := 0, mem := now, size := map[], live := {}, freed := [])
      else
        this.(count := count - 1, freelist := u, mem := now, live := live - {u}, freed := [u] + freed)
    }

    lemma FreedKeeps(u: int)
      requires Inv() && u in live
      ensures Mapped(mem, u, u + w) && Freed(u).Inv() && SameContents(mem, Freed(u).mem, size, live - {u})
      ensures SameOutside(mem, Freed(u).mem, base, limit)
    {
      LinkWritten(u, freelist, live - {u});
      var now := Store(mem, u, w, freelist);
      if count == 1 {
        OnlyOne(live, u);
      }
      ListFreed(u);
      hide Laid, Disjoint, Aligned, Headers, SameContents, Chain, Power256, Load, Store, Mapped, SameOutside;
    }

    /** The link of the new head leads to the old one, and the other links are as they were. */
    lemma ListFreed(u: int)
      requires Inv() && u in live
      ensures Mapped(mem, u, u + w) && Chain(w, u, [u] + freed, Store(mem, u, w, freelist))
    {
      InPool(u);
      hide Headers, Aligned, Power256, Load, Mapped;
      var now := Store(mem, u, w, freelist);
      if freed != [] {
        assert freed[0] in freed;
      }
      LoadStored(mem, u, w, freelist);
      forall i {:trigger freed[i]} | 0 <= i < |freed|
        ensures Load(now, freed[i], w) == Load(mem, freed[i], w) && freed[i] != u
      {
        assert freed[i] in freed && freed[i] in size;
        LoadElsewhere(mem, u, w, freelist, freed[i]);
      }
      var list := [u] + freed;
      assert forall i {:trigger list[i]} :: 0 < i < |list| ==> list[i] == freed[i - 1];
    }
  }

  /** Adding the header and rounding up, done with guards, exceeds no top value that is
      a multiple of the alignment unless the block cannot fit at all. */
  lemma RoundedUpBeyond(x: int, a: int, top: int)
    requires 0 < a && 0 <= top <= x && top % a == 0
    ensures top <= MaskDown(x, a)
  {
    if MaskDown(x, a) < top {
      MultiplesApart(MaskDown(x, a), top, a);
    }
  }

  lemma OnlyOne(s: set<int>, u: int)
    requires |s| == 1 && u in s
    ensures s == {u}
  {
    assert |s - {u}| == 0;
  }

  lemma SubMultiple(u: int, w: int)
    requires w > 0 && u % w == 0
    ensures (u - w) % w == 0
  {
    ModUnique(u - w, u / w - 1, 0, w);
  }

  lemma WithoutPlaces(s: seq<int>, i: int)
    requires 0 <= i < |s|
    ensures var r := Without(s, i);
      |r| == |s| - 1 && forall j {:trigger r[j]} :: 0 <= j < |r| ==> r[j] == if j < i then s[j] else s[j + 1]
  {
  }

  lemma WithoutMembers(s: seq<int>, i: int)
    requires 0 <= i < |s| && Distinct(s)
    ensures var r := Without(s, i);
      forall u {:trigger u in r} {:trigger u in s} :: u in r <==> u in s && u != s[i]
  {
    var r := Without(s, i);
    WithoutPlaces(s, i);
    forall u | u in s && u != s[i]
      ensures u in r
    {
      var j :| 0 <= j < |s| && s[j] == u;
      assert u == if j < i then r[j] else r[j - 1];
    }
    hide Without;
  }

  /** The first block is taken out by the head, a later one by its predecessor's link. */
  lemma ListTaken(w: nat, head: int, freed: seq<int>, mem: Memory, i: int)
    requires Chain(w, head, freed, mem) && 0 <= i < |freed|
    requires forall i, j {:trigger freed[i], freed[j]} :: 0 <= i < j < |freed| ==>
               freed[i] + w <= freed[j] || freed[j] + w <= freed[i]
    requires i > 0 ==> Mapped(mem, freed[i - 1], freed[i - 1] + w)
    requires 0 <= Load(mem, freed[i], w) < Power256(w)
    ensures var rest, next := Without(freed, i), Load(mem, freed[i], w);
      if i == 0 then Chain(w, next, rest, mem) else Chain(w, head, rest, Store(mem, freed[i - 1], w, next))
  {
    hide Power256, Load, Without;
    var rest, next := Without(freed, i), Load(mem, freed[i], w);
    WithoutPlaces(freed, i);
    if i > 0 {
      var now := Store(mem, freed[i - 1], w, next);
      LoadStored(mem, freed[i - 1], w, next);
      forall j {:trigger freed[j]} | 0 <= j < |freed| && j != i - 1
        ensures Load(now, freed[j], w) == Load(mem, freed[j], w)
      {
        LoadElsewhere(mem, freed[i - 1], w, next, freed[j]);
      }
      ListCut(w, head, freed, mem, i, now, rest);
    }
  }

  lemma ListCut(w: nat, head: int, freed: seq<int>, mem: Memory, i: int, now: Memory, rest: seq<int>)
    requires Chain(w, head, freed, mem) && 0 < i < |freed| == |rest| + 1
    requires Load(now, freed[i - 1], w) == Load(mem, freed[i], w)
    requires forall j {:trigger freed[j]} :: 0 <= j < |freed| && j != i - 1 ==>
               Load(now, freed[j], w) == Load(mem, freed[j], w)
    requires forall j {:trigger rest[j]} :: 0 <= j < |rest| ==> rest[j] == if j < i then freed[j] else freed[j + 1]
    ensures Chain(w, head, rest, now)
  {
    hide Load;
  }

  class MemPool {
    const pool: int           // the address of the pool
    const w: nat              // sizeof(MPHDR)
    const cb: int             // sizeof(MEMPOOLCB)
    const max: int            // the greatest value of uintptr_t

    var brk: int
    var limit: int
    var count: int
    var freelist: int
    var mem: Memory
    ghost var size: map<int, int>
    ghost var live: set<int>
    ghost var freed: seq<int>

    ghost function Now(): State
      reads this
    {
      State(w, pool + cb, brk, limit, count, freelist, mem, size, live, freed)
    }

    ghost predicate Target() {
      0 < w && PowerOfTwo(w) && max + 1 == Power256(w) && 0 < pool && 0 <= cb
    }

    ghost predicate Valid()
      reads this
    {
      Target() && Now().Inv() && limit <= max
    }

    /** The target, with whatever is in its memory. */
    constructor (pool: int, w: nat, cb: int, mem: Memory)
      requires 0 < w && PowerOfTwo(w) && 0 < pool && 0 <= cb
      ensures Target() && this.pool == pool && this.w == w && this.cb == cb && this.mem == mem
    {
      this.pool, this.w, this.cb, this.max, this.mem := pool, w, cb, Power256(w) - 1, mem;
    }

    /** initialize_mempool: it succeeds if the region, cut down to whole words, has
        room for the control block. */
    method Initialize(bytes: nat) returns (ok: bool)
      requires Target() && pool + bytes <= max && Mapped(mem, pool, pool + bytes)
      modifies this
      ensures ok <==> pool + cb <= MaskDown(pool + bytes, w)
      ensures ok ==> Valid() && live == {} && size == map[] && limit == MaskDown(pool + bytes, w) && mem == old(mem)
    {
      var end := MaskDown(pool + bytes, w);
      if end >= pool + cb {
        brk, limit, count, freelist := pool + cb, end, 0, 0;
        size, live, freed := map[], {}, [];
        return true;
      } else {
        return false;
      }
    }

    /** The first free block of exactly n bytes whose address suits the alignment. */
    ghost predicate FirstFit(v: State, alignment: int, n: int, i: int)
      requires 0 < alignment
    {
      && 0 <= i < |v.freed| && v.freed[i] in v.size && v.size[v.freed[i]] == n && v.freed[i] % alignment == 0
      && forall j {:trigger v.freed[j]} :: 0 <= j < i && v.freed[j] in v.size ==>
           !(v.size[v.freed[j]] == n && v.freed[j] % alignment == 0)
    }

    ghost predicate NoFit(v: State, alignment: int, n: int)
      requires 0 < alignment
    {
      forall u {:trigger u in v.freed} :: u in v.freed && u in v.size ==> !(v.size[u] == n && u % alignment == 0)
    }

    /** The walk over the free list, with the place that points to the current block:
        the link in block `prev`, or `freelist` itself (0). */
    method SearchFree(alignment: int, n: int) returns (prev: int, p: int, ghost i: int)
      requires Valid() && 0 < alignment
      ensures p == 0 ==> NoFit(Now(), alignment, n)
      ensures p != 0 ==> FirstFit(Now(), alignment, n, i) && p == freed[i] && prev == if i == 0 then 0 else freed[i - 1]
    {
      hide Laid, Disjoint, Aligned, PowerOfTwo, Load, Mapped, Power256;
      prev, p, i := 0, freelist, 0;
      while p != 0
        invariant 0 <= i <= |freed| && p == (if i < |freed| then freed[i] else 0) && prev == if i == 0 then 0
                  else freed[i - 1]
        invariant forall j {:trigger freed[j]} :: 0 <= j < i ==>
                  freed[j] in size && !(size[freed[j]] == n && freed[j] % alignment == 0)
        decreases |freed| - i
      {
        assert p in freed && p in size;
        if Load(mem, p - w, w) == n && p % alignment == 0 {
          break;
        }
        prev, p, i := p, Load(mem, p, w), i + 1;
      }
    }

    /** The rounded-up address of the next block, if it is not past the limit.  Each sum
        is formed only after the test that it stays within uintptr_t, as asserted there. */
    method Align(alignment: int) returns (r: Option<int>)
      requires Valid() && w <= alignment <= max && PowerOfTwo(alignment)
      ensures r == if Now().Next(alignment) <= limit then Some(Now().Next(alignment)) else None
    {
      Power256IsPower(w);
      Now().NextFits(alignment, max);
      hide PowerOfTwo, State.Inv, Power256;
      var end := brk;
      var adjust := alignment - 1;
      if end > max - w {
        return None;
      }
      assert end + w <= max;
      end := end + w;
      if end > max - adjust {
        return None;
      }
      assert end + adjust <= max;
      var aligned := MaskDown(end + adjust, alignment);
      if aligned > limit {
        return None;
      }
      return Some(aligned);
    }

    /** A block is cut from the unused area if it ends within the limit. */
    method CutBlock(alignment: int, n: int) returns (r: Option<int>)
      requires Valid() && 0 < n && w <= alignment <= max && PowerOfTwo(alignment)
      modifies this
      ensures Valid() && SameContents(old(mem), mem, size, old(live)) && SameOutside(old(mem), mem, pool + cb, limit)
      ensures r == if old(Now()).Next(alignment) + n <= limit then Some(old(Now()).Next(alignment)) else None
      ensures r.Some? ==> Mapped(old(mem), r.value - w, r.value) && Now() == old(Now()).Cut(r.value, n)
      ensures r.None? ==> Now() == old(Now())
      ensures r.Some? ==> r.value !in old(live)
    {
      hide PowerOfTwo, State.Inv, State.Next, Power256, Mapped;
      ghost var v := Now();
      PoolBounds();
      Power256IsPower(w);
      v.NextFits(alignment, max);
      var a := Align(alignment);
      if a == None || n > limit - a.value {
        return None;
      }
      assert a.value + n <= max;
      v.CutKeeps(a.value, n);
      v.Beyond(a.value);
      hide SameContents, SameOutside;
      Place(a.value, n);
      return a;
    }

    lemma PoolBounds()
      requires Valid()
      ensures 0 < w && 0 < pool + cb <= brk <= limit <= max
    {
      hide Aligned, Power256, Headers, Chain, Disjoint, Laid, Parts, Mapped;
    }

    /** Header, brk and count for a new block. */
    method Place(u: int, n: int)
      requires Mapped(mem, u - w, u)
      modifies this
      ensures Now() == old(Now()).Cut(u, n)
    {
      mem := Store(mem, u - w, w, n);
      brk := u + n;
      count := count + 1;
      size := size[u := n];
      live := live + {u};
    }

    /** The block p, i-th of the free list, is taken out of it. */
    method Reuse(prev: int, p: int, ghost i: int)
      requires Now().Inv() && 0 <= i < |freed| && p == freed[i] && prev == if i == 0 then 0 else freed[i - 1]
      requires prev != 0 ==> Mapped(mem, prev, prev + w)
      requires i > 0 ==> prev != 0
      modifies this
      ensures old(Now()).Inv() && Now() == old(Now()).Taken(i)
    {
      hide State.Inv, Power256, Load, Store, Mapped;
      if prev == 0 {
        freelist := Load(mem, p, w);
      } else {
        mem := Store(mem, prev, w, Load(mem, p, w));
      }
      count := count + 1;
      live := live + {p};
      freed := Without(freed, i);
    }

    /** alloc_mempool: the first free block that fits exactly is reused, otherwise a
        block is cut from the unused area if it ends within the limit; the guarded
        unsigned additions never wrap and never refuse what would fit. */
    method AllocMempool(alignment: int, n: int) returns (r: Option<int>, ghost reused: Option<int>)
      requires Valid() && 0 < n && w <= alignment <= max && PowerOfTwo(alignment)
      modifies this
      ensures Valid() && SameContents(old(mem), mem, size, old(live)) && SameOutside(old(mem), mem, pool + cb, limit)
      ensures reused.Some? ==> FirstFit(old(Now()), alignment, n, reused.value)
      ensures reused.Some? ==> r == Some(old(freed)[reused.value]) && Now() == old(Now()).Taken(reused.value)
      ensures reused.None? ==> NoFit(old(Now()), alignment, n)
      ensures reused.None? ==> (r.Some? <==> old(Now()).Next(alignment) + n <= limit)
      ensures reused.None? && r.Some? ==>
                && r.value == old(Now()).Next(alignment) && Mapped(old(mem), r.value - w, r.value)
                && Now() == old(Now()).Cut(r.value, n)
      ensures r.None? ==> Now() == old(Now())
      ensures r.Some? ==> r.value % alignment == 0 && r.value in size && size[r.value] == n
      ensures r.Some? ==> live == old(live) + {r.value} && r.value !in old(live)
    {
      reused := None;
      var prev, p, i := SearchFree(alignment, n);
      ghost var v := Now();
      if p != 0 {
        v.TakenKeeps(i);
        assert p in freed && p !in live;
        v.PrevInPool(i);
        hide State.Inv, PowerOfTwo, Power256, Load, Store, Mapped, SameContents, SameOutside, State.Taken;
        Reuse(prev, p, i);
        return Some(p), Some(i);
      }
      Power256IsPower(w);
      v.NextFits(alignment, max);
      hide State.Inv, PowerOfTwo, State.Next, Power256, Mapped;
      r := CutBlock(alignment, n);
    }

    /** free_mempool, for a block in use. */
    method FreeMempool(u: int)
      requires Valid() && u in live
      modifies this
      ensures Valid() && Mapped(old(mem), u, u + w) && Now() == old(Now()).Freed(u)
      ensures SameContents(old(mem), mem, old(size), old(live) - {u}) && SameOutside(old(mem), mem, pool + cb, limit)
    {
      Now().FreedKeeps(u);
      hide State.Inv, PowerOfTwo, Power256, Mapped, SameContents, SameOutside, State.Freed;
      Release(u);
    }

    method Release(u: int)
      requires Mapped(mem, u, u + w)
      modifies this
      ensures Mapped(old(mem), u, u + w) && Now() == old(Now()).Freed(u)
    {
      hide Power256, Mapped, Store;
      mem := Store(mem, u, w, freelist);
      freelist := u;
      count := count - 1;
      live, freed := live - {u}, [u] + freed;
      if count == 0 {
        brk := pool + cb;
        freelist := 0;
        size, live, freed := map[], {}, [];
      }
    }

    /** The owner of a block writes byte c of its user area: no header, no link and no
        other block changes. */
    method UserWrite(u: int, c: int, x: Byte)
      requires Valid() && u in live && u in size && u <= c < u + size[u]
      modifies this`mem
      ensures Valid() && mem == old(mem)[c := x] && SameContents(old(mem), mem, size, live - {u})
      ensures SameOutside(old(mem), mem, pool + cb, limit)
    {
      Now().WriteKeeps(u, c, x);
      hide State.Inv, PowerOfTwo, Power256;
      mem := mem[c := x];
    }
  }
}

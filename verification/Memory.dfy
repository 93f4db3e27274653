/** Memory as bytes, and the words stored in it. */
module Memory {

  import opened Bytes

  /** The byte at each address that is mapped. */
  type Memory = map<int, int>

  ghost predicate Mapped(mem: Memory, a: int, b: int) {
    forall c :: a <= c < b ==> c in mem
  }

  function At(mem: Memory, a: int): int {
    if a in mem then mem[a] else 0
  }

  /** The number in the n bytes from address a on. */
  function Load(mem: Memory, a: int, n: nat): int
    decreases n
  {
    if n == 0 then 0 else At(mem, a) + 256 * Load(mem, a + 1, n - 1)
  }

  /** Writes all n bytes of x. */
  function Store(mem: Memory, a: int, n: nat, x: int): Memory
    requires Mapped(mem, a, a + n)
  {
    map c | c in mem :: if a <= c < a + n then Stored(x, n)[c - a] else mem[c]
  }

  /** What is read depends on the n bytes alone. */
  lemma {:induction false} LoadSame(mem: Memory, mem': Memory, a: int, n: nat)
    requires forall c :: a <= c < a + n ==> At(mem, c) == At(mem', c)
    ensures Load(mem, a, n) == Load(mem', a, n)
    decreases n
  {
    if n > 0 {
      LoadSame(mem, mem', a + 1, n - 1);
    }
  }

  lemma {:induction false} LoadBytes(mem: Memory, a: int, n: nat, x: int)
    requires 0 <= x < Power256(n)
    requires forall c {:trigger At(mem, c)} :: a <= c < a + n ==> At(mem, c) == Stored(x, n)[c - a]
    ensures Load(mem, a, n) == x
    decreases n
  {
    if n > 0 {
      var s := Stored(x, n);
      assert s == [x % 256] + Stored(x / 256, n - 1);
      assert At(mem, a) == s[0];
      forall c {:trigger At(mem, c)} | a + 1 <= c < a + n
        ensures At(mem, c) == Stored(x / 256, n - 1)[c - (a + 1)]
      {
        assert s[c - a] == Stored(x / 256, n - 1)[c - a - 1];
      }
      LoadBytes(mem, a + 1, n - 1, x / 256);
    }
  }

  /** A word that was written is read back. */
  lemma LoadStored(mem: Memory, a: int, n: nat, x: int)
    requires Mapped(mem, a, a + n) && 0 <= x < Power256(n)
    ensures Load(Store(mem, a, n, x), a, n) == x
  {
    LoadBytes(Store(mem, a, n, x), a, n, x);
  }

  /** A word is not changed by writing another one that does not overlap it. */
  lemma LoadElsewhere(mem: Memory, a: int, n: nat, x: int, b: int)
    requires Mapped(mem, a, a + n) && (b + n <= a || a + n <= b)
    ensures Load(Store(mem, a, n, x), b, n) == Load(mem, b, n)
  {
    LoadSame(Store(mem, a, n, x), mem, b, n);
  }

  /** Nor by writing a byte outside it. */
  lemma LoadPast(mem: Memory, c: int, x: int, b: int, n: nat)
    requires c in mem && !(b <= c < b + n)
    ensures Load(mem[c := x], b, n) == Load(mem, b, n)
  {
    LoadSame(mem[c := x], mem, b, n);
  }

  lemma StoreMapped(mem: Memory, a: int, n: nat, x: int, lo: int, hi: int)
    requires Mapped(mem, a, a + n) && Mapped(mem, lo, hi)
    ensures Mapped(Store(mem, a, n, x), lo, hi)
  {
  }
}

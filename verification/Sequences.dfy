/** Sequences used as lists without repetition. */
module Sequences {

  ghost predicate Distinct<T>(s: seq<T>) {
    forall i, j {:trigger s[i], s[j]} :: 0 <= i < j < |s| ==> s[i] != s[j]
  }

  lemma FirstIn<T>(s: seq<T>, x: T)
    requires s != [] && s[0] == x
    ensures x in s && forall y {:trigger y in s} {:trigger y in s[1..]} :: y in s <==> y == x || y in s[1..]
  {
    assert s == [s[0]] + s[1..];
  }
}

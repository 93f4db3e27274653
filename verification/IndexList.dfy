/** Lists threaded through an array of links: next[i] is the index of the node behind
    node i, `nil` ends a list. */
module IndexList {

  import opened TaskQueues

  /** From node `first` the links lead through s. */
  ghost predicate Path(nil: int, next: seq<int>, first: int, s: seq<int>) {
    && first == (if s == [] then nil else s[0])
    && (forall i {:trigger s[i]} :: 0 <= i < |s| ==> 0 <= s[i] < |next|)
    && (s != [] ==> next[s[|s| - 1]] == nil)
    && (forall i, j {:trigger s[i], s[j]} :: 0 <= i < j < |s| ==> s[i] != s[j] && (j == i + 1 ==> next[s[i]] == s[j]))
  }

  lemma PathSame(nil: int, next: seq<int>, next': seq<int>, first: int, s: seq<int>)
    requires Path(nil, next, first, s) && |next'| == |next| && forall i {:trigger s[i]} ::
             0 <= i < |s| && 0 <= s[i] < |next| ==> next'[s[i]] == next[s[i]]
    ensures Path(nil, next', first, s)
  {
  }

  lemma PathPushed(nil: int, next: seq<int>, first: int, s: seq<int>, n: int)
    requires Path(nil, next, first, s) && 0 <= n < |next| && n !in s
    ensures Path(nil, next[n := first], n, [n] + s)
  {
    var t := [n] + s;
    assert forall i {:trigger t[i]} :: 1 <= i < |t| ==> t[i] == s[i - 1] && s[i - 1] in s;
  }

  lemma PathPopped(nil: int, next: seq<int>, first: int, s: seq<int>)
    requires Path(nil, next, first, s) && s != []
    ensures 0 <= first < |next| && first == s[0] && Path(nil, next, next[first], s[1..]) && first !in s[1..]
  {
    var r := s[1..];
    assert forall i {:trigger r[i]} :: 0 <= i < |r| ==> r[i] == s[i + 1];
  }

  lemma PlusPlaces(s: seq<int>, i: int, n: int)
    requires 0 <= i <= |s|
    ensures |Plus(s, i, n)| == |s| + 1
    ensures forall j {:trigger Plus(s, i, n)[j]} :: 0 <= j <= |s| ==>
            Plus(s, i, n)[j] == if j < i then s[j] else if j == i then n else s[j - 1]
  {
  }

  /** Node n linked in before the i-th node. */
  lemma PathInserted(nil: int, next: seq<int>, first: int, s: seq<int>, n: int, i: int)
    requires Path(nil, next, first, s) && 0 <= n < |next| && n !in s && 0 <= i <= |s|
    ensures i > 0 ==> 0 <= s[i - 1] < |next|
    ensures var next1 := next[n := if i < |s| then s[i] else nil];
      if i == 0 then Path(nil, next1, n, Plus(s, i, n)) else Path(nil, next1[s[i - 1] := n], first, Plus(s, i, n))
  {
    hide Plus;
    PlusPlaces(s, i, n);
    assert forall j {:trigger s[j]} :: 0 <= j < |s| ==> s[j] in s;
    if i == 0 {
      PathFirst(nil, next, first, s, n, Plus(s, i, n));
    } else {
      PathLater(nil, next, first, s, n, i, Plus(s, i, n));
    }
  }

  lemma PathFirst(nil: int, next: seq<int>, first: int, s: seq<int>, n: int, t: seq<int>)
    requires Path(nil, next, first, s) && 0 <= n < |next| && |t| == |s| + 1 && t[0] == n
    requires forall j {:trigger s[j]} :: 0 <= j < |s| ==> s[j] != n
    requires forall j {:trigger t[j]} :: 1 <= j <= |s| ==> t[j] == s[j - 1]
    ensures Path(nil, next[n := first], n, t)
  {
  }

  lemma PathLater(nil: int, next: seq<int>, first: int, s: seq<int>, n: int, i: int, t: seq<int>)
    requires Path(nil, next, first, s) && 0 <= n < |next| && 0 < i <= |s| && |t| == |s| + 1
    requires forall j {:trigger s[j]} :: 0 <= j < |s| ==> s[j] != n
    requires forall j {:trigger t[j]} :: 0 <= j <= |s| ==>
             t[j] == if j < i then s[j] else if j == i then n else s[j - 1]
    ensures 0 <= s[i - 1] < |next| && Path(nil, next[n := if i < |s| then s[i] else nil][s[i - 1] := n], first, t)
  {
    var next' := next[n := if i < |s| then s[i] else nil][s[i - 1] := n];
    assert forall j {:trigger s[j]} :: 0 <= j < |s| && j != i - 1 ==> next'[s[j]] == next[s[j]];
    assert next'[s[i - 1]] == n && next'[n] == (if i < |s| then s[i] else nil);
    forall j, l {:trigger t[j], t[l]} | 0 <= j < l < |t|
      ensures t[j] != t[l] && (l == j + 1 ==> next'[t[j]] == t[l])
    {
      var j', l' := if j < i then j else j - 1, if l < i then l else l - 1;
      if j != i && l != i {
        assert t[j] == s[j'] && t[l] == s[l'] && j' < l';
      }
    }
  }
}

/** What the priority ceiling protocol keeps (kernel/mutex.c): the lists of locked
    mutexes, and the current priority of every task as the minimum over them. */
module MutexProtocol {

  import opened TaskQueues
  import opened Sequences

  /** MTXCB with its initialisation block. */
  datatype Mtx = Mtx(ceiling: bool, ceilpri: int, loctsk: int, prevmtx: int)

  /** p_lastmtx and the p_prevmtx links lead through h, the last locked mutex first. */
  ghost predicate Chain(mtx: seq<Mtx>, last: int, h: seq<int>) {
    && last == (if h == [] then NULL else h[0])
    && (forall i {:trigger h[i]} :: 0 <= i < |h| ==> 0 <= h[i] < |mtx|)
    && (h != [] ==> mtx[h[|h| - 1]].prevmtx == NULL)
    && (forall i, j {:trigger h[i], h[j]} :: 0 <= i < j < |h| ==> h[i] != h[j] && (j == i + 1 ==>
         mtx[h[i]].prevmtx == h[j]))
  }

  /** The minimum of b and the ceilings of the mutexes in h. */
  ghost function Lowest(mtx: seq<Mtx>, h: seq<int>, b: int): int {
    if h == [] then b
    else
      var rest := Lowest(mtx, h[1..], b);
      if 0 <= h[0] < |mtx| && mtx[h[0]].ceiling && mtx[h[0]].ceilpri < rest then mtx[h[0]].ceilpri else rest
  }

  ghost predicate HasCeiling(mtx: seq<Mtx>, h: seq<int>) {
    exists m {:trigger m in h} :: m in h && 0 <= m < |mtx| && mtx[m].ceiling
  }

  /** No held ceiling is below base priority b. */
  ghost predicate CeilingsAbove(mtx: seq<Mtx>, h: seq<int>, b: int) {
    forall m {:trigger m in h} :: m in h && 0 <= m < |mtx| && mtx[m].ceiling ==> mtx[m].ceilpri <= b
  }

  /** The priority of a task that has locked h. */
  ghost predicate PriorityRule(mtx: seq<Mtx>, h: seq<int>, x: TCB) {
    && x.priority == Lowest(mtx, h, x.bpriority) && (x.boosted <==> HasCeiling(mtx, h))
    && CeilingsAbove(mtx, h, x.bpriority)
  }

  /** The mutex a task waits for is locked by another, and its ceiling is not below the
      base priority. */
  ghost predicate WaitRule(mtx: seq<Mtx>, t: int, x: TCB) {
    x.tstat.wait.On? && 0 <= x.tstat.wait.w < |mtx| ==>
      && mtx[x.tstat.wait.w].loctsk != NULL && mtx[x.tstat.wait.w].loctsk != t
      && (mtx[x.tstat.wait.w].ceiling ==> mtx[x.tstat.wait.w].ceilpri <= x.bpriority)
  }

  /** Each task's list is sound; mutex m0 may be in none although it is locked, and the
      priority of task t0 may be out of date. */
  ghost predicate Lists(cb: seq<TCB>, mtx: seq<Mtx>, held: seq<seq<int>>, t0: int, m0: int) {
    && |held| == |cb|
    && (forall t {:trigger held[t]} :: 0 <= t < |cb| ==> Chain(mtx, cb[t].lastmtx, held[t]))
    && (forall t, m {:trigger m in held[t]} :: 0 <= t < |cb| && 0 <= m < |mtx| ==> (m in held[t] <==>
         m != m0 && mtx[m].loctsk == t))
    && (forall t {:trigger cb[t]} :: 0 <= t < |cb| && t != t0 ==> PriorityRule(mtx, held[t], cb[t]))
    && (forall t {:trigger cb[t]} :: 0 <= t < |cb| ==> WaitRule(mtx, t, cb[t]))
    && (forall t {:trigger cb[t]} :: 0 <= t < |cb| && cb[t].tstat == DORMANT ==> held[t] == [])
    && (forall m {:trigger mtx[m]} :: 0 <= m < |mtx| ==>
         0 <= mtx[m].ceilpri < TNUM_TPRI && (mtx[m].loctsk == NULL || 0 <= mtx[m].loctsk < |cb|))
  }

  // ------ the minimum

  lemma {:induction false} LowestIs(mtx: seq<Mtx>, h: seq<int>, b: int)
    ensures Lowest(mtx, h, b) <= b
    ensures forall m {:trigger m in h} :: m in h && 0 <= m < |mtx| && mtx[m].ceiling ==>
            Lowest(mtx, h, b) <= mtx[m].ceilpri
    ensures Lowest(mtx, h, b) == b || exists m ::
              m in h && 0 <= m < |mtx| && mtx[m].ceiling && mtx[m].ceilpri == Lowest(mtx, h, b)
  {
    if h != [] {
      LowestIs(mtx, h[1..], b);
      assert forall m :: m in h <==> m == h[0] || m in h[1..];
    }
  }

  /** The characterisation determines it. */
  lemma LowestUnique(mtx: seq<Mtx>, h: seq<int>, b: int, p: int)
    requires p <= b && (p == b || exists m :: m in h && 0 <= m < |mtx| && mtx[m].ceiling && mtx[m].ceilpri == p)
    requires forall m {:trigger m in h} :: m in h && 0 <= m < |mtx| && mtx[m].ceiling ==> p <= mtx[m].ceilpri
    ensures Lowest(mtx, h, b) == p
  {
    LowestIs(mtx, h, b);
  }

  lemma LowestAdded(mtx: seq<Mtx>, h: seq<int>, h': seq<int>, b: int, m: int)
    requires 0 <= m < |mtx| && forall u {:trigger u in h'} {:trigger u in h} :: u in h' <==> u in h || u == m
    ensures var p := Lowest(mtx, h, b);
      Lowest(mtx, h', b) == if mtx[m].ceiling && mtx[m].ceilpri < p then mtx[m].ceilpri else p
  {
    LowestIs(mtx, h, b);
    LowestIs(mtx, h', b);
    assert m in h';
  }

  /** Without a ceiling the priority is the base priority; with one, and none below it,
      the base priority does not matter. */
  lemma LowestWithout(mtx: seq<Mtx>, h: seq<int>, b: int, b': int)
    ensures !HasCeiling(mtx, h) ==> Lowest(mtx, h, b) == b
    ensures HasCeiling(mtx, h) && CeilingsAbove(mtx, h, b) && CeilingsAbove(mtx, h, b') ==>
            Lowest(mtx, h, b) == Lowest(mtx, h, b')
  {
    LowestIs(mtx, h, b);
    LowestIs(mtx, h, b');
  }

  /** A change of other mutexes does not change it. */
  lemma {:induction false} LowestSame(mtx: seq<Mtx>, mtx': seq<Mtx>, h: seq<int>, b: int)
    requires |mtx'| == |mtx|
    requires forall m {:trigger mtx'[m]} :: 0 <= m < |mtx| ==>
             mtx'[m].ceiling == mtx[m].ceiling && mtx'[m].ceilpri == mtx[m].ceilpri
    ensures Lowest(mtx', h, b) == Lowest(mtx, h, b)
    ensures HasCeiling(mtx', h) == HasCeiling(mtx, h) && CeilingsAbove(mtx', h, b) == CeilingsAbove(mtx, h, b)
  {
    LowestIs(mtx, h, b);
    LowestIs(mtx', h, b);
    assert forall m :: m in h && 0 <= m < |mtx| ==> mtx'[m].ceiling == mtx[m].ceiling;
  }

  // ------ steps

  /** Rewriting a control block, but not its list, keeps the lists; the task's priority
      is out of date unless it follows the rule. */
  lemma Rewritten(cb: seq<TCB>, mtx: seq<Mtx>, held: seq<seq<int>>, t0: int, m0: int, t: int, x: TCB)
    requires Lists(cb, mtx, held, t0, m0) && 0 <= t < |cb| && x.lastmtx == cb[t].lastmtx
    requires WaitRule(mtx, t, x) && (x.tstat == DORMANT ==> held[t] == [])
    ensures (t0 == t || t0 == NULL) ==> Lists(cb[t := x], mtx, held, t, m0)
    ensures (t0 == t || t0 == NULL) && PriorityRule(mtx, held[t], x) ==> Lists(cb[t := x], mtx, held, NULL, m0)
    ensures PriorityRule(mtx, held[t], x) ==> Lists(cb[t := x], mtx, held, t0, m0)
  {
    hide Chain, PriorityRule, WaitRule;
    var cb' := cb[t := x];
    assert forall u {:trigger held[u]} :: 0 <= u < |cb| ==> Chain(mtx, cb'[u].lastmtx, held[u]);
    assert forall u {:trigger cb'[u]} :: 0 <= u < |cb| && u != t ==> cb'[u] == cb[u];
  }

  /** A control block whose rewriting does not touch the priority keeps to the rule. */
  lemma Unaffected(cb: seq<TCB>, mtx: seq<Mtx>, held: seq<seq<int>>, t0: int, m0: int, t: int, x: TCB)
    requires Lists(cb, mtx, held, t0, m0) && 0 <= t < |cb| && x.lastmtx == cb[t].lastmtx
    requires x.bpriority == cb[t].bpriority && x.priority == cb[t].priority && x.boosted == cb[t].boosted
    requires WaitRule(mtx, t, x) && (x.tstat == DORMANT ==> held[t] == [])
    ensures Lists(cb[t := x], mtx, held, t0, m0)
  {
    if t0 == t {
      Rewritten(cb, mtx, held, t0, m0, t, x);
    } else {
      assert PriorityRule(mtx, held[t], cb[t]);
      Rewritten(cb, mtx, held, t0, m0, t, x);
    }
  }

  lemma ChainPushed(mtx: seq<Mtx>, mtx': seq<Mtx>, last: int, h: seq<int>, m: int)
    requires Chain(mtx, last, h) && 0 <= m < |mtx| && m !in h
    requires |mtx'| == |mtx| && mtx'[m].prevmtx == last
    requires forall u {:trigger mtx'[u]} :: 0 <= u < |mtx| && u != m ==> mtx'[u].prevmtx == mtx[u].prevmtx
    ensures Chain(mtx', m, [m] + h)
  {
    var h' := [m] + h;
    assert forall i {:trigger h'[i]} :: 1 <= i < |h'| ==> h'[i] == h[i - 1] && h[i - 1] in h;
  }

  lemma ChainSame(mtx: seq<Mtx>, mtx': seq<Mtx>, last: int, h: seq<int>)
    requires Chain(mtx, last, h) && |mtx'| == |mtx|
    requires forall u {:trigger mtx'[u]} :: 0 <= u < |mtx| && u in h ==> mtx'[u].prevmtx == mtx[u].prevmtx
    ensures Chain(mtx', last, h)
  {
    assert forall i {:trigger h[i]} :: 0 <= i < |h| ==> h[i] in h;
  }

  /** Task t gets mutex m, which nobody has: it is free, or has just been taken from the
      list of its holder. */
  lemma Locked(cb: seq<TCB>, mtx: seq<Mtx>, held: seq<seq<int>>, t0: int, m0: int, t: int, m: int, x: TCB)
    requires Lists(cb, mtx, held, t0, m0) && 0 <= t < |cb| && t != t0 && 0 <= m < |mtx|
    requires if m0 == NULL then mtx[m].loctsk == NULL else m == m0
    requires var h := [m] + held[t];
      x.lastmtx == m && PriorityRule(mtx, h, x) && WaitRule(mtx[m := mtx[m].(loctsk := t)], t, x) && x.tstat != DORMANT
    ensures var mtx' := mtx[m := mtx[m].(loctsk := t, prevmtx := cb[t].lastmtx)];
      Lists(cb[t := x], mtx', held[t := [m] + held[t]], t0, NULL)
  {
    var h := [m] + held[t];
    var mtx', held', cb' := mtx[m := mtx[m].(loctsk := t, prevmtx := cb[t].lastmtx)], held[t := h], cb[t := x];
    assert forall u {:trigger held[u]} :: 0 <= u < |cb| ==> m !in held[u];
    forall u {:trigger held'[u]} | 0 <= u < |cb|
      ensures Chain(mtx', cb'[u].lastmtx, held'[u])
    {
      if u == t {
        ChainPushed(mtx, mtx', cb[t].lastmtx, held[t], m);
      } else {
        assert Chain(mtx, cb[u].lastmtx, held[u]);
        ChainSame(mtx, mtx', cb[u].lastmtx, held[u]);
      }
    }
    hide Chain;
    RulesSame(cb, mtx, mtx', held, t0, m0, t, x, m, h);
    assert forall u, v {:trigger v in held'[u]} :: 0 <= u < |cb| && 0 <= v < |mtx| ==> (v in held'[u] <==>
           mtx'[v].loctsk == u) by {
      hide PriorityRule, WaitRule;
      assert forall v :: v in h <==> v == m || v in held[t];
    }
    hide PriorityRule, WaitRule;
  }

  /** The rules speak only of the ceilings and of whether a mutex is locked. */
  lemma RulesSame(cb: seq<TCB>, mtx: seq<Mtx>, mtx': seq<Mtx>, held: seq<seq<int>>, t0: int, m0: int, t: int, x: TCB,
      m: int, h: seq<int>)
    requires Lists(cb, mtx, held, t0, m0) && 0 <= t < |cb| && 0 <= m < |mtx| == |mtx'|
    requires forall u {:trigger mtx'[u]} :: 0 <= u < |mtx| ==>
             mtx'[u].ceiling == mtx[u].ceiling && mtx'[u].ceilpri == mtx[u].ceilpri
    requires forall u {:trigger mtx'[u]} :: 0 <= u < |mtx| && u != m ==> mtx'[u].loctsk == mtx[u].loctsk
    requires mtx'[m].loctsk == t
    requires PriorityRule(mtx, h, x) && WaitRule(mtx', t, x)
    ensures forall u {:trigger cb[t := x][u]} :: 0 <= u < |cb| ==>
              (u != t0 ==> PriorityRule(mtx', if u == t then h
               else held[u], cb[t := x][u])) && WaitRule(mtx', u, cb[t := x][u])
  {
    forall u {:trigger cb[t := x][u]} | 0 <= u < |cb|
      ensures (u != t0 ==> PriorityRule(mtx', if u == t then h else held[u], cb[t := x][u]))
      ensures WaitRule(mtx', u, cb[t := x][u])
    {
      LowestSame(mtx, mtx', if u == t then h else held[u], if u == t then x.bpriority else cb[u].bpriority);
      assert u != t ==> WaitRule(mtx, u, cb[u]) && (u != t0 ==> PriorityRule(mtx, held[u], cb[u]));
    }
  }

  /** Cutting the i-th mutex out of a list. */
  lemma ChainCut(mtx: seq<Mtx>, last: int, h: seq<int>, i: int)
    requires Chain(mtx, last, h) && 0 <= i < |h|
    ensures 0 <= h[i] < |mtx| && (i > 0 ==> 0 <= h[i - 1] < |mtx|)
    ensures if i == 0 then Chain(mtx, mtx[h[0]].prevmtx, Minus(h, h[i]))
            else Chain(mtx[h[i - 1] := mtx[h[i - 1]].(prevmtx := mtx[h[i]].prevmtx)], last, Minus(h, h[i]))
    ensures forall u {:trigger u in Minus(h, h[i])} :: u in Minus(h, h[i]) <==> u in h && u != h[i]
  {
    assert Distinct(h);
    MinusRemoves(h, h[i]);
    CutAt(h, i);
    hide Minus, Distinct, Chain;
    if i == 0 {
      ChainCutHead(mtx, last, h, Minus(h, h[i]));
    } else {
      ChainCutLater(mtx, last, h, i, Minus(h, h[i]));
    }
  }

  lemma ChainCutHead(mtx: seq<Mtx>, last: int, h: seq<int>, r: seq<int>)
    requires Chain(mtx, last, h) && |h| > 0 && |r| == |h| - 1
    requires forall j {:trigger r[j]} :: 0 <= j < |r| ==> r[j] == h[j + 1]
    ensures Chain(mtx, mtx[h[0]].prevmtx, r)
  {
  }

  lemma ChainCutLater(mtx: seq<Mtx>, last: int, h: seq<int>, i: int, r: seq<int>)
    requires Chain(mtx, last, h) && 0 < i < |h| && |r| == |h| - 1
    requires forall j {:trigger r[j]} :: 0 <= j < |r| ==> r[j] == if j < i then h[j] else h[j + 1]
    ensures 0 <= h[i] < |mtx| && 0 <= h[i - 1] < |mtx|
    ensures Chain(mtx[h[i - 1] := mtx[h[i - 1]].(prevmtx := mtx[h[i]].prevmtx)], last, r)
  {
    var mtx' := mtx[h[i - 1] := mtx[h[i - 1]].(prevmtx := mtx[h[i]].prevmtx)];
    assert r[i - 1] == h[i - 1];
    forall j, l {:trigger r[j], r[l]} | 0 <= j < l < |r|
      ensures 0 <= r[j] < |mtx| && r[j] != r[l] && (l == j + 1 ==> mtx'[r[j]].prevmtx == r[l])
    {
      if l == j + 1 && j >= i {
        assert mtx[h[j + 1]].prevmtx == h[j + 2];
      }
    }
  }

  lemma CutAt(h: seq<int>, i: int)
    requires Distinct(h) && 0 <= i < |h|
    ensures |Minus(h, h[i])| == |h| - 1
    ensures forall j {:trigger Minus(h, h[i])[j]} :: 0 <= j < |h| - 1 ==>
            Minus(h, h[i])[j] == if j < i then h[j] else h[j + 1]
  {
    var k := MinusPlace(h, h[i]);
    assert k == i;
  }

  /** remove_mutex: mutex m leaves the list of task t, whose priority is then out of
      date. */
  lemma Unlocked(cb: seq<TCB>, mtx: seq<Mtx>, held: seq<seq<int>>, t0: int, t: int, i: int)
    requires Lists(cb, mtx, held, t0, NULL) && 0 <= t < |cb| && (t0 == t || t0 == NULL) && 0 <= i < |held[t]|
    ensures 0 <= held[t][i] < |mtx| && (i > 0 ==> 0 <= held[t][i - 1] < |mtx|)
    ensures var m := held[t][i];
      var cb' := if i == 0 then cb[t := cb[t].(lastmtx := mtx[m].prevmtx)] else cb;
      var mtx' := if i == 0 then mtx else mtx[held[t][i - 1] := mtx[held[t][i - 1]].(prevmtx := mtx[m].prevmtx)];
      Lists(cb', mtx', held[t := Minus(held[t], m)], t, m)
  {
    hide Minus, PriorityRule, WaitRule, Chain;
    assert Chain(mtx, cb[t].lastmtx, held[t]);
    ChainCut(mtx, cb[t].lastmtx, held[t], i);
    var m, h := held[t][i], Minus(held[t], held[t][i]);
    var cb' := if i == 0 then cb[t := cb[t].(lastmtx := mtx[m].prevmtx)] else cb;
    var mtx' := if i == 0 then mtx else mtx[held[t][i - 1] := mtx[held[t][i - 1]].(prevmtx := mtx[m].prevmtx)];
    var held' := held[t := h];
    assert m in held[t] && (i > 0 ==> held[t][i - 1] in held[t]);
    forall u {:trigger held'[u]} | 0 <= u < |cb|
      ensures Chain(mtx', cb'[u].lastmtx, held'[u])
    {
      if u != t {
        assert Chain(mtx, cb[u].lastmtx, held[u]);
        ChainSame(mtx, mtx', cb[u].lastmtx, held[u]);
      }
    }
    forall u {:trigger cb'[u]} | 0 <= u < |cb|
      ensures (u != t ==> PriorityRule(mtx', held'[u], cb'[u])) && WaitRule(mtx', u, cb'[u])
    {
      RulesKept(mtx, mtx', u, held[u], cb[u], cb'[u]);
      assert WaitRule(mtx, u, cb[u]) && (u != t ==> PriorityRule(mtx, held[u], cb[u]));
    }
    assert forall u, v {:trigger v in held'[u]} :: 0 <= u < |cb| && 0 <= v < |mtx| ==> (v in held'[u] <==>
           v != m && mtx'[v].loctsk == u);
  }

  lemma RulesKept(mtx: seq<Mtx>, mtx': seq<Mtx>, t: int, h: seq<int>, x: TCB, x': TCB)
    requires |mtx'| == |mtx| && x' == x.(lastmtx := x'.lastmtx)
    requires forall u {:trigger mtx'[u]} :: 0 <= u < |mtx| ==> mtx'[u] == mtx[u].(prevmtx := mtx'[u].prevmtx)
    ensures PriorityRule(mtx, h, x) ==> PriorityRule(mtx', h, x')
    ensures WaitRule(mtx, t, x) ==> WaitRule(mtx', t, x')
  {
    LowestSame(mtx, mtx', h, x.bpriority);
  }

  /** A mutex that nobody waits for becomes free. */
  lemma Freed(cb: seq<TCB>, mtx: seq<Mtx>, held: seq<seq<int>>, t0: int, m: int)
    requires Lists(cb, mtx, held, t0, m) && 0 <= m < |mtx|
    requires forall u {:trigger cb[u]} :: 0 <= u < |cb| ==> cb[u].tstat.wait != On(m)
    ensures Lists(cb, mtx[m := mtx[m].(loctsk := NULL)], held, t0, NULL)
  {
    var mtx' := mtx[m := mtx[m].(loctsk := NULL)];
    forall u {:trigger held[u]} | 0 <= u < |cb|
      ensures Chain(mtx', cb[u].lastmtx, held[u])
    {
      assert Chain(mtx, cb[u].lastmtx, held[u]);
      ChainSame(mtx, mtx', cb[u].lastmtx, held[u]);
    }
    hide Chain;
    forall u {:trigger cb[u]} | 0 <= u < |cb|
      ensures (u != t0 ==> PriorityRule(mtx', held[u], cb[u])) && WaitRule(mtx', u, cb[u])
    {
      LowestSame(mtx, mtx', held[u], cb[u].bpriority);
      assert WaitRule(mtx, u, cb[u]) && (u != t0 ==> PriorityRule(mtx, held[u], cb[u]));
    }
    hide PriorityRule, WaitRule;
  }

  /** What the priority becomes when mutex m goes from the list. */
  lemma DroppedRule(mtx: seq<Mtx>, h: seq<int>, h': seq<int>, m: int, x: TCB)
    requires PriorityRule(mtx, h, x) && 0 <= m < |mtx| && m in h
    requires forall u {:trigger u in h'} :: u in h' <==> u in h && u != m
    ensures CeilingsAbove(mtx, h', x.bpriority)
    ensures !mtx[m].ceiling || mtx[m].ceilpri != x.priority ==> PriorityRule(mtx, h', x)
  {
    LowestAdded(mtx, h', h, x.bpriority, m);
    LowestIs(mtx, h, x.bpriority);
    LowestIs(mtx, h', x.bpriority);
    assert forall u :: u in h <==> u in h' || u == m;
  }

  /** What it becomes when mutex m, whose ceiling is not below the base priority, is
      added. */
  lemma RaisedRule(mtx: seq<Mtx>, h: seq<int>, m: int, x: TCB)
    requires PriorityRule(mtx, h, x) && 0 <= m < |mtx| && (mtx[m].ceiling ==> mtx[m].ceilpri <= x.bpriority)
    ensures !mtx[m].ceiling ==> PriorityRule(mtx, [m] + h, x)
    ensures mtx[m].ceiling && mtx[m].ceilpri <= x.priority ==>
            PriorityRule(mtx, [m] + h, x.(priority := mtx[m].ceilpri, boosted := true))
    ensures mtx[m].ceiling && mtx[m].ceilpri > x.priority ==> x.boosted && PriorityRule(mtx, [m] + h, x)
  {
    var h' := [m] + h;
    assert m in h' && forall u {:trigger u in h'} {:trigger u in h} :: u in h' <==> u in h || u == m;
    LowestAdded(mtx, h, h', x.bpriority, m);
    LowestIs(mtx, h, x.bpriority);
  }
}

/** The memory image read from an S-record file: a dictionary from start address to a run of bytes.
    One element of a run stands for the two hexadecimal digits of one byte. */
module SRecords {

  import opened Arithmetic
  import opened Bytes
  import opened Options

  type Image = map<int, seq<Byte>>

  function End(m: Image, b: int): int
    requires b in m
  {
    b + |m[b]|
  }

  ghost predicate Apart(m: Image, b: int, c: int)
    requires b in m && c in m
  {
    b == c || End(m, b) < c || End(m, c) < b
  }

  /** Blocks are not empty, and two of them neither overlap nor touch: every block is maximal. */
  ghost predicate Separated(m: Image) {
    && (forall b :: b in m ==> |m[b]| > 0)
    && (forall b, c {:trigger Apart(m, b, c)} :: b in m && c in m ==> Apart(m, b, c))
  }

  ghost predicate Covers(m: Image, b: int, x: int) {
    b in m && b <= x < End(m, b)
  }

  /** The image as a byte map: what is stored at address x, if anything. */
  ghost function Read(m: Image, x: int): Option<Byte> {
    if exists b :: Covers(m, b, x) then var b :| Covers(m, b, x); Some(m[b][x - b]) else None
  }

  lemma ReadIn(m: Image, b: int, x: int)
    requires Separated(m) && Covers(m, b, x)
    ensures Read(m, x) == Some(m[b][x - b])
  {
    forall c | Covers(m, c, x) ensures c == b {
      assert Apart(m, b, c);
    }
  }

  lemma ReadOut(m: Image, x: int)
    requires forall b :: b in m ==> !Covers(m, b, x)
    ensures Read(m, x) == None
  {
  }

  /** Python's data[i:], for an index that is not negative. */
  function From(s: seq<Byte>, i: nat): seq<Byte> {
    if i <= |s| then s[i..] else []
  }

  /** Python's data[:i], for an index that is not negative. */
  function Upto(s: seq<Byte>, i: nat): seq<Byte> {
    if i <= |s| then s[..i] else s
  }

  lemma Member(s: set<int>)
    requires s != {}
    ensures exists c :: c in s
  {
    if forall c :: c !in s {
      assert false;
    }
  }

  /** The keys walked and the keys to come. */
  ghost predicate Split(keys: set<int>, seen: set<int>, todo: set<int>) {
    keys == seen + todo && seen !! todo
  }

  lemma AllSeen(keys: set<int>, seen: set<int>)
    requires Split(keys, seen, {})
    ensures seen == keys
  {
  }

  // ---- set_data -------------------------------------------------------------------------------

  /** Block b overlaps or touches the run of addresses from..to. */
  ghost predicate Touches(m: Image, b: int, from: int, to: int) {
    b in m && from <= End(m, b) && b <= to
  }

  /** A byte map with `data` written over it at `from`. */
  ghost predicate Overridden(m: Image, m': Image, from: int, data: seq<Byte>) {
    forall x :: Read(m', x) == if from <= x < from + |data| then Some(data[x - from]) else Read(m, x)
  }

  /** Having met the blocks `seen` in the loop, set_data has merged those among them that touch the new
      run (now `gone`) with it, into a run at..end. */
  ghost predicate Grown(m: Image, from: int, to: int, seen: set<int>, gone: set<int>, at: int, end: int) {
    && (forall b :: b in gone <==> b in seen && Touches(m, b, from, to))
    && at <= from && to <= end
    && (at == from || at in gone)
    && (end == to || exists b :: b in gone && End(m, b) == end)
    && (forall b :: b in gone ==> at <= b && End(m, b) <= end)
  }

  /** The merged run holds the new bytes, and around them what was stored there before. */
  ghost predicate Holding(m: Image, from: int, data0: seq<Byte>, at: int, data: seq<Byte>) {
    && at <= from && from + |data0| <= at + |data|
    && (forall x {:trigger Read(m, x)} :: at <= x < at + |data| && !(from <= x < from + |data0|) ==>
         Read(m, x) == Some(data[x - at]))
    && data[from - at..from - at + |data0|] == data0
  }

  ghost predicate Merged(m: Image, from: int, data0: seq<Byte>, seen: set<int>, gone: set<int>, at: int,
      data: seq<Byte>) {
    Grown(m, from, from + |data0|, seen, gone, at, at + |data|) && Holding(m, from, data0, at, data)
  }

  /** A block the loop passes over, and only such a block, does not touch the new run. */
  lemma PassedOver(m: Image, from: int, data0: seq<Byte>, seen: set<int>, gone: set<int>, at: int, data: seq<Byte>,
      b: int)
    requires Separated(m) && Merged(m, from, data0, seen, gone, at, data) && b in m && b !in seen
    ensures (End(m, b) < at || from + |data0| < b) <==> !Touches(m, b, from, from + |data0|)
    ensures b <= at <= End(m, b) ==> at == from
  {
    if at < from {
      assert Touches(m, at, from, from + |data0|) && Apart(m, at, b);
    }
  }

  lemma MergedKept(m: Image, from: int, data0: seq<Byte>, seen: set<int>, gone: set<int>, at: int, data: seq<Byte>,
      b: int)
    requires Merged(m, from, data0, seen, gone, at, data) && !Touches(m, b, from, from + |data0|)
    ensures Merged(m, from, data0, seen + {b}, gone, at, data)
  {
  }

  /** Nothing of a block not yet met lies behind a run that a block met before has lengthened. */
  lemma GrownPast(m: Image, from: int, to: int, seen: set<int>, gone: set<int>, at: int, end: int, b: int)
    requires Separated(m) && Grown(m, from, to, seen, gone, at, end) && b in m && b !in seen && Touches(m, b, from, to)
    ensures end != to ==> End(m, b) < end && End(m, b) < to
  {
    if end != to {
      var c :| c in gone && End(m, c) == end;
      assert Apart(m, c, b);
    }
  }

  lemma GrownBy(m: Image, from: int, to: int, seen: set<int>, gone: set<int>, at: int, end: int, b: int, at': int,
      end': int)
    requires Grown(m, from, to, seen, gone, at, end) && Touches(m, b, from, to)
    requires at' == at < b || at' == b <= at == from
    requires end' == if End(m, b) <= end then end else End(m, b)
    ensures Grown(m, from, to, seen + {b}, gone + {b}, at', end')
  {
  }

  /** The block begins inside the run, or right behind it: its part past the run goes to the end. */
  lemma MergedBehind(m: Image, from: int, data0: seq<Byte>, seen: set<int>, gone: set<int>, at: int, data: seq<Byte>,
      b: int)
    requires Separated(m) && Merged(m, from, data0, seen, gone, at, data) && b in m && b !in seen
    requires Touches(m, b, from, from + |data0|) && at < b
    ensures Merged(m, from, data0, seen + {b}, gone + {b}, at, data + From(m[b], from + |data0| - b))
  {
    hide Separated, Read, Grown, Holding;
    var to := from + |data0|;
    var tail := From(m[b], to - b);
    GrownPast(m, from, to, seen, gone, at, at + |data|, b);
    GrownEnd(m, from, to, seen, gone, at, at + |data|);
    GrownBy(m, from, to, seen, gone, at, at + |data|, b, at, at + |data + tail|);
    HoldingBehind(m, from, data0, at, data, b, tail);
  }

  lemma GrownEnd(m: Image, from: int, to: int, seen: set<int>, gone: set<int>, at: int, end: int)
    requires Grown(m, from, to, seen, gone, at, end)
    ensures at <= from && to <= end
  {
  }

  lemma HoldingBehind(m: Image, from: int, data0: seq<Byte>, at: int, data: seq<Byte>, b: int, tail: seq<Byte>)
    requires Separated(m) && Holding(m, from, data0, at, data) && b in m
    requires tail == [] || (b <= at + |data| < End(m, b) && tail == m[b][at + |data| - b..])
    ensures Holding(m, from, data0, at, data + tail)
  {
    hide Separated, Read;
    var data' := data + tail;
    assert data'[from - at..from - at + |data0|] == data[from - at..from - at + |data0|];
    forall x | at + |data| <= x < at + |data'| ensures Read(m, x) == Some(data'[x - at]) {
      ReadIn(m, b, x);
    }
  }

  /** The block begins at or before the run: the run is laid over it. */
  lemma MergedBefore(m: Image, from: int, data0: seq<Byte>, seen: set<int>, gone: set<int>, at: int, data: seq<Byte>,
      b: int)
    requires Separated(m) && Merged(m, from, data0, seen, gone, at, data) && b in m && b !in seen
    requires Touches(m, b, from, from + |data0|) && b <= at <= End(m, b) && at == from
    ensures Merged(m, from, data0, seen + {b}, gone + {b}, b, Upto(m[b], at - b) + data + From(m[b], at - b + |data|))
  {
    hide Separated, Read, Grown, Holding;
    var to := from + |data0|;
    var front, tail := Upto(m[b], at - b), From(m[b], at - b + |data|);
    var data' := front + data + tail;
    GrownPast(m, from, to, seen, gone, at, at + |data|, b);
    GrownEnd(m, from, to, seen, gone, at, at + |data|);
    GrownBy(m, from, to, seen, gone, at, at + |data|, b, b, b + |data'|);
    HoldingBehind(m, from, data0, at, data, b, tail);
    HoldingBefore(m, from, data0, data + tail, b);
    assert front + (data + tail) == data';
  }

  lemma HoldingBefore(m: Image, from: int, data0: seq<Byte>, data: seq<Byte>, b: int)
    requires Separated(m) && Holding(m, from, data0, from, data) && b in m && b <= from <= End(m, b)
    ensures Holding(m, from, data0, b, m[b][..from - b] + data)
  {
    hide Separated, Read;
    var data' := m[b][..from - b] + data;
    assert data'[from - b..from - b + |data0|] == data[..|data0|];
    forall x | b <= x < from ensures Read(m, x) == Some(data'[x - b]) {
      ReadIn(m, b, x);
    }
  }

  ghost function Replaced(m: Image, gone: set<int>, at: int, data: seq<Byte>): Image {
    (map k | k in m && k !in gone :: m[k])[at := data]
  }

  lemma MergedNone(m: Image, from: int, data: seq<Byte>)
    ensures Merged(m, from, data, {}, {}, from, data)
  {
  }

  /** With every block met, replacing the merged ones by the run is the override, and leaves the blocks maximal. */
  lemma MergedAll(m: Image, from: int, data0: seq<Byte>, gone: set<int>, at: int, data: seq<Byte>)
    requires Separated(m) && data0 != [] && Merged(m, from, data0, m.Keys, gone, at, data)
    ensures Separated(Replaced(m, gone, at, data)) && Overridden(m, Replaced(m, gone, at, data), from, data0)
  {
    var m' := Replaced(m, gone, at, data);
    forall b | b in m && b !in gone ensures End(m, b) < at || at + |data| < b {
      Untouched(m, from, data0, gone, at, data, b);
    }
    forall b, c | b in m' && c in m' ensures Apart(m', b, c) {
      if b != at && c != at {
        assert Apart(m, b, c);
      }
    }
    forall x ensures Read(m', x) == if from <= x < from + |data0| then Some(data0[x - from]) else Read(m, x) {
      if at <= x < at + |data| {
        ReadIn(m', at, x);
      } else if b :| Covers(m, b, x) {
        ReadIn(m, b, x);
        ReadIn(m', b, x);
      } else {
        assert forall b :: b in m' && b != at ==> b in m && m'[b] == m[b] && !Covers(m, b, x);
        ReadOut(m, x);
        ReadOut(m', x);
      }
    }
  }

  lemma Untouched(m: Image, from: int, data0: seq<Byte>, gone: set<int>, at: int, data: seq<Byte>, b: int)
    requires Separated(m) && Merged(m, from, data0, m.Keys, gone, at, data) && b in m && b !in gone
    ensures End(m, b) < at || at + |data| < b
  {
    if End(m, b) < from {
      if at < from {
        assert Apart(m, at, b);
      }
    } else {
      assert from + |data0| < b;
      if at + |data| != from + |data0| {
        var c :| c in gone && End(m, c) == at + |data|;
        assert Apart(m, b, c);
      }
    }
  }

  // ---- reading a file -------------------------------------------------------------------------

  /** A line of the file: data for an address, or something else. */
  datatype Line = Record(address: int, data: seq<Byte>) | Other

  /** The byte at x by the lines alone: the last line that covers x decides. */
  ghost function Loaded(lines: seq<Line>, x: int): Option<Byte> {
    if lines == [] then None
    else
      var l := lines[|lines| - 1];
      if l.Record? && l.address <= x < l.address + |l.data| then Some(l.data[x - l.address])
      else Loaded(lines[..|lines| - 1], x)
  }

  /** The image with a run still to be written over it is what the lines say. */
  ghost predicate Pending(m: Image, at: int, data: seq<Byte>, lines: seq<Line>) {
    forall x :: Loaded(lines, x) == if at <= x < at + |data| then Some(data[x - at]) else Read(m, x)
  }

  lemma PendingNone()
    ensures Separated(map[]) && Pending(map[], 0, [], [])
  {
    forall x ensures Loaded([], x) == Read(map[], x) {
      ReadOut(map[], x);
    }
  }

  lemma LoadedLast(lines: seq<Line>, l: Line, x: int)
    ensures Loaded(lines + [l], x) ==
      if l.Record? && l.address <= x < l.address + |l.data| then Some(l.data[x - l.address]) else Loaded(lines, x)
  {
    assert (lines + [l])[..|lines|] == lines;
  }

  lemma PendingOther(m: Image, at: int, data: seq<Byte>, lines: seq<Line>)
    requires Pending(m, at, data, lines)
    ensures Pending(m, at, data, lines + [Other])
  {
    hide Loaded, Read;
    forall x ensures Loaded(lines + [Other], x) == Loaded(lines, x) {
      LoadedLast(lines, Other, x);
    }
  }

  /** The next line follows the run directly: the run grows. */
  lemma PendingMore(m: Image, at: int, data: seq<Byte>, lines: seq<Line>, more: seq<Byte>)
    requires Pending(m, at, data, lines)
    ensures Pending(m, at, data + more, lines + [Record(at + |data|, more)])
  {
    hide Loaded, Read;
    var l := Record(at + |data|, more);
    forall x
      ensures Loaded(lines + [l], x) == if at <= x < at + |data + more| then Some((data + more)[x - at]) else Read(m, x)
    {
      LoadedLast(lines, l, x);
    }
  }

  /** The run is written, and the next line is the new run. */
  lemma PendingWritten(m: Image, m': Image, at: int, data: seq<Byte>, lines: seq<Line>, next: int, more: seq<Byte>)
    requires Pending(m, at, data, lines) && Overridden(m, m', at, data)
    ensures Pending(m', next, more, lines + [Record(next, more)])
  {
    hide Loaded, Read;
    var l := Record(next, more);
    forall x ensures Loaded(lines + [l], x) == if next <= x < next + |more| then Some(more[x - next]) else Read(m', x) {
      LoadedLast(lines, l, x);
    }
  }

  lemma PendingDone(m: Image, m': Image, at: int, data: seq<Byte>, lines: seq<Line>)
    requires Pending(m, at, data, lines) && Overridden(m, m', at, data)
    ensures forall x :: Read(m', x) == Loaded(lines, x)
  {
    hide Loaded, Read;
  }

  lemma WriteNone(m: Image, at: int)
    ensures Overridden(m, m, at, [])
  {
  }

  // ---- get_data -------------------------------------------------------------------------------

  ghost predicate Holds(m: Image, b: int, from: int, size: nat) {
    b in m && b <= from && from + size <= End(m, b)
  }

  ghost predicate Defined(m: Image, from: int, size: nat) {
    forall x :: from <= x < from + size ==> Read(m, x).Some?
  }

  /** Since blocks are maximal, a range whose every byte is defined lies within one block. */
  lemma {:induction false} OneBlock(m: Image, from: int, size: nat) returns (b: int)
    requires Separated(m) && size > 0 && Defined(m, from, size)
    ensures Holds(m, b, from, size)
  {
    assert Read(m, from + size - 1).Some?;
    var c :| Covers(m, c, from + size - 1);
    b := c;
    if size > 1 {
      b := OneBlock(m, from, size - 1);
      assert Apart(m, b, c);
    }
  }

  lemma HeldDefined(m: Image, b: int, from: int, size: nat)
    requires Separated(m) && Holds(m, b, from, size)
    ensures forall x :: from <= x < from + size ==> Read(m, x) == Some(m[b][x - b])
  {
    forall x | from <= x < from + size ensures Read(m, x) == Some(m[b][x - b]) {
      ReadIn(m, b, x);
    }
  }

  // ---- copy_data ------------------------------------------------------------------------------

  ghost predicate Overlaps(m: Image, b: int, from: int, size: nat) {
    b in m && from < End(m, b) && b < from + size
  }

  function Lower(b: int, from: int): int {
    if b < from then from else b
  }

  function Upper(end: int, to: int): int {
    if end < to then end else to
  }

  /** The bytes of block b that lie in the source range. */
  ghost function Part(m: Image, b: int, from: int, size: nat): seq<Byte>
    requires Overlaps(m, b, from, size)
  {
    m[b][Lower(b, from) - b..Upper(End(m, b), from + size) - b]
  }

  /** The parts of the blocks `seen`, keyed by where they go; home[k] is the block the part at k is of. */
  ghost predicate Pieces(m: Image, seen: set<int>, from: int, shift: int, size: nat, list: Image, home: map<int, int>) {
    && list.Keys == home.Keys
    && (forall k :: k in home ==>
         (home[k] in seen && Overlaps(m, home[k], from, size)
         && k == Lower(home[k], from) + shift && list[k] == Part(m, home[k], from, size)))
    && (forall b :: b in seen && Overlaps(m, b, from, size) ==>
         Lower(b, from) + shift in home && home[Lower(b, from) + shift] == b)
  }

  lemma PartNotEmpty(m: Image, b: int, from: int, size: nat)
    requires Separated(m) && Overlaps(m, b, from, size) && size > 0
    ensures |Part(m, b, from, size)| > 0
  {
  }

  lemma OnePartEach(m: Image, b: int, c: int, from: int, size: nat)
    requires Separated(m) && Overlaps(m, b, from, size) && Overlaps(m, c, from, size) && b < c
    ensures Upper(End(m, b), from + size) < Lower(c, from)
  {
    assert Apart(m, b, c);
  }

  lemma PieceAdded(m: Image, seen: set<int>, from: int, shift: int, size: nat, list: Image, home: map<int, int>, b: int)
    requires Separated(m) && Pieces(m, seen, from, shift, size, list, home) && b !in seen && Overlaps(m, b, from, size)
    ensures var k := Lower(b, from) + shift;
      Pieces(m, seen + {b}, from, shift, size, list[k := Part(m, b, from, size)], home[k := b])
  {
    hide Part, Separated;
    var k := Lower(b, from) + shift;
    if k in home {
      var c := home[k];
      if b < c {
        OnePartEach(m, b, c, from, size);
      } else {
        OnePartEach(m, c, b, from, size);
      }
    }
  }

  ghost predicate AllEmpty(list: Image) {
    forall k :: k in list ==> |list[k]| == 0
  }

  lemma PiecesNone(m: Image, from: int, shift: int, size: nat)
    ensures Pieces(m, {}, from, shift, size, map[], map[])
  {
  }

  lemma PieceSkipped(m: Image, seen: set<int>, from: int, shift: int, size: nat, list: Image, home: map<int, int>,
      b: int)
    requires Pieces(m, seen, from, shift, size, list, home) && !Overlaps(m, b, from, size)
    ensures Pieces(m, seen + {b}, from, shift, size, list, home)
  {
  }

  /** The list holds exactly the defined bytes of the source range, moved. */
  ghost predicate Moved(m: Image, list: Image, from: int, shift: int, size: nat) {
    forall x :: Read(list, x) == if from <= x - shift < from + size then Read(m, x - shift) else None
  }

  /** The pieces of all blocks are the defined bytes of the source range, moved. */
  lemma PiecesAll(m: Image, from: int, shift: int, size: nat, list: Image, home: map<int, int>)
    requires Separated(m) && Pieces(m, m.Keys, from, shift, size, list, home)
    ensures size == 0 ==> AllEmpty(list)
    ensures size > 0 ==> Separated(list)
    ensures size > 0 ==> Moved(m, list, from, shift, size)
  {
    assert forall k :: k in list ==> k in home;
    if size == 0 {
      return;
    }
    forall k | k in list ensures |list[k]| > 0 {
      PartNotEmpty(m, home[k], from, size);
    }
    forall k, l | k in list && l in list ensures Apart(list, k, l) {
      if home[k] < home[l] {
        OnePartEach(m, home[k], home[l], from, size);
      } else if home[l] < home[k] {
        OnePartEach(m, home[l], home[k], from, size);
      }
    }
    forall x ensures Read(list, x) == if from <= x - shift < from + size then Read(m, x - shift) else None {
      PiecesRead(m, from, shift, size, list, home, x);
    }
  }

  lemma PiecesRead(m: Image, from: int, shift: int, size: nat, list: Image, home: map<int, int>, x: int)
    requires Separated(m) && Separated(list) && Pieces(m, m.Keys, from, shift, size, list, home) && size > 0
    ensures Read(list, x) == if from <= x - shift < from + size then Read(m, x - shift) else None
  {
    hide Separated, Read, Pieces;
    var y := x - shift;
    if k :| Covers(list, k, x) {
      PieceReads(m, from, shift, size, list, home, k, x);
    } else {
      ReadOut(list, x);
      if from <= y < from + size {
        if b :| Covers(m, b, y) {
          PieceCovers(m, from, shift, size, list, home, b, x);
          assert false;
        }
        ReadOut(m, y);
      }
    }
  }

  lemma PieceReads(m: Image, from: int, shift: int, size: nat, list: Image, home: map<int, int>, k: int, x: int)
    requires Separated(m) && Separated(list) && Pieces(m, m.Keys, from, shift, size, list, home) && Covers(list, k, x)
    ensures Read(list, x) == Read(m, x - shift) && from <= x - shift < from + size
  {
    hide Separated, Read;
    assert k in home;
    ReadIn(list, k, x);
    ReadIn(m, home[k], x - shift);
  }

  lemma PieceCovers(m: Image, from: int, shift: int, size: nat, list: Image, home: map<int, int>, b: int, x: int)
    requires Pieces(m, m.Keys, from, shift, size, list, home) && from <= x - shift < from + size
    requires Covers(m, b, x - shift)
    ensures Covers(list, Lower(b, from) + shift, x)
  {
    assert Overlaps(m, b, from, size);
  }

  /** The defined bytes at from..from+size of m stand at to in m'; all else is as in m. */
  ghost predicate Copied(m: Image, m': Image, from: int, to: int, size: nat) {
    forall x :: Read(m', x) ==
      (if to <= x < to + size && Read(m, from + (x - to)).Some? then Read(m, from + (x - to)) else Read(m, x))
  }

  lemma CopiedNone(m: Image, from: int, to: int)
    ensures Copied(m, m, from, to, 0)
  {
  }

  lemma HeldOnce(m: Image, b: int, from: int, size: nat)
    requires Separated(m) && Holds(m, b, from, size) && size > 0
    ensures Defined(m, from, size)
    ensures forall c :: Holds(m, c, from, size) ==> c == b
  {
    HeldDefined(m, b, from, size);
    forall c | Holds(m, c, from, size) ensures c == b {
      assert Apart(m, b, c);
    }
  }

  /** Of the pieces, those at `done` have been written. */
  ghost predicate Written(m: Image, list: Image, done: set<int>, m': Image) {
    forall x :: Read(m', x) == var k := Read(Only(list, done), x); if k.Some? then k else Read(m, x)
  }

  ghost function Only(list: Image, done: set<int>): Image {
    map k | k in list && k in done :: list[k]
  }

  lemma OnlySeparated(list: Image, done: set<int>)
    requires Separated(list)
    ensures Separated(Only(list, done))
  {
    var l := Only(list, done);
    forall b, c | b in l && c in l ensures Apart(l, b, c) {
      assert Apart(list, b, c);
    }
  }

  lemma WrittenMore(m: Image, list: Image, done: set<int>, m1: Image, k: int, m2: Image)
    requires Separated(list) && k in list && Written(m, list, done, m1) && Overridden(m1, m2, k, list[k])
    ensures Written(m, list, done + {k}, m2)
  {
    var l1, l2 := Only(list, done), Only(list, done + {k});
    OnlySeparated(list, done);
    OnlySeparated(list, done + {k});
    forall x ensures Read(m2, x) == var r := Read(l2, x); if r.Some? then r else Read(m, x) {
      if Covers(list, k, x) {
        ReadIn(l2, k, x);
      } else if c :| Covers(l1, c, x) {
        ReadIn(l1, c, x);
        assert Covers(l2, c, x);
        ReadIn(l2, c, x);
      } else {
        ReadOut(l1, x);
        assert forall c :: c in l2 ==> c == k || c in l1;
        ReadOut(l2, x);
      }
    }
  }

  lemma NotEmpty(m: Image, b: int)
    requires Separated(m) && b in m
    ensures |m[b]| > 0
  {
  }

  lemma WrittenNone(m: Image, list: Image)
    ensures Written(m, list, {}, m)
  {
  }

  lemma WrittenAll(m: Image, list: Image, from: int, to: int, size: nat, m': Image)
    requires Written(m, list, list.Keys, m') && Moved(m, list, from, to - from, size)
    ensures Copied(m, m', from, to, size)
  {
    assert Only(list, list.Keys) == list;
    forall x ensures Read(m', x) ==
      (if to <= x < to + size && Read(m, from + (x - to)).Some? then Read(m, from + (x - to)) else Read(m, x)) {
      assert x - (to - from) == from + (x - to);
    }
  }

  // ---- get_value ------------------------------------------------------------------------------

  /** int(digits, 16): the value of the bytes, most significant first. */
  function Big(s: seq<Byte>): (v: int)
    ensures 0 <= v < Power256(|s|)
  {
    if s == [] then 0 else Big(s[..|s| - 1]) * 256 + s[|s| - 1]
  }

  function Reversed(s: seq<Byte>): (r: seq<Byte>)
    ensures |r| == |s|
    ensures forall i :: 0 <= i < |s| ==> r[i] == s[|s| - 1 - i]
  {
    if s == [] then [] else [s[|s| - 1]] + Reversed(s[..|s| - 1])
  }

  /** The first byte is the most significant one. */
  lemma {:induction false} BigFirst(s: seq<Byte>)
    requires s != []
    ensures Big(s) == s[0] * Power256(|s| - 1) + Big(s[1..])
  {
    if |s| > 1 {
      var r, last := s[..|s| - 1], s[|s| - 1];
      BigFirst(r);
      assert s[1..][..|s| - 2] == r[1..];
      Shifted(s[0], Power256(|s| - 2), Big(r[1..]), last);
    }
  }

  lemma Shifted(a: int, p: int, b: int, c: int)
    ensures (a * p + b) * 256 + c == a * (256 * p) + (b * 256 + c)
  {
  }

  /** Laying out the value of some bytes gives back the bytes. */
  lemma {:induction false} StoredBig(s: seq<Byte>)
    ensures Stored(Big(s), |s|) == Reversed(s)
  {
    if s != [] {
      StoredBig(s[..|s| - 1]);
    }
  }

  /** Two's complement: numbers 256^n apart have the same n bytes. */
  lemma {:induction false} StoredWraps(v: int, n: nat)
    ensures Stored(v - Power256(n), n) == Stored(v, n)
    decreases n
  {
    if n > 0 {
      var p := Power256(n - 1);
      assert v - 256 * p == 256 * (v / 256 - p) + v % 256;
      assert (v - 256 * p) / 256 == v / 256 - p && (v - 256 * p) % 256 == v % 256;
      StoredWraps(v / 256, n - 1);
    }
  }

  /** A number is fixed by its bytes, within any window of 256^n numbers. */
  lemma {:induction false} StoredInjective(v: int, w: int, n: nat)
    requires Stored(v, n) == Stored(w, n)
    requires -Power256(n) < v - w < Power256(n)
    ensures v == w
    decreases n
  {
    if n > 0 {
      var p := Power256(n - 1);
      assert Stored(v, n)[0] == Stored(w, n)[0] && Stored(v, n)[1..] == Stored(w, n)[1..];
      assert v - w == 256 * (v / 256 - w / 256);
      StoredInjective(v / 256, w / 256, n - 1);
    }
  }

  /** The top bit of a number of n bytes, as the test of bit 8n-1 finds it, says it is in the upper half. */
  lemma SignBit(v: int, n: nat)
    requires n > 0 && 0 <= v < Power256(n)
    ensures v / (128 * Power256(n - 1)) % 2 != 0 <==> 2 * v >= Power256(n)
  {
    var q := 128 * Power256(n - 1);
    var d := v / q - (if v < q then 0 else 1);
    assert q * d == (if v < q then v else v - q) - v % q;
    MulAtLeast(q, d);
  }

  /** The bytes taken from the end, one at a time. */
  method SwapOrder(target: seq<Byte>) returns (reversed: seq<Byte>)
    ensures reversed == Reversed(target)
  {
    reversed := [];
    var tmp := target;
    while tmp != []
      invariant |tmp| <= |target| && tmp == target[..|tmp|]
      invariant reversed + Reversed(tmp) == Reversed(target)
    {
      reversed := reversed + [tmp[|tmp| - 1]];
      tmp := tmp[..|tmp| - 1];
    }
  }

  class SRecord {

    var dump: Image
    var endianLittle: bool

    ghost predicate Valid()
      reads this
    {
      Separated(dump)
    }

    /** Reading a file: runs of adjacent lines are gathered before they are written, but every address ends up
        holding what the last line that covers it says. */
    constructor (lines: seq<Line>)
      ensures Valid() && endianLittle
      ensures forall x :: Read(dump, x) == Loaded(lines, x)
    {
      dump := map[];
      endianLittle := true;
      new;
      hide Read, Separated, Loaded, Overridden, Pending;
      PendingNone();
      var prevAddress, prevData: seq<Byte> := 0, [];
      for i := 0 to |lines|
        invariant Valid() && endianLittle
        invariant Pending(dump, prevAddress, prevData, lines[..i])
      {
        assert lines[..i + 1] == lines[..i] + [lines[i]];
        match lines[i]
        case Other =>
          PendingOther(dump, prevAddress, prevData, lines[..i]);
        case Record(address, data) =>
          if address == prevAddress + |prevData| {
            PendingMore(dump, prevAddress, prevData, lines[..i], data);
            prevData := prevData + data;
          } else {
            ghost var before := dump;
            WriteNone(dump, prevAddress);
            if |prevData| > 0 {
              SetData(prevAddress, prevData);
            }
            PendingWritten(before, dump, prevAddress, prevData, lines[..i], address, data);
            prevAddress := address;
            prevData := data;
          }
      }
      assert lines[..|lines|] == lines;
      ghost var before := dump;
      WriteNone(dump, prevAddress);
      if |prevData| > 0 {
        SetData(prevAddress, prevData);
      }
      PendingDone(before, dump, prevAddress, prevData, lines);
    }

    method GetData(address: int, size: nat) returns (r: Option<seq<Byte>>)
      requires Valid()
      ensures size > 0 ==> (r.Some? <==> Defined(dump, address, size))
      ensures size == 0 ==> (r.Some? <==> exists b :: Holds(dump, b, address, 0))
      ensures r.Some? ==> |r.value| == size && forall x :: address <= x < address + size ==>
              Read(dump, x) == Some(r.value[x - address])
      ensures r.Some? ==>
                exists b :: Holds(dump, b, address, size) && r.value == dump[b][address - b..address - b + size]
    {
      var todo := dump.Keys;
      while todo != {}
        invariant todo <= dump.Keys
        invariant forall b :: b in dump && b !in todo ==> !Holds(dump, b, address, size)
        decreases |todo|
      {
        Member(todo);
        var block :| block in todo;
        if block <= address && address + size <= block + |dump[block]| {
          assert Holds(dump, block, address, size);
          HeldDefined(dump, block, address, size);
          return Some(dump[block][address - block..address - block + size]);
        }
        todo := todo - {block};
      }
      if size > 0 && Defined(dump, address, size) {
        ghost var b := OneBlock(dump, address, size);
        assert false;
      }
      return None;
    }

    /** Whatever the overlaps and whatever the order in which the dictionary is walked, writing is override. */
    method SetData(address0: int, data0: seq<Byte>)
      requires Valid()
      modifies `dump
      ensures Valid() && Overridden(old(dump), dump, address0, data0)
    {
      hide Separated, Merged, Touches, Grown, Holding, Overridden, Read;
      MergedNone(dump, address0, data0);
      WriteNone(dump, address0);
      if data0 == [] {
        return;
      }
      var address, data := address0, data0;
      var endAddress := address + |data|;
      var toDelete: set<int> := {};
      var todo := dump.Keys;
      ghost var seen: set<int> := {};
      while todo != {}
        invariant Split(dump.Keys, seen, todo)
        invariant dump == old(dump)
        invariant Merged(dump, address0, data0, seen, toDelete, address, data)
        decreases |todo|
      {
        Member(todo);
        var block :| block in todo;
        var blockData := dump[block];
        PassedOver(dump, address0, data0, seen, toDelete, address, data, block);
        if block + |blockData| < address || endAddress < block {
          MergedKept(dump, address0, data0, seen, toDelete, address, data, block);
        } else if address < block {
          MergedBehind(dump, address0, data0, seen, toDelete, address, data, block);
          data := data + From(blockData, endAddress - block);
          toDelete := toDelete + {block};
        } else {
          MergedBefore(dump, address0, data0, seen, toDelete, address, data, block);
          var offset := address - block;
          address := block;
          data := Upto(blockData, offset) + data + From(blockData, offset + |data|);
          toDelete := toDelete + {block};
        }
        todo, seen := todo - {block}, seen + {block};
      }
      AllSeen(dump.Keys, seen);
      MergedAll(dump, address0, data0, toDelete, address, data);
      dump := map k | k in dump && k !in toDelete :: dump[k];
      dump := dump[address := data];
    }

    /** The defined bytes of the source range move to the target as they were before the call, also where the
        two ranges overlap; target bytes whose source is undefined stay. */
    method CopyData(from: int, to: int, size: nat)
      requires Valid()
      modifies `dump
      ensures Valid()
      ensures Copied(old(dump), dump, from, to, size)
    {
      hide Separated, Read, Defined, Copied, Written, Moved, Overridden, Only;
      var copyList := CollectPieces(from, to, size);
      ghost var before := dump;
      WrittenNone(before, copyList);
      var left := copyList.Keys;
      ghost var done: set<int> := {};
      while left != {}
        invariant Valid() && Split(copyList.Keys, done, left)
        invariant if size > 0 then Written(before, copyList, done, dump) else dump == before
        decreases |left|
      {
        Member(left);
        var addr :| addr in left;
        ghost var mid := dump;
        if |copyList[addr]| > 0 {
          SetData(addr, copyList[addr]);
        }
        if size > 0 {
          NotEmpty(copyList, addr);
          WrittenMore(before, copyList, done, mid, addr, dump);
        }
        left, done := left - {addr}, done + {addr};
      }
      AllSeen(copyList.Keys, done);
      if size > 0 {
        WrittenAll(before, copyList, from, to, size, dump);
      } else {
        CopiedNone(before, from, to);
      }
    }

    /** The first loop of copy_data: the defined bytes of the source range, at their new places. */
    method CollectPieces(from: int, to: int, size: nat) returns (copyList: Image)
      requires Valid()
      ensures size > 0 ==> Separated(copyList) && Moved(dump, copyList, from, to - from, size)
      ensures size == 0 ==> AllEmpty(copyList)
    {
      hide Separated, Read, Defined, Moved, Pieces, Part, AllEmpty;
      copyList := map[];
      ghost var home: map<int, int> := map[];
      var todo := dump.Keys;
      PiecesNone(dump, from, to - from, size);
      ghost var seen: set<int> := {};
      while todo != {}
        invariant Split(dump.Keys, seen, todo)
        invariant Pieces(dump, seen, from, to - from, size, copyList, home)
        decreases |todo|
      {
        Member(todo);
        var block :| block in todo;
        if !(block + |dump[block]| <= from || from + size <= block) {
          var piece := PieceOf(block, from, size);
          PieceAdded(dump, seen, from, to - from, size, copyList, home, block);
          var copyTo := to + (Lower(block, from) - from);
          copyList := copyList[copyTo := piece];
          home := home[copyTo := block];
        } else {
          PieceSkipped(dump, seen, from, to - from, size, copyList, home, block);
        }
        todo, seen := todo - {block}, seen + {block};
      }
      AllSeen(dump.Keys, seen);
      PiecesAll(dump, from, to - from, size, copyList, home);
    }

    method PieceOf(block: int, from: int, size: nat) returns (piece: seq<Byte>)
      requires Valid() && Overlaps(dump, block, from, size)
      ensures piece == Part(dump, block, from, size)
    {
      hide Separated, Read, Defined;
      var copyFrom := Lower(block, from);
      var copySize := Upper(End(dump, block), from + size) - copyFrom;
      assert Holds(dump, block, copyFrom, copySize);
      if copySize > 0 {
        HeldOnce(dump, block, copyFrom, copySize);
      }
      var found := GetData(copyFrom, copySize);
      piece := found.value;
    }

    /** The value is the number whose bytes, least significant first, are those stored - read backwards
        when the image is big-endian - and it lies in the signed or unsigned range. */
    method GetValue(address: int, size: nat, signed: bool) returns (r: Option<int>)
      requires Valid() && size > 0
      ensures r.Some? <==> Defined(dump, address, size)
      ensures r.Some? ==> forall i :: 0 <= i < size ==>
        Read(dump, if endianLittle then address + i else address + size - 1 - i) == Some(Stored(r.value, size)[i])
      ensures r.Some? && signed ==> -Power256(size) <= 2 * r.value < Power256(size)
      ensures r.Some? && !signed ==> 0 <= r.value < Power256(size)
    {
      hide Read, Separated, Big, Power256, Stored;
      var found := GetData(address, size);
      if found == None {
        return None;
      }
      var target := found.value;
      var value;
      if endianLittle {
        var reversed := SwapOrder(target);
        value := Big(reversed);
        StoredBig(reversed);
      } else {
        value := Big(target);
        StoredBig(target);
      }
      SignBit(value, size);
      if signed && value / (128 * Power256(size - 1)) % 2 != 0 {
        StoredWraps(value, size);
        value := value - Power256(size);
      }
      return Some(value);
    }
  }
}

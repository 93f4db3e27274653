/** The serial interface driver (syssvc/serial.c:306-433, 462-488, 553-701): one binary
    semaphore per direction says "not full" or "not empty" and at the same time keeps
    the tasks apart.

    Every method is one section under the spin lock, or one semaphore call; tasks and
    the two interrupt callbacks may interleave them in any way.  The serial I/O device
    decides whether it takes a character; the semaphores are not released by force.
  */
module Serial {

  import opened Rings
  import opened FlowControl

  const CR := 13
  const LF := 10

  /** What a task has to write for buf: a CR before every LF. */
  ghost function Expand(buf: seq<int>, crlf: bool): seq<int> {
    if buf == [] then []
    else Expand(buf[..|buf| - 1], crlf) + (if buf[|buf| - 1] == LF && crlf then [CR, LF] else [buf[|buf| - 1]])
  }

  lemma ExpandNext(buf: seq<int>, pos: int, crlf: bool)
    requires 0 <= pos < |buf|
    ensures Expand(buf[..pos + 1], crlf) == Expand(buf[..pos], crlf) + (if buf[pos] == LF && crlf then [CR, LF]
            else [buf[pos]])
  {
    assert buf[..pos + 1][..pos] == buf[..pos];
  }

  /** The characters without the CR before each LF. */
  ghost function Stripped(s: seq<int>): seq<int> {
    if s == [] then []
    else if s[|s| - 1] == LF && |s| > 1 then Stripped(s[..|s| - 2]) + [LF]
    else Stripped(s[..|s| - 1]) + [s[|s| - 1]]
  }

  /** Nothing but these CRs is added, and none is missing. */
  lemma {:induction false} ExpandAdds(buf: seq<int>, crlf: bool)
    ensures !crlf ==> Expand(buf, crlf) == buf
    ensures crlf ==> Stripped(Expand(buf, crlf)) == buf
    ensures crlf ==> forall i {:trigger Expand(buf, crlf)[i]} :: 0 <= i < |Expand(buf, crlf)| ==>
              Expand(buf, crlf)[i] == LF ==> i > 0 && Expand(buf, crlf)[i - 1] == CR
  {
    if buf != [] {
      var r, e := buf[..|buf| - 1], Expand(buf, crlf);
      ExpandAdds(r, crlf);
      assert buf == r + [buf[|buf| - 1]];
      if crlf && buf[|buf| - 1] == LF {
        assert e[..|e| - 2] == Expand(r, crlf);
      } else {
        assert e[..|e| - 1] == Expand(r, crlf);
      }
    }
  }

  /** A task in serial_wri_dat: how far it is, whether the CR of the next LF is already
      written, and `full`, its variable buffer_full: it has no token. */
  datatype Writer = Writer(buf: seq<int>, pos: int, cr: bool, full: bool, put: seq<int>) {
    ghost predicate Progress(crlf: bool) {
      && 0 <= pos <= |buf| && (cr ==> pos < |buf| && buf[pos] == LF && crlf)
      && put == Expand(buf[..pos], crlf) + if cr then [CR] else []
    }

    /** The next character it writes. */
    function Char(crlf: bool): int
      requires 0 <= pos < |buf|
    {
      if buf[pos] == LF && crlf && !cr then CR else buf[pos]
    }

    function After(crlf: bool, bufferFull: bool): Writer
      requires 0 <= pos < |buf|
    {
      if buf[pos] == LF && crlf && !cr then this.(cr := true, full := bufferFull, put := put + [CR])
      else this.(pos := pos + 1, cr := false, full := bufferFull, put := put + [buf[pos]])
    }

    lemma Proceeds(crlf: bool, bufferFull: bool)
      requires Progress(crlf) && pos < |buf|
      ensures After(crlf, bufferFull).Progress(crlf)
    {
      ExpandNext(buf, pos, crlf);
    }
  }

  /** A task in serial_rea_dat: `empty` is its variable buffer_empty: it has no token. */
  datatype Reader = Reader(len: int, got: seq<int>, empty: bool)

  /** The tokens are with the tasks that believe they may go on without waiting. */
  ghost predicate WritersSound(writers: map<int, Writer>, tokens: set<int>, crlf: bool) {
    && (forall w {:trigger w in tokens} {:trigger w in writers} :: w in tokens <==> w in writers && !writers[w].full)
    && (forall w {:trigger w in writers} :: w in writers ==> writers[w].Progress(crlf))
  }

  ghost predicate ReadersSound(readers: map<int, Reader>, tokens: set<int>) {
    && (forall r {:trigger r in tokens} {:trigger r in readers} :: r in tokens <==> r in readers && !readers[r].empty)
    && (forall r {:trigger r in readers} :: r in readers ==> |readers[r].got| <= readers[r].len)
  }

  lemma WriterGone(writers: map<int, Writer>, tokens: set<int>, crlf: bool, w: int)
    requires WritersSound(writers, tokens, crlf) && w in writers
    ensures WritersSound(writers - {w}, tokens - {w}, crlf) && (w in tokens <==> !writers[w].full)
    ensures writers[w].full ==> tokens - {w} == tokens
  {
  }

  lemma ReaderGone(readers: map<int, Reader>, tokens: set<int>, r: int)
    requires ReadersSound(readers, tokens) && r in readers
    ensures ReadersSound(readers - {r}, tokens - {r}) && (r in tokens <==> !readers[r].empty)
    ensures readers[r].empty ==> tokens - {r} == tokens
  {
  }

  /** How many of n characters the device takes before it refuses one. */
  ghost function Willing(takes: seq<bool>, n: int): (r: int)
    requires |takes| >= n
    ensures 0 < n ==> 0 <= r <= n
    ensures n <= 0 ==> r == 0
  {
    if n <= 0 || !takes[0] then 0 else 1 + Willing(takes[1..], n - 1)
  }

  class SerialPort {
    const crlf: bool                 // IOCTL_CRLF
    const sndBuffer: array<int>
    const rcvBuffer: array<int>
    var fcsnd: bool                  // IOCTL_FCSND
    var fcany: bool                  // IOCTL_FCANY
    var fcrcv: bool                  // IOCTL_FCRCV
    var sndReadPtr: int
    var sndWritePtr: int
    var sndCount: int
    var sndStopped: bool
    var rcvReadPtr: int
    var rcvWritePtr: int
    var rcvCount: int
    var rcvStopped: bool
    var rcvFcChr: int
    var sndEnabled: bool             // the send callback is enabled
    var sndSem: int
    var rcvSem: int
    var writers: map<int, Writer>
    var readers: map<int, Reader>
    ghost var sndTokens: set<int>    // the writers that have taken the semaphore
    ghost var rcvTokens: set<int>
    var sndPending: int              // callbacks about to signal
    var rcvPending: int
    ghost var accepted: seq<int>     // all characters written
    ghost var given: seq<int>        // the characters the device has taken
    ghost var stored: seq<int>       // all characters received into the buffer
    ghost var delivered: seq<int>    // the characters read
    ghost var fcGiven: seq<int>      // the STARTs and STOPs the device has taken
    ghost var fcSteps: seq<Step>     // the decisions to stop or restart the other side, and the send callbacks

    ghost function RcvFlow(): Flow
      reads this`rcvStopped, this`rcvFcChr, this`fcGiven
    {
      Flow(rcvStopped, rcvFcChr, fcGiven)
    }

    /** The history of the flow control. */
    ghost predicate Flowing()
      reads this`rcvStopped, this`rcvFcChr, this`fcGiven, this`fcSteps
    {
      RcvFlow() == Run(fcSteps)
    }

    ghost function SndData(): seq<int>
      reads this`sndReadPtr, this`sndCount, sndBuffer
    {
      if 0 <= sndReadPtr <= sndBuffer.Length && 0 <= sndCount <= sndBuffer.Length then
        Ring(sndBuffer[..], sndReadPtr, sndCount)
      else []
    }

    ghost function RcvData(): seq<int>
      reads this`rcvReadPtr, this`rcvCount, rcvBuffer
    {
      if 0 <= rcvReadPtr <= rcvBuffer.Length && 0 <= rcvCount <= rcvBuffer.Length then
        Ring(rcvBuffer[..], rcvReadPtr, rcvCount)
      else []
    }

    /** The send side: there is exactly one of the semaphore's count, a writer's token, a
        signal to come, and a full buffer; no character is lost or out of order; and the
        device will ask for whatever can be sent. */
    ghost predicate Sending()
      reads this`sndReadPtr, this`sndWritePtr, this`sndCount, this`sndStopped, this`sndSem, this`sndTokens
      reads this`sndPending
      reads this`accepted, this`given, this`sndEnabled, this`rcvFcChr, sndBuffer
    {
      && 0 < sndBuffer.Length && 0 <= sndReadPtr < sndBuffer.Length && 0 <= sndCount <= sndBuffer.Length
      && sndWritePtr == Rings.After(sndReadPtr, sndCount, sndBuffer.Length)
      && 0 <= sndSem && 0 <= sndPending && sndSem + |sndTokens| + sndPending + (if sndCount == sndBuffer.Length then 1
         else 0) == 1
      && given + SndData() == accepted
      && (rcvFcChr != NONE || (sndCount > 0 && !sndStopped) ==> sndEnabled)
    }

    ghost predicate Receiving()
      reads this`rcvReadPtr, this`rcvWritePtr, this`rcvCount, this`rcvSem, this`rcvTokens, this`rcvPending
      reads this`stored, this`delivered, rcvBuffer
    {
      && 0 < rcvBuffer.Length && 0 <= rcvReadPtr < rcvBuffer.Length && 0 <= rcvCount <= rcvBuffer.Length
      && rcvWritePtr == Rings.After(rcvReadPtr, rcvCount, rcvBuffer.Length)
      && 0 <= rcvSem && 0 <= rcvPending && rcvSem + |rcvTokens| + rcvPending + (if rcvCount == 0 then 1 else 0) == 1
      && delivered + RcvData() == stored
    }

    ghost predicate Tasks()
      reads this`writers, this`readers, this`sndTokens, this`rcvTokens
    {
      WritersSound(writers, sndTokens, crlf) && ReadersSound(readers, rcvTokens)
    }

    ghost predicate Valid()
      reads this, sndBuffer, rcvBuffer
    {
      sndBuffer != rcvBuffer && Sending() && Receiving() && Tasks() && Flowing()
    }

    /** What the counts mean: at most one task has a token, and for it the buffer has
        room, or is not empty; a signal to come finds the semaphore at 0; and when
        nobody can send, the buffer is full and, unless the other side has stopped it,
        the device will ask for its characters. */
    lemma TokenLaws()
      requires Valid()
      ensures 0 <= sndSem <= 1 && 0 <= rcvSem <= 1 && |sndTokens| <= 1 && |rcvTokens| <= 1
      ensures forall w :: w in sndTokens ==> sndCount < sndBuffer.Length && sndTokens == {w} && sndSem == 0
      ensures forall r :: r in rcvTokens ==> rcvCount > 0 && rcvTokens == {r} && rcvSem == 0
      ensures (sndPending > 0 ==> sndSem == 0) && (rcvPending > 0 ==> rcvSem == 0)
      ensures sndSem == 0 && sndTokens == {} && sndPending == 0 ==> sndCount == sndBuffer.Length && (!sndStopped ==>
              sndEnabled)
      ensures rcvSem == 0 && rcvTokens == {} && rcvPending == 0 ==> rcvCount == 0
    {
      hide SerialPort.Flowing, Ring, Rings.After, SerialPort.Tasks;
      forall w | w in sndTokens
        ensures sndCount < sndBuffer.Length && sndTokens == {w} && sndSem == 0
      {
        OneToken(sndTokens, w);
        assert sndTokens == (sndTokens - {w}) + {w};
      }
      forall r | r in rcvTokens
        ensures rcvCount > 0 && rcvTokens == {r} && rcvSem == 0
      {
        OneToken(rcvTokens, r);
        assert rcvTokens == (rcvTokens - {r}) + {r};
      }
    }

    /** In every state of a port: whether the other side has been, or will be, told what the
        driver has decided. */
    lemma FlowLaw()
      requires Valid()
      ensures RcvFlow().Agrees() <==> Overtaken(fcSteps) % 2 == 0
    {
      hide SerialPort.Sending, SerialPort.Receiving, SerialPort.Tasks, Run, Overtaken;
      AgreesExactly(fcSteps);
    }

    /** serial_opn_por: the buffers are empty; the semaphores have their initial counts 1
        and 0. */
    constructor (sndBufsz: int, rcvBufsz: int, crlf: bool)
      requires 0 < sndBufsz && 0 < rcvBufsz
      ensures Valid() && fresh(sndBuffer) && fresh(rcvBuffer) && accepted == given == [] && stored == delivered == []
      ensures fcSteps == []
      ensures sndBuffer.Length == sndBufsz && rcvBuffer.Length == rcvBufsz && this.crlf == crlf
      ensures fcsnd && !fcany && fcrcv && writers == map[] && readers == map[] && sndSem == 1 && rcvSem == 0
      ensures sndCount == 0 && rcvCount == 0 && sndPending == 0 && rcvPending == 0 && !sndStopped && !sndEnabled
      ensures RcvFlow() == Flow(false, NONE, [])
    {
      this.crlf := crlf;
      sndBuffer := new int[sndBufsz];
      rcvBuffer := new int[rcvBufsz];
      fcsnd, fcany, fcrcv := true, false, true;
      sndReadPtr, sndWritePtr, sndCount, sndStopped := 0, 0, 0, false;
      rcvReadPtr, rcvWritePtr, rcvCount, rcvStopped, rcvFcChr := 0, 0, 0, false, NONE;
      sndEnabled, sndSem, rcvSem, sndPending, rcvPending := false, 1, 0, 0, 0;
      writers, readers, sndTokens, rcvTokens := map[], map[], {}, {};
      accepted, given, stored, delivered := [], [], [], [];
      fcGiven, fcSteps := [], [];
    }

    // ------ sending

    /** serial_snd_chr: a refusal enables the send callback. */
    method SndChr(takes: bool) returns (sent: bool)
      modifies this`sndEnabled
      ensures sent == takes && sndEnabled == (old(sndEnabled) || !takes)
    {
      if !takes {
        sndEnabled := true;
      }
      return takes;
    }

    /** The character goes to the end of the send buffer. */
    method StoreSnd(c: int)
      requires 0 <= sndReadPtr < sndBuffer.Length && 0 <= sndCount < sndBuffer.Length
      requires sndWritePtr == Rings.After(sndReadPtr, sndCount, sndBuffer.Length)
      modifies this`sndWritePtr, this`sndCount, sndBuffer
      ensures sndCount == old(sndCount) + 1 && sndWritePtr == Rings.After(sndReadPtr, sndCount, sndBuffer.Length)
      ensures SndData() == old(SndData()) + [c]
    {
      RingEnqueued(sndBuffer[..], sndReadPtr, sndCount, c);
      sndBuffer[sndWritePtr] := c;
      assert sndBuffer[..] == old(sndBuffer[..])[old(sndWritePtr) := c];
      sndWritePtr := Next(sndWritePtr, sndBuffer.Length);
      sndCount := sndCount + 1;
    }

    /** The body of serial_wri_chr, for a writer with a token: the buffer has room.  The
        writer keeps its token unless the buffer has become full. */
    method WriChr(w: int, c: int, takes: bool) returns (bufferFull: bool)
      requires Sending() && w in sndTokens
      modifies this`sndWritePtr, this`sndCount, this`sndEnabled, this`sndTokens, this`accepted, this`given, sndBuffer
      ensures Sending() && accepted == old(accepted) + [c]
      ensures given == if old(sndCount) == 0 && !sndStopped && takes then old(given) + [c] else old(given)
      ensures bufferFull <==> sndCount == sndBuffer.Length
      ensures sndTokens == if bufferFull then old(sndTokens) - {w} else old(sndTokens)
    {
      hide Ring, Rings.After;
      OneToken(sndTokens, w);
      RingSize(sndBuffer[..], sndReadPtr, sndCount);
      var sent := false;
      if sndCount == 0 && !sndStopped {
        sent := SndChr(takes);
      }
      if sent {
        accepted := accepted + [c];
        given := given + [c];
        bufferFull := false;
      } else {
        bufferFull := BufferChr(w, c);
      }
    }

    /** The rest of it, when the character has not been sent. */
    method BufferChr(w: int, c: int) returns (bufferFull: bool)
      requires Sending() && w in sndTokens && (sndCount == 0 && !sndStopped ==> sndEnabled)
      modifies this`sndWritePtr, this`sndCount, this`sndTokens, this`accepted, sndBuffer
      ensures Sending() && accepted == old(accepted) + [c]
      ensures bufferFull <==> sndCount == sndBuffer.Length
      ensures sndTokens == if bufferFull then old(sndTokens) - {w} else old(sndTokens)
    {
      hide Ring, Rings.After;
      OneToken(sndTokens, w);
      accepted := accepted + [c];
      StoreSnd(c);
      bufferFull := sndCount == sndBuffer.Length;
      if bufferFull {
        sndTokens := sndTokens - {w};
      }
    }

    /** Taking the first character out of the send buffer, which the device has taken. */
    method RemoveSnd() returns (wasFull: bool)
      requires 0 <= sndReadPtr < sndBuffer.Length && 0 < sndCount <= sndBuffer.Length
      requires sndWritePtr == Rings.After(sndReadPtr, sndCount, sndBuffer.Length)
      modifies this`sndReadPtr, this`sndCount, this`given
      ensures 0 <= sndReadPtr < sndBuffer.Length && sndWritePtr == Rings.After(sndReadPtr, sndCount, sndBuffer.Length)
      ensures sndCount == old(sndCount) - 1 && (wasFull <==> old(sndCount) == sndBuffer.Length)
      ensures given + SndData() == old(given + SndData())
    {
      RingDequeued(sndBuffer[..], sndReadPtr, sndCount);
      given := given + [sndBuffer[sndReadPtr]];
      sndReadPtr := Next(sndReadPtr, sndBuffer.Length);
      wasFull := sndCount == sndBuffer.Length;
      sndCount := sndCount - 1;
    }

    /** sio_irdy_snd: the device can take a character (`takes`: it does).  A character is
        removed only when it has been taken. */
    method SioIrdySnd(takes: bool)
      requires Valid()
      modifies this`sndReadPtr, this`sndCount, this`given, this`sndPending, this`rcvFcChr, this`sndEnabled
      modifies this`fcGiven, this`fcSteps
      ensures Valid() && accepted == old(accepted)
      ensures sndPending == old(sndPending) + if old(sndCount) == sndBuffer.Length && sndCount < sndBuffer.Length then 1
              else 0
      ensures sndCount == old(sndCount) - if old(rcvFcChr) == NONE && !sndStopped && old(sndCount) > 0 && takes then 1
              else 0
      ensures sndEnabled == (old(sndEnabled) && (old(rcvFcChr) != NONE || (!sndStopped && old(sndCount) > 0)))
      ensures RcvFlow() == old(RcvFlow()).Ready(takes) && fcSteps == old(fcSteps) + [Call(takes)]
    {
      hide Ring, Rings.After, SerialPort.Receiving, SerialPort.Tasks, Run;
      RunNext(fcSteps, Call(takes));
      fcSteps := fcSteps + [Call(takes)];
      if rcvFcChr != NONE {
        if takes {
          fcGiven := fcGiven + [rcvFcChr];
          rcvFcChr := NONE;
        }
      } else if !sndStopped && sndCount > 0 {
        if takes {
          SendFirst();
        }
      } else {
        sndEnabled := false;
      }
    }

    /** The device has taken the first character of the send buffer. */
    method SendFirst()
      requires Sending() && rcvFcChr == NONE && !sndStopped && sndCount > 0
      modifies this`sndReadPtr, this`sndCount, this`given, this`sndPending
      ensures Sending() && sndCount == old(sndCount) - 1
      ensures sndPending == old(sndPending) + if old(sndCount) == sndBuffer.Length then 1 else 0
    {
      hide Ring, Rings.After;
      var wasFull := RemoveSnd();
      if wasFull {
        sndPending := sndPending + 1;
      }
    }

    /** sig_sem at the end of a callback: the semaphore's maximum of 1 is not exceeded. */
    method SignalSnd() returns (ok: bool)
      requires Valid() && sndPending > 0
      modifies this`sndSem, this`sndPending
      ensures Valid() && ok && sndPending == old(sndPending) - 1 && sndSem == 1
    {
      hide SerialPort.Flowing, Ring, Rings.After, SerialPort.Receiving, SerialPort.Tasks;
      ok := sndSem < 1;
      if ok {
        sndSem := sndSem + 1;
      }
      sndPending := sndPending - 1;
    }

    method SignalRcv() returns (ok: bool)
      requires Valid() && rcvPending > 0
      modifies this`rcvSem, this`rcvPending
      ensures Valid() && ok && rcvPending == old(rcvPending) - 1 && rcvSem == 1
    {
      hide SerialPort.Flowing, Ring, Rings.After, SerialPort.Sending, SerialPort.Tasks;
      ok := rcvSem < 1;
      if ok {
        rcvSem := rcvSem + 1;
      }
      rcvPending := rcvPending - 1;
    }

    // ------ receiving

    /** The end of stopped sending: as many of the waiting characters are sent as the
        device takes (`takes`), until it refuses one. */
    method Resume(takes: seq<bool>) returns (signal: bool)
      requires Sending() && sndStopped && |takes| >= sndCount
      modifies this`sndReadPtr, this`sndCount, this`given, this`sndStopped, this`sndEnabled, this`sndPending
      ensures Sending() && !sndStopped && sndCount <= old(sndCount)
      ensures (signal <==> old(sndCount) == sndBuffer.Length && sndCount < sndBuffer.Length)
      ensures sndPending == old(sndPending) + if signal then 1 else 0
      ensures old(sndCount) - sndCount == Willing(takes, old(sndCount))
    {
      hide Ring, Rings.After;
      sndStopped := false;
      signal := false;
      var i := 0;
      var refused := false;
      while sndCount > 0 && !refused
        invariant 0 <= i && i + sndCount <= |takes| && 0 <= sndReadPtr < sndBuffer.Length
        invariant 0 <= sndCount <= old(sndCount)
        invariant sndWritePtr == Rings.After(sndReadPtr, sndCount, sndBuffer.Length) && given + SndData() == accepted
        invariant signal <==> old(sndCount) == sndBuffer.Length && sndCount < sndBuffer.Length
        invariant (refused ==> sndEnabled) && !sndStopped && sndPending == old(sndPending)
        invariant rcvFcChr != NONE ==> sndEnabled
        invariant i == old(sndCount) - sndCount && Willing(takes, old(sndCount)) == i + if refused then 0
                  else Willing(takes[i..], sndCount)
        decreases sndCount, !refused
      {
        var sent := SndChr(takes[i]);
        if sent {
          var wasFull := RemoveSnd();
          if wasFull {
            signal := true;
          }
          assert takes[i..][1..] == takes[i + 1..];
          i := i + 1;
        } else {
          refused := true;
        }
      }
      if signal {
        sndPending := sndPending + 1;
      }
    }

    /** The received character goes to the end of the receive buffer. */
    method StoreRcv(c: int)
      requires 0 <= rcvReadPtr < rcvBuffer.Length && 0 <= rcvCount < rcvBuffer.Length
      requires rcvWritePtr == Rings.After(rcvReadPtr, rcvCount, rcvBuffer.Length)
      modifies this`rcvWritePtr, this`rcvCount, rcvBuffer
      ensures rcvCount == old(rcvCount) + 1 && rcvWritePtr == Rings.After(rcvReadPtr, rcvCount, rcvBuffer.Length)
      ensures RcvData() == old(RcvData()) + [c]
    {
      RingEnqueued(rcvBuffer[..], rcvReadPtr, rcvCount, c);
      rcvBuffer[rcvWritePtr] := c;
      assert rcvBuffer[..] == old(rcvBuffer[..])[old(rcvWritePtr) := c];
      rcvWritePtr := Next(rcvWritePtr, rcvBuffer.Length);
      rcvCount := rcvCount + 1;
    }

    /** Sending STOP or START, the opposite of what was sent last, at once or, if the
        device refuses it, when it is ready. */
    method SendFlowControl(fc: int, takes: bool)
      requires Sending() && Flowing() && fc == if rcvStopped then FC_START else FC_STOP
      modifies this`sndEnabled, this`rcvFcChr, this`rcvStopped, this`fcGiven, this`fcSteps
      ensures Sending() && Flowing()
      ensures RcvFlow() == old(RcvFlow()).Decided(takes) && fcSteps == old(fcSteps) + [Decide(takes)]
    {
      hide Ring, Rings.After, Run;
      RunNext(fcSteps, Decide(takes));
      fcSteps := fcSteps + [Decide(takes)];
      var sent := SndChr(takes);
      if sent {
        fcGiven := fcGiven + [fc];
      } else {
        rcvFcChr := fc;
      }
      rcvStopped := fc == FC_STOP;
    }

    lemma Fits()
      requires Receiving()
      ensures 0 <= rcvCount <= rcvBuffer.Length
    {
    }

    /** sio_irdy_rcv: character c has come.  It is START or STOP for the sender, or it is
        stored, or, with the buffer full, dropped; the data to be sent are untouched
        but for what sending resumes. */
    method SioIrdyRcv(c: int, takes: seq<bool>)
      requires Valid() && |takes| > sndCount
      modifies this`sndReadPtr, this`sndCount, this`given, this`sndStopped, this`sndEnabled, this`sndPending
      modifies this`rcvWritePtr, this`rcvCount, this`rcvStopped, this`rcvFcChr, this`rcvPending, this`stored, rcvBuffer
      modifies this`fcGiven, this`fcSteps
      ensures Valid() && accepted == old(accepted)
      ensures var stop, start := fcsnd && c == FC_STOP, old(sndStopped) && (c == FC_START || fcany);
        && (stop ==> sndStopped) && (!stop && start ==> !sndStopped) && (!stop && !start ==>
             sndStopped == old(sndStopped))
        && (stop || !start ==> sndCount == old(sndCount) && given == old(given))
        && stored == if stop || start || (fcsnd && c == FC_START) || old(rcvCount) == rcvBuffer.Length then old(stored)
           else old(stored) + [c]
      ensures rcvCount - |stored| == old(rcvCount - |stored|)
      ensures rcvPending == old(rcvPending) + if old(rcvCount) == 0 && rcvCount > 0 then 1 else 0
      ensures if rcvCount > old(rcvCount) && fcrcv && !old(rcvStopped) && rcvCount >= rcvBuffer.Length * 3 / 4
              then RcvFlow() == old(RcvFlow()).Decided(takes[0]) && fcSteps == old(fcSteps) + [Decide(takes[0])]
              else RcvFlow() == old(RcvFlow()) && fcSteps == old(fcSteps)
    {
      hide Ring, Rings.After, SerialPort.Tasks, SerialPort.Flowing, SerialPort.Receiving, Flow.Decided;
      Fits();
      if fcsnd && c == FC_STOP {
        sndStopped := true;
      } else if sndStopped && (c == FC_START || fcany) {
        var signal := Resume(takes);
      } else if fcsnd && c == FC_START {
      } else if rcvCount == rcvBuffer.Length {
      } else {
        Receive(c, takes[0]);
      }
    }

    /** The character is stored, and the first one in the buffer is signalled; a buffer
        filled to three quarters stops the other side. */
    method Receive(c: int, takes: bool)
      requires sndBuffer != rcvBuffer && Sending() && Receiving() && Flowing() && rcvCount < rcvBuffer.Length
      modifies this`rcvWritePtr, this`rcvCount, this`rcvPending, this`stored, this`rcvStopped, this`sndEnabled
      modifies this`rcvFcChr, this`fcGiven, this`fcSteps, rcvBuffer
      ensures Sending() && Receiving() && stored == old(stored) + [c] && rcvCount == old(rcvCount) + 1
      ensures rcvPending == old(rcvPending) + if old(rcvCount) == 0 then 1 else 0
      ensures Flowing()
      ensures if fcrcv && !old(rcvStopped) && rcvCount >= rcvBuffer.Length * 3 / 4
              then RcvFlow() == old(RcvFlow()).Decided(takes) && fcSteps == old(fcSteps) + [Decide(takes)]
              else RcvFlow() == old(RcvFlow()) && fcSteps == old(fcSteps)
    {
      hide Ring, Rings.After, SerialPort.Sending, SerialPort.Flowing, Flow.Decided;
      StoreRcv(c);
      stored := stored + [c];
      if rcvCount == 1 {
        rcvPending := rcvPending + 1;
      }
      if fcrcv && !rcvStopped && rcvCount >= rcvBuffer.Length * 3 / 4 {
        SendFlowControl(FC_STOP, takes);
      }
    }

    /** serial_rea_chr, for a reader with a token: the buffer is not empty.  The reader
        keeps its token unless it has emptied the buffer. */
    method ReaChr(r: int, takes: bool) returns (c: int, bufferEmpty: bool)
      requires Valid() && r in rcvTokens
      modifies this`rcvReadPtr, this`rcvCount, this`rcvTokens, this`delivered, this`rcvStopped, this`rcvFcChr
      modifies this`sndEnabled, this`fcGiven, this`fcSteps
      ensures Sending() && Receiving() && delivered == old(delivered) + [c] && rcvCount == old(rcvCount) - 1
      ensures bufferEmpty <==> rcvCount == 0
      ensures rcvTokens == if bufferEmpty then old(rcvTokens) - {r} else old(rcvTokens)
      ensures Flowing()
      ensures if old(rcvStopped) && rcvCount <= rcvBuffer.Length / 2
              then RcvFlow() == old(RcvFlow()).Decided(takes) && fcSteps == old(fcSteps) + [Decide(takes)]
              else RcvFlow() == old(RcvFlow()) && fcSteps == old(fcSteps)
    {
      hide Ring, Rings.After, SerialPort.Tasks, SerialPort.Flowing, Flow.Decided;
      c := TakeRcv(r);
      bufferEmpty := rcvCount == 0;
      if rcvStopped && rcvCount <= rcvBuffer.Length / 2 {
        SendFlowControl(FC_START, takes);
      }
    }

    /** The first character leaves the receive buffer. */
    method TakeRcv(r: int) returns (c: int)
      requires Receiving() && r in rcvTokens
      modifies this`rcvReadPtr, this`rcvCount, this`rcvTokens, this`delivered
      ensures Receiving() && delivered == old(delivered) + [c] && rcvCount == old(rcvCount) - 1
      ensures rcvTokens == if rcvCount == 0 then old(rcvTokens) - {r} else old(rcvTokens)
    {
      OneToken(rcvTokens, r);
      RingDequeued(rcvBuffer[..], rcvReadPtr, rcvCount);
      c := rcvBuffer[rcvReadPtr];
      rcvReadPtr := Next(rcvReadPtr, rcvBuffer.Length);
      rcvCount := rcvCount - 1;
      delivered := delivered + [c];
      if rcvCount == 0 {
        rcvTokens := rcvTokens - {r};
      }
    }

    // ------ the tasks

    /** serial_wri_dat begins. */
    method StartWriting(w: int, buf: seq<int>)
      requires Valid() && w !in writers
      modifies this`writers
      ensures Valid() && writers == old(writers)[w := Writer(buf, 0, false, true, [])]
    {
      hide SerialPort.Flowing, ReadersSound, Ring, Rings.After, SerialPort.Sending, SerialPort.Receiving;
      writers := writers[w := Writer(buf, 0, false, true, [])];
    }

    /** wai_sem, when it need not wait. */
    method AcquireSnd(w: int)
      requires Valid() && w in writers && writers[w].full && sndSem > 0
      modifies this`sndSem, this`sndTokens, this`writers
      ensures Valid() && writers == old(writers)[w := old(writers[w]).(full := false)] && sndSem == old(sndSem) - 1
    {
      hide SerialPort.Flowing, ReadersSound, Ring, Rings.After, SerialPort.Receiving, Writer.Progress;
      OneMore(sndTokens, w);
      assert writers[w].Progress(crlf);
      SameProgress(writers[w], crlf, false);
      sndSem := sndSem - 1;
      sndTokens := sndTokens + {w};
      writers := writers[w := writers[w].(full := false)];
    }

    /** The next character of a writer with a token. */
    method WriteOne(w: int, takes: bool)
      requires Valid() && w in writers && !writers[w].full && writers[w].pos < |writers[w].buf| && 0 <= writers[w].pos
      modifies this`sndWritePtr, this`sndCount, this`sndEnabled, this`sndTokens, this`accepted, this`given
      modifies this`writers, sndBuffer
      ensures Valid() && accepted == old(accepted) + [old(writers[w]).Char(crlf)]
      ensures writers == old(writers)[w := old(writers[w]).After(crlf, sndCount == sndBuffer.Length)]
      ensures |accepted| > 0 && writers[w].put == old(writers[w]).put + [accepted[|accepted| - 1]]
    {
      hide ReadersSound, Ring, Rings.After, Writer.Progress;
      hide SerialPort.Sending, SerialPort.Receiving, SerialPort.Flowing;
      var wr := writers[w];
      assert wr.Progress(crlf);
      wr.Proceeds(crlf, true);
      wr.Proceeds(crlf, false);
      var full := WriChr(w, wr.Char(crlf), takes);
      writers := writers[w := wr.After(crlf, full)];
    }

    /** The next semaphore call or character of a task in serial_wri_dat; with no token
        and something left to write it can go on only when the semaphore is free. */
    method WriDatStep(w: int, takes: bool) returns (done: bool)
      requires Valid() && w in writers && (writers[w].full && writers[w].pos < |writers[w].buf| ==> sndSem > 0)
      modifies this`sndWritePtr, this`sndCount, this`sndEnabled, this`sndTokens, this`accepted, this`given
      modifies this`sndSem, this`writers, sndBuffer
      ensures Valid()
      ensures done <==> old(writers[w]).pos == |old(writers[w]).buf|
      ensures done ==>
                && writers == old(writers) - {w} && old(writers[w]).put == Expand(old(writers[w]).buf, crlf)
                && sndSem == old(sndSem) + if old(writers[w]).full then 0 else 1
      ensures !done && old(writers[w]).full ==>
                writers == old(writers)[w := old(writers[w]).(full := false)] && sndSem == old(sndSem) - 1
      ensures !done && !old(writers[w]).full ==>
                && old(writers[w]).pos < |old(writers[w]).buf| && sndSem == old(sndSem)
                && writers == old(writers)[w := old(writers[w]).After(crlf, sndCount == sndBuffer.Length)]
      ensures accepted == old(accepted) + if !done && !old(writers[w]).full then [old(writers[w]).Char(crlf)] else []
    {
      hide SerialPort.Flowing, Ring, Rings.After, SerialPort.Receiving, SerialPort.Sending, Expand;
      var wr := writers[w];
      assert wr.Progress(crlf);
      if wr.pos == |wr.buf| {
        assert wr.buf[..wr.pos] == wr.buf;
        FinishWriting(w);
        return true;
      } else if wr.full {
        AcquireSnd(w);
        return false;
      } else {
        WriteOne(w, takes);
        return false;
      }
    }

    /** serial_wri_dat returns: a token that is left goes back to the semaphore. */
    method FinishWriting(w: int)
      requires Valid() && w in writers
      modifies this`sndSem, this`sndTokens, this`writers
      ensures Valid() && writers == old(writers) - {w}
      ensures sndSem == old(sndSem) + if old(writers[w]).full then 0 else 1
    {
      hide WritersSound, ReadersSound, Ring, Rings.After, Expand, Writer.Progress;
      hide SerialPort.Receiving, SerialPort.Flowing;
      WriterGone(writers, sndTokens, crlf, w);
      if !writers[w].full {
        OneToken(sndTokens, w);
        sndSem := sndSem + 1;
        sndTokens := sndTokens - {w};
      }
      writers := writers - {w};
    }

    /** serial_rea_dat begins. */
    method StartReading(r: int, len: int)
      requires Valid() && r !in readers && 0 <= len
      modifies this`readers
      ensures Valid() && readers == old(readers)[r := Reader(len, [], true)]
    {
      hide SerialPort.Flowing, WritersSound, Ring, Rings.After, SerialPort.Sending, SerialPort.Receiving;
      readers := readers[r := Reader(len, [], true)];
    }

    method AcquireRcv(r: int)
      requires Valid() && r in readers && readers[r].empty && rcvSem > 0
      modifies this`rcvSem, this`rcvTokens, this`readers
      ensures Valid() && readers == old(readers)[r := old(readers[r]).(empty := false)] && rcvSem == old(rcvSem) - 1
    {
      hide SerialPort.Flowing, WritersSound, Ring, Rings.After, SerialPort.Sending, Writer.Progress;
      OneMore(rcvTokens, r);
      rcvSem := rcvSem - 1;
      rcvTokens := rcvTokens + {r};
      readers := readers[r := readers[r].(empty := false)];
    }

    method FinishReading(r: int)
      requires Valid() && r in readers
      modifies this`rcvSem, this`rcvTokens, this`readers
      ensures Valid() && readers == old(readers) - {r}
      ensures rcvSem == old(rcvSem) + if old(readers[r]).empty then 0 else 1
    {
      hide SerialPort.Flowing, WritersSound, ReadersSound, Ring, Rings.After, SerialPort.Sending, Writer.Progress;
      ReaderGone(readers, rcvTokens, r);
      if !readers[r].empty {
        OneToken(rcvTokens, r);
        rcvSem := rcvSem + 1;
        rcvTokens := rcvTokens - {r};
      }
      readers := readers - {r};
    }

    method ReadOne(r: int, takes: bool) returns (c: int)
      requires Valid() && r in readers && !readers[r].empty && |readers[r].got| < readers[r].len
      modifies this`rcvReadPtr, this`rcvCount, this`rcvTokens, this`delivered, this`rcvStopped, this`rcvFcChr
      modifies this`sndEnabled, this`readers, this`fcGiven, this`fcSteps
      ensures Valid() && delivered == old(delivered) + [c] && rcvCount == old(rcvCount) - 1
      ensures readers == old(readers)[r := Reader(old(readers[r]).len, old(readers[r]).got + [c], rcvCount == 0)]
      ensures if old(rcvStopped) && rcvCount <= rcvBuffer.Length / 2
              then RcvFlow() == old(RcvFlow()).Decided(takes) && fcSteps == old(fcSteps) + [Decide(takes)]
              else RcvFlow() == old(RcvFlow()) && fcSteps == old(fcSteps)
    {
      hide WritersSound, Ring, Rings.After, Flow.Decided, Writer.Progress;
      hide SerialPort.Sending, SerialPort.Receiving, SerialPort.Flowing;
      var rd := readers[r];
      var empty;
      c, empty := ReaChr(r, takes);
      readers := readers[r := Reader(rd.len, rd.got + [c], empty)];
    }

    /** The next semaphore call or character of a task in serial_rea_dat. */
    method ReaDatStep(r: int, takes: bool) returns (done: bool)
      requires Valid() && r in readers && (readers[r].empty && |readers[r].got| < readers[r].len ==> rcvSem > 0)
      modifies this`rcvReadPtr, this`rcvCount, this`rcvTokens, this`delivered, this`rcvStopped, this`rcvFcChr
      modifies this`sndEnabled, this`rcvSem, this`readers, this`fcGiven, this`fcSteps
      ensures Valid()
      ensures done <==> |old(readers[r]).got| == old(readers[r]).len
      ensures done ==> readers == old(readers) - {r} && rcvSem == old(rcvSem) + if old(readers[r]).empty then 0 else 1
      ensures !done && old(readers[r]).empty ==>
                readers == old(readers)[r := old(readers[r]).(empty := false)] && rcvSem == old(rcvSem) - 1
      ensures !done && !old(readers[r]).empty ==>
                && |delivered| > 0 && delivered == old(delivered) + [delivered[|delivered| - 1]]
                && readers == old(readers)[r := Reader(old(readers[r]).len,
                                                       old(readers[r]).got + [delivered[|delivered| - 1]],
                                                       rcvCount == 0)]
                && rcvSem == old(rcvSem)
      ensures done || old(readers[r]).empty ==> delivered == old(delivered) && RcvFlow() == old(RcvFlow())
      ensures if !done && !old(readers[r]).empty && old(rcvStopped) && rcvCount <= rcvBuffer.Length / 2
              then RcvFlow() == old(RcvFlow()).Decided(takes) && fcSteps == old(fcSteps) + [Decide(takes)]
              else RcvFlow() == old(RcvFlow()) && fcSteps == old(fcSteps)
    {
      hide Ring, Rings.After, Flow.Decided, Writer.Progress;
      hide SerialPort.Sending, SerialPort.Receiving, SerialPort.Flowing;
      var rd := readers[r];
      if |rd.got| == rd.len {
        FinishReading(r);
        return true;
      } else if rd.empty {
        AcquireRcv(r);
        return false;
      } else {
        var c := ReadOne(r, takes);
        return false;
      }
    }
  }

  /** A buffer of 4 after three characters, of which the third has made the driver stop
      the other side; the device has refused STOP. */
  method StopRefused(c: int) returns (port: SerialPort)
    requires c !in {FC_START, FC_STOP}
    ensures fresh(port) && fresh(port.sndBuffer) && fresh(port.rcvBuffer) && port.Valid()
    ensures port.rcvBuffer.Length == 4 && port.rcvCount == 3 && port.rcvPending == 1 && port.readers == map[]
    ensures port.RcvFlow() == Flow(true, FC_STOP, [])
  {
    hide SerialPort.Sending, SerialPort.Receiving, SerialPort.Tasks, SerialPort.Flowing;
    port := new SerialPort(1, 4, false);
    port.SioIrdyRcv(c, [true]);
    port.SioIrdyRcv(c, [true]);
    port.SioIrdyRcv(c, [false]);
  }

  /** The flow control can fail: the device refuses STOP when a fourth of the buffer is
      left, takes START when the buffer is half empty, and then, in the callback, STOP.
      The other side waits for START, which the driver does not send before the buffer
      has been filled again. */
  method StopAfterStart(c: int) returns (port: SerialPort)
    requires c !in {FC_START, FC_STOP}
    ensures fresh(port) && port.Valid() && port.RcvFlow() == Flow(false, NONE, [FC_START, FC_STOP])
  {
    hide SerialPort.Sending, SerialPort.Receiving, SerialPort.Tasks, SerialPort.Flowing;
    port := StopRefused(c);
    var ok := port.SignalRcv();
    port.StartReading(0, 1);
    port.AcquireRcv(0);
    var x := port.ReadOne(0, true);
    port.SioIrdySnd(true);
  }

  lemma SameProgress(wr: Writer, crlf: bool, full: bool)
    requires wr.Progress(crlf)
    ensures wr.(full := full).Progress(crlf)
  {
  }

  lemma OneMore(tokens: set<int>, w: int)
    requires w !in tokens
    ensures |tokens + {w}| == |tokens| + 1
  {
  }

  /** A token is the only one there is. */
  lemma OneToken(tokens: set<int>, w: int)
    requires w in tokens
    ensures |tokens| >= 1 && |tokens - {w}| == |tokens| - 1
  {
  }
}

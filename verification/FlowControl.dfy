/** The order of the flow-control characters START and STOP that the serial interface
    driver gives to the device for its receive side (syssvc/serial.c:419-425, 560-568,
    680-687).

    The driver decides to stop or to restart the other side, and gives the character to
    the device at once or, if the device refuses it, keeps it for the send callback.  A
    decision whose character is taken at once does not withdraw a character still kept
    from the decision before: it overtakes it.
  */
module FlowControl {

  const FC_START := 0x11
  const FC_STOP := 0x13
  const NONE := 0            // no START or STOP to be sent

  /** `stopped` is rcv_stopped, `pending` rcv_fc_chr; `given` are the flow-control
      characters the device has taken. */
  datatype Flow = Flow(stopped: bool, pending: int, given: seq<int>) {
    /** The last character the other side has got, or will get without a further
        decision; it begins as if it had got START. */
    ghost function Told(): int {
      if pending != NONE then pending else if given == [] then FC_START else given[|given| - 1]
    }

    /** The other side has been told, or will be, what the driver has decided. */
    ghost predicate Agrees() {
      Told() == if stopped then FC_STOP else FC_START
    }

    /** The next decision is always the opposite of the last; `takes`: the device takes
        its character at once. */
    function Decided(takes: bool): Flow {
      var fc := if stopped then FC_START else FC_STOP;
      if takes then Flow(!stopped, pending, given + [fc]) else Flow(!stopped, fc, given)
    }

    /** The send callback. */
    function Ready(takes: bool): Flow {
      if pending != NONE && takes then Flow(stopped, NONE, given + [pending]) else this
    }

    ghost function After(s: Step): Flow {
      match s
      case Decide(takes) => Decided(takes)
      case Call(takes) => Ready(takes)
    }

    /** The decision goes to the device while the character of the last one waits. */
    ghost predicate Overtakes(s: Step) {
      s.Decide? && s.takes && pending != NONE
    }

    ghost predicate Proper() {
      pending in {NONE, FC_START, FC_STOP} && forall c :: c in given ==> c in {FC_START, FC_STOP}
    }
  }

  datatype Step = Decide(takes: bool) | Call(takes: bool)

  ghost function Run(steps: seq<Step>): Flow {
    if steps == [] then Flow(false, NONE, [])
    else Run(steps[..|steps| - 1]).After(steps[|steps| - 1])
  }

  /** How many decisions have overtaken the one before since the last that did not. */
  ghost function Overtaken(steps: seq<Step>): nat {
    if steps == [] then 0 else
      var before, s := steps[..|steps| - 1], steps[|steps| - 1];
      if Run(before).Overtakes(s) then Overtaken(before) + 1
      else if s.Decide? then 0
      else Overtaken(before)
  }

  lemma RunNext(steps: seq<Step>, s: Step)
    ensures Run(steps + [s]) == Run(steps).After(s)
  {
    assert (steps + [s])[..|steps|] == steps;
  }

  lemma {:induction false} RunProper(steps: seq<Step>)
    ensures Run(steps).Proper()
  {
    if steps != [] {
      RunProper(steps[..|steps| - 1]);
    }
  }

  /** After any run the other side is told what the driver has decided if and only if the
      decisions that overtook the one before, since the last that did not, are even in
      number. */
  lemma {:induction false} AgreesExactly(steps: seq<Step>)
    ensures Run(steps).Agrees() <==> Overtaken(steps) % 2 == 0
  {
    if steps != [] {
      AgreesExactly(steps[..|steps| - 1]);
      RunProper(steps[..|steps| - 1]);
      ParityNext(Overtaken(steps[..|steps| - 1]));
    }
  }

  lemma ParityNext(n: nat)
    ensures (n + 1) % 2 == 0 <==> n % 2 != 0
  {
  }

  /** It agrees in every state of a run if and only if no decision is taken by the device
      while a character is kept. */
  lemma {:induction false} AgreesThroughout(steps: seq<Step>)
    ensures (forall n :: 0 <= n <= |steps| ==> Run(steps[..n]).Agrees())
            <==> (forall n :: 0 <= n < |steps| ==> !Run(steps[..n]).Overtakes(steps[n]))
  {
    forall n | 0 <= n < |steps|
      ensures Run(steps[..n + 1]) == Run(steps[..n]).After(steps[n]) && Run(steps[..n]).Proper()
    {
      assert steps[..n + 1] == steps[..n] + [steps[n]];
      RunNext(steps[..n], steps[n]);
      RunProper(steps[..n]);
    }
    if forall n :: 0 <= n < |steps| ==> !Run(steps[..n]).Overtakes(steps[n]) {
      forall n | 0 <= n <= |steps|
        ensures Run(steps[..n]).Agrees()
      {
        AgreesAt(steps, n);
      }
    } else {
      var n :| 0 <= n < |steps| && Run(steps[..n]).Overtakes(steps[n]);
      assert !(Run(steps[..n]).Agrees() && Run(steps[..n + 1]).Agrees());
    }
  }

  lemma {:induction false} AgreesAt(steps: seq<Step>, k: nat)
    requires k <= |steps| && forall n :: 0 <= n < |steps| ==> !Run(steps[..n]).Overtakes(steps[n])
    ensures Run(steps[..k]).Agrees()
  {
    if k == 0 {
      assert steps[..0] == [];
    } else {
      AgreesAt(steps, k - 1);
      assert steps[..k] == steps[..k - 1] + [steps[k - 1]];
      RunNext(steps[..k - 1], steps[k - 1]);
      RunProper(steps[..k - 1]);
    }
  }

  /** With nothing kept, the last character the device has taken is STOP exactly while
      the driver holds the other side stopped, if and only if the state agrees. */
  lemma LastGiven(steps: seq<Step>)
    requires Run(steps).pending == NONE
    ensures var f := Run(steps);
            Overtaken(steps) % 2 == 0 <==> (f.stopped <==> f.given != [] && f.given[|f.given| - 1] == FC_STOP)
  {
    AgreesExactly(steps);
    RunProper(steps);
    var given := Run(steps).given;
    assert given != [] ==> given[|given| - 1] in given;
  }

  /** A refused STOP, a START taken at once, and the callback: the other side gets START,
      then STOP, although the driver does not hold it stopped. */
  lemma StopAfterStart()
    ensures Run([Decide(false), Decide(true), Call(true)]) == Flow(false, NONE, [FC_START, FC_STOP])
  {
    RunNext([], Decide(false));
    RunNext([Decide(false)], Decide(true));
    RunNext([Decide(false), Decide(true)], Call(true));
    assert [Decide(false), Decide(true)] + [Call(true)] == [Decide(false), Decide(true), Call(true)];
    assert [Decide(false)] + [Decide(true)] == [Decide(false), Decide(true)];
    assert [] + [Decide(false)] == [Decide(false)];
  }
}

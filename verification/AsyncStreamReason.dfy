/** Why threads do what they do: which way a connection test goes, what a send is lost for, and
    that a live writer sends. */
module AsyncStreamReasons {
  import opened Counting
  import opened AsyncStreams
  import opened AsyncStreamTokens
  import opened AsyncStreamRelease
  import opened AsyncStreamFlow
  import opened AsyncStreamTheorems
  import opened AsyncStreamCloses
  import opened Wrappers

  // ---------------------------------------------------------------- connection tests

  /** Thread i comes to t in this step. */
  predicate Comes(s: State, s': State, i: nat, t: Thread) {
    i < |s'.threads| && s'.threads[i] == t && (i < |s.threads| ==> s.threads[i] != t)
  }

  lemma StartTest(s: State, i: nat, o: Outcome)
    requires SemInv(s) && i < |s.threads| && s.threads[i].Start?
    ensures var s' := Apply(s, Go(i, o));
            && i < |s'.threads| && (s'.threads[i].Start? || s'.threads[i] == Finished)
            && (Comes(s, s', i, Start(Reconnect)) ==> !s.connected)
            && (Comes(s, s', i, Start(Callback)) ==> s'.connected)
  {
    match s.threads[i].spc
    case Return1 => WaitReturns(s, i, Return1);
    case Return2 => WaitReturns(s, i, Return2);
    case _ =>
  }

  lemma ReaderTest(s: State, i: nat, o: Outcome)
    requires SemInv(s) && i < |s.threads| && s.threads[i].Reader?
    ensures var s' := Apply(s, Go(i, o));
            && i < |s'.threads| && (s'.threads[i].Reader? || s'.threads[i] == Finished)
            && (Comes(s, s', i, Reader(RRecv)) ==> s.connected)
  {
    if s.threads[i].rpc.RReturn? { ReturnsToken(s, i); }
  }

  lemma WriterTest(s: State, i: nat, o: Outcome)
    requires SemInv(s) && i < |s.threads| && s.threads[i].Writer?
    ensures var s' := Apply(s, Go(i, o));
            && i < |s'.threads| && (s'.threads[i].Writer? || s'.threads[i] == Finished)
            && (s'.threads[i].Writer? && s'.threads[i].wpc.WWait? && !s.threads[i].wpc.WWait? ==> s.connected)
  {
    if s.threads[i].wpc.WReturn? { ReturnsToken(s, i); }
  }

  lemma OwnTest(s: State, i: nat, o: Outcome)
    requires SemInv(s) && i < |s.threads|
    ensures var s' := Apply(s, Go(i, o));
            && (Comes(s, s', i, Start(Reconnect)) ==> !s.connected)
            && (Comes(s, s', i, Start(Callback)) ==> s'.connected)
            && (Comes(s, s', i, Reader(RRecv)) ==> s.connected)
            && (Comes(s, s', i, Writer(WWait, [])) && !(s.threads[i].Writer? && s.threads[i].wpc.WWait?)
                ==> s.connected)
  {
    match s.threads[i]
    case Start(_) => StartTest(s, i, o);
    case Reader(_) => ReaderTest(s, i, o);
    case Writer(_, _) => WriterTest(s, i, o);
    case Sender =>
      BecomeSemInv(s, i, Finished);
      WakesOnlyParked(Become(s, i, Finished));
    case Finished =>
  }

  lemma WaitReturns(s: State, i: nat, pc: StartPc)
    requires SemInv(s) && i < |s.threads| && s.threads[i] == Start(pc) && (pc.Return1? || pc.Return2?)
    ensures StepStart(s, i, pc, Success).threads[i] == if pc.Return1? then Start(Return2) else Finished
  {
    var t := if pc.Return1? then Start(Return2) else Finished;
    BecomeSemInv(s, i, t);
    WakesOnlyParked(Become(s, i, t));
  }

  /** No thread comes to reconnect() from a connected state, to the connect callback in a state
      that is not connected, or to doRecv() or m_sem.wait() without having seen it connected. */
  lemma ConnectionIsTested(s: State, step: Step, i: nat)
    requires Inv(s)
    ensures var s' := Apply(s, step);
            && (Comes(s, s', i, Start(Reconnect)) ==> !s.connected)
            && (Comes(s, s', i, Start(Callback)) ==> s'.connected)
            && (Comes(s, s', i, Reader(RRecv)) ==> s.connected)
            && (Comes(s, s', i, Writer(WWait, [])) ==> s.connected)
  {
    assert i < |s.threads| && s.threads[i].Writer? && s.threads[i].wpc.WWait? ==> s.threads[i] == Writer(WWait, []);
    if step.Go? && step.i == i && i < |s.threads| {
      OwnTest(s, i, step.outcome);
    } else if i < |s.threads| {
      OthersKeepThread(s, step, i);
    } else {
      NewThreads(s, step, i);
    }
  }

  /** New threads are calls of start(), senders, and the fibers at the head of their loops. */
  lemma NewThreads(s: State, step: Step, i: nat)
    requires i >= |s.threads|
    ensures i < |Apply(s, step).threads| ==>
              Apply(s, step).threads[i] in {Start(Wait1), Sender, Finished, Reader(RTest), Writer(WTest, [])}
  {
    if step.Go? && step.i < |s.threads| {
      match s.threads[step.i]
      case Start(pc) =>
        assert pc.SpawnRead? || pc.SpawnWrite? || |StepStart(s, step.i, pc, step.outcome).threads| == |s.threads|;
      case Reader(_) =>
      case Writer(_, _) =>
      case Sender =>
      case Finished =>
    }
  }

  /** And the other way round: who leaves a test sees to it that it went that way. */
  lemma TestsDecide(s: State, i: nat, o: Outcome)
    requires i < |s.threads|
    ensures var s' := Apply(s, Go(i, o));
            && (s.threads[i] == Start(Check) ==> s'.threads[i] == Start(if s.connected then Callback else Reconnect))
            && (s.threads[i] == Reader(RTest)
                ==> s'.threads[i] == Reader(if s.connected then RRecv else RClosing(ToShut)))
            && (s.threads[i] == Writer(WTest, [])
                ==> s'.threads[i] == Writer(if s.connected then WWait else WClear, []))
  {
  }

  // ---------------------------------------------------------------- down for good

  /** In innerClose(), past the close of the socket. */
  predicate PastShut(t: Thread) {
    match t
    case Start(pc) => pc.Closing? && !pc.step.ToShut?
    case Reader(pc) => pc.RClosing? && !pc.step.ToShut?
    case Writer(pc, _) => pc.WClosing? && !pc.step.ToShut?
    case _ => false
  }

  predicate IsClearing(t: Thread) { t.Writer? && t.wpc.WClear? }

  /** While a thread is past the close of the socket, the connection is down; and so it is when the
      writer is about to clear the queue, unless it is one of those that caught an exception. */
  ghost predicate ReasonInv(s: State, caught: set<nat>) {
    && (forall i :: 0 <= i < |s.threads| && PastShut(s.threads[i]) ==> !s.connected)
    && (forall i :: 0 <= i < |s.threads| && IsClearing(s.threads[i]) ==> !s.connected || i in caught)
  }

  /** A doSend() that does not succeed. */
  predicate FailsSend(s: State, step: Step) {
    && step.Go? && step.i < |s.threads| && s.threads[step.i].Writer? && s.threads[step.i].wpc.WSend?
    && s.threads[step.i].batch != [] && !step.outcome.Success?
  }

  /** The thread that catches an exception in this step. */
  function Catches(s: State, step: Step): set<nat> {
    if FailsSend(s, step) && step.outcome.Throw? then {step.i} else {}
  }

  lemma CloseStaysDown(s: State, step: ClosePc)
    requires !s.connected
    ensures !InnerClose(s, step).0.connected
  {
  }

  lemma WriterStaysDown(s: State, i: nat, o: Outcome)
    requires !s.connected && i < |s.threads| && s.threads[i].Writer?
    ensures !Apply(s, Go(i, o)).connected
  {
    match s.threads[i].wpc
    case WClosing(step) => CloseStaysDown(s, step);
    case _ =>
  }

  lemma StartStaysDown(s: State, i: nat, o: Outcome)
    requires !s.connected && i < |s.threads| && s.threads[i].Start? && !s.threads[i].spc.Reconnect?
    ensures !Apply(s, Go(i, o)).connected
  {
    match s.threads[i].spc
    case Closing(step) => CloseStaysDown(s, step);
    case _ =>
  }

  lemma ReaderStaysDown(s: State, i: nat, o: Outcome)
    requires !s.connected && i < |s.threads| && s.threads[i].Reader?
    ensures !Apply(s, Go(i, o)).connected
  {
    match s.threads[i].rpc
    case RClosing(step) => CloseStaysDown(s, step);
    case _ =>
  }

  /** Only reconnect() brings the connection up. */
  lemma WhoRaises(s: State, step: Step)
    requires !s.connected && Apply(s, step).connected
    ensures step.Go? && step.i < |s.threads| && s.threads[step.i] == Start(Reconnect)
  {
    if step.Go? && step.i < |s.threads| {
      match s.threads[step.i]
      case Start(pc) => if !pc.Reconnect? { StartStaysDown(s, step.i, step.outcome); }
      case Reader(_) => ReaderStaysDown(s, step.i, step.outcome);
      case Writer(_, _) => WriterStaysDown(s, step.i, step.outcome);
      case Sender =>
      case Finished =>
    }
  }

  /** And then nobody else holds a token. */
  lemma UpOnlyAlone(s: State, i: nat, k: nat)
    requires TokenInv(s) && i < |s.threads| && s.threads[i] == Start(Reconnect) && k < |s.threads| && k != i
    ensures Tokens(s.threads[k]) == 0
  {
    var rest := s.threads[i := Finished];
    SumUpdate(Tokens, s.threads, i, Finished);
    SumAtLeast(Tokens, rest, k);
  }

  lemma StaysDown(s: State, step: Step, k: nat)
    requires Inv(s) && !s.connected && k < |s.threads| && Tokens(s.threads[k]) > 0
    requires s.threads[k] != Start(Reconnect)
    ensures !Apply(s, step).connected
  {
    if Apply(s, step).connected {
      WhoRaises(s, step);
      UpOnlyAlone(s, step.i, k);
    }
  }

  lemma OthersKeepReason(s: State, step: Step, caught: set<nat>, k: nat)
    requires Inv(s) && ReasonInv(s, caught) && k < |s.threads| && !(step.Go? && step.i == k)
    ensures k < |Apply(s, step).threads|
    ensures PastShut(Apply(s, step).threads[k]) ==> !Apply(s, step).connected
    ensures IsClearing(Apply(s, step).threads[k]) ==> !Apply(s, step).connected || k in caught
  {
    OthersKeepThread(s, step, k);
    var t := s.threads[k];
    if (PastShut(t) || IsClearing(t)) && !s.connected {
      StaysDown(s, step, k);
    }
  }

  lemma OwnKeepsReason(s: State, i: nat, o: Outcome, caught: set<nat>)
    requires Inv(s) && ReasonInv(s, caught) && i < |s.threads|
    ensures var s' := Apply(s, Go(i, o));
            && i < |s'.threads| && (PastShut(s'.threads[i]) ==> !s'.connected)
            && (IsClearing(s'.threads[i]) ==> !s'.connected || i in caught + Catches(s, Go(i, o)))
  {
    match s.threads[i]
    case Start(_) => StartReason(s, i, o, caught);
    case Reader(_) => ReaderReason(s, i, o, caught);
    case Writer(_, _) => WriterReason(s, i, o, caught);
    case Sender =>
      BecomeSemInv(s, i, Finished);
      WakesOnlyParked(Become(s, i, Finished));
    case Finished =>
  }

  lemma StartReason(s: State, i: nat, o: Outcome, caught: set<nat>)
    requires Inv(s) && ReasonInv(s, caught) && i < |s.threads| && s.threads[i].Start?
    ensures var s' := Apply(s, Go(i, o));
            i < |s'.threads| && !s'.threads[i].Writer? && (PastShut(s'.threads[i]) ==> !s'.connected)
  {
    match s.threads[i].spc
    case Return1 => WaitReturns(s, i, Return1);
    case Return2 => WaitReturns(s, i, Return2);
    case Closing(step) => if !step.ToShut? { CloseStaysDown(s, step); }
    case _ =>
  }

  lemma ReaderReason(s: State, i: nat, o: Outcome, caught: set<nat>)
    requires Inv(s) && ReasonInv(s, caught) && i < |s.threads| && s.threads[i].Reader?
    ensures var s' := Apply(s, Go(i, o));
            i < |s'.threads| && !s'.threads[i].Writer? && (PastShut(s'.threads[i]) ==> !s'.connected)
  {
    if s.threads[i].rpc.RReturn? { ReturnsToken(s, i); }
  }

  lemma WriterReason(s: State, i: nat, o: Outcome, caught: set<nat>)
    requires Inv(s) && ReasonInv(s, caught) && i < |s.threads| && s.threads[i].Writer?
    ensures var s' := Apply(s, Go(i, o));
            && i < |s'.threads| && (PastShut(s'.threads[i]) ==> !s'.connected)
            && (IsClearing(s'.threads[i]) ==> !s'.connected || i in caught + Catches(s, Go(i, o)))
  {
    match s.threads[i].wpc
    case WReturn => ReturnsToken(s, i);
    case WClosing(step) => WriterClosingReason(s, i, o, step);
    case WSend => SendReason(s, i, o);
    case _ =>
  }

  lemma WriterClosingReason(s: State, i: nat, o: Outcome, step: ClosePc)
    requires i < |s.threads| && s.threads[i].Writer? && s.threads[i].wpc == WClosing(step)
    requires !step.ToShut? ==> !s.connected
    ensures var s' := Apply(s, Go(i, o));
            i < |s'.threads| && !IsClearing(s'.threads[i]) && (PastShut(s'.threads[i]) ==> !s'.connected)
  {
    if !step.ToShut? { CloseStaysDown(s, step); }
  }

  lemma SendReason(s: State, i: nat, o: Outcome)
    requires i < |s.threads| && s.threads[i].Writer? && s.threads[i].wpc.WSend?
    ensures var s' := Apply(s, Go(i, o));
            && i < |s'.threads| && !PastShut(s'.threads[i])
            && (IsClearing(s'.threads[i]) ==> i in Catches(s, Go(i, o)))
  {
  }

  lemma StepKeepsReason(s: State, step: Step, caught: set<nat>)
    requires Inv(s) && ReasonInv(s, caught)
    ensures ReasonInv(Apply(s, step), caught + Catches(s, step))
  {
    var s' := Apply(s, step);
    forall k | 0 <= k < |s'.threads|
      ensures PastShut(s'.threads[k]) ==> !s'.connected
      ensures IsClearing(s'.threads[k]) ==> !s'.connected || k in caught + Catches(s, step)
    {
      if k >= |s.threads| {
        NewThreads(s, step, k);
      } else if step.Go? && step.i == k {
        OwnKeepsReason(s, k, step.outcome, caught);
      } else {
        OthersKeepReason(s, step, caught, k);
      }
    }
  }

  // ---------------------------------------------------------------- what a send is lost for

  /** Sends are discarded only in a step at which the connection is down or doSend() has not
      succeeded, or by a thread that has caught an exception before. */
  lemma LossHasReason(s: State, step: Step, caught: set<nat>)
    requires Inv(s) && ReasonInv(s, caught) && Apply(s, step).lost != s.lost
    ensures !s.connected || FailsSend(s, step) || (step.Go? && step.i in caught)
  {
    assert step.Go? && step.i < |s.threads|;
    match s.threads[step.i]
    case Start(pc) => assert PastShut(s.threads[step.i]);
    case Reader(pc) => assert PastShut(s.threads[step.i]);
    case Writer(pc, batch) =>
      assert FailsSend(s, step) || PastShut(s.threads[step.i]) || IsClearing(s.threads[step.i]);
  }

  /** The connection is up at every point and every doSend() succeeds. */
  ghost predicate GoesWell(s: State, steps: seq<Step>)
    decreases |steps|
  {
    steps == [] || (s.connected && !FailsSend(s, steps[0]) && GoesWell(Apply(s, steps[0]), steps[1..]))
  }

  /** Over such a run nothing is lost: sent, in hand and queued grow by exactly what is enqueued. */
  lemma {:induction false} NothingLostWhileUp(s: State, steps: seq<Step>)
    requires Inv(s) && ReasonInv(s, {}) && GoesWell(s, steps)
    ensures Inv(Run(s, steps)) && ReasonInv(Run(s, steps), {})
    ensures Run(s, steps).lost == s.lost && Flow(Run(s, steps)) == Flow(s) + AllEnqueued(steps)
    decreases |steps|
  {
    if steps != [] {
      if Apply(s, steps[0]).lost != s.lost { LossHasReason(s, steps[0], {}); }
      StepKeepsReason(s, steps[0], {});
      StepKeepsInv(s, steps[0]);
      NothingLostWhileUp(Apply(s, steps[0]), steps[1..]);
    }
    LosslessBetweenCloses(s, steps);
  }
}

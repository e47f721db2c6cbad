/** What holds in every reachable state of the asynchronous stream. */
module AsyncStreamTheorems {
  import opened Counting
  import opened Wrappers
  import opened AsyncStreams
  import opened AsyncStreamTokens
  import opened AsyncStreamRelease
  import opened AsyncStreamFlow

  lemma StepKeepsInv(s: State, step: Step)
    requires Inv(s)
    ensures Inv(Apply(s, step))
  {
    StepKeepsTokens(s, step);
    StepKeepsRelease(s, step);
    StepKeepsWakeup(s, step);
    StepKeepsFlow(s, step);
  }

  lemma {:induction false} RunKeepsInv(s: State, steps: seq<Step>)
    requires Inv(s)
    ensures Inv(Run(s, steps))
    decreases |steps|
  {
    if steps != [] {
      StepKeepsInv(s, steps[0]);
      RunKeepsInv(Apply(s, steps[0]), steps[1..]);
    }
  }

  lemma ReachableInv(s: State)
    requires Reachable(s)
    ensures Inv(s)
  {
    var connected: bool, steps: seq<Step> :| s == Run(Init(connected), steps);
    RunKeepsInv(Init(connected), steps);
  }

  predicate IsConnecting(t: Thread) {
    t == Start(Reconnect) || t == Start(Callback)
  }

  /** Exactly two tokens exist, so there is never more than one reader and one writer, and
      reconnect() (as well as the connect callback) runs only while neither is live. */
  lemma TokenConservation(s: State)
    requires Reachable(s)
    ensures s.waitSem.count + Sum(Tokens, s.threads) == 2
    ensures forall i, j :: 0 <= i < j < |s.threads| ==> !(s.threads[i].Reader? && s.threads[j].Reader?)
    ensures forall i, j :: 0 <= i < j < |s.threads| ==> !(s.threads[i].Writer? && s.threads[j].Writer?)
    ensures forall i, j | 0 <= i < |s.threads| && 0 <= j < |s.threads| && IsConnecting(s.threads[i]) ::
              !s.threads[j].Reader? && !s.threads[j].Writer?
  {
    ReachableInv(s);
    forall i, j | 0 <= i < j < |s.threads| ensures !(s.threads[i].Reader? && s.threads[j].Reader?) {
      SumAtLeastTwo(ReadRight, s.threads, i, j);
    }
    forall i, j | 0 <= i < j < |s.threads| ensures !(s.threads[i].Writer? && s.threads[j].Writer?) {
      SumAtLeastTwo(WriteRight, s.threads, i, j);
    }
    forall i, j | 0 <= i < |s.threads| && 0 <= j < |s.threads| && IsConnecting(s.threads[i])
      ensures !s.threads[j].Reader? && !s.threads[j].Writer?
    {
      NobodyWriting(s, i);
    }
  }

  /** A non-empty queue always has its wakeup on the way. */
  lemma NoLostWakeup(s: State)
    requires Reachable(s) && s.queue != []
    ensures || s.sem.count > 0
            || (exists i :: 0 <= i < |s.threads| && s.threads[i].Writer? && s.threads[i].wpc.WSwap?)
            || (exists i :: 0 <= i < |s.threads| && s.threads[i].Sender?)
  {
    ReachableInv(s);
  }

  /** What was sent, then what the writer holds, then what is queued, is always an in-order
      part of what was accepted; only counted losses are missing from it. */
  lemma SendsStayInOrder(s: State)
    requires Reachable(s)
    ensures Within(s.sent + InHand(s.threads) + s.queue, s.hist)
    ensures |s.sent + InHand(s.threads) + s.queue| + s.lost == |s.hist|
  {
    ReachableInv(s);
  }

  /** Between two discards nothing is lost, duplicated or reordered: the flow grows by
      exactly what is enqueued. */
  lemma {:induction false} LosslessBetweenCloses(s: State, steps: seq<Step>)
    requires Inv(s)
    ensures Run(s, steps).lost >= s.lost
    ensures Run(s, steps).lost == s.lost ==> Flow(Run(s, steps)) == Flow(s) + AllEnqueued(steps)
    decreases |steps|
  {
    if steps == [] {
      assert Flow(s) + [] == Flow(s);
    } else {
      var s' := LosslessStep(s, steps[0]);
      LosslessBetweenCloses(s', steps[1..]);
      Reassociate(Flow(s), Enqueued(steps[0]), AllEnqueued(steps[1..]));
    }
  }

  lemma LosslessStep(s: State, step: Step) returns (s': State)
    requires Inv(s)
    ensures s' == Apply(s, step) && Inv(s')
    ensures s'.lost >= s.lost
    ensures s'.lost == s.lost ==> Flow(s') == Flow(s) + Enqueued(step)
  {
    s' := Apply(s, step);
    StepKeepsFlow(s, step);
    StepKeepsInv(s, step);
  }

  // ---------------------------------------------------------------- shutdown

  function ExitPhase(t: Thread): nat {
    match t
    case Writer(WParked, _) => 11
    case Writer(WWait, _) => 10
    case Writer(WSwap, _) => 9
    case Writer(WSend, _) => 8
    case Writer(WClosing(ToShut), _) => 7
    case Writer(WClosing(ToNotify), _) => 6
    case Writer(WClosing(ToSwap), _) => 5
    case Writer(WClosing(ToClear), _) => 4
    case Writer(WTest, _) => 3
    case Writer(WClear, _) => 2
    case Writer(WReturn, _) => 1
    case _ => 0
  }

  /** The steps a writer has left: its own phases, the sends it holds, and those it is still
      going to take off the queue. */
  function Left(s: State, t: Thread): nat {
    ExitPhase(t) + |BatchOf(t)| + if ExitPhase(t) >= 9 then |s.queue| else 0
  }

  /** Once the reader has notified m_sem in innerClose(), the writer is not parked, and each
      of its own steps, whatever doSend does, leaves it fewer. */
  lemma ShutdownReleasesWriter(s: State, w: nat, outcome: Outcome)
    requires Reachable(s) && w < |s.threads| && s.threads[w].Writer? && !HasActiveReader(s)
    ensures !s.connected && s.threads[w].wpc != WParked
    ensures var s' := Apply(s, Go(w, outcome)); Left(s', s'.threads[w]) < Left(s, s.threads[w])
  {
    ReachableInv(s);
    assert IsWriting(s.threads[w]);
    assert Released(s, s.threads[w]);
    WriterMoves(s, w, outcome);
  }

  lemma WriterMoves(s: State, w: nat, outcome: Outcome)
    requires Inv(s) && w < |s.threads| && s.threads[w].Writer?
    requires !s.connected && Released(s, s.threads[w])
    ensures var s' := Apply(s, Go(w, outcome));
            && Left(s', s'.threads[w]) < Left(s, s.threads[w])
            && (s'.threads[w].Writer? || s'.threads[w] == Finished)
  {
    var batch := s.threads[w].batch;
    var s' := StepWriter(s, w, s.threads[w].wpc, batch, outcome);
    match s.threads[w].wpc
    case WReturn => ReturnsToken(s, w);
    case WClosing(step) => ClosingMoves(s, w, outcome);
    case WTest => assert s'.threads[w] == Writer(WClear, batch);
    case WWait => assert s'.threads[w] == Writer(WSwap, batch);
    case WSwap => assert s'.threads[w] == Writer(WSend, s.queue) && batch == [];
    case WSend =>
    case WClear =>
  }

  lemma ClosingMoves(s: State, w: nat, outcome: Outcome)
    requires SemInv(s) && w < |s.threads| && s.threads[w].Writer? && s.threads[w].wpc.WClosing?
    ensures var s' := Apply(s, Go(w, outcome));
            s'.threads[w].Writer? && Left(s', s'.threads[w]) < Left(s, s.threads[w])
  {
    var batch, step := s.threads[w].batch, s.threads[w].wpc.step;
    var next := InnerClose(s, step).1;
    assert Apply(s, Go(w, outcome)).threads[w] == Writer(if next.Some? then WClosing(next.value) else WTest, batch);
  }

  lemma ReturnsToken(s: State, w: nat)
    requires SemInv(s) && w < |s.threads| && !IsParked(s.threads[w])
    ensures NotifyWaitSem(Become(s, w, Finished)).threads[w] == Finished
  {
    if s.waitSem.waiters != [] { assert IsParkedStart(s.threads[s.waitSem.waiters[0]]); }
  }

  /** No step of anybody else undoes that: the writer stays where it is and no reader
      becomes active before the writer has finished. */
  lemma ReleaseIsStable(s: State, w: nat, step: Step)
    requires Inv(s) && w < |s.threads| && s.threads[w].Writer? && !HasActiveReader(s)
    requires !(step.Go? && step.i == w)
    ensures var s' := Apply(s, step);
            |s.threads| <= |s'.threads| && s'.threads[w] == s.threads[w] && !HasActiveReader(s')
  {
    assert IsWriting(s.threads[w]) && Released(s, s.threads[w]);
    forall k | 0 <= k < |s.threads| && k != w ensures WriteRight(s.threads[k]) == 0 {
      if WriteRight(s.threads[k]) > 0 { OneWriteRight(s, w, k); }
    }
    if step.Go? && step.i < |s.threads| {
      OthersLeaveWriter(s, w, step.i, step.outcome);
    }
  }

  lemma WriterBringsNoReader(s: State, w: nat, outcome: Outcome)
    requires SemInv(s) && w < |s.threads| && s.threads[w].Writer? && !HasActiveReader(s)
    ensures !HasActiveReader(Apply(s, Go(w, outcome)))
  {
    if s.threads[w].wpc.WReturn? { ReturnsToken(s, w); }
    NoReaderComes(s, w, outcome);
  }

  function StepsOf(steps: seq<Step>, w: nat): nat {
    if steps == [] then 0
    else (if steps[0].Go? && steps[0].i == w then 1 else 0) + StepsOf(steps[1..], w)
  }

  /** Only new sends lengthen what a writer has left. */
  lemma OthersLeaveLeft(s: State, w: nat, step: Step)
    requires Inv(s) && w < |s.threads| && s.threads[w].Writer? && !HasActiveReader(s)
    requires !(step.Go? && step.i == w)
    ensures var s' := Apply(s, step);
            w < |s'.threads| && Left(s', s'.threads[w]) <= Left(s, s.threads[w]) + |Enqueued(step)|
  {
    ReleaseIsStable(s, w, step);
    QueueGrowsByCalls(s, step);
  }

  lemma QueueGrowsByCalls(s: State, step: Step)
    ensures |Apply(s, step).queue| <= |s.queue| + |Enqueued(step)|
  {
    match step
    case Go(i, o) =>
      if i < |s.threads| {
        match s.threads[i]
        case Start(pc) => assert StepStart(s, i, pc, o).queue in {s.queue, []};
        case Reader(pc) => assert StepReader(s, i, pc, o).queue in {s.queue, []};
        case Writer(pc, batch) => assert StepWriter(s, i, pc, batch, o).queue in {s.queue, []};
        case Sender =>
        case Finished =>
      }
    case _ =>
  }

  ghost predicate IsFinished(s: State, w: nat) {
    w < |s.threads| && s.threads[w] == Finished
  }

  /** Nobody but a notify moves another thread, and that resumes it. */
  ghost predicate KeepsThread(i: nat, s: State, s': State) {
    i < |s.threads| && i < |s'.threads| && s'.threads[i] in {s.threads[i], Resume(s.threads[i])}
  }

  lemma NotifyKeepsThread(s: State, s': State, i: nat)
    requires i < |s.threads| == |s'.threads| && s'.threads[i] == s.threads[i]
    ensures KeepsThread(i, s, NotifySem(s')) && KeepsThread(i, s, NotifyWaitSem(s'))
  {
  }

  lemma CloseKeepsThread(s: State, step: ClosePc, i: nat)
    requires i < |s.threads|
    ensures KeepsThread(i, s, InnerClose(s, step).0)
  {
    NotifyKeepsThread(s, s, i);
  }

  lemma StartKeepsThread(s: State, i: nat, j: nat, o: Outcome)
    requires i < |s.threads| && j < |s.threads| && i != j && s.threads[j].Start?
    ensures KeepsThread(i, s, StepStart(s, j, s.threads[j].spc, o))
  {
    match s.threads[j].spc
    case Closing(step) => CloseKeepsThread(s, step, i);
    case Return1 => NotifyKeepsThread(s, Become(s, j, Start(Return2)), i);
    case Return2 => NotifyKeepsThread(s, Become(s, j, Finished), i);
    case _ =>
  }

  lemma ReaderKeepsThread(s: State, i: nat, j: nat, o: Outcome)
    requires i < |s.threads| && j < |s.threads| && i != j && s.threads[j].Reader?
    ensures KeepsThread(i, s, StepReader(s, j, s.threads[j].rpc, o))
  {
    match s.threads[j].rpc
    case RClosing(step) => CloseKeepsThread(s, step, i);
    case RReturn => NotifyKeepsThread(s, Become(s, j, Finished), i);
    case _ =>
  }

  lemma WriterKeepsThread(s: State, i: nat, j: nat, o: Outcome)
    requires i < |s.threads| && j < |s.threads| && i != j && s.threads[j].Writer?
    ensures KeepsThread(i, s, StepWriter(s, j, s.threads[j].wpc, s.threads[j].batch, o))
  {
    match s.threads[j].wpc
    case WClosing(step) => CloseKeepsThread(s, step, i);
    case WReturn => NotifyKeepsThread(s, Become(s, j, Finished), i);
    case _ =>
  }

  lemma OthersKeepThread(s: State, step: Step, i: nat)
    requires i < |s.threads| && (step.Go? ==> step.i != i)
    ensures KeepsThread(i, s, Apply(s, step))
  {
    if step.Go? && step.i < |s.threads| {
      match s.threads[step.i]
      case Start(_) => StartKeepsThread(s, i, step.i, step.outcome);
      case Reader(_) => ReaderKeepsThread(s, i, step.i, step.outcome);
      case Writer(_, _) => WriterKeepsThread(s, i, step.i, step.outcome);
      case Sender => NotifyKeepsThread(s, Become(s, step.i, Finished), i);
      case Finished =>
    }
  }

  lemma {:induction false} FinishedStays(s: State, steps: seq<Step>, w: nat)
    requires IsFinished(s, w)
    ensures IsFinished(Run(s, steps), w)
    decreases |steps|
  {
    if steps != [] {
      if !(steps[0].Go? && steps[0].i == w) {
        OthersKeepThread(s, steps[0], w);
      }
      FinishedStays(Apply(s, steps[0]), steps[1..], w);
    }
  }

  /** A writer on its way out, with at most n steps left. */
  ghost predicate Leaving(s: State, w: nat, n: int) {
    w < |s.threads| && s.threads[w].Writer? && !HasActiveReader(s) && Left(s, s.threads[w]) <= n
  }

  lemma OwnLeavingStep(s: State, w: nat, n: int, o: Outcome)
    requires Inv(s) && Leaving(s, w, n)
    ensures var s' := Apply(s, Go(w, o)); IsFinished(s', w) || Leaving(s', w, n - 1)
  {
    assert IsWriting(s.threads[w]) && Released(s, s.threads[w]);
    WriterMoves(s, w, o);
    WriterBringsNoReader(s, w, o);
  }

  lemma OthersLeavingStep(s: State, w: nat, n: int, step: Step)
    requires Inv(s) && Leaving(s, w, n) && !(step.Go? && step.i == w)
    ensures Leaving(Apply(s, step), w, n + |Enqueued(step)|)
  {
    ReleaseIsStable(s, w, step);
    OthersLeaveLeft(s, w, step);
  }

  /** The steps left after one step of the run. */
  function LeftAfter(n: int, w: nat, step: Step): int {
    if step.Go? && step.i == w then n - 1 else n + |Enqueued(step)|
  }

  lemma LeavingStep(s: State, w: nat, n: int, step: Step) returns (s': State)
    requires Inv(s) && Leaving(s, w, n)
    ensures s' == Apply(s, step) && Inv(s') && (IsFinished(s', w) || Leaving(s', w, LeftAfter(n, w, step)))
  {
    s' := Apply(s, step);
    StepKeepsInv(s, step);
    if step.Go? && step.i == w {
      OwnLeavingStep(s, w, n, step.outcome);
    } else {
      OthersLeavingStep(s, w, n, step);
    }
  }

  /** Shutdown: once no reader has still to notify m_sem, every continuation in which the
      writer takes the steps it has left, and one for every new send, ends with the writer
      finished and its token returned, whatever everybody else does. */
  lemma {:induction false} WriterFinishes(s: State, steps: seq<Step>, w: nat, n: int)
    requires Inv(s) && Leaving(s, w, n) && StepsOf(steps, w) >= n + |AllEnqueued(steps)|
    ensures IsFinished(Run(s, steps), w)
    decreases |steps|
  {
    if steps != [] {
      var s' := LeavingStep(s, w, n, steps[0]);
      if IsFinished(s', w) {
        FinishedStays(s', steps[1..], w);
      } else {
        WriterFinishes(s', steps[1..], w, LeftAfter(n, w, steps[0]));
      }
    }
  }

  lemma WakesOnlyParked(s: State)
    requires SemInv(s)
    ensures forall k :: 0 <= k < |s.threads| && !IsParked(s.threads[k]) ==>
              NotifySem(s).threads[k] == s.threads[k] && NotifyWaitSem(s).threads[k] == s.threads[k]
    ensures forall k :: 0 <= k < |s.threads| ==>
              IsActiveReader(NotifySem(s).threads[k]) == IsActiveReader(s.threads[k]) &&
              IsActiveReader(NotifyWaitSem(s).threads[k]) == IsActiveReader(s.threads[k])
  {
    if s.sem.waiters != [] { assert IsParkedWriter(s.threads[s.sem.waiters[0]]); }
    if s.waitSem.waiters != [] { assert IsParkedStart(s.threads[s.waitSem.waiters[0]]); }
  }

  lemma OthersLeaveWriter(s: State, w: nat, i: nat, outcome: Outcome)
    requires Inv(s) && w < |s.threads| && i < |s.threads| && i != w
    requires s.threads[w].Writer? && !IsParked(s.threads[w]) && !HasActiveReader(s)
    requires WriteRight(s.threads[i]) == 0
    ensures w < |Apply(s, Go(i, outcome)).threads| && Apply(s, Go(i, outcome)).threads[w] == s.threads[w]
    ensures !HasActiveReader(Apply(s, Go(i, outcome)))
  {
    OthersKeepThread(s, Go(i, outcome), w);
    OwnBringsNoReader(s, i, outcome);
    NoReaderComes(s, i, outcome);
  }

  /** Only a start with both tokens schedules a reader. */
  lemma OwnBringsNoReader(s: State, i: nat, outcome: Outcome)
    requires SemInv(s) && i < |s.threads| && !IsActiveReader(s.threads[i])
    requires WriteRight(s.threads[i]) == 0
    ensures var t := Apply(s, Go(i, outcome)).threads; |t| == |s.threads| && !IsActiveReader(t[i])
  {
    match s.threads[i]
    case Start(pc) => if pc.Return2? { ReturnsToken(s, i); }
    case Reader(pc) => if pc.RReturn? { ReturnsToken(s, i); }
    case Sender =>
      BecomeSemInv(s, i, Finished);
      WakesOnlyParked(Become(s, i, Finished));
    case Finished =>
  }

  lemma NoReaderComes(s: State, i: nat, outcome: Outcome)
    requires i < |s.threads| && !HasActiveReader(s)
    requires var t := Apply(s, Go(i, outcome)).threads; |t| == |s.threads| && !IsActiveReader(t[i])
    ensures !HasActiveReader(Apply(s, Go(i, outcome)))
  {
    var s' := Apply(s, Go(i, outcome));
    forall k | 0 <= k < |s.threads| ensures !IsActiveReader(s'.threads[k]) {
      assert !IsActiveReader(s.threads[k]);
      if k != i {
        OthersKeepThread(s, Go(i, outcome), k);
      }
    }
  }
}

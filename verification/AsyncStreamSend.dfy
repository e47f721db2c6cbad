/** A live writer sends: everything accepted can be sent while the connection stays up, and the
    writer swaps the queue only when it has been notified. */
module AsyncStreamSends {
  import opened Counting
  import opened Wrappers
  import opened AsyncStreams
  import opened AsyncStreamTokens
  import opened AsyncStreamRelease
  import opened AsyncStreamFlow
  import opened AsyncStreamTheorems
  import opened AsyncStreamWedges
  import opened AsyncStreamReasons

  // ---------------------------------------------------------------- everything can be sent

  predicate InLoop(pc: WriterPc) { pc.WTest? || pc.WWait? || pc.WParked? || pc.WSwap? || pc.WSend? }

  /** The writer w is in the loop of doWrite() on a live connection. */
  ghost predicate Sending(s: State, w: nat) {
    Inv(s) && s.connected && w < |s.threads| && s.threads[w].Writer? && InLoop(s.threads[w].wpc)
  }

  ghost predicate NothingLeft(s: State, w: nat) {
    s.queue == [] && w < |s.threads| && BatchOf(s.threads[w]) == []
  }

  function Steps(t: Thread): nat {
    match t
    case Writer(WSend, batch) => 6 + |batch|
    case Writer(WTest, _) => 5
    case Writer(WWait, _) => 4
    case Writer(WParked, _) => 3
    case _ => 2
  }

  /** The queue has been taken, or w is nearer to taking it. */
  ghost predicate Nearer(s: State, s': State, w: nat) {
    && Sending(s', w) && w < |s.threads|
    && (|s'.queue| < |s.queue| || (s'.queue == s.queue && Steps(s'.threads[w]) < Steps(s.threads[w])))
  }

  /** What the writer comes to in the loop when the send succeeds. */
  function InLoopNext(s: State, pc: WriterPc, batch: seq<Item>): Thread {
    match pc
    case WTest => Writer(WWait, batch)
    case WWait => Writer(if s.sem.count > 0 then WSwap else WParked, batch)
    case WSwap => Writer(WSend, s.queue)
    case _ => if batch == [] then Writer(WTest, []) else Writer(WSend, batch[1..])
  }

  lemma OwnMove(s: State, w: nat)
    requires s.connected && w < |s.threads| && s.threads[w].Writer? && InLoop(s.threads[w].wpc)
    requires !s.threads[w].wpc.WParked?
    ensures var s', t := Apply(s, Go(w, Success)), s.threads[w];
            && s'.connected && w < |s'.threads| && s'.threads[w] == InLoopNext(s, t.wpc, t.batch)
            && s'.queue == if t.wpc.WSwap? then [] else s.queue
  {
    match s.threads[w].wpc
    case WTest =>
    case WWait =>
    case WSwap =>
    case WSend =>
  }

  lemma OwnNearer(s: State, w: nat)
    requires Sending(s, w) && !NothingLeft(s, w) && !s.threads[w].wpc.WParked?
    ensures Nearer(s, Apply(s, Go(w, Success)), w)
  {
    assert !s.threads[w].wpc.WSend? ==> s.threads[w].batch == [];
    OwnMove(s, w);
    StepKeepsInv(s, Go(w, Success));
    CloserInLoop(s, Apply(s, Go(w, Success)), w);
  }

  lemma CloserInLoop(s: State, s': State, w: nat)
    requires Inv(s') && s'.connected && w < |s.threads| && w < |s'.threads| && s.threads[w].Writer?
    requires InLoop(s.threads[w].wpc) && !s.threads[w].wpc.WParked? && !NothingLeft(s, w)
    requires !s.threads[w].wpc.WSend? ==> s.threads[w].batch == []
    requires s'.threads[w] == InLoopNext(s, s.threads[w].wpc, s.threads[w].batch)
    requires s'.queue == if s.threads[w].wpc.WSwap? then [] else s.queue
    ensures Nearer(s, s', w)
  {
  }

  lemma OnlyWaiter(s: State, w: nat)
    requires Sending(s, w) && s.threads[w].wpc.WParked?
    ensures s.sem.waiters != [] && s.sem.waiters[0] == w && s.sem.count == 0
    ensures forall i :: 0 <= i < |s.threads| ==> !(s.threads[i].Writer? && s.threads[i].wpc.WSwap?)
  {
    assert w in s.sem.waiters;
    assert IsParkedWriter(s.threads[s.sem.waiters[0]]);
    OneWriteRight(s, w, s.sem.waiters[0]);
    forall i | 0 <= i < |s.threads| ensures !(s.threads[i].Writer? && s.threads[i].wpc.WSwap?) {
      if s.threads[i].Writer? { OneWriteRight(s, w, i); }
    }
  }

  lemma NotifyResumes(s: State, w: nat, k: nat)
    requires w < |s.threads| && k < |s.threads| && k != w && s.threads[k].Sender?
    requires s.sem.waiters != [] && s.sem.waiters[0] == w && s.threads[w].Writer? && s.threads[w].wpc.WParked?
    ensures var s' := Apply(s, Go(k, Success));
            && |s'.threads| == |s.threads| && s'.threads[w] == Writer(WSwap, s.threads[w].batch)
            && s'.queue == s.queue && s'.connected == s.connected
  {
  }

  /** A parked writer with something to send has a sender that owes it a notify. */
  lemma SenderNotifies(s: State, w: nat) returns (k: nat)
    requires Sending(s, w) && s.queue != [] && s.threads[w].wpc.WParked?
    ensures k < |s.threads| && s.threads[k].Sender? && Nearer(s, Apply(s, Go(k, Success)), w)
  {
    OnlyWaiter(s, w);
    k :| 0 <= k < |s.threads| && s.threads[k].Sender?;
    NotifyResumes(s, w, k);
    StepKeepsInv(s, Go(k, Success));
  }

  lemma Advance(s: State, w: nat) returns (step: Step, s': State)
    requires Sending(s, w) && !NothingLeft(s, w)
    ensures step.Go? && s' == Apply(s, step) && !FailsSend(s, step) && Nearer(s, s', w)
  {
    if s.threads[w].wpc.WParked? {
      var k := SenderNotifies(s, w);
      step := Go(k, Success);
    } else {
      OwnNearer(s, w);
      step := Go(w, Success);
    }
    s' := Apply(s, step);
  }

  lemma {:induction false} SendEverything(s: State, w: nat) returns (steps: seq<Step>)
    requires Sending(s, w)
    ensures AllGo(steps) && GoesWell(s, steps) && Sending(Run(s, steps), w) && NothingLeft(Run(s, steps), w)
    decreases |s.queue|, if w < |s.threads| then Steps(s.threads[w]) else 0
  {
    if NothingLeft(s, w) {
      return [];
    }
    var step, s' := Advance(s, w);
    var rest := SendEverything(s', w);
    steps := [step] + rest;
    assert steps[1..] == rest;
  }

  lemma {:induction false} RunHasReasons(s: State, steps: seq<Step>, caught: set<nat>) returns (all: set<nat>)
    requires Inv(s) && ReasonInv(s, caught)
    ensures ReasonInv(Run(s, steps), all)
    decreases |steps|
  {
    if steps == [] {
      all := caught;
    } else {
      StepKeepsReason(s, steps[0], caught);
      StepKeepsInv(s, steps[0]);
      all := RunHasReasons(Apply(s, steps[0]), steps[1..], caught + Catches(s, steps[0]));
    }
  }

  lemma SendingHasNoReason(s: State, w: nat)
    requires Reachable(s) && Sending(s, w)
    ensures ReasonInv(s, {})
  {
    var connected: bool, steps: seq<Step> :| s == Run(Init(connected), steps);
    ReachableInv(Init(connected)) by { assert Init(connected) == Run(Init(connected), []); }
    var all := RunHasReasons(Init(connected), steps, {});
    forall i | 0 <= i < |s.threads| ensures !IsClearing(s.threads[i]) {
      if IsClearing(s.threads[i]) { OneWriteRight(s, w, i); }
    }
  }

  lemma {:induction false} GoesEnqueueNothing(steps: seq<Step>)
    requires AllGo(steps)
    ensures AllEnqueued(steps) == []
  {
    if steps != [] {
      assert steps[0].Go?;
      GoesEnqueueNothing(steps[1..]);
    }
  }

  /** Some schedule of the threads, with the connection up and every doSend() succeeding, sends
      exactly these items. */
  ghost predicate CanSend(s: State, items: seq<Item>) {
    exists steps: seq<Step> :: AllGo(steps) && GoesWell(s, steps) && Run(s, steps).sent == s.sent + items
  }

  lemma SentAll(t: State, w: nat)
    requires Sending(t, w) && NothingLeft(t, w)
    ensures Flow(t) == t.sent
  {
    WriterHolds(t, w, t.threads[w]);
    assert t.sent + [] + [] == t.sent;
  }

  /** While the connection is up, the writer in its loop can send, in order, everything that has
      been accepted and not sent, whatever it and the senders are doing now. */
  lemma EverythingCanBeSent(s: State, w: nat)
    requires Reachable(s) && Sending(s, w)
    ensures CanSend(s, InHand(s.threads) + s.queue)
  {
    SendingHasNoReason(s, w);
    var steps := SendEverything(s, w);
    NothingLostWhileUp(s, steps);
    GoesEnqueueNothing(steps);
    SentAll(Run(s, steps), w);
    assert Flow(s) + [] == Flow(s);
    Reassociate(s.sent, InHand(s.threads), s.queue);
  }

  // ---------------------------------------------------------------- no swap without a notify

  function AboutToSwap(t: Thread): nat { if t.Writer? && t.wpc.WSwap? then 1 else 0 }

  function SwapsIn(s: State, step: Step): nat {
    if step.Go? && step.i < |s.threads| then AboutToSwap(s.threads[step.i]) else 0
  }

  predicate IsNotifying(t: Thread) {
    match t
    case Start(pc) => pc == Closing(ToNotify)
    case Reader(pc) => pc == RClosing(ToNotify)
    case Writer(pc, _) => pc == WClosing(ToNotify)
    case Sender => true
    case Finished => false
  }

  function NotifiesIn(s: State, step: Step): nat {
    if step.Go? && step.i < |s.threads| && IsNotifying(s.threads[step.i]) then 1 else 0
  }

  /** Tokens of m_sem stored, and those taken by a writer that has not swapped yet. */
  function Pending(s: State): nat { s.sem.count + Sum(AboutToSwap, s.threads) }

  lemma BecomePends(s: State, i: nat, t: Thread)
    requires i < |s.threads|
    ensures Pending(Become(s, i, t)) + AboutToSwap(s.threads[i]) == Pending(s) + AboutToSwap(t)
  {
    SumUpdate(AboutToSwap, s.threads, i, t);
  }

  lemma NotifyPends(s: State)
    requires SemInv(s)
    ensures Pending(NotifySem(s)) == Pending(s) + 1
  {
    if s.sem.waiters != [] {
      var f := s.sem.waiters[0];
      assert IsParkedWriter(s.threads[f]);
      SumUpdate(AboutToSwap, s.threads, f, Resume(s.threads[f]));
    }
  }

  lemma ReturnPends(s: State, i: nat, t: Thread)
    requires SemInv(s) && i < |s.threads| && !IsParked(s.threads[i]) && !IsParked(t)
    requires AboutToSwap(s.threads[i]) == AboutToSwap(t) == 0
    ensures Pending(NotifyWaitSem(Become(s, i, t))) == Pending(s)
  {
    var m := Become(s, i, t);
    BecomePends(s, i, t);
    BecomeSemInv(s, i, t);
    if m.waitSem.waiters != [] {
      var f := m.waitSem.waiters[0];
      assert IsParkedStart(m.threads[f]);
      SumUpdate(AboutToSwap, m.threads, f, Resume(m.threads[f]));
    }
  }

  lemma ClosePends(s: State, i: nat, step: ClosePc, t: Thread)
    requires SemInv(s) && i < |s.threads| && !IsParked(s.threads[i])
    requires AboutToSwap(s.threads[i]) == AboutToSwap(t) == 0
    ensures Pending(Become(InnerClose(s, step).0, i, t)) == Pending(s) + if step.ToNotify? then 1 else 0
  {
    if step.ToNotify? {
      NotifyPends(s);
      WakesOnlyParked(s);
    }
    BecomePends(InnerClose(s, step).0, i, t);
  }

  lemma MovePends(s: State, i: nat, o: Outcome)
    requires i < |s.threads| && s.threads[i].Start?
    requires s.threads[i].spc in {Wait1, Wait2, Check, Reconnect, Callback}
    ensures Pending(Apply(s, Go(i, o))) == Pending(s)
  {
    match s.threads[i].spc
    case Wait1 => BecomePends(s, i, Start(if s.waitSem.count > 0 then Wait2 else Parked1));
    case Wait2 => BecomePends(s, i, Start(if s.waitSem.count > 0 then Check else Parked2));
    case Check => BecomePends(s, i, Start(if s.connected then Callback else Reconnect));
    case Reconnect => BecomePends(s, i, Start(if o.Success? then Callback else Closing(ToShut)));
    case Callback => BecomePends(s, i, Start(if o.Success? then SpawnRead else Closing(ToShut)));
  }

  lemma SpawnPends(s: State, i: nat, t: Thread, child: Thread)
    requires i < |s.threads| && AboutToSwap(s.threads[i]) == AboutToSwap(t) == AboutToSwap(child) == 0
    ensures Pending(s.(threads := s.threads[i := t] + [child])) == Pending(s)
  {
    BecomePends(s, i, t);
    SumAppend(AboutToSwap, s.threads[i := t], child);
  }

  lemma StartPends(s: State, i: nat, o: Outcome)
    requires SemInv(s) && i < |s.threads| && s.threads[i].Start?
    ensures Pending(Apply(s, Go(i, o))) == Pending(s) + NotifiesIn(s, Go(i, o))
  {
    match s.threads[i].spc
    case Return1 => ReturnPends(s, i, Start(Return2));
    case Return2 => ReturnPends(s, i, Finished);
    case Closing(step) =>
      var next := InnerClose(s, step).1;
      ClosePends(s, i, step, Start(if next.Some? then Closing(next.value) else Return1));
    case SpawnRead => SpawnPends(s, i, Start(SpawnWrite), Reader(RTest));
    case SpawnWrite => SpawnPends(s, i, Finished, Writer(WTest, []));
    case Parked1 =>
    case Parked2 =>
    case _ => MovePends(s, i, o);
  }

  lemma ReaderPends(s: State, i: nat, o: Outcome)
    requires SemInv(s) && i < |s.threads| && s.threads[i].Reader?
    ensures Pending(Apply(s, Go(i, o))) == Pending(s) + NotifiesIn(s, Go(i, o))
  {
    match s.threads[i].rpc
    case RReturn => ReturnPends(s, i, Finished);
    case RClosing(step) =>
      var next := InnerClose(s, step).1;
      ClosePends(s, i, step, Reader(if next.Some? then RClosing(next.value) else RReturn));
    case _ => BecomePends(s, i, Apply(s, Go(i, o)).threads[i]);
  }

  lemma WriterPends(s: State, i: nat, o: Outcome)
    requires SemInv(s) && i < |s.threads| && s.threads[i].Writer?
    ensures Pending(Apply(s, Go(i, o))) + SwapsIn(s, Go(i, o)) == Pending(s) + NotifiesIn(s, Go(i, o))
  {
    var batch := s.threads[i].batch;
    match s.threads[i].wpc
    case WReturn => ReturnPends(s, i, Finished);
    case WClosing(step) =>
      var next := InnerClose(s, step).1;
      ClosePends(s, i, step, Writer(if next.Some? then WClosing(next.value) else WTest, batch));
    case WParked =>
    case WTest => BecomePends(s, i, Writer(if s.connected then WWait else WClear, batch));
    case WWait => BecomePends(s, i, Writer(if s.sem.count > 0 then WSwap else WParked, batch));
    case WSwap => BecomePends(s, i, Writer(WSend, s.queue));
    case WClear => BecomePends(s, i, Writer(WReturn, batch));
    case WSend => SendPends(s, i, o);
  }

  lemma SendPends(s: State, i: nat, o: Outcome)
    requires i < |s.threads| && s.threads[i].Writer? && s.threads[i].wpc.WSend?
    ensures Pending(Apply(s, Go(i, o))) == Pending(s)
  {
    var batch := s.threads[i].batch;
    BecomePends(s, i, if batch == [] then Writer(WTest, []) else if o.Success? then Writer(WSend, batch[1..])
                      else Writer(if o.Failure? then WClosing(ToShut) else WClear, []));
  }

  lemma StepPends(s: State, step: Step)
    requires SemInv(s)
    ensures Pending(Apply(s, step)) + SwapsIn(s, step) == Pending(s) + NotifiesIn(s, step)
  {
    match step
    case CallStart => SumAppend(AboutToSwap, s.threads, Start(Wait1));
    case UserClose =>
    case Enqueue(item) => SumAppend(AboutToSwap, s.threads, if s.queue == [] then Sender else Finished);
    case Go(i, o) =>
      if i < |s.threads| {
        match s.threads[i]
        case Start(_) => StartPends(s, i, o);
        case Reader(_) => ReaderPends(s, i, o);
        case Writer(_, _) => WriterPends(s, i, o);
        case Sender =>
          BecomePends(s, i, Finished);
          BecomeSemInv(s, i, Finished);
          NotifyPends(Become(s, i, Finished));
        case Finished =>
      }
  }

  function AllSwaps(s: State, steps: seq<Step>): nat
    decreases |steps|
  {
    if steps == [] then 0 else SwapsIn(s, steps[0]) + AllSwaps(Apply(s, steps[0]), steps[1..])
  }

  function AllNotifies(s: State, steps: seq<Step>): nat
    decreases |steps|
  {
    if steps == [] then 0 else NotifiesIn(s, steps[0]) + AllNotifies(Apply(s, steps[0]), steps[1..])
  }

  /** Over any run, swaps of the queue and notifies balance: a writer swaps once for each notify and
      no more often, and what is not swapped yet is stored or taken. */
  lemma {:induction false} SwapsBalanceNotifies(s: State, steps: seq<Step>)
    requires Inv(s)
    ensures Pending(Run(s, steps)) + AllSwaps(s, steps) == Pending(s) + AllNotifies(s, steps)
    decreases |steps|
  {
    if steps != [] {
      StepPends(s, steps[0]);
      StepKeepsInv(s, steps[0]);
      SwapsBalanceNotifies(Apply(s, steps[0]), steps[1..]);
    }
  }
}

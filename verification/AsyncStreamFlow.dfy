/** What happens to accepted sends: order, loss and conservation. */
module AsyncStreamFlow {
  import opened Counting
  import opened Wrappers
  import opened AsyncStreams
  import opened AsyncStreamTokens
  import opened AsyncStreamRelease

  lemma {:induction false} SameBatches(a: seq<Thread>, b: seq<Thread>)
    requires |a| == |b|
    requires forall k :: 0 <= k < |a| ==> BatchOf(a[k]) == BatchOf(b[k])
    ensures InHand(a) == InHand(b)
  {
    if a != [] {
      SameBatches(a[..|a| - 1], b[..|b| - 1]);
    }
  }

  lemma {:induction false} NoBatches(a: seq<Thread>)
    requires forall k :: 0 <= k < |a| ==> BatchOf(a[k]) == []
    ensures InHand(a) == []
  {
    if a != [] {
      NoBatches(a[..|a| - 1]);
    }
  }

  lemma {:induction false} OnlyBatch(a: seq<Thread>, i: nat)
    requires i < |a|
    requires forall k :: 0 <= k < |a| && k != i ==> BatchOf(a[k]) == []
    ensures InHand(a) == BatchOf(a[i])
  {
    var n := |a| - 1;
    if i == n {
      NoBatches(a[..n]);
    } else {
      OnlyBatch(a[..n], i);
    }
  }

  /** What the one writer holds is what is in hand. */
  lemma WriterHolds(s: State, i: nat, t: Thread)
    requires TokenInv(s) && i < |s.threads| && s.threads[i].Writer? && t.Writer?
    ensures InHand(s.threads) == s.threads[i].batch
    ensures InHand(s.threads[i := t]) == t.batch
  {
    forall k | 0 <= k < |s.threads| && k != i ensures BatchOf(s.threads[k]) == [] {
      if s.threads[k].Writer? { OneWriteRight(s, i, k); }
    }
    OnlyBatch(s.threads, i);
    OnlyBatch(s.threads[i := t], i);
  }

  function Enqueued(step: Step): seq<Item> {
    if step.Enqueue? then [step.item] else []
  }

  function AllEnqueued(steps: seq<Step>): seq<Item> {
    if steps == [] then [] else Enqueued(steps[0]) + AllEnqueued(steps[1..])
  }

  ghost predicate IdleBatches(s: State) {
    forall i :: 0 <= i < |s.threads| && s.threads[i].Writer? && !s.threads[i].wpc.WSend? ==>
      s.threads[i].batch == []
  }

  /** The effect of one step on the flow: nothing is lost and the flow grows by what was
      enqueued, or one stretch of it is dropped and counted as lost. */
  ghost predicate FlowStep(s: State, s': State, added: seq<Item>) {
    && IdleBatches(s')
    && s'.hist == s.hist + added
    && exists kept: seq<Item>, dropped: seq<Item>, rest: seq<Item> ::
         IsFlowStep(s, s', added, kept, dropped, rest)
  }

  ghost predicate IsFlowStep(s: State, s': State, added: seq<Item>,
                             kept: seq<Item>, dropped: seq<Item>, rest: seq<Item>) {
    && Flow(s) + added == kept + dropped + rest
    && Flow(s') == kept + rest
    && s'.lost == s.lost + |dropped|
  }

  lemma SameFlow(s: State, s': State)
    requires IdleBatches(s') && s'.hist == s.hist && Flow(s') == Flow(s) && s'.lost == s.lost
    ensures FlowStep(s, s', [])
  {
    assert IsFlowStep(s, s', [], Flow(s), [], []);
  }

  lemma NotifyFlow(s: State)
    requires SemInv(s) && IdleBatches(s)
    ensures FlowStep(s, NotifySem(s), []) && Flow(NotifySem(s)) == Flow(s)
  {
    SameBatches(s.threads, NotifySem(s).threads);
    SameFlow(s, NotifySem(s));
  }

  lemma NotifyWaitFlow(s: State)
    requires SemInv(s) && IdleBatches(s)
    ensures FlowStep(s, NotifyWaitSem(s), []) && Flow(NotifyWaitSem(s)) == Flow(s)
  {
    SameBatches(s.threads, NotifyWaitSem(s).threads);
    SameFlow(s, NotifyWaitSem(s));
  }

  lemma BecomeFlow(s: State, i: nat, t: Thread)
    requires IdleBatches(s) && i < |s.threads| && BatchOf(s.threads[i]) == BatchOf(t)
    requires t.Writer? && !t.wpc.WSend? ==> t.batch == []
    ensures IdleBatches(Become(s, i, t)) && Flow(Become(s, i, t)) == Flow(s)
    ensures FlowStep(s, Become(s, i, t), [])
  {
    SameBatches(s.threads, s.threads[i := t]);
    SameFlow(s, Become(s, i, t));
  }

  lemma SpawnFlow(s: State, t: Thread)
    requires IdleBatches(s) && BatchOf(t) == []
    ensures FlowStep(s, s.(threads := s.threads + [t]), [])
    ensures Flow(s.(threads := s.threads + [t])) == Flow(s)
  {
    assert (s.threads + [t])[..|s.threads|] == s.threads;
    SameFlow(s, s.(threads := s.threads + [t]));
  }

  lemma ClearFlow(s: State)
    requires IdleBatches(s)
    ensures FlowStep(s, ClearQueue(s), [])
  {
    assert IsFlowStep(s, ClearQueue(s), [], s.sent + InHand(s.threads), s.queue, []);
  }

  /** A loss followed by a quiet change of one thread. */
  lemma ThenBecome(s: State, m: State, i: nat, t: Thread)
    requires FlowStep(s, m, []) && i < |m.threads| && BatchOf(m.threads[i]) == BatchOf(t)
    requires t.Writer? && !t.wpc.WSend? ==> t.batch == []
    ensures FlowStep(s, Become(m, i, t), [])
  {
    BecomeFlow(m, i, t);
    var kept, dropped, rest :| IsFlowStep(s, m, [], kept, dropped, rest);
    assert IsFlowStep(s, Become(m, i, t), [], kept, dropped, rest);
  }

  lemma CloseFlow(s: State, i: nat, step: ClosePc, t: Thread)
    requires SemInv(s) && IdleBatches(s) && i < |s.threads| && !IsParked(s.threads[i])
    requires BatchOf(s.threads[i]) == BatchOf(t) == []
    ensures FlowStep(s, Become(InnerClose(s, step).0, i, t), [])
  {
    match step
    case ToShut =>
      BecomeFlow(s, i, t);
      SameFlow(s, Become(s.(connected := false), i, t));
    case ToNotify =>
      NotifyFlow(s);
      ThenBecome(s, NotifySem(s), i, t);
    case ToSwap => BecomeFlow(s, i, t);
    case ToClear =>
      ClearFlow(s);
      ThenBecome(s, ClearQueue(s), i, t);
  }

  lemma ReturnFlow(s: State, i: nat, t: Thread)
    requires SemInv(s) && IdleBatches(s) && i < |s.threads| && !IsParked(s.threads[i]) && !IsParked(t)
    requires BatchOf(s.threads[i]) == BatchOf(t) == []
    ensures FlowStep(s, NotifyWaitSem(Become(s, i, t)), [])
  {
    BecomeFlow(s, i, t);
    BecomeSemInv(s, i, t);
    NotifyWaitFlow(Become(s, i, t));
    SameFlow(s, NotifyWaitSem(Become(s, i, t)));
  }

  /** A quiet change of one thread, with anything else but the flow, the history and the loss
      count changing too. */
  lemma QuietFlow(s: State, s': State, i: nat, t: Thread)
    requires IdleBatches(s) && i < |s.threads| && BatchOf(s.threads[i]) == BatchOf(t)
    requires t.Writer? && !t.wpc.WSend? ==> t.batch == []
    requires s'.threads == s.threads[i := t]
    requires s'.sent == s.sent && s'.queue == s.queue && s'.hist == s.hist && s'.lost == s.lost
    ensures FlowStep(s, s', [])
  {
    BecomeFlow(s, i, t);
    SameFlow(s, s');
  }

  lemma HandOverFlow(s: State, i: nat, t: Thread, child: Thread)
    requires IdleBatches(s) && i < |s.threads| && s.threads[i].Start? && !t.Writer? && BatchOf(child) == []
    ensures FlowStep(s, s.(threads := s.threads[i := t] + [child]), [])
  {
    BecomeFlow(s, i, t);
    SpawnFlow(Become(s, i, t), child);
    SameFlow(s, s.(threads := s.threads[i := t] + [child]));
  }

  lemma StartFlow(s: State, i: nat, outcome: Outcome)
    requires SemInv(s) && IdleBatches(s) && i < |s.threads| && s.threads[i].Start?
    ensures FlowStep(s, StepStart(s, i, s.threads[i].spc, outcome), [])
  {
    match s.threads[i].spc
    case SpawnRead => HandOverFlow(s, i, Start(SpawnWrite), Reader(RTest));
    case SpawnWrite => HandOverFlow(s, i, Finished, Writer(WTest, []));
    case Closing(step) =>
      var next := InnerClose(s, step).1;
      CloseFlow(s, i, step, Start(if next.Some? then Closing(next.value) else Return1));
    case Return1 => ReturnFlow(s, i, Start(Return2));
    case Return2 => ReturnFlow(s, i, Finished);
    case Parked1 => SameFlow(s, s);
    case Parked2 => SameFlow(s, s);
    case Wait1 => MoveStartFlow(s, i, Wait1, outcome);
    case Wait2 => MoveStartFlow(s, i, Wait2, outcome);
    case Check => MoveStartFlow(s, i, Check, outcome);
    case Reconnect => MoveStartFlow(s, i, Reconnect, outcome);
    case Callback => MoveStartFlow(s, i, Callback, outcome);
  }

  lemma MoveStartFlow(s: State, i: nat, pc: StartPc, outcome: Outcome)
    requires IdleBatches(s) && i < |s.threads| && s.threads[i] == Start(pc)
    requires pc.Wait1? || pc.Wait2? || pc.Check? || pc.Reconnect? || pc.Callback?
    ensures FlowStep(s, StepStart(s, i, pc, outcome), [])
  {
    var s' := StepStart(s, i, pc, outcome);
    QuietFlow(s, s', i, s'.threads[i]);
  }

  lemma ReaderFlow(s: State, i: nat, outcome: Outcome)
    requires SemInv(s) && IdleBatches(s) && i < |s.threads| && s.threads[i].Reader?
    ensures FlowStep(s, StepReader(s, i, s.threads[i].rpc, outcome), [])
  {
    match s.threads[i].rpc
    case RClosing(step) =>
      var next := InnerClose(s, step).1;
      CloseFlow(s, i, step, Reader(if next.Some? then RClosing(next.value) else RReturn));
    case RReturn => ReturnFlow(s, i, Finished);
    case _ => BecomeFlow(s, i, StepReader(s, i, s.threads[i].rpc, outcome).threads[i]);
  }

  lemma SendOneFlow(s: State, i: nat)
    requires TokenInv(s) && IdleBatches(s) && i < |s.threads|
    requires s.threads[i].Writer? && s.threads[i].wpc.WSend? && s.threads[i].batch != []
    ensures FlowStep(s, StepWriter(s, i, WSend, s.threads[i].batch, Success), [])
  {
    var batch := s.threads[i].batch;
    var s' := StepWriter(s, i, WSend, batch, Success);
    WriterHolds(s, i, Writer(WSend, batch[1..]));
    MoveFirst(s.sent, batch, s.queue);
    assert s'.threads == s.threads[i := Writer(WSend, batch[1..])];
    SameFlow(s, s');
  }

  lemma MoveFirst(sent: seq<Item>, batch: seq<Item>, queue: seq<Item>)
    requires batch != []
    ensures sent + [batch[0]] + batch[1..] + queue == sent + batch + queue
  {
    assert [batch[0]] + batch[1..] == batch;
  }

  lemma SendFails(s: State, i: nat, t: Thread)
    requires TokenInv(s) && IdleBatches(s) && i < |s.threads|
    requires s.threads[i].Writer? && s.threads[i].wpc.WSend? && t.Writer? && t.batch == []
    ensures FlowStep(s, Become(s, i, t).(lost := s.lost + |s.threads[i].batch|), [])
  {
    var s' := Become(s, i, t).(lost := s.lost + |s.threads[i].batch|);
    WriterHolds(s, i, t);
    var batch := s.threads[i].batch;
    assert Flow(s) + [] == s.sent + batch + s.queue;
    assert Flow(s') == s.sent + s.queue by {
      assert s.sent + [] == s.sent;
    }
    assert IsFlowStep(s, s', [], s.sent, batch, s.queue);
  }

  lemma SendFlow(s: State, i: nat, outcome: Outcome)
    requires TokenInv(s) && IdleBatches(s) && i < |s.threads|
    requires s.threads[i].Writer? && s.threads[i].wpc.WSend?
    ensures FlowStep(s, StepWriter(s, i, WSend, s.threads[i].batch, outcome), [])
  {
    var batch := s.threads[i].batch;
    if batch == [] {
      BecomeFlow(s, i, Writer(WTest, []));
    } else if outcome.Success? {
      SendOneFlow(s, i);
    } else {
      SendFails(s, i, Writer(if outcome.Failure? then WClosing(ToShut) else WClear, []));
    }
  }

  lemma SwapFlow(s: State, i: nat)
    requires TokenInv(s) && IdleBatches(s) && i < |s.threads|
    requires s.threads[i].Writer? && s.threads[i].wpc.WSwap?
    ensures FlowStep(s, StepWriter(s, i, WSwap, s.threads[i].batch, Success), [])
  {
    var s' := StepWriter(s, i, WSwap, s.threads[i].batch, Success);
    WriterHolds(s, i, Writer(WSend, s.queue));
    MoveAll(s.sent, s.queue);
    assert s'.threads == s.threads[i := Writer(WSend, s.queue)];
    SameFlow(s, s');
  }

  lemma MoveAll(sent: seq<Item>, queue: seq<Item>)
    ensures sent + queue + [] == sent + [] + queue
  {
  }

  lemma WriterFlow(s: State, i: nat, outcome: Outcome)
    requires TokenInv(s) && SemInv(s) && IdleBatches(s) && i < |s.threads| && s.threads[i].Writer?
    ensures FlowStep(s, StepWriter(s, i, s.threads[i].wpc, s.threads[i].batch, outcome), [])
  {
    var batch := s.threads[i].batch;
    match s.threads[i].wpc
    case WSend => SendFlow(s, i, outcome);
    case WSwap => SwapFlow(s, i);
    case WParked => SameFlow(s, s);
    case WClosing(step) =>
      var next := InnerClose(s, step).1;
      CloseFlow(s, i, step, Writer(if next.Some? then WClosing(next.value) else WTest, batch));
    case WClear =>
      ClearFlow(s);
      ThenBecome(s, ClearQueue(s), i, Writer(WReturn, batch));
    case WReturn => ReturnFlow(s, i, Finished);
    case WTest => QuietFlow(s, StepWriter(s, i, WTest, batch, outcome), i,
      Writer(if s.connected then WWait else WClear, batch));
    case WWait => QuietFlow(s, StepWriter(s, i, WWait, batch, outcome), i,
      Writer(if s.sem.count > 0 then WSwap else WParked, batch));
  }

  lemma EnqueueFlow(s: State, item: Item)
    requires IdleBatches(s)
    ensures FlowStep(s, Apply(s, Enqueue(item)), [item])
  {
    SpawnFlow(s, if s.queue == [] then Sender else Finished);
    var s' := Apply(s, Enqueue(item));
    assert IsFlowStep(s, s', [item], Flow(s) + [item], [], []);
  }

  lemma SenderFlow(s: State, i: nat)
    requires SemInv(s) && IdleBatches(s) && i < |s.threads| && s.threads[i].Sender?
    ensures FlowStep(s, NotifySem(Become(s, i, Finished)), [])
  {
    BecomeFlow(s, i, Finished);
    BecomeSemInv(s, i, Finished);
    NotifyFlow(Become(s, i, Finished));
    SameFlow(s, NotifySem(Become(s, i, Finished)));
  }

  lemma StepFlow(s: State, step: Step)
    requires TokenInv(s) && SemInv(s) && IdleBatches(s)
    ensures FlowStep(s, Apply(s, step), Enqueued(step))
  {
    match step
    case CallStart => SpawnFlow(s, Start(Wait1));
    case UserClose => SameFlow(s, s.(connected := false));
    case Enqueue(item) => EnqueueFlow(s, item);
    case Go(i, outcome) =>
      if i >= |s.threads| || s.threads[i].Finished? {
        SameFlow(s, s);
      } else if s.threads[i].Start? {
        StartFlow(s, i, outcome);
      } else if s.threads[i].Reader? {
        ReaderFlow(s, i, outcome);
      } else if s.threads[i].Writer? {
        WriterFlow(s, i, outcome);
      } else {
        SenderFlow(s, i);
      }
  }

  /** Dropping a stretch of the flow keeps the order, and the count with what is lost. */
  lemma DropKeepsOrder(flow: seq<Item>, kept: seq<Item>, dropped: seq<Item>, rest: seq<Item>, hist: seq<Item>,
                       lost: nat)
    requires flow == kept + dropped + rest && Within(flow, hist) && |flow| + lost == |hist|
    ensures Within(kept + rest, hist) && |kept + rest| + (lost + |dropped|) == |hist|
    ensures |dropped| == 0 ==> kept + rest == flow
  {
    WithinDrop(kept, dropped, rest, hist);
    if dropped == [] {
      assert kept + dropped == kept;
    }
  }

  /** A flow step keeps the order and the count of accepted sends. */
  lemma FlowStepKeepsFlow(s: State, s': State, added: seq<Item>)
    requires FlowInv(s) && FlowStep(s, s', added) && |added| <= 1
    ensures FlowInv(s')
    ensures s'.lost >= s.lost
    ensures s'.lost == s.lost ==> Flow(s') == Flow(s) + added
  {
    if added == [] {
      assert Flow(s) + added == Flow(s) && s.hist + added == s.hist;
    } else {
      WithinAppend(Flow(s), s.hist, added[0]);
      assert added == [added[0]];
    }
    var kept, dropped, rest :| IsFlowStep(s, s', added, kept, dropped, rest);
    DropKeepsOrder(Flow(s) + added, kept, dropped, rest, s'.hist, s.lost);
  }

  /** Sends stay in order, and every accepted send is sent, in hand, queued or counted lost. */
  lemma StepKeepsFlow(s: State, step: Step)
    requires TokenInv(s) && SemInv(s) && FlowInv(s)
    ensures FlowInv(Apply(s, step))
    ensures Apply(s, step).lost >= s.lost
    ensures Apply(s, step).lost == s.lost ==> Flow(Apply(s, step)) == Flow(s) + Enqueued(step)
  {
    StepFlow(s, step);
    FlowStepKeepsFlow(s, Apply(s, step), Enqueued(step));
  }
}

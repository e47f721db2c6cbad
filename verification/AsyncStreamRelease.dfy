/** Shutdown always releases the writer, and a queued send always has its wakeup. */
module AsyncStreamRelease {
  import opened Counting
  import opened Wrappers
  import opened AsyncStreams
  import opened AsyncStreamTokens

  lemma OneWriteRight(s: State, i: nat, j: nat)
    requires TokenInv(s) && i < |s.threads| && j < |s.threads|
    requires WriteRight(s.threads[i]) == 1 && WriteRight(s.threads[j]) == 1
    ensures i == j
  {
    if i < j { SumAtLeastTwo(WriteRight, s.threads, i, j); }
    if j < i { SumAtLeastTwo(WriteRight, s.threads, j, i); }
  }

  lemma OneReadRight(s: State, i: nat, j: nat)
    requires TokenInv(s) && i < |s.threads| && j < |s.threads|
    requires ReadRight(s.threads[i]) == 1 && ReadRight(s.threads[j]) == 1
    ensures i == j
  {
    if i < j { SumAtLeastTwo(ReadRight, s.threads, i, j); }
    if j < i { SumAtLeastTwo(ReadRight, s.threads, j, i); }
  }

  /** Steps that raise no connection, spend no token, silence no reader and add no writer. */
  lemma ReleaseFrame(s: State, s': State)
    requires ReleaseInv(s)
    requires |s.threads| <= |s'.threads|
    requires s'.connected ==> s.connected
    requires forall k :: 0 <= k < |s.threads| && IsActiveReader(s.threads[k]) ==> IsActiveReader(s'.threads[k])
    requires forall k :: 0 <= k < |s'.threads| && IsWriting(s'.threads[k]) ==>
               k < |s.threads| && IsWriting(s.threads[k]) &&
               (HasActiveReader(s) || (Released(s, s.threads[k]) ==> Released(s', s'.threads[k])))
    requires forall k :: 0 <= k < |s'.threads| && s'.threads[k] == Reader(RClosing(ToNotify)) ==>
               !s'.connected || (k < |s.threads| && s.threads[k] == s'.threads[k])
    ensures ReleaseInv(s')
  {
    if HasActiveReader(s) {
      var k :| 0 <= k < |s.threads| && IsActiveReader(s.threads[k]);
      assert IsActiveReader(s'.threads[k]);
      assert HasActiveReader(s');
    }
  }

  /** With nobody writing, nothing has to be released. */
  lemma NobodyWriting(s: State, i: nat)
    requires TokenInv(s) && i < |s.threads| && Tokens(s.threads[i]) == 2 && ReadRight(s.threads[i]) == 1
    ensures forall k :: 0 <= k < |s.threads| ==> !IsWriting(s.threads[k]) && !s.threads[k].Reader?
  {
    assert WriteRight(s.threads[i]) == 1;
    forall k | 0 <= k < |s.threads| ensures !IsWriting(s.threads[k]) && !s.threads[k].Reader? {
      if IsWriting(s.threads[k]) { OneWriteRight(s, i, k); }
      if s.threads[k].Reader? { OneReadRight(s, i, k); }
    }
  }

  /** A step of one thread that neither silences a reader nor starts or parks a writer. */
  lemma BecomeRelease(s: State, i: nat, t: Thread)
    requires ReleaseInv(s) && i < |s.threads|
    requires IsActiveReader(s.threads[i]) ==> IsActiveReader(t)
    requires IsWriting(t) ==> IsWriting(s.threads[i]) && (HasActiveReader(s) || Released(s, t))
    requires t == Reader(RClosing(ToNotify)) ==> !s.connected
    ensures ReleaseInv(Become(s, i, t))
  {
    ReleaseFrame(s, Become(s, i, t));
  }

  lemma NotifySemRelease(s: State)
    requires SemInv(s) && ReleaseInv(s)
    ensures ReleaseInv(NotifySem(s))
  {
    if s.sem.waiters != [] {
      assert IsParkedWriter(s.threads[s.sem.waiters[0]]);
    }
    ReleaseFrame(s, NotifySem(s));
  }

  lemma NotifyWaitSemRelease(s: State)
    requires SemInv(s) && ReleaseInv(s)
    ensures ReleaseInv(NotifyWaitSem(s))
  {
    if s.waitSem.waiters != [] {
      assert IsParkedStart(s.threads[s.waitSem.waiters[0]]);
    }
    ReleaseFrame(s, NotifyWaitSem(s));
  }

  /** A step of innerClose() run by a thread that is not an active reader. */
  lemma CloseRelease(s: State, i: nat, step: ClosePc, t: Thread)
    requires SemInv(s) && ReleaseInv(s) && i < |s.threads|
    requires !IsParked(s.threads[i]) && !IsActiveReader(s.threads[i])
    requires IsWriting(t) ==> IsWriting(s.threads[i]) && t.Writer? && !t.wpc.WParked? && !t.wpc.WWait?
    requires t != Reader(RClosing(ToNotify))
    ensures ReleaseInv(Become(InnerClose(s, step).0, i, t))
  {
    match step
    case ToShut =>
      ReleaseFrame(s, s.(connected := false));
      BecomeRelease(s.(connected := false), i, t);
    case ToNotify =>
      NotifySemRelease(s);
      assert NotifySem(s).threads[i] == s.threads[i];
      BecomeRelease(NotifySem(s), i, t);
    case ToSwap => BecomeRelease(s, i, t);
    case ToClear =>
      ReleaseFrame(s, ClearQueue(s));
      BecomeRelease(ClearQueue(s), i, t);
  }

  lemma SpawnReadRelease(s: State, i: nat)
    requires TokenInv(s) && ReleaseInv(s) && i < |s.threads| && s.threads[i] == Start(SpawnRead)
    ensures ReleaseInv(s.(threads := s.threads[i := Start(SpawnWrite)] + [Reader(RTest)]))
  {
    var s' := s.(threads := s.threads[i := Start(SpawnWrite)] + [Reader(RTest)]);
    NobodyWriting(s, i);
    assert IsActiveReader(s'.threads[|s.threads|]);
    assert HasActiveReader(s');
  }

  lemma SpawnWriteRelease(s: State, i: nat)
    requires TokenInv(s) && ReleaseInv(s) && i < |s.threads| && s.threads[i] == Start(SpawnWrite)
    ensures ReleaseInv(s.(threads := s.threads[i := Finished] + [Writer(WTest, [])]))
  {
    var s' := s.(threads := s.threads[i := Finished] + [Writer(WTest, [])]);
    if HasActiveReader(s) {
      var k :| 0 <= k < |s.threads| && IsActiveReader(s.threads[k]);
      assert IsActiveReader(s'.threads[k]);
      assert HasActiveReader(s');
    }
    assert IsWriting(s.threads[i]);
    forall k | 0 <= k < |s'.threads| && IsWriting(s'.threads[k])
      ensures HasActiveReader(s') || (!s'.connected && Released(s', s'.threads[k]))
    {
      if k < |s.threads| { OneWriteRight(s, i, k); }
    }
  }

  lemma ReconnectRelease(s: State, i: nat)
    requires TokenInv(s) && ReleaseInv(s) && i < |s.threads| && s.threads[i] == Start(Reconnect)
    ensures ReleaseInv(Become(s, i, Start(Callback)).(connected := true))
  {
    NobodyWriting(s, i);
  }

  lemma StartKeepsRelease(s: State, i: nat, outcome: Outcome)
    requires TokenSemInv(s) && ReleaseInv(s) && i < |s.threads| && s.threads[i].Start?
    ensures ReleaseInv(StepStart(s, i, s.threads[i].spc, outcome))
  {
    match s.threads[i].spc
    case Wait1 =>
      var t := Start(if s.waitSem.count > 0 then Wait2 else Parked1);
      BecomeRelease(s, i, t);
      ReleaseFrame(Become(s, i, t), StepStart(s, i, Wait1, outcome));
    case Wait2 =>
      var t := Start(if s.waitSem.count > 0 then Check else Parked2);
      BecomeRelease(s, i, t);
      ReleaseFrame(Become(s, i, t), StepStart(s, i, Wait2, outcome));
    case Parked1 =>
    case Parked2 =>
    case Check => BecomeRelease(s, i, Start(if s.connected then Callback else Reconnect));
    case Reconnect =>
      if outcome.Success? {
        ReconnectRelease(s, i);
      } else {
        CloseRelease(s, i, ToShut, Start(Closing(ToShut)));
      }
    case Callback => BecomeRelease(s, i, Start(if outcome.Success? then SpawnRead else Closing(ToShut)));
    case SpawnRead => SpawnReadRelease(s, i);
    case SpawnWrite => SpawnWriteRelease(s, i);
    case Closing(step) =>
      var next := InnerClose(s, step).1;
      CloseRelease(s, i, step, Start(if next.Some? then Closing(next.value) else Return1));
    case Return1 =>
      BecomeRelease(s, i, Start(Return2));
      BecomeSemInv(s, i, Start(Return2));
      NotifyWaitSemRelease(Become(s, i, Start(Return2)));
    case Return2 =>
      BecomeRelease(s, i, Finished);
      BecomeSemInv(s, i, Finished);
      NotifyWaitSemRelease(Become(s, i, Finished));
  }

  /** The notify of a closing reader frees the writer, wherever it was. */
  lemma CloseReleasesWriter(s: State, i: nat)
    requires TokenSemInv(s) && ReleaseInv(s) && i < |s.threads|
    requires s.threads[i] == Reader(RClosing(ToNotify))
    ensures ReleaseInv(Become(NotifySem(s), i, Reader(RClosing(ToSwap))))
  {
    var s' := Become(NotifySem(s), i, Reader(RClosing(ToSwap)));
    forall k | 0 <= k < |s'.threads| && IsWriting(s'.threads[k]) ensures Released(s', s'.threads[k]) {
      assert IsWriting(s.threads[k]);
      if s.sem.waiters != [] {
        var w := s.sem.waiters[0];
        assert IsParkedWriter(s.threads[w]);
        OneWriteRight(s, w, k);
      } else {
        assert !IsParkedWriter(s.threads[k]);
      }
    }
  }

  lemma ReaderKeepsRelease(s: State, i: nat, outcome: Outcome)
    requires TokenSemInv(s) && ReleaseInv(s) && i < |s.threads| && s.threads[i].Reader?
    ensures ReleaseInv(StepReader(s, i, s.threads[i].rpc, outcome))
  {
    match s.threads[i].rpc
    case RTest => BecomeRelease(s, i, Reader(if s.connected then RRecv else RClosing(ToShut)));
    case RRecv => BecomeRelease(s, i, Reader(if outcome.Success? then RTest else RClosing(ToShut)));
    case RClosing(step) =>
      match step {
        case ToShut =>
          ReleaseFrame(s, s.(connected := false));
          BecomeRelease(s.(connected := false), i, Reader(RClosing(ToNotify)));
        case ToNotify => CloseReleasesWriter(s, i);
        case ToSwap => BecomeRelease(s, i, Reader(RClosing(ToClear)));
        case ToClear => CloseRelease(s, i, ToClear, Reader(RReturn));
      }
    case RReturn =>
      BecomeRelease(s, i, Finished);
      BecomeSemInv(s, i, Finished);
      NotifyWaitSemRelease(Become(s, i, Finished));
  }

  /** The writer only goes on to m_sem.wait() after seeing the connection up. */
  lemma WriterWaitRelease(s: State, i: nat)
    requires TokenInv(s) && ReleaseInv(s) && i < |s.threads|
    requires s.threads[i].Writer? && s.threads[i].wpc.WWait?
    ensures ReleaseInv(StepWriter(s, i, WWait, s.threads[i].batch, Success))
  {
    var s' := StepWriter(s, i, WWait, s.threads[i].batch, Success);
    if HasActiveReader(s) {
      var k :| 0 <= k < |s.threads| && IsActiveReader(s.threads[k]);
      assert IsActiveReader(s'.threads[k]);
      assert HasActiveReader(s');
    }
    forall k | 0 <= k < |s'.threads| && IsWriting(s'.threads[k])
      ensures HasActiveReader(s') || (!s'.connected && Released(s', s'.threads[k]))
    {
      assert IsWriting(s.threads[i]) && IsWriting(s.threads[k]);
      OneWriteRight(s, i, k);
    }
  }

  lemma WriterKeepsRelease(s: State, i: nat, outcome: Outcome)
    requires TokenSemInv(s) && ReleaseInv(s) && i < |s.threads| && s.threads[i].Writer?
    ensures ReleaseInv(StepWriter(s, i, s.threads[i].wpc, s.threads[i].batch, outcome))
  {
    var batch := s.threads[i].batch;
    assert IsWriting(s.threads[i]);
    match s.threads[i].wpc
    case WTest => BecomeRelease(s, i, Writer(if s.connected then WWait else WClear, batch));
    case WWait => WriterWaitRelease(s, i);
    case WParked =>
    case WClosing(step) =>
      var next := InnerClose(s, step).1;
      CloseRelease(s, i, step, Writer(if next.Some? then WClosing(next.value) else WTest, batch));
    case WClear => CloseRelease(s, i, ToClear, Writer(WReturn, batch));
    case WReturn =>
      BecomeRelease(s, i, Finished);
      BecomeSemInv(s, i, Finished);
      NotifyWaitSemRelease(Become(s, i, Finished));
    case _ => SendRelease(s, i, outcome);
  }

  lemma SendRelease(s: State, i: nat, outcome: Outcome)
    requires SemInv(s) && ReleaseInv(s) && i < |s.threads| && s.threads[i].Writer?
    requires s.threads[i].wpc.WSwap? || s.threads[i].wpc.WSend?
    ensures ReleaseInv(StepWriter(s, i, s.threads[i].wpc, s.threads[i].batch, outcome))
  {
    var s' := StepWriter(s, i, s.threads[i].wpc, s.threads[i].batch, outcome);
    assert IsWriting(s.threads[i]);
    BecomeRelease(s, i, s'.threads[i]);
    ReleaseFrame(Become(s, i, s'.threads[i]), s');
  }

  lemma StepKeepsRelease(s: State, step: Step)
    requires TokenSemInv(s) && ReleaseInv(s)
    ensures ReleaseInv(Apply(s, step))
  {
    match step
    case Go(i, outcome) =>
      if i < |s.threads| {
        match s.threads[i]
        case Start(pc) => StartKeepsRelease(s, i, outcome);
        case Reader(pc) => ReaderKeepsRelease(s, i, outcome);
        case Writer(pc, batch) => WriterKeepsRelease(s, i, outcome);
        case Sender => ReleaseFrame(s, Apply(s, step));
        case Finished =>
      }
    case _ => ReleaseFrame(s, Apply(s, step));
  }

  // ---------------------------------------------------------------- wakeups

  /** Steps that leave the queue alone and lose neither a token, a writer about to swap,
      nor a sender that still has to notify. */
  lemma WakeupFrame(s: State, s': State)
    requires WakeupInv(s)
    requires s'.queue == s.queue || s'.queue == []
    requires |s.threads| <= |s'.threads|
    requires s.sem.count > 0 ==>
               || s'.sem.count > 0
               || (exists k :: 0 <= k < |s'.threads| && s'.threads[k].Writer? && s'.threads[k].wpc.WSwap?)
    requires forall k :: 0 <= k < |s.threads| && s.threads[k].Writer? && s.threads[k].wpc.WSwap? ==>
               s'.threads[k].Writer? && s'.threads[k].wpc.WSwap?
    requires forall k :: 0 <= k < |s.threads| && s.threads[k].Sender? ==> s'.threads[k].Sender?
    ensures WakeupInv(s')
  {
  }

  /** A notify leaves a stored token or a writer about to swap. */
  lemma NotifyWakes(s: State)
    requires SemInv(s)
    ensures WakeupInv(NotifySem(s))
  {
    if s.sem.waiters != [] {
      var w := s.sem.waiters[0];
      assert IsParkedWriter(s.threads[w]);
      assert NotifySem(s).threads[w].wpc.WSwap?;
    }
  }

  lemma BecomeWakeup(s: State, i: nat, t: Thread)
    requires WakeupInv(s) && i < |s.threads|
    requires s.threads[i].Writer? && s.threads[i].wpc.WSwap? ==> t.Writer? && t.wpc.WSwap?
    requires s.threads[i].Sender? ==> t.Sender?
    ensures WakeupInv(Become(s, i, t))
  {
    WakeupFrame(s, Become(s, i, t));
  }

  lemma SpawnWakeup(s: State, t: Thread)
    requires WakeupInv(s)
    ensures WakeupInv(s.(threads := s.threads + [t]))
  {
    WakeupFrame(s, s.(threads := s.threads + [t]));
  }

  lemma NotifyWaitSemWakeup(s: State)
    requires SemInv(s) && WakeupInv(s)
    ensures WakeupInv(NotifyWaitSem(s))
  {
    if s.waitSem.waiters != [] {
      assert IsParkedStart(s.threads[s.waitSem.waiters[0]]);
    }
    WakeupFrame(s, NotifyWaitSem(s));
  }

  lemma CloseWakeup(s: State, i: nat, step: ClosePc, t: Thread)
    requires SemInv(s) && WakeupInv(s) && i < |s.threads| && !IsParked(s.threads[i])
    requires !s.threads[i].Sender? && !(s.threads[i].Writer? && s.threads[i].wpc.WSwap?)
    ensures WakeupInv(Become(InnerClose(s, step).0, i, t))
  {
    if step.ToNotify? {
      NotifyWakes(s);
      assert NotifySem(s).threads[i] == s.threads[i];
      BecomeWakeup(NotifySem(s), i, t);
    } else {
      BecomeWakeup(s, i, t);
    }
  }

  lemma StartKeepsWakeup(s: State, i: nat, outcome: Outcome)
    requires TokenSemInv(s) && WakeupInv(s) && i < |s.threads| && s.threads[i].Start?
    ensures WakeupInv(StepStart(s, i, s.threads[i].spc, outcome))
  {
    match s.threads[i].spc
    case SpawnRead =>
      BecomeWakeup(s, i, Start(SpawnWrite));
      SpawnWakeup(Become(s, i, Start(SpawnWrite)), Reader(RTest));
    case SpawnWrite =>
      BecomeWakeup(s, i, Finished);
      SpawnWakeup(Become(s, i, Finished), Writer(WTest, []));
    case Closing(step) =>
      var next := InnerClose(s, step).1;
      CloseWakeup(s, i, step, Start(if next.Some? then Closing(next.value) else Return1));
    case Return1 =>
      BecomeWakeup(s, i, Start(Return2));
      BecomeSemInv(s, i, Start(Return2));
      NotifyWaitSemWakeup(Become(s, i, Start(Return2)));
    case Return2 =>
      BecomeWakeup(s, i, Finished);
      BecomeSemInv(s, i, Finished);
      NotifyWaitSemWakeup(Become(s, i, Finished));
    case Parked1 =>
    case Parked2 =>
    case _ => BecomeWakeup(s, i, StepStart(s, i, s.threads[i].spc, outcome).threads[i]);
  }

  lemma ReaderKeepsWakeup(s: State, i: nat, outcome: Outcome)
    requires TokenSemInv(s) && WakeupInv(s) && i < |s.threads| && s.threads[i].Reader?
    ensures WakeupInv(StepReader(s, i, s.threads[i].rpc, outcome))
  {
    match s.threads[i].rpc
    case RTest => BecomeWakeup(s, i, Reader(if s.connected then RRecv else RClosing(ToShut)));
    case RRecv => BecomeWakeup(s, i, Reader(if outcome.Success? then RTest else RClosing(ToShut)));
    case RClosing(step) =>
      var next := InnerClose(s, step).1;
      CloseWakeup(s, i, step, Reader(if next.Some? then RClosing(next.value) else RReturn));
    case RReturn =>
      BecomeWakeup(s, i, Finished);
      BecomeSemInv(s, i, Finished);
      NotifyWaitSemWakeup(Become(s, i, Finished));
  }

  lemma WriterKeepsWakeup(s: State, i: nat, outcome: Outcome)
    requires TokenSemInv(s) && WakeupInv(s) && i < |s.threads| && s.threads[i].Writer?
    ensures WakeupInv(StepWriter(s, i, s.threads[i].wpc, s.threads[i].batch, outcome))
  {
    var batch := s.threads[i].batch;
    var s' := StepWriter(s, i, s.threads[i].wpc, batch, outcome);
    match s.threads[i].wpc
    case WSwap =>
    case WClear =>
    case WParked =>
    case WWait =>
      if s.sem.count > 0 {
        assert s'.threads[i].wpc.WSwap?;
      } else {
        BecomeWakeup(s, i, Writer(WParked, batch));
      }
    case WClosing(step) =>
      var next := InnerClose(s, step).1;
      CloseWakeup(s, i, step, Writer(if next.Some? then WClosing(next.value) else WTest, batch));
    case WReturn =>
      BecomeWakeup(s, i, Finished);
      BecomeSemInv(s, i, Finished);
      NotifyWaitSemWakeup(Become(s, i, Finished));
    case _ => BecomeWakeup(s, i, s'.threads[i]);
  }

  lemma StepKeepsWakeup(s: State, step: Step)
    requires TokenSemInv(s) && WakeupInv(s)
    ensures WakeupInv(Apply(s, step))
  {
    var s' := Apply(s, step);
    match step
    case Enqueue(item) =>
      assert s.queue == [] ==> s'.threads[|s.threads|].Sender?;
      if s.queue != [] {
        WakeupFrame(s, s'.(queue := s.queue));
      }
    case Go(i, outcome) =>
      if i < |s.threads| {
        match s.threads[i]
        case Start(pc) => StartKeepsWakeup(s, i, outcome);
        case Reader(pc) => ReaderKeepsWakeup(s, i, outcome);
        case Writer(pc, batch) => WriterKeepsWakeup(s, i, outcome);
        case Sender =>
          BecomeSemInv(s, i, Finished);
          NotifyWakes(Become(s, i, Finished));
        case Finished =>
      }
    case _ => WakeupFrame(s, s');
  }
}

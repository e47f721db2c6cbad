/** Token conservation for m_waitSem. */
module AsyncStreamTokens {
  import opened Counting
  import opened FiberSemaphores
  import opened Wrappers
  import opened AsyncStreams

  lemma SumsAfterBecome(threads: seq<Thread>, i: nat, t: Thread)
    requires i < |threads|
    ensures var r := threads[i := t];
            && Sum(Tokens, r) + Tokens(threads[i]) == Sum(Tokens, threads) + Tokens(t)
            && Sum(ReadRight, r) + ReadRight(threads[i]) == Sum(ReadRight, threads) + ReadRight(t)
            && Sum(WriteRight, r) + WriteRight(threads[i]) == Sum(WriteRight, threads) + WriteRight(t)
  {
    SumUpdate(Tokens, threads, i, t);
    SumUpdate(ReadRight, threads, i, t);
    SumUpdate(WriteRight, threads, i, t);
  }

  lemma SumsAfterSpawn(threads: seq<Thread>, t: Thread)
    ensures var r := threads + [t];
            && Sum(Tokens, r) == Sum(Tokens, threads) + Tokens(t)
            && Sum(ReadRight, r) == Sum(ReadRight, threads) + ReadRight(t)
            && Sum(WriteRight, r) == Sum(WriteRight, threads) + WriteRight(t)
  {
    SumAppend(Tokens, threads, t);
    SumAppend(ReadRight, threads, t);
    SumAppend(WriteRight, threads, t);
  }

  /** Whoever owns both tokens leaves no right to anybody else. */
  lemma BothTokensExclude(threads: seq<Thread>, i: nat)
    requires i < |threads| && Tokens(threads[i]) == 2
    requires Sum(Tokens, threads) <= 2
    ensures Sum(ReadRight, threads) <= 1 && Sum(WriteRight, threads) <= 1
  {
    var rest := threads[i := Finished];
    SumsAfterBecome(threads, i, Finished);
    SumMonotone(ReadRight, Tokens, rest);
    SumMonotone(WriteRight, Tokens, rest);
  }

  /** Handing one token back, to the counter or to a parked start. */
  lemma NotifyWaitSemTokens(s: State)
    requires SemInv(s)
    requires s.waitSem.count + Sum(Tokens, s.threads) == 1
    requires Sum(ReadRight, s.threads) <= 1 && Sum(WriteRight, s.threads) <= 1
    ensures TokenInv(NotifyWaitSem(s))
  {
    if s.waitSem.waiters != [] {
      var w := s.waitSem.waiters[0];
      assert IsParkedStart(s.threads[w]);
      ResumedStart(s.threads, w, s.waitSem.count);
    }
  }

  /** A parked start that gets the token holds one more, and the rights only if it has both. */
  lemma ResumedStart(threads: seq<Thread>, w: nat, count: nat)
    requires w < |threads| && IsParkedStart(threads[w]) && count + Sum(Tokens, threads) == 1
    requires Sum(ReadRight, threads) <= 1 && Sum(WriteRight, threads) <= 1
    ensures var r := threads[w := Resume(threads[w])];
            count + Sum(Tokens, r) == 2 && Sum(ReadRight, r) <= 1 && Sum(WriteRight, r) <= 1
  {
    var t := Resume(threads[w]);
    SumsAfterBecome(threads, w, t);
    if Tokens(t) == 2 {
      BothTokensExclude(threads[w := t], w);
    }
  }

  /** Waking the writer moves no token. */
  lemma NotifySemTokens(s: State)
    requires SemInv(s) && TokenInv(s)
    ensures TokenInv(NotifySem(s))
  {
    if s.sem.waiters != [] {
      var w := s.sem.waiters[0];
      assert IsParkedWriter(s.threads[w]);
      SumsAfterBecome(s.threads, w, Resume(s.threads[w]));
    }
  }

  // ---------------------------------------------------------------- the waiter lists

  predicate IsParked(t: Thread) {
    IsParkedStart(t) || IsParkedWriter(t)
  }

  lemma BecomeSemInv(s: State, i: nat, t: Thread)
    requires SemInv(s) && i < |s.threads|
    requires !IsParked(s.threads[i]) && !IsParked(t)
    ensures SemInv(Become(s, i, t))
  {
  }

  lemma SpawnSemInv(s: State, t: Thread)
    requires SemInv(s) && !IsParked(t)
    ensures SemInv(s.(threads := s.threads + [t]))
  {
  }

  lemma NotifySemInv(s: State)
    requires SemInv(s)
    ensures SemInv(NotifySem(s))
  {
    if s.sem.waiters != [] {
      var w := s.sem.waiters[0];
      assert IsParkedWriter(s.threads[w]);
    }
  }

  lemma NotifyWaitSemInv(s: State)
    requires SemInv(s)
    ensures SemInv(NotifyWaitSem(s))
  {
    if s.waitSem.waiters != [] {
      var s', w := NotifyWaitSem(s), s.waitSem.waiters[0];
      assert IsParkedStart(s.threads[w]);
      assert s'.threads == s.threads[w := Resume(s.threads[w])] && !IsParked(s'.threads[w]);
      forall k | 0 <= k < |s'.threads| && IsParkedStart(s'.threads[k]) ensures k in s'.waitSem.waiters {
        assert k != w && k in s.waitSem.waiters;
      }
    }
  }

  /** A start that finds no token joins the waiters of m_waitSem. */
  lemma ParkStartSemInv(s: State, i: nat, t: Thread)
    requires SemInv(s) && i < |s.threads| && !IsParked(s.threads[i]) && IsParkedStart(t)
    requires s.waitSem.count == 0
    ensures SemInv(Become(s, i, t).(waitSem := s.waitSem.Wait(i)))
  {
    var s' := Become(s, i, t).(waitSem := s.waitSem.Wait(i));
    assert s'.waitSem.waiters[|s.waitSem.waiters|] == i;
    forall k | 0 <= k < |s'.threads| && IsParkedStart(s'.threads[k]) ensures k in s'.waitSem.waiters {
    }
  }

  lemma ParkWriterSemInv(s: State, i: nat, t: Thread)
    requires SemInv(s) && i < |s.threads| && !IsParked(s.threads[i]) && IsParkedWriter(t)
    requires s.sem.count == 0
    ensures SemInv(Become(s, i, t).(sem := s.sem.Wait(i)))
  {
    var s' := Become(s, i, t).(sem := s.sem.Wait(i));
    assert s'.sem.waiters[|s.sem.waiters|] == i;
  }

  // ---------------------------------------------------------------- steps

  ghost predicate TokenSemInv(s: State) {
    TokenInv(s) && SemInv(s)
  }

  /** A step of thread i that changes neither semaphore and keeps what the thread holds. */
  lemma QuietStep(s: State, i: nat, t: Thread)
    requires TokenSemInv(s) && i < |s.threads|
    requires !IsParked(s.threads[i]) && !IsParked(t)
    requires Tokens(s.threads[i]) == Tokens(t)
    requires ReadRight(s.threads[i]) >= ReadRight(t) && WriteRight(s.threads[i]) >= WriteRight(t)
    ensures TokenSemInv(Become(s, i, t))
  {
    SumsAfterBecome(s.threads, i, t);
    BecomeSemInv(s, i, t);
  }

  lemma SameTokens(s: State, s': State)
    requires TokenSemInv(s) && s'.threads == s.threads && s'.sem == s.sem && s'.waitSem == s.waitSem
    ensures TokenSemInv(s')
  {
  }

  /** A step of thread i that gives one m_waitSem token back. */
  lemma ReturnStep(s: State, i: nat, t: Thread)
    requires TokenSemInv(s) && i < |s.threads|
    requires !IsParked(s.threads[i]) && !IsParked(t)
    requires Tokens(s.threads[i]) == Tokens(t) + 1
    requires ReadRight(s.threads[i]) >= ReadRight(t) && WriteRight(s.threads[i]) >= WriteRight(t)
    ensures TokenSemInv(NotifyWaitSem(Become(s, i, t)))
  {
    SumsAfterBecome(s.threads, i, t);
    BecomeSemInv(s, i, t);
    NotifyWaitSemTokens(Become(s, i, t));
    NotifyWaitSemInv(Become(s, i, t));
  }

  /** One step of innerClose() run by thread i. */
  lemma CloseStep(s: State, i: nat, step: ClosePc, t: Thread)
    requires TokenSemInv(s) && i < |s.threads|
    requires !IsParked(s.threads[i]) && !IsParked(t)
    requires Tokens(s.threads[i]) == Tokens(t)
    requires ReadRight(s.threads[i]) >= ReadRight(t) && WriteRight(s.threads[i]) >= WriteRight(t)
    ensures TokenSemInv(Become(InnerClose(s, step).0, i, t))
  {
    if step.ToNotify? {
      NotifySemTokens(s);
      NotifySemInv(s);
      assert NotifySem(s).threads[i] == s.threads[i];
      QuietStep(NotifySem(s), i, t);
    } else {
      QuietStep(s, i, t);
    }
  }

  /** A start takes a token of m_waitSem, or parks on it. */
  lemma WaitStep(s: State, i: nat, got: Thread, parked: Thread)
    requires TokenSemInv(s) && i < |s.threads| && !IsParked(s.threads[i])
    requires got.Start? && !IsParked(got) && IsParkedStart(parked)
    requires Tokens(got) == Tokens(s.threads[i]) + 1 && Tokens(parked) == Tokens(s.threads[i])
    requires s.threads[i].Start? && !s.threads[i].spc.SpawnWrite? && Tokens(s.threads[i]) < 2
    requires !got.spc.SpawnWrite?
    ensures TokenSemInv(Become(s, i, if s.waitSem.count > 0 then got else parked).(waitSem := s.waitSem.Wait(i)))
  {
    if s.waitSem.count > 0 {
      SumsAfterBecome(s.threads, i, got);
      BecomeSemInv(s, i, got);
      if Tokens(got) == 2 {
        BothTokensExclude(s.threads[i := got], i);
      }
    } else {
      SumsAfterBecome(s.threads, i, parked);
      ParkStartSemInv(s, i, parked);
    }
  }

  /** A start hands one of its tokens, with the matching right, to the fiber it schedules. */
  lemma SpawnStep(s: State, i: nat, t: Thread, child: Thread)
    requires TokenSemInv(s) && i < |s.threads|
    requires !IsParked(s.threads[i]) && !IsParked(t) && !IsParked(child)
    requires Tokens(s.threads[i]) == Tokens(t) + Tokens(child)
    requires ReadRight(s.threads[i]) == ReadRight(t) + ReadRight(child)
    requires WriteRight(s.threads[i]) == WriteRight(t) + WriteRight(child)
    ensures TokenSemInv(s.(threads := s.threads[i := t] + [child]))
  {
    SumsAfterBecome(s.threads, i, t);
    BecomeSemInv(s, i, t);
    SumsAfterSpawn(s.threads[i := t], child);
    SpawnSemInv(Become(s, i, t), child);
  }

  /** The steps of a start that touch neither semaphore and schedule nothing. */
  lemma MoveStart(s: State, i: nat, pc: StartPc, outcome: Outcome)
    requires TokenSemInv(s) && i < |s.threads| && s.threads[i] == Start(pc)
    requires pc.Check? || pc.Reconnect? || pc.Callback?
    ensures TokenSemInv(StepStart(s, i, pc, outcome))
  {
    var s' := StepStart(s, i, pc, outcome);
    var t := s'.threads[i];
    QuietStep(s, i, t);
    SameTokens(Become(s, i, t), s');
  }

  lemma StartKeepsTokens(s: State, i: nat, outcome: Outcome)
    requires TokenSemInv(s) && i < |s.threads| && s.threads[i].Start?
    ensures TokenSemInv(StepStart(s, i, s.threads[i].spc, outcome))
  {
    var pc := s.threads[i].spc;
    match pc
    case Wait1 => WaitStep(s, i, Start(Wait2), Start(Parked1));
    case Wait2 => WaitStep(s, i, Start(Check), Start(Parked2));
    case Parked1 =>
    case Parked2 =>
    case Check => MoveStart(s, i, Check, outcome);
    case Reconnect => MoveStart(s, i, Reconnect, outcome);
    case Callback => MoveStart(s, i, Callback, outcome);
    case SpawnRead => SpawnStep(s, i, Start(SpawnWrite), Reader(RTest));
    case SpawnWrite => SpawnStep(s, i, Finished, Writer(WTest, []));
    case Closing(step) =>
      var next := InnerClose(s, step).1;
      CloseStep(s, i, step, Start(if next.Some? then Closing(next.value) else Return1));
    case Return1 => ReturnStep(s, i, Start(Return2));
    case Return2 => ReturnStep(s, i, Finished);
  }

  lemma ReaderKeepsTokens(s: State, i: nat, outcome: Outcome)
    requires TokenSemInv(s) && i < |s.threads| && s.threads[i].Reader?
    ensures TokenSemInv(StepReader(s, i, s.threads[i].rpc, outcome))
  {
    match s.threads[i].rpc
    case RTest => QuietStep(s, i, Reader(if s.connected then RRecv else RClosing(ToShut)));
    case RRecv => QuietStep(s, i, Reader(if outcome.Success? then RTest else RClosing(ToShut)));
    case RClosing(step) =>
      var next := InnerClose(s, step).1;
      CloseStep(s, i, step, Reader(if next.Some? then RClosing(next.value) else RReturn));
    case RReturn => ReturnStep(s, i, Finished);
  }

  lemma WriterKeepsTokens(s: State, i: nat, outcome: Outcome)
    requires TokenSemInv(s) && i < |s.threads| && s.threads[i].Writer?
    ensures TokenSemInv(StepWriter(s, i, s.threads[i].wpc, s.threads[i].batch, outcome))
  {
    var batch := s.threads[i].batch;
    match s.threads[i].wpc
    case WWait =>
      if s.sem.count > 0 {
        QuietStep(s, i, Writer(WSwap, batch));
      } else {
        SumsAfterBecome(s.threads, i, Writer(WParked, batch));
        ParkWriterSemInv(s, i, Writer(WParked, batch));
      }
    case WParked =>
    case WClosing(step) =>
      var next := InnerClose(s, step).1;
      CloseStep(s, i, step, Writer(if next.Some? then WClosing(next.value) else WTest, batch));
    case WReturn => ReturnStep(s, i, Finished);
    case WTest => MoveWriter(s, i, WTest, batch, outcome);
    case WSwap => MoveWriter(s, i, WSwap, batch, outcome);
    case WSend => MoveWriter(s, i, WSend, batch, outcome);
    case WClear => MoveWriter(s, i, WClear, batch, outcome);
  }

  /** The steps of the writer that touch neither semaphore. */
  lemma MoveWriter(s: State, i: nat, pc: WriterPc, batch: seq<Item>, outcome: Outcome)
    requires TokenSemInv(s) && i < |s.threads| && s.threads[i] == Writer(pc, batch)
    requires pc.WTest? || pc.WSwap? || pc.WSend? || pc.WClear?
    ensures TokenSemInv(StepWriter(s, i, pc, batch, outcome))
  {
    var s' := StepWriter(s, i, pc, batch, outcome);
    var t := s'.threads[i];
    QuietStep(s, i, t);
    SameTokens(Become(s, i, t), s');
  }

  lemma SpawnIdle(s: State, s': State, t: Thread)
    requires TokenSemInv(s) && !IsParked(t) && Tokens(t) == ReadRight(t) == WriteRight(t) == 0
    requires s'.threads == s.threads + [t] && s'.sem == s.sem && s'.waitSem == s.waitSem
    ensures TokenSemInv(s')
  {
    SumsAfterSpawn(s.threads, t);
    SpawnSemInv(s, t);
  }

  lemma SenderKeepsTokens(s: State, i: nat)
    requires TokenSemInv(s) && i < |s.threads| && s.threads[i].Sender?
    ensures TokenSemInv(NotifySem(Become(s, i, Finished)))
  {
    QuietStep(s, i, Finished);
    NotifySemTokens(Become(s, i, Finished));
    NotifySemInv(Become(s, i, Finished));
  }

  /** Every step keeps the tokens of m_waitSem, the two rights and both waiter lists. */
  lemma StepKeepsTokens(s: State, step: Step)
    requires TokenSemInv(s)
    ensures TokenSemInv(Apply(s, step))
  {
    match step
    case CallStart => SpawnIdle(s, Apply(s, step), Start(Wait1));
    case UserClose => SameTokens(s, s.(connected := false));
    case Enqueue(item) => SpawnIdle(s, Apply(s, step), if s.queue == [] then Sender else Finished);
    case Go(i, outcome) =>
      if i < |s.threads| {
        match s.threads[i]
        case Start(pc) => StartKeepsTokens(s, i, outcome);
        case Reader(pc) => ReaderKeepsTokens(s, i, outcome);
        case Writer(pc, batch) => WriterKeepsTokens(s, i, outcome);
        case Sender => SenderKeepsTokens(s, i);
        case Finished =>
      }
  }
}

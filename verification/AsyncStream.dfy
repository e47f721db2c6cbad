/** The asynchronous socket stream as a transition system: any number of start() calls
    and timers, reader and writer fibers, senders, user closes and reconnects, interleaved
    at every semaphore operation, critical section and connection test.

    A thread that performs no more shared-state operations is Finished; threads are never
    removed, so a thread keeps its index.  hist, sent and lost record every accepted send,
    every completed doSend and the number of discarded sends. */
module AsyncStreams {
  import opened Counting
  import opened FiberSemaphores
  import opened Wrappers

  type Item = nat

  /** The shared steps of innerClose(): close the socket, notify m_sem, swap the request
      contexts out (which are in RequestWaiters), clear the queue. */
  datatype ClosePc = ToShut | ToNotify | ToSwap | ToClear

  datatype StartPc =
    | Wait1 | Parked1 | Wait2 | Parked2
    | Check | Reconnect | Callback
    | SpawnRead | SpawnWrite
    | Closing(step: ClosePc) | Return1 | Return2

  datatype ReaderPc = RTest | RRecv | RClosing(step: ClosePc) | RReturn

  datatype WriterPc =
    | WTest | WWait | WParked | WSwap | WSend
    | WClosing(step: ClosePc) | WClear | WReturn

  datatype Thread =
    | Start(spc: StartPc)
    | Reader(rpc: ReaderPc)
    | Writer(wpc: WriterPc, batch: seq<Item>)
    | Sender
    | Finished

  datatype State = State(
    connected: bool,
    queue: seq<Item>,
    sem: Sem,
    waitSem: Sem,
    threads: seq<Thread>,
    hist: seq<Item>,
    sent: seq<Item>,
    lost: nat)

  /** How the environment answers a step: reconnect(), the connect callback, doRecv() and
      doSend() may succeed, fail or throw. */
  datatype Outcome = Success | Failure | Throw

  datatype Step =
    | CallStart
    | UserClose
    | Enqueue(item: Item)
    | Go(i: nat, outcome: Outcome)

  function Init(connected: bool): State {
    State(connected, [], Sem(0, []), Sem(2, []), [], [], [], 0)
  }

  /** Where a fiber continues when a semaphore hands it a token. */
  function Resume(t: Thread): Thread {
    match t
    case Start(Parked1) => Start(Wait2)
    case Start(Parked2) => Start(Check)
    case Writer(WParked, batch) => Writer(WSwap, batch)
    case _ => t
  }

  function Wake(threads: seq<Thread>, f: Option<Fiber>): (r: seq<Thread>)
    ensures |r| == |threads|
  {
    if f.Some? && f.value < |threads| then threads[f.value := Resume(threads[f.value])] else threads
  }

  function NotifySem(s: State): State {
    s.(sem := s.sem.Notify(), threads := Wake(s.threads, s.sem.Woken()))
  }

  function NotifyWaitSem(s: State): State {
    s.(waitSem := s.waitSem.Notify(), threads := Wake(s.threads, s.waitSem.Woken()))
  }

  function Become(s: State, i: nat, t: Thread): State
    requires i < |s.threads|
  {
    s.(threads := s.threads[i := t])
  }

  function ClearQueue(s: State): State {
    s.(queue := [], lost := s.lost + |s.queue|)
  }

  /** One step of innerClose(): the shared state after it, and the step that follows. */
  function InnerClose(s: State, step: ClosePc): (State, Option<ClosePc>) {
    match step
    case ToShut => (s.(connected := false), Some(ToNotify))
    case ToNotify => (NotifySem(s), Some(ToSwap))
    case ToSwap => (s, Some(ToClear))
    case ToClear => (ClearQueue(s), None)
  }

  function StepStart(s: State, i: nat, pc: StartPc, outcome: Outcome): State
    requires i < |s.threads|
  {
    match pc
    case Wait1 =>
      Become(s, i, Start(if s.waitSem.count > 0 then Wait2 else Parked1)).(waitSem := s.waitSem.Wait(i))
    case Wait2 =>
      Become(s, i, Start(if s.waitSem.count > 0 then Check else Parked2)).(waitSem := s.waitSem.Wait(i))
    case Parked1 => s
    case Parked2 => s
    case Check => Become(s, i, Start(if s.connected then Callback else Reconnect))
    case Reconnect =>
      if outcome.Success? then Become(s, i, Start(Callback)).(connected := true)
      else Become(s, i, Start(Closing(ToShut))).(connected := false)
    case Callback => Become(s, i, Start(if outcome.Success? then SpawnRead else Closing(ToShut)))
    case SpawnRead =>
      var s' := Become(s, i, Start(SpawnWrite));
      s'.(threads := s'.threads + [Reader(RTest)])
    case SpawnWrite =>
      var s' := Become(s, i, Finished);
      s'.(threads := s'.threads + [Writer(WTest, [])])
    case Closing(step) =>
      var (s', next) := InnerClose(s, step);
      Become(s', i, Start(if next.Some? then Closing(next.value) else Return1))
    case Return1 => NotifyWaitSem(Become(s, i, Start(Return2)))
    case Return2 => NotifyWaitSem(Become(s, i, Finished))
  }

  function StepReader(s: State, i: nat, pc: ReaderPc, outcome: Outcome): State
    requires i < |s.threads|
  {
    match pc
    case RTest => Become(s, i, Reader(if s.connected then RRecv else RClosing(ToShut)))
    case RRecv => Become(s, i, Reader(if outcome.Success? then RTest else RClosing(ToShut)))
    case RClosing(step) =>
      var (s', next) := InnerClose(s, step);
      Become(s', i, Reader(if next.Some? then RClosing(next.value) else RReturn))
    case RReturn => NotifyWaitSem(Become(s, i, Finished))
  }

  function StepWriter(s: State, i: nat, pc: WriterPc, batch: seq<Item>, outcome: Outcome): State
    requires i < |s.threads|
  {
    match pc
    case WTest => Become(s, i, Writer(if s.connected then WWait else WClear, batch))
    case WWait =>
      Become(s, i, Writer(if s.sem.count > 0 then WSwap else WParked, batch)).(sem := s.sem.Wait(i))
    case WParked => s
    case WSwap => Become(s, i, Writer(WSend, s.queue)).(queue := [])
    case WSend =>
      if batch == [] then Become(s, i, Writer(WTest, []))
      else if outcome.Success? then
        Become(s, i, Writer(WSend, batch[1..])).(sent := s.sent + [batch[0]])
      else
        Become(s, i, Writer(if outcome.Failure? then WClosing(ToShut) else WClear, []))
          .(lost := s.lost + |batch|)
    case WClosing(step) =>
      var (s', next) := InnerClose(s, step);
      Become(s', i, Writer(if next.Some? then WClosing(next.value) else WTest, batch))
    case WClear => Become(ClearQueue(s), i, Writer(WReturn, batch))
    case WReturn => NotifyWaitSem(Become(s, i, Finished))
  }

  function Apply(s: State, step: Step): State {
    match step
    case CallStart => s.(threads := s.threads + [Start(Wait1)])
    case UserClose => s.(connected := false)
    case Enqueue(item) =>
      s.(queue := s.queue + [item], hist := s.hist + [item],
         threads := s.threads + [if s.queue == [] then Sender else Finished])
    case Go(i, outcome) =>
      if i >= |s.threads| then s
      else
        match s.threads[i]
        case Start(pc) => StepStart(s, i, pc, outcome)
        case Reader(pc) => StepReader(s, i, pc, outcome)
        case Writer(pc, batch) => StepWriter(s, i, pc, batch, outcome)
        case Sender => NotifySem(Become(s, i, Finished))
        case Finished => s
  }

  function Run(s: State, steps: seq<Step>): State
    decreases |steps|
  {
    if steps == [] then s else Run(Apply(s, steps[0]), steps[1..])
  }

  ghost predicate Reachable(s: State) {
    exists connected: bool, steps: seq<Step> :: s == Run(Init(connected), steps)
  }

  // ---------------------------------------------------------------- who holds what

  /** m_waitSem tokens held by a thread. */
  function Tokens(t: Thread): nat {
    match t
    case Start(Wait1) => 0
    case Start(Parked1) => 0
    case Start(Wait2) => 1
    case Start(Parked2) => 1
    case Start(SpawnWrite) => 1
    case Start(Return2) => 1
    case Start(_) => 2
    case Reader(_) => 1
    case Writer(_, _) => 1
    case _ => 0
  }

  /** The right to be the reader: held by the reader, or by a start that owns both tokens. */
  function ReadRight(t: Thread): nat {
    match t
    case Start(pc) => if Tokens(t) == 2 then 1 else 0
    case Reader(_) => 1
    case _ => 0
  }

  /** The right to be the writer. */
  function WriteRight(t: Thread): nat {
    match t
    case Start(pc) => if Tokens(t) == 2 || pc.SpawnWrite? then 1 else 0
    case Writer(_, _) => 1
    case _ => 0
  }

  predicate IsParkedStart(t: Thread) {
    t.Start? && (t.spc.Parked1? || t.spc.Parked2?)
  }

  predicate IsParkedWriter(t: Thread) {
    t.Writer? && t.wpc.WParked?
  }

  /** A reader that has not yet notified m_sem on its way out. */
  predicate IsActiveReader(t: Thread) {
    t.Reader? && (t.rpc.RTest? || t.rpc.RRecv? ||
                  (t.rpc.RClosing? && (t.rpc.step.ToShut? || t.rpc.step.ToNotify?)))
  }

  // ---------------------------------------------------------------- invariants

  ghost predicate TokenInv(s: State) {
    && s.waitSem.count + Sum(Tokens, s.threads) == 2
    && Sum(ReadRight, s.threads) <= 1
    && Sum(WriteRight, s.threads) <= 1
  }

  /** A semaphore's waiter list holds exactly the threads parked on it, each once. */
  ghost predicate ParkedExactly(waiters: seq<Fiber>, threads: seq<Thread>, parked: Thread -> bool) {
    && (forall k :: 0 <= k < |waiters| ==> waiters[k] < |threads| && parked(threads[waiters[k]]))
    && (forall j, k :: 0 <= j < k < |waiters| ==> waiters[j] != waiters[k])
    && (forall i :: 0 <= i < |threads| && parked(threads[i]) ==> i in waiters)
  }

  ghost predicate SemInv(s: State) {
    && s.sem.Valid() && s.waitSem.Valid()
    && ParkedExactly(s.waitSem.waiters, s.threads, IsParkedStart)
    && ParkedExactly(s.sem.waiters, s.threads, IsParkedWriter)
  }

  ghost predicate HasActiveReader(s: State) {
    exists i :: 0 <= i < |s.threads| && IsActiveReader(s.threads[i])
  }

  /** Once no reader is going to notify m_sem any more, the connection is down and the
      writer is neither parked nor about to park. */
  ghost predicate ReleaseInv(s: State) {
    && (forall i :: 0 <= i < |s.threads| && s.threads[i] == Reader(RClosing(ToNotify)) ==> !s.connected)
    && (forall i :: 0 <= i < |s.threads| && IsWriting(s.threads[i])
          ==> HasActiveReader(s) || (!s.connected && Released(s, s.threads[i])))
  }

  /** The writer, or the start that is about to schedule it. */
  predicate IsWriting(t: Thread) {
    t.Writer? || t == Start(SpawnWrite)
  }

  predicate Released(s: State, t: Thread) {
    !IsParkedWriter(t) && (t.Writer? && t.wpc.WWait? ==> s.sem.count > 0)
  }

  ghost predicate WakeupInv(s: State) {
    s.queue != [] ==>
      || s.sem.count > 0
      || (exists i :: 0 <= i < |s.threads| && s.threads[i].Writer? && s.threads[i].wpc.WSwap?)
      || (exists i :: 0 <= i < |s.threads| && s.threads[i].Sender?)
  }

  function BatchOf(t: Thread): seq<Item> {
    if t.Writer? then t.batch else []
  }

  /** The sends taken off the queue and not yet handed to doSend. */
  function InHand(threads: seq<Thread>): seq<Item> {
    if threads == [] then []
    else InHand(threads[..|threads| - 1]) + BatchOf(threads[|threads| - 1])
  }

  function Flow(s: State): seq<Item> {
    s.sent + InHand(s.threads) + s.queue
  }

  ghost predicate FlowInv(s: State) {
    && (forall i :: 0 <= i < |s.threads| && s.threads[i].Writer? && !s.threads[i].wpc.WSend? ==>
          s.threads[i].batch == [])
    && Within(Flow(s), s.hist)
    && |Flow(s)| + s.lost == |s.hist|
  }

  ghost predicate Inv(s: State) {
    TokenInv(s) && SemInv(s) && ReleaseInv(s) && WakeupInv(s) && FlowInv(s)
  }
}

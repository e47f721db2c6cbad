/** AsyncSocketStream as an object.  Its methods run their critical sections and semaphore
    operations in the order of the source, and between any two of them the other threads may
    have run any of theirs.  The ghost fields `s` and `r` hold the states of the two transition
    systems; each section is one step of one of them. */
module AsyncSocketStreams {
  import opened AsyncStreams
  import opened FiberSemaphores
  import opened Wrappers
  import opened Counting
  import opened AsyncStreamRelease
  import opened AsyncStreamTheorems
  import opened AsyncStreamCloses
  import opened AsyncDeliveries
  import Requests = RequestWaiters

  // ---------------------------------------------------------------- what others leave alone

  /** What a thread calls its own: its place among the threads, the doRsp() call that it is in,
      and the contexts that it has swapped out of m_ctxs and not reached yet. */
  datatype Role = Role(thread: Option<nat>, call: Option<nat>, hands: set<Requests.CtxId>)

  /** A cleared scheduler stays cleared. */
  ghost predicate StayClaimed(before: seq<Requests.Ctx>, after: seq<Requests.Ctx>) {
    |before| <= |after| && forall c :: 0 <= c < |before| && !before[c].scheduler ==> !after[c].scheduler
  }

  ghost predicate KeepsClaims(r: Requests.State, r': Requests.State) {
    StayClaimed(r.ctxs, r'.ctxs)
  }

  ghost predicate KeepsCall(k: nat, r: Requests.State, r': Requests.State) {
    k < |r.calls| && k < |r'.calls| && r'.calls[k] == r.calls[k]
  }

  /** What a thread may rely on, and what it owes its caller. */
  ghost predicate Keeps(me: Role, s: State, r: Requests.State, s': State, r': Requests.State) {
    && (me.thread.Some? ==> KeepsThread(me.thread.value, s, s'))
    && (me.call.Some? ==> KeepsCall(me.call.value, r, r'))
    && me.hands <= r'.drained
    && KeepsClaims(r, r')
    && (me.thread.Some? ==> KeepsSent(me.thread.value, s, s'))
  }

  /** Nobody sends but the writer. */
  ghost predicate KeepsSent(i: nat, s: State, s': State) {
    i < |s.threads| && s.threads[i].Writer? ==> s'.sent == s.sent
  }

  lemma OthersSendNothing(s: State, step: Step, i: nat)
    requires Inv(s) && i < |s.threads| && (step.Go? ==> step.i != i)
    ensures KeepsSent(i, s, Apply(s, step))
  {
    if s.threads[i].Writer? && step.Go? && step.i < |s.threads| {
      if s.threads[step.i].Writer? { OneWriteRight(s, i, step.i); }
      SendsNothing(s, step);
    }
  }

  lemma SendsNothing(s: State, step: Step)
    requires step.Go? && step.i < |s.threads| && !s.threads[step.i].Writer?
    ensures Apply(s, step).sent == s.sent
  {
    match s.threads[step.i]
    case Start(_) =>
    case Reader(_) =>
    case Sender =>
    case Finished =>
  }

  ghost predicate Owns(me: Role, s: State, r: Requests.State) {
    && (me.thread.Some? ==> me.thread.value < |s.threads|)
    && (me.call.Some? ==> me.call.value < |r.calls|)
    && me.hands <= r.drained
  }

  /** An event that is not one of this thread's own. */
  predicate IsOthers(me: Role, e: Event) {
    match e
    case Thread(step) => step.Go? && me.thread.Some? ==> step.i != me.thread.value
    case Request(act) => IsOthersRequest(me, act)
  }

  predicate IsOthersRequest(me: Role, act: Requests.Step) {
    && (act.Go? && me.call.Some? ==> act.i != me.call.value)
    && (act.CloseNext? ==> act.c !in me.hands)
  }

  lemma OthersKeepRequests(me: Role, r: Requests.State, step: Requests.Step)
    requires me.hands <= r.drained && (me.call.Some? ==> me.call.value < |r.calls|) && IsOthersRequest(me, step)
    ensures var r' := Requests.Apply(r, step);
            && (me.call.Some? ==> KeepsCall(me.call.value, r, r')) && me.hands <= r'.drained && KeepsClaims(r, r')
  {
  }

  lemma OthersKeepOne(me: Role, j: Joint, e: Event)
    requires Owns(me, j.s, j.r) && IsOthers(me, e) && Inv(j.s)
    ensures var j' := Happen(j, e); Keeps(me, j.s, j.r, j'.s, j'.r)
  {
    match e
    case Thread(step) =>
      if me.thread.Some? {
        OthersKeepThread(j.s, step, me.thread.value);
        OthersSendNothing(j.s, step, me.thread.value);
      }
      OthersKeepRequests(me, j.r, Requests.Close);
    case Request(act) => OthersKeepRequests(me, j.r, act);
  }

  lemma KeepsChain(me: Role, a: Joint, b: Joint, c: Joint)
    requires Keeps(me, a.s, a.r, b.s, b.r) && Keeps(me, b.s, b.r, c.s, c.r)
    ensures Keeps(me, a.s, a.r, c.s, c.r)
  {
  }

  lemma KeepsItself(me: Role, j: Joint)
    requires Owns(me, j.s, j.r)
    ensures Keeps(me, j.s, j.r, j.s, j.r)
  {
  }

  /** Any events of other threads keep what a thread relies on. */
  lemma {:induction false} OthersKeep(me: Role, j: Joint, events: seq<Event>)
    requires Owns(me, j.s, j.r) && Inv(j.s)
    requires forall n :: 0 <= n < |events| ==> IsOthers(me, events[n])
    ensures var j' := AfterAll(j, events); Keeps(me, j.s, j.r, j'.s, j'.r)
    decreases |events|
  {
    if events == [] {
      KeepsItself(me, j);
    } else {
      var j' := Happen(j, events[0]);
      OthersKeepOne(me, j, events[0]);
      if events[0].Thread? { StepKeepsInv(j.s, events[0].step); }
      OthersKeep(me, j', events[1..]);
      KeepsChain(me, j, j', AfterAll(j', events[1..]));
    }
  }

  // ---------------------------------------------------------------- what has happened so far

  ghost predicate Leads(trace: seq<Event>, connected: bool, s: State, r: Requests.State) {
    AfterAll(Initially(connected), trace) == Joint(s, r)
  }

  /** The contexts of calls exist. */
  lemma KnownCall(trace: seq<Event>, connected: bool, s: State, r: Requests.State, k: nat)
    requires Leads(trace, connected, s, r) && k < |r.calls|
    ensures Requests.KnownCtx(r, r.calls[k])
  {
    AfterKeepsWake(Initially(connected), trace);
  }

  /** Event n is a step of thread i, taken when it was at t. */
  ghost predicate Did(trace: seq<Event>, connected: bool, n: nat, i: nat, t: Thread) {
    && n < |trace| && trace[n].Thread? && trace[n].step.Go? && trace[n].step.i == i
    && var s := AfterAll(Initially(connected), trace[..n]).s;
       i < |s.threads| && s.threads[i] == t
  }

  /** Event n is the swap of thread i in innerClose(), and these contexts were registered then. */
  ghost predicate Took(trace: seq<Event>, connected: bool, n: nat, i: nat, t: Thread, taken: set<Requests.CtxId>) {
    && CanClose(t) && Did(trace, connected, n, i, InClose(t, ToSwap))
    && taken == AfterAll(Initially(connected), trace[..n]).r.m_ctxs.Values
  }

  /** Event n is the clear of thread i in innerClose(), and leaves the queue empty. */
  ghost predicate Clears(trace: seq<Event>, connected: bool, n: nat, i: nat, t: Thread) {
    && CanClose(t) && Did(trace, connected, n, i, InClose(t, ToClear))
    && AfterAll(Initially(connected), trace[..n + 1]).s.queue == []
  }

  lemma DidStays(before: seq<Event>, after: seq<Event>, connected: bool, n: nat, i: nat, t: Thread)
    requires before <= after && Did(before, connected, n, i, t)
    ensures Did(after, connected, n, i, t) && after[..n] == before[..n]
  {
    assert after[..n] == before[..n];
  }

  /** Event n is this step of thread i, from state s. */
  ghost predicate Stepped(trace: seq<Event>, connected: bool, n: nat, i: nat, o: Outcome, s: State) {
    && n < |trace| && trace[n] == Event.Thread(Go(i, o))
    && AfterAll(Initially(connected), trace[..n]).s == s
    && AfterAll(Initially(connected), trace[..n + 1]).s == Apply(s, Go(i, o))
  }

  lemma SteppedStays(before: seq<Event>, after: seq<Event>, connected: bool, n: nat, i: nat, o: Outcome, s: State)
    requires before <= after && Stepped(before, connected, n, i, o, s)
    ensures Stepped(after, connected, n, i, o, s)
  {
    assert after[..n] == before[..n] && after[..n + 1] == before[..n + 1];
  }

  /** From event `from` on, thread i has found the connection down when it was at t. */
  ghost predicate SawDown(trace: seq<Event>, connected: bool, from: nat, i: nat, t: Thread) {
    exists n: nat, s: State :: from <= n && Stepped(trace, connected, n, i, Success, s)
                               && i < |s.threads| && s.threads[i] == t && !s.connected
  }

  lemma SawDownStays(before: seq<Event>, after: seq<Event>, connected: bool, from: nat, start: nat, i: nat, t: Thread)
    requires before <= after && start <= from && SawDown(before, connected, from, i, t)
    ensures SawDown(after, connected, start, i, t)
  {
    var n: nat, s: State :| from <= n && Stepped(before, connected, n, i, Success, s)
                            && i < |s.threads| && s.threads[i] == t && !s.connected;
    SteppedStays(before, after, connected, n, i, Success, s);
  }

  /** From event `from` on, a doSend() of thread i has thrown. */
  ghost predicate HasThrown(trace: seq<Event>, connected: bool, from: nat, i: nat) {
    exists n: nat, s: State :: from <= n && Stepped(trace, connected, n, i, Throw, s)
                               && i < |s.threads| && s.threads[i].Writer? && s.threads[i].wpc.WSend?
  }

  lemma HasThrownStays(before: seq<Event>, after: seq<Event>, connected: bool, from: nat, start: nat, i: nat)
    requires before <= after && start <= from && HasThrown(before, connected, from, i)
    ensures HasThrown(after, connected, start, i)
  {
    var n: nat, s: State :| from <= n && Stepped(before, connected, n, i, Throw, s)
                            && i < |s.threads| && s.threads[i].Writer? && s.threads[i].wpc.WSend?;
    SteppedStays(before, after, connected, n, i, Throw, s);
  }

  /** Why a writer leaves its loop. */
  ghost predicate MayLeave(trace: seq<Event>, connected: bool, from: nat, i: nat) {
    SawDown(trace, connected, from, i, Writer(WTest, [])) || HasThrown(trace, connected, from, i)
  }

  lemma MayLeaveStays(before: seq<Event>, after: seq<Event>, connected: bool, from: nat, start: nat, i: nat)
    requires before <= after && start <= from && MayLeave(before, connected, from, i)
    ensures MayLeave(after, connected, start, i)
  {
    if SawDown(before, connected, from, i, Writer(WTest, [])) {
      SawDownStays(before, after, connected, from, start, i, Writer(WTest, []));
    } else {
      HasThrownStays(before, after, connected, from, start, i);
    }
  }

  /** Event n is the connection test of start() by thread i, and this is what it finds. */
  ghost predicate Tested(trace: seq<Event>, connected: bool, n: nat, i: nat, up: bool) {
    Did(trace, connected, n, i, Thread.Start(Check)) && AfterAll(Initially(connected), trace[..n]).s.connected == up
  }

  /** Event n brings thread i to the connect callback, on a live connection. */
  ghost predicate ArrivesUp(trace: seq<Event>, connected: bool, n: nat, i: nat) {
    && n < |trace| && trace[n].Thread? && trace[n].step.Go? && trace[n].step.i == i
    && var s := AfterAll(Initially(connected), trace[..n + 1]).s;
       i < |s.threads| && s.threads[i] == Thread.Start(Callback) && s.connected
  }

  ghost predicate CameUp(trace: seq<Event>, connected: bool, from: nat, i: nat) {
    exists n: nat :: from <= n && ArrivesUp(trace, connected, n, i)
  }

  lemma CameUpStays(before: seq<Event>, after: seq<Event>, connected: bool, from: nat, i: nat)
    requires before <= after && CameUp(before, connected, from, i)
    ensures CameUp(after, connected, from, i)
  {
    var n: nat :| from <= n && ArrivesUp(before, connected, n, i);
    assert after[..n + 1] == before[..n + 1];
    assert ArrivesUp(after, connected, n, i);
  }

  lemma ArrivalStays(before: seq<Event>, after: seq<Event>, connected: bool, n: nat, i: nat, up: bool)
    requires before <= after && Tested(before, connected, n, i, up)
    ensures Tested(after, connected, n, i, up)
  {
    DidStays(before, after, connected, n, i, Thread.Start(Check));
  }

  /** What start() has done from event `from` on: it succeeds exactly when the callback accepts a
      connection that its test has found up or reconnect() has brought up, and then it has come to
      the callback on a live connection. */
  ghost predicate Connected(trace: seq<Event>, connected: bool, from: nat, i: nat, reconnects: bool, accepts: bool,
                            ok: bool) {
    && (ok ==> CameUp(trace, connected, from, i))
    && exists n: nat, up: bool :: from <= n && Tested(trace, connected, n, i, up)
                                  && (ok <==> accepts && (up || reconnects))
  }

  lemma ConnectedStays(before: seq<Event>, after: seq<Event>, connected: bool, from: nat, start: nat, i: nat,
                       reconnects: bool, accepts: bool, ok: bool)
    requires before <= after && start <= from && Connected(before, connected, from, i, reconnects, accepts, ok)
    ensures Connected(after, connected, start, i, reconnects, accepts, ok)
  {
    if ok { CameUpStays(before, after, connected, from, i); }
    var n: nat, up: bool :| from <= n && Tested(before, connected, n, i, up) && (ok <==> accepts && (up || reconnects));
    ArrivalStays(before, after, connected, n, i, up);
  }

  /** A message that leads to nobody: none at all, or one under a number that is not registered
      when it is looked up, from event `from` on. */
  ghost predicate Unanswered(trace: seq<Event>, connected: bool, from: nat, message: Option<Requests.Sn>) {
    message.None? || exists n: nat :: from <= n && UnknownAt(trace, connected, n, message.value)
  }

  ghost predicate UnknownAt(trace: seq<Event>, connected: bool, n: nat, sn: Requests.Sn) {
    && n < |trace| && trace[n] == Request(Requests.Response(sn))
    && sn !in AfterAll(Initially(connected), trace[..n]).r.m_ctxs
  }

  lemma UnansweredStays(before: seq<Event>, after: seq<Event>, connected: bool, from: nat, start: nat,
                        message: Option<Requests.Sn>)
    requires before <= after && start <= from && Unanswered(before, connected, from, message)
    ensures Unanswered(after, connected, start, message)
  {
    if message.Some? {
      var n: nat :| from <= n && UnknownAt(before, connected, n, message.value);
      assert after[..n] == before[..n];
      assert UnknownAt(after, connected, n, message.value);
    }
  }

  /** Why a reader leaves its loop. */
  ghost predicate MayStopReading(trace: seq<Event>, connected: bool, from: nat, i: nat,
                                 messages: seq<Option<Requests.Sn>>) {
    || SawDown(trace, connected, from, i, Reader(RTest))
    || exists k: nat :: k < |messages| && Unanswered(trace, connected, from, messages[k])
  }

  lemma MayStopReadingStays(before: seq<Event>, after: seq<Event>, connected: bool, from: nat, i: nat,
                            messages: seq<Option<Requests.Sn>>)
    requires before <= after && MayStopReading(before, connected, from, i, messages)
    ensures MayStopReading(after, connected, from, i, messages)
  {
    if SawDown(before, connected, from, i, Reader(RTest)) {
      SawDownStays(before, after, connected, from, from, i, Reader(RTest));
    } else {
      var k: nat :| k < |messages| && Unanswered(before, connected, from, messages[k]);
      UnansweredStays(before, after, connected, from, from, messages[k]);
    }
  }

  // ---------------------------------------------------------------- closing

  predicate CanClose(t: Thread) { t.Start? || t.Reader? || t.Writer? }

  /** A thread at a step of innerClose(), and after it. */
  function InClose(t: Thread, step: ClosePc): Thread
    requires CanClose(t)
  {
    match t
    case Start(_) => Start(Closing(step))
    case Reader(_) => Reader(RClosing(step))
    case Writer(_, batch) => Writer(WClosing(step), batch)
  }

  function Closed(t: Thread): Thread
    requires CanClose(t)
  {
    match t
    case Start(_) => Start(Return1)
    case Reader(_) => Reader(RReturn)
    case Writer(_, batch) => Writer(WTest, batch)
  }

  predicate Becomes(i: nat, t: Thread, threads: seq<Thread>) {
    i < |threads| && threads[i] == t
  }

  /** Nobody can schedule the fibers of these contexts any more, except who has claimed them. */
  predicate Claimed(contexts: seq<Requests.Ctx>, ids: set<Requests.CtxId>) {
    forall c :: c in ids ==> c < |contexts| && !contexts[c].scheduler
  }

  lemma ClaimsStay(before: seq<Requests.Ctx>, after: seq<Requests.Ctx>, ids: set<Requests.CtxId>)
    requires Claimed(before, ids) && StayClaimed(before, after)
    ensures Claimed(after, ids)
  {
    forall d | d in ids ensures d < |after| && !after[d].scheduler {
      assert d < |before| && !before[d].scheduler;
    }
  }

  lemma ClaimedToo(before: seq<Requests.Ctx>, after: seq<Requests.Ctx>, ids: set<Requests.CtxId>, c: Requests.CtxId)
    requires Claimed(before, ids) && StayClaimed(before, after) && c < |after| && !after[c].scheduler
    ensures Claimed(after, ids + {c})
  {
    forall d | d in ids ensures d < |after| && !after[d].scheduler {
      assert d < |before| && !before[d].scheduler;
    }
  }

  /** The part of a state that is in the object. */
  datatype Shared = Shared(connected: bool, queue: seq<Item>, sem: Sem, waitSem: Sem)

  function SharedBy(s: State): Shared { Shared(s.connected, s.queue, s.sem, s.waitSem) }

  /** A close: the event of its swap, and the contexts that were registered then. */
  datatype Sweep = Sweep(at: nat, taken: set<Requests.CtxId>)

  /** From event `from` on thread i, the writer, has made these closes, and what they took is
      claimed. */
  ghost predicate Swept(trace: seq<Event>, connected: bool, contexts: seq<Requests.Ctx>, i: nat, from: nat,
                        sweeps: seq<Sweep>) {
    forall k :: 0 <= k < |sweeps| ==>
      from <= sweeps[k].at && Took(trace, connected, sweeps[k].at, i, Writer(WTest, []), sweeps[k].taken)
      && Claimed(contexts, sweeps[k].taken)
  }

  lemma SweptStays(before: seq<Event>, after: seq<Event>, connected: bool, was: seq<Requests.Ctx>,
                   now: seq<Requests.Ctx>, i: nat, from: nat, sweeps: seq<Sweep>)
    requires Swept(before, connected, was, i, from, sweeps) && before <= after && StayClaimed(was, now)
    ensures Swept(after, connected, now, i, from, sweeps)
  {
    forall k | 0 <= k < |sweeps|
      ensures Took(after, connected, sweeps[k].at, i, Writer(WTest, []), sweeps[k].taken)
      ensures Claimed(now, sweeps[k].taken)
    {
      DidStays(before, after, connected, sweeps[k].at, i, Writer(WClosing(ToSwap), []));
      ClaimsStay(was, now, sweeps[k].taken);
    }
  }

  /** The event of a swap of the queue, and what was in it. */
  datatype Batch = Batch(at: nat, items: seq<Item>)

  /** What a writer has done: its closes, and the batches it has swapped out and sent. */
  datatype Work = Work(sweeps: seq<Sweep>, batches: seq<Batch>)

  function Joined(batches: seq<Batch>): seq<Item> {
    if batches == [] then [] else Joined(batches[..|batches| - 1]) + batches[|batches| - 1].items
  }

  /** From event `from` on thread i has swapped out these batches, each the whole queue. */
  ghost predicate Swapped(trace: seq<Event>, connected: bool, i: nat, from: nat, batches: seq<Batch>) {
    forall k :: 0 <= k < |batches| ==>
      from <= batches[k].at && Did(trace, connected, batches[k].at, i, Writer(WSwap, []))
      && AfterAll(Initially(connected), trace[..batches[k].at]).s.queue == batches[k].items
  }

  ghost predicate Worked(trace: seq<Event>, connected: bool, contexts: seq<Requests.Ctx>, i: nat, from: nat, w: Work) {
    Swept(trace, connected, contexts, i, from, w.sweeps) && Swapped(trace, connected, i, from, w.batches)
  }

  lemma WorkedStays(before: seq<Event>, after: seq<Event>, connected: bool, was: seq<Requests.Ctx>,
                    now: seq<Requests.Ctx>, i: nat, from: nat, w: Work)
    requires Worked(before, connected, was, i, from, w) && before <= after && StayClaimed(was, now)
    ensures Worked(after, connected, now, i, from, w)
  {
    SweptStays(before, after, connected, was, now, i, from, w.sweeps);
    forall k | 0 <= k < |w.batches|
      ensures Did(after, connected, w.batches[k].at, i, Writer(WSwap, []))
      ensures after[..w.batches[k].at] == before[..w.batches[k].at]
    {
      DidStays(before, after, connected, w.batches[k].at, i, Writer(WSwap, []));
    }
  }

  /** One more batch, all of it sent if every doSend() succeeds. */
  ghost predicate WorksOn(sent: seq<Item>, sent': seq<Item>, done: Work, all: Work, answer: nat -> Outcome) {
    && |all.batches| == |done.batches| + 1 && all.batches[..|done.batches|] == done.batches
    && (AllSucceed(answer) ==> sent' == sent + all.batches[|done.batches|].items)
  }

  ghost predicate AllSucceed(answer: nat -> Outcome) { forall n: nat :: answer(n).Success? }

  ghost predicate AlwaysSucceed(answer: nat -> nat -> Outcome) { forall round: nat :: AllSucceed(answer(round)) }

  lemma {:induction false} SuccessEnds(answer: nat -> Outcome, n: nat, size: nat)
    requires AllSucceed(answer)
    ensures Ending(answer, n, size).Success?
    decreases size - n
  {
    if n < size { SuccessEnds(answer, n + 1, size); }
  }

  /** How sends number n up to size end: with the first outcome that is no success, if any. */
  function Ending(answer: nat -> Outcome, n: nat, size: nat): Outcome
    decreases size - n
  {
    if n >= size then Success else if answer(n).Success? then Ending(answer, n + 1, size) else answer(n)
  }

  // ---------------------------------------------------------------- the object

  class AsyncSocketStream {
    var m_connected: bool
    var m_queue: seq<Item>
    const m_sem: FiberSemaphore
    const m_waitSem: FiberSemaphore
    var m_ctxs: map<Requests.Sn, Requests.CtxId>
    /** Every context there has been, with its `scheduler` and the times its fiber was
        scheduled. */
    var contexts: seq<Requests.Ctx>
    ghost const initially: bool
    /** What all threads have done so far. */
    ghost var trace: seq<Event>
    ghost var s: State
    ghost var r: Requests.State

    ghost predicate Valid()
      reads this, m_sem, m_waitSem
    {
      Shows(SharedBy(s))
    }

    /** The shared part is u, and `s` and `r` are what the trace leads to. */
    ghost predicate Shows(u: Shared)
      reads this, m_sem, m_waitSem
    {
      && m_sem != m_waitSem
      && Shared(m_connected, m_queue, m_sem.Value(), m_waitSem.Value()) == u
      && m_ctxs == r.m_ctxs && contexts == r.ctxs
      && Leads(trace, initially, s, r)
    }

    ghost predicate At(i: nat, t: Thread)
      reads this
    {
      i < |s.threads| && s.threads[i] == t
    }

    constructor (connected: bool)
      ensures Valid() && s == Init(connected) && r == Requests.INIT
      ensures fresh(m_sem) && fresh(m_waitSem)
    {
      m_connected, m_queue, m_ctxs, contexts := connected, [], map[], [];
      m_sem := new FiberSemaphore(0);
      m_waitSem := new FiberSemaphore(2);
      initially, trace, s, r := connected, [], Init(connected), Requests.INIT;
    }

    /** Any sections of the other threads; whichever they are, OthersKeep holds of them.
        `runs` tells whether the thread may go on. */
    method Others(ghost me: Role, parked: bool) returns (runs: bool)
      requires Valid() && Owns(me, s, r)
      requires me.thread.Some? ==> parked == IsParkedThread(s.threads[me.thread.value])
      modifies this, m_sem, m_waitSem
      ensures Valid() && old(trace) <= trace && Keeps(me, old(s), old(r), s, r)
      ensures me.thread.Some? ==> runs == !IsParkedThread(s.threads[me.thread.value])
    {
      AfterReachable(initially, trace);
      ReachableInv(s);
      OthersKeep(me, Joint(s, r), []);
      runs := !parked;
    }

    /** The same between two sections of a thread that is not parked. */
    method Yield(ghost me: Role, ghost t: Thread)
      requires Valid() && Owns(me, s, r) && !IsParkedThread(t) && (me.thread.Some? ==> At(me.thread.value, t))
      modifies this, m_sem, m_waitSem
      ensures Valid() && old(trace) <= trace
      ensures Keeps(me, old(s), old(r), s, r) && (me.thread.Some? ==> At(me.thread.value, t))
    {
      var runs := Others(me, false);
    }

    /** A step of a thread that is not the swap of innerClose(). */
    ghost method Step(step: Step)
      requires Leads(trace, initially, s, r) && !Swaps(s, step)
      modifies this`s, this`trace
      ensures Leads(trace, initially, s, r) && trace == old(trace) + [Event.Thread(step)]
      ensures s == Apply(old(s), step)
    {
      AfterOn(Initially(initially), trace, Event.Thread(step));
      trace, s := trace + [Event.Thread(step)], Apply(s, step);
    }

    // -------------------------------------------------------------- sections of one thread

    /** Thread i has changed the shared part as its step does; the others may go on. */
    method Finish(ghost i: nat, ghost o: Outcome, ghost t: Thread)
      requires i < |s.threads| && !AtSwap(s.threads[i]) && Shows(SharedBy(Apply(s, Go(i, o))))
      requires Becomes(i, t, Apply(s, Go(i, o)).threads) && !IsParkedThread(t)
      modifies this, m_sem, m_waitSem
      ensures Valid() && old(trace) + [Event.Thread(Go(i, o))] <= trace && At(i, t) && KeepsClaims(old(r), r)
      ensures Stepped(trace, initially, |old(trace)|, i, o, old(s))
      ensures t.Writer? ==> s.sent == Apply(old(s), Go(i, o)).sent
    {
      ghost var before := trace;
      Step(Go(i, o));
      ghost var now := trace;
      assert now[..|before|] == before && now[..|now|] == now;
      Yield(Role(Some(i), None, {}), t);
      SteppedStays(now, trace, initially, |before|, i, o, old(s));
    }

    /** isConnected() */
    method TestConnected(ghost i: nat, ghost yes: Thread, ghost no: Thread) returns (b: bool)
      requires Valid() && i < |s.threads| && !AtSwap(s.threads[i]) && !IsParkedThread(yes) && !IsParkedThread(no)
      requires SharedBy(Apply(s, Go(i, Success))) == SharedBy(s)
      requires Becomes(i, if s.connected then yes else no, Apply(s, Go(i, Success)).threads)
      modifies this, m_sem, m_waitSem
      ensures Valid() && old(trace) <= trace && At(i, if b then yes else no) && KeepsClaims(old(r), r)
      ensures Stepped(trace, initially, |old(trace)|, i, Success, old(s)) && b == old(s).connected
      ensures yes.Writer? && no.Writer? ==> s.sent == Apply(old(s), Go(i, Success)).sent
    {
      b := m_connected;
      Finish(i, Success, if b then yes else no);
    }

    /** One m_waitSem.wait() of waitFiber(); false when the run ends with the fiber parked. */
    method WaitToken(i: nat, ghost got: Thread, ghost asleep: Thread) returns (runs: bool)
      requires Valid() && (At(i, Thread.Start(Wait1)) || At(i, Thread.Start(Wait2)))
      requires got == Thread.Start(if At(i, Thread.Start(Wait1)) then Wait2 else Check)
      requires asleep == Thread.Start(if At(i, Thread.Start(Wait1)) then Parked1 else Parked2)
      modifies this, m_sem, m_waitSem
      ensures Valid() && old(trace) <= trace && At(i, if runs then got else asleep)
    {
      var parked := m_waitSem.Wait(i);
      Step(Go(i, Success));
      runs := Others(Role(Some(i), None, {}), parked);
    }

    /** m_waitSem.notify() at the end of a fiber, or in a failed start(). */
    method ReturnToken(ghost i: nat, ghost next: Thread)
      requires Valid() && i < |s.threads|
      requires (s.threads[i], next) in
               {(Thread.Start(Return1), Thread.Start(Return2)), (Thread.Start(Return2), Finished),
                (Reader(RReturn), Finished), (Writer(WReturn, []), Finished)}
      modifies this, m_sem, m_waitSem
      ensures Valid() && old(trace) <= trace && At(i, next) && KeepsClaims(old(r), r)
    {
      var woken := m_waitSem.Notify();
      Finish(i, Success, next);
    }

    // -------------------------------------------------------------- requests

    /** A doRsp() of call k for context c is at a step, in a thread that is not parked. */
    ghost predicate Answers(me: Role, t: Thread, call: Requests.Rsp)
      reads this
    {
      && Owns(me, s, r) && !IsParkedThread(t) && (me.thread.Some? ==> At(me.thread.value, t))
      && me.call.Some? && r.calls[me.call.value] == call
    }

    /** The load at the start of doRsp(). */
    method LoadScheduler(c: Requests.CtxId, ghost me: Role, ghost t: Thread) returns (expected: bool)
      requires Valid() && Answers(me, t, Requests.Load(c))
      modifies this, m_sem, m_waitSem
      ensures Valid() && old(trace) <= trace
      ensures Answers(me, t, Requests.Cas(c, expected)) && KeepsClaims(old(r), r)
      ensures c < |contexts| && (contexts[c].scheduler ==> expected)
    {
      KnownCall(trace, initially, s, r, me.call.value);
      expected := contexts[c].scheduler;
      Act(Requests.Go(me.call.value), me.(call := None));
      Yield(me, t);
    }

    /** compare_exchange_strong(expected, nullptr) and the test after it. */
    method ClaimScheduler(c: Requests.CtxId, expected: bool, ghost me: Role, ghost t: Thread) returns (won: bool)
      requires Valid() && Answers(me, t, Requests.Cas(c, expected))
      requires c < |contexts| && (contexts[c].scheduler ==> expected)
      modifies this, m_sem, m_waitSem
      ensures Valid() && old(trace) <= trace
      ensures Answers(me, t, if won then Requests.Schedule(c) else Requests.Done) && KeepsClaims(old(r), r)
      ensures c < |contexts| && !contexts[c].scheduler
    {
      won := contexts[c].scheduler == expected && expected;
      if contexts[c].scheduler == expected {
        contexts := contexts[c := contexts[c].(scheduler := false)];
      }
      Act(Requests.Go(me.call.value), me.(call := None));
      Yield(me, t);
    }

    /** expected->schedule(fiber) */
    method ScheduleFiber(c: Requests.CtxId, ghost me: Role, ghost t: Thread)
      requires Valid() && Answers(me, t, Requests.Schedule(c)) && c < |contexts|
      modifies this, m_sem, m_waitSem
      ensures Valid() && old(trace) <= trace && Answers(me, t, Requests.Done) && KeepsClaims(old(r), r)
    {
      contexts := contexts[c := contexts[c].(wakes := contexts[c].wakes + 1)];
      Act(Requests.Go(me.call.value), me.(call := None));
      Yield(me, t);
    }

    /** doRsp() leaves the context claimed, by itself or by another call. */
    method DoRsp(c: Requests.CtxId, ghost me: Role, ghost t: Thread)
      requires Valid() && Answers(me, t, Requests.Load(c))
      modifies this, m_sem, m_waitSem
      ensures Valid() && old(trace) <= trace && Answers(me, t, Requests.Done) && KeepsClaims(old(r), r)
      ensures c < |contexts| && !contexts[c].scheduler
    {
      var expected := LoadScheduler(c, me, t);
      var won := ClaimScheduler(c, expected, me, t);
      if won {
        ScheduleFiber(c, me, t);
      }
    }

    ghost method Act(act: Requests.Step, me: Role)
      requires Leads(trace, initially, s, r) && CanHappen(Joint(s, r), Request(act))
      requires me.hands <= r.drained && me.call.None? && IsOthersRequest(me, act)
      modifies this`r, this`trace
      ensures Leads(trace, initially, s, r) && trace == old(trace) + [Request(act)]
      ensures r == Requests.Apply(old(r), act) && me.hands <= r.drained && KeepsClaims(old(r), r)
    {
      OthersKeepRequests(me, r, act);
      AfterOn(Initially(initially), trace, Request(act));
      trace, r := trace + [Request(act)], Requests.Apply(r, act);
    }

    /** addCtx(): insert() keeps an existing entry; true either way. */
    method AddCtx(sn: Requests.Sn) returns (ok: bool, c: Requests.CtxId)
      requires Valid()
      modifies this`contexts, this`m_ctxs, this`r, this`trace
      ensures Valid() && trace == old(trace) + [Request(Requests.AddCtx(sn))]
      ensures r == Requests.Apply(old(r), Requests.AddCtx(sn)) && ok && c == |old(contexts)|
      ensures contexts == old(contexts) + [Requests.Ctx(sn, true, 0)]
      ensures m_ctxs == if sn in old(m_ctxs) then old(m_ctxs) else old(m_ctxs)[sn := c]
    {
      c := |contexts|;
      contexts := contexts + [Requests.Ctx(sn, true, 0)];
      if sn !in m_ctxs {
        m_ctxs := m_ctxs[sn := c];
      }
      Act(Requests.AddCtx(sn), Role(None, None, {}));
      ok := true;
    }

    /** getAndDelCtx(): the context that doRsp() is going to be called on. */
    method GetAndDelCtx(sn: Requests.Sn, ghost i: nat) returns (c: Option<Requests.CtxId>)
      requires Valid() && At(i, Reader(RRecv))
      modifies this`m_ctxs, this`r, this`trace
      ensures Valid() && trace == old(trace) + [Request(Requests.Response(sn))]
      ensures r == Requests.Apply(old(r), Requests.Response(sn))
      ensures c == (if sn in old(m_ctxs) then Some(old(m_ctxs)[sn]) else None) && m_ctxs == old(m_ctxs) - {sn}
      ensures r.calls == old(r.calls) + if c.Some? then [Requests.Load(c.value)] else []
    {
      c := None;
      if sn in m_ctxs {
        c := Some(m_ctxs[sn]);
        m_ctxs := m_ctxs - {sn};
      }
      Act(Requests.Response(sn), Role(None, None, {}));
    }

    /** onTimeOut(): whatever is registered under the number goes; the context itself is
        claimed at the end. */
    method OnTimeOut(c: Requests.CtxId)
      requires Valid() && c < |contexts|
      modifies this, m_sem, m_waitSem
      ensures Valid() && old(trace) + [Request(Requests.TimeOut(c))] <= trace
      ensures c < |contexts| && !contexts[c].scheduler
    {
      ghost var me := Role(None, Some(|r.calls|), {});
      m_ctxs := m_ctxs - {contexts[c].sn};
      Act(Requests.TimeOut(c), me.(call := None));
      Yield(me, Finished);
      DoRsp(c, me, Finished);
    }

    // -------------------------------------------------------------- innerClose()

    /** SocketStream::close() */
    method Shut(ghost i: nat, ghost t: Thread)
      requires Valid() && CanClose(t) && At(i, InClose(t, ToShut))
      modifies this, m_sem, m_waitSem
      ensures Valid() && old(trace) <= trace && At(i, InClose(t, ToNotify)) && KeepsClaims(old(r), r)
    {
      m_connected := false;
      Finish(i, Success, InClose(t, ToNotify));
    }

    method NotifyClosing(ghost i: nat, ghost t: Thread)
      requires Valid() && CanClose(t) && At(i, InClose(t, ToNotify))
      modifies this, m_sem, m_waitSem
      ensures Valid() && old(trace) <= trace && At(i, InClose(t, ToSwap)) && KeepsClaims(old(r), r)
    {
      var woken := m_sem.Notify();
      Finish(i, Success, InClose(t, ToSwap));
    }

    /** ctxs.swap(m_ctxs): the contexts that were registered are in this thread's hands. */
    method SwapCtxs(ghost i: nat, ghost t: Thread) returns (ctxs: set<Requests.CtxId>)
      requires Valid() && CanClose(t) && At(i, InClose(t, ToSwap))
      modifies this, m_sem, m_waitSem
      ensures Valid() && old(trace) <= trace && At(i, InClose(t, ToClear))
      ensures ctxs == old(m_ctxs).Values && ctxs <= r.drained && KeepsClaims(old(r), r)
      ensures Took(trace, initially, |old(trace)|, i, t, ctxs)
    {
      ctxs := m_ctxs.Values;
      m_ctxs := map[];
      Swap(i, t);
      ghost var before := trace;
      Yield(Role(Some(i), None, ctxs), InClose(t, ToClear));
      DidStays(before, trace, initially, |before| - 1, i, InClose(t, ToSwap));
    }

    /** The swap, one step of both systems. */
    ghost method Swap(i: nat, t: Thread)
      requires Leads(trace, initially, s, r) && CanClose(t) && At(i, InClose(t, ToSwap))
      modifies this`s, this`r, this`trace
      ensures Leads(trace, initially, s, r) && old(trace) <= trace && |trace| == |old(trace)| + 1
      ensures SharedBy(s) == SharedBy(old(s)) && At(i, InClose(t, ToClear))
      ensures r == Requests.Apply(old(r), Requests.Close)
      ensures Took(trace, initially, |old(trace)|, i, t, old(r).m_ctxs.Values)
    {
      var e := Event.Thread(Go(i, Success));
      AfterOn(Initially(initially), trace, e);
      assert (trace + [e])[..|trace|] == trace;
      trace, s, r := trace + [e], Apply(s, Go(i, Success)), Requests.Apply(r, Requests.Close);
    }

    method ClearClosing(ghost i: nat, ghost t: Thread, ghost ctxs: set<Requests.CtxId>)
      requires Valid() && CanClose(t) && At(i, InClose(t, ToClear)) && ctxs <= r.drained
      modifies this, m_sem, m_waitSem
      ensures Valid() && old(trace) <= trace && At(i, Closed(t)) && ctxs <= r.drained
      ensures KeepsClaims(old(r), r) && Clears(trace, initially, |old(trace)|, i, t)
    {
      ghost var before := trace;
      m_queue := [];
      Step(Go(i, Success));
      ghost var now := trace;
      assert now[..|before|] == before && now[..|now|] == now;
      Yield(Role(Some(i), None, ctxs), Closed(t));
      assert trace[..|before|] == before && trace[..|before| + 1] == now;
    }

    /** The last loop: doRsp() for one context after the other, all claimed at the end. */
    method AnswerCtxs(ctxs: set<Requests.CtxId>, ghost i: nat, ghost t: Thread)
      requires Valid() && !IsParkedThread(t) && At(i, t) && ctxs <= r.drained
      modifies this, m_sem, m_waitSem
      ensures Valid() && old(trace) <= trace && At(i, t)
      ensures Claimed(contexts, ctxs) && KeepsClaims(old(r), r)
    {
      var left := ctxs;
      ghost var done: set<Requests.CtxId> := {};
      while left != {}
        invariant Valid() && old(trace) <= trace && At(i, t) && left <= r.drained
        invariant done + left == ctxs && Claimed(contexts, done) && KeepsClaims(old(r), r)
        decreases left
      {
        ghost var before := contexts;
        var c :| c in left;
        left := left - {c};
        ghost var me := Role(Some(i), Some(|r.calls|), left);
        Act(Requests.CloseNext(c), me.(call := None));
        Yield(me, t);
        DoRsp(c, me, t);
        ClaimedToo(before, contexts, done, c);
        done := done + {c};
      }
    }

    /** innerClose(), by whichever thread: every context that is registered when event `at` swaps
        m_ctxs is claimed at the end. */
    method InnerClose(ghost i: nat, ghost t: Thread) returns (ghost at: nat, ghost taken: set<Requests.CtxId>)
      requires Valid() && CanClose(t) && !IsParkedThread(Closed(t)) && At(i, InClose(t, ToShut))
      modifies this, m_sem, m_waitSem
      ensures Valid() && old(trace) <= trace && At(i, Closed(t))
      ensures |old(trace)| <= at && Took(trace, initially, at, i, t, taken) && Claimed(contexts, taken)
      ensures KeepsClaims(old(r), r)
      ensures exists n: nat :: at < n && Clears(trace, initially, n, i, t)
    {
      Shut(i, t);
      NotifyClosing(i, t);
      at := |trace|;
      var ctxs := SwapCtxs(i, t);
      ghost var before := trace;
      ClearClosing(i, t, ctxs);
      ghost var cleared := trace;
      AnswerCtxs(ctxs, i, Closed(t));
      taken := ctxs;
      assert trace[..|before|] == cleared[..|before|] && trace[..|before| + 1] == cleared[..|before| + 1];
      assert Clears(trace, initially, |before|, i, t);
      DidStays(before, trace, initially, at, i, InClose(t, ToSwap));
    }

    // -------------------------------------------------------------- the fibers

    /** doRead() as long as `messages` last, one for each call of doRecv(): the number that the
        peer answers, or None for the end of the input or an exception.  True when it has ended,
        every context its innerClose() has swapped out is claimed and its token is back; false when
        it is still at the head of its loop. */
    method DoRead(i: nat, messages: seq<Option<Requests.Sn>>)
      returns (ended: bool, ghost at: nat, ghost taken: set<Requests.CtxId>)
      requires Valid() && At(i, Reader(RTest))
      modifies this, m_sem, m_waitSem
      ensures Valid() && old(trace) <= trace && At(i, if ended then Finished else Reader(RTest))
      ensures ended ==> |old(trace)| <= at && Took(trace, initially, at, i, Reader(RTest), taken)
      ensures ended ==> Claimed(contexts, taken)
      ensures if ended then MayStopReading(trace, initially, |old(trace)|, i, messages)
              else forall k :: 0 <= k < |messages| ==> messages[k].Some?
    {
      at, taken := 0, {};
      for round := 0 to |messages|
        invariant Valid() && old(trace) <= trace && At(i, Reader(RTest))
        invariant forall k :: 0 <= k < round ==> messages[k].Some?
      {
        var goesOn := ReadRound(i, messages, round, |old(trace)|);
        if !goesOn {
          ghost var before := trace;
          at, taken := LeaveRead(i);
          MayStopReadingStays(before, trace, initially, |old(trace)|, i, messages);
          return true, at, taken;
        }
      }
      ended := false;
    }

    /** One round: the connection test and one message. */
    method ReadRound(i: nat, messages: seq<Option<Requests.Sn>>, round: nat, ghost from: nat) returns (goesOn: bool)
      requires Valid() && At(i, Reader(RTest)) && round < |messages| && from <= |trace|
      modifies this, m_sem, m_waitSem
      ensures Valid() && old(trace) <= trace && At(i, Reader(if goesOn then RTest else RClosing(ToShut)))
      ensures if goesOn then messages[round].Some? else MayStopReading(trace, initially, from, i, messages)
    {
      var connected := TestConnected(i, Reader(RRecv), Reader(RClosing(ToShut)));
      if !connected {
        assert SawDown(trace, initially, from, i, Reader(RTest));
        return false;
      }
      ghost var before := trace;
      goesOn := Receive(i, messages[round]);
      if !goesOn {
        UnansweredStays(trace, trace, initially, |before|, from, messages[round]);
      }
    }

    /** doRecv() and doRsp(): false without a message, and when nobody is registered under its
        number; else the context that was is claimed at the end. */
    method Receive(i: nat, message: Option<Requests.Sn>) returns (received: bool)
      requires Valid() && At(i, Reader(RRecv))
      modifies this, m_sem, m_waitSem
      ensures Valid() && old(trace) <= trace && At(i, Reader(if received then RTest else RClosing(ToShut)))
      ensures received <==> message.Some? && message.value in old(m_ctxs)
      ensures message.Some? ==> old(trace) + [Request(Requests.Response(message.value))] <= trace
      ensures received ==> Claimed(contexts, {old(m_ctxs)[message.value]})
      ensures !received ==> Unanswered(trace, initially, |old(trace)|, message)
    {
      ghost var before := trace;
      received := false;
      if message.Some? {
        ghost var k := |r.calls|;
        var c := GetAndDelCtx(message.value, i);
        if c.Some? {
          Respond(i, c.value, k);
          received := true;
        }
      }
      if !received {
        Finish(i, Failure, Reader(RClosing(ToShut)));
        assert trace[..|before|] == before;
        assert message.Some? ==> UnknownAt(trace, initially, |before|, message.value);
      }
    }

    method Respond(i: nat, c: Requests.CtxId, ghost k: nat)
      requires Valid() && At(i, Reader(RRecv)) && k < |r.calls| && r.calls[k] == Requests.Load(c)
      modifies this, m_sem, m_waitSem
      ensures Valid() && old(trace) <= trace && At(i, Reader(RTest)) && Claimed(contexts, {c})
    {
      ghost var me := Role(Some(i), Some(k), {});
      Yield(me, Reader(RRecv));
      DoRsp(c, me, Reader(RRecv));
      ghost var before := contexts;
      Finish(i, Success, Reader(RTest));
      assert StayClaimed(before, contexts);
    }

    method LeaveRead(ghost i: nat) returns (ghost at: nat, ghost taken: set<Requests.CtxId>)
      requires Valid() && At(i, Reader(RClosing(ToShut)))
      modifies this, m_sem, m_waitSem
      ensures Valid() && old(trace) <= trace && At(i, Finished)
      ensures |old(trace)| <= at && Took(trace, initially, at, i, Reader(RTest), taken) && Claimed(contexts, taken)
    {
      at, taken := InnerClose(i, Reader(RTest));
      ghost var before, was := trace, contexts;
      ReturnToken(i, Finished);
      DidStays(before, trace, initially, at, i, Reader(RClosing(ToSwap)));
      ClaimsStay(was, contexts, taken);
    }

    /** m_sem.wait() of doWrite() */
    method WaitForSends(i: nat) returns (runs: bool)
      requires Valid() && At(i, Writer(WWait, []))
      modifies this, m_sem, m_waitSem
      ensures Valid() && old(trace) <= trace && At(i, Writer(if runs then WSwap else WParked, []))
      ensures KeepsClaims(old(r), r) && s.sent == old(s.sent)
    {
      var parked := m_sem.Wait(i);
      Step(Go(i, Success));
      runs := Others(Role(Some(i), None, {}), parked);
    }

    /** m_queue.swap(ctxs) of doWrite() */
    method SwapQueue(ghost i: nat) returns (batch: seq<Item>)
      requires Valid() && At(i, Writer(WSwap, []))
      modifies this, m_sem, m_waitSem
      ensures Valid() && old(trace) <= trace && At(i, Writer(WSend, batch)) && batch == old(m_queue)
      ensures KeepsClaims(old(r), r) && s.sent == old(s.sent)
      ensures Stepped(trace, initially, |old(trace)|, i, Success, old(s))
    {
      batch := m_queue;
      m_queue := [];
      Finish(i, Success, Writer(WSend, batch));
    }

    /** doSend() for one item after the other; `answer` tells how the n-th one comes out, and only
        the first that does not succeed counts.  True on an exception.  On a refusal innerClose()
        runs, and every context that is registered when event `at` swaps m_ctxs is claimed. */
    method SendBatch(batch: seq<Item>, answer: nat -> Outcome, ghost i: nat)
      returns (caught: bool, ghost at: nat, ghost taken: set<Requests.CtxId>)
      requires Valid() && At(i, Writer(WSend, batch))
      modifies this, m_sem, m_waitSem
      ensures Valid() && old(trace) <= trace && At(i, Writer(if caught then WClear else WTest, []))
      ensures caught <==> Ending(answer, 0, |batch|).Throw?
      ensures Ending(answer, 0, |batch|).Failure? ==>
                Swept(trace, initially, contexts, i, |old(trace)|, [Sweep(at, taken)])
      ensures caught ==> HasThrown(trace, initially, |old(trace)|, i)
      ensures Ending(answer, 0, |batch|).Success? ==> s.sent == old(s.sent) + batch
      ensures KeepsClaims(old(r), r)
    {
      caught, at, taken := false, 0, {};
      for n := 0 to |batch|
        invariant Valid() && old(trace) <= trace && At(i, Writer(WSend, batch[n..])) && KeepsClaims(old(r), r)
        invariant Ending(answer, 0, |batch|) == Ending(answer, n, |batch|) && s.sent == old(s.sent) + batch[..n]
      {
        ghost var before := trace;
        SendItem(batch[n], answer(n), i, batch[n + 1..]);
        if !answer(n).Success? {
          if answer(n).Throw? {
            HasThrownStays(trace, trace, initially, |before|, |old(trace)|, i);
          }
          if answer(n).Failure? {
            at, taken := InnerClose(i, Writer(WTest, []));
          }
          return answer(n).Throw?, at, taken;
        }
      }
      Finish(i, Success, Writer(WTest, []));
    }

    method SendItem(item: Item, outcome: Outcome, ghost i: nat, ghost rest: seq<Item>)
      requires Valid() && At(i, Writer(WSend, [item] + rest))
      modifies this, m_sem, m_waitSem
      ensures Valid() && old(trace) <= trace && KeepsClaims(old(r), r)
      ensures s.sent == old(s.sent) + if outcome.Success? then [item] else []
      ensures outcome.Throw? ==> HasThrown(trace, initially, |old(trace)|, i)
      ensures At(i, match outcome case Success => Writer(WSend, rest)
                                  case Failure => Writer(WClosing(ToShut), [])
                                  case Throw => Writer(WClear, []))
    {
      assert ([item] + rest)[1..] == rest;
      Finish(i, outcome, match outcome case Success => Writer(WSend, rest)
                                       case Failure => Writer(WClosing(ToShut), [])
                                       case Throw => Writer(WClear, []));
    }

    method LeaveWrite(ghost i: nat)
      requires Valid() && At(i, Writer(WClear, []))
      modifies this, m_sem, m_waitSem
      ensures Valid() && old(trace) <= trace && At(i, Finished) && KeepsClaims(old(r), r)
    {
      m_queue := [];
      Finish(i, Success, Writer(WReturn, []));
      ReturnToken(i, Finished);
    }

    /** doWrite() over at most so many rounds; `answer(round)(n)` is how the n-th send of a round
        comes out.  True when it has ended and its token is back, and then it has found the
        connection down or caught an exception; false when it is parked on m_sem or, after all the
        rounds, at the head of its loop.  Every round that went on has swapped a batch, and when
        every send succeeds exactly these have been sent. */
    method DoWrite(i: nat, rounds: nat, answer: nat -> nat -> Outcome) returns (ended: bool, ghost done: Work)
      requires Valid() && At(i, Writer(WTest, []))
      modifies this, m_sem, m_waitSem
      ensures Valid() && old(trace) <= trace
      ensures if ended then At(i, Finished) else At(i, Writer(WTest, [])) || At(i, Writer(WParked, []))
      ensures Worked(trace, initially, contexts, i, |old(trace)|, done)
      ensures ended ==> MayLeave(trace, initially, |old(trace)|, i)
      ensures !ended && At(i, Writer(WTest, [])) ==> |done.batches| == rounds
      ensures !ended && AlwaysSucceed(answer) ==>
                s.sent == old(s.sent) + Joined(done.batches)
    {
      ended, done := false, Work([], []);
      for round := 0 to rounds
        invariant Valid() && old(trace) <= trace && At(i, Writer(WTest, []))
        invariant Worked(trace, initially, contexts, i, |old(trace)|, done) && |done.batches| == round
        invariant AlwaysSucceed(answer) ==> s.sent == old(s.sent) + Joined(done.batches)
      {
        ghost var before := |trace|;
        var goesOn;
        goesOn, ended, done := WriteRound(i, answer(round), |old(trace)|, done);
        if !goesOn {
          if ended { MayLeaveStays(trace, trace, initially, before, |old(trace)|, i); }
          return;
        }
      }
      ended := false;
    }

    /** One round and, after the last, the end of doWrite(). */
    method WriteRound(i: nat, answer: nat -> Outcome, ghost from: nat, ghost done: Work)
      returns (goesOn: bool, ended: bool, ghost all: Work)
      requires Valid() && At(i, Writer(WTest, [])) && from <= |trace|
      requires Worked(trace, initially, contexts, i, from, done)
      modifies this, m_sem, m_waitSem
      ensures Valid() && old(trace) <= trace && Worked(trace, initially, contexts, i, from, all)
      ensures At(i, if goesOn then Writer(WTest, []) else if ended then Finished else Writer(WParked, []))
      ensures ended ==> MayLeave(trace, initially, |old(trace)|, i)
      ensures goesOn ==> WorksOn(old(s).sent, s.sent, done, all, answer)
      ensures !goesOn && !ended ==> s.sent == old(s.sent) && all.batches == done.batches
    {
      ghost var before, was := trace, contexts;
      var connected := TestConnected(i, Writer(WWait, []), Writer(WClear, []));
      WorkedStays(before, trace, initially, was, contexts, i, from, done);
      goesOn, ended, all := false, !connected, done;
      if connected {
        goesOn, ended, all := SendQueued(i, answer, from, done, |before|);
      } else {
        assert SawDown(trace, initially, |before|, i, Writer(WTest, []));
      }
      if ended {
        EndWrite(i, from, all, |before|);
      }
    }

    method EndWrite(ghost i: nat, ghost from: nat, ghost done: Work, ghost start: nat)
      requires Valid() && At(i, Writer(WClear, [])) && Worked(trace, initially, contexts, i, from, done)
      requires MayLeave(trace, initially, start, i)
      modifies this, m_sem, m_waitSem
      ensures Valid() && old(trace) <= trace && At(i, Finished)
      ensures Worked(trace, initially, contexts, i, from, done) && MayLeave(trace, initially, start, i)
    {
      ghost var before, was := trace, contexts;
      LeaveWrite(i);
      WorkedStays(before, trace, initially, was, contexts, i, from, done);
      MayLeaveStays(before, trace, initially, start, start, i);
    }

    /** The body of the loop; it does not run on when the fiber stays parked. */
    method SendQueued(i: nat, answer: nat -> Outcome, ghost from: nat, ghost done: Work, ghost start: nat)
      returns (goesOn: bool, caught: bool, ghost all: Work)
      requires Valid() && At(i, Writer(WWait, [])) && from <= |trace| && start <= |trace|
      requires Worked(trace, initially, contexts, i, from, done)
      modifies this, m_sem, m_waitSem
      ensures Valid() && old(trace) <= trace && Worked(trace, initially, contexts, i, from, all)
      ensures At(i, Writer(if caught then WClear else if goesOn then WTest else WParked, [])) && !(goesOn && caught)
      ensures caught ==> MayLeave(trace, initially, start, i)
      ensures goesOn ==> WorksOn(old(s).sent, s.sent, done, all, answer)
      ensures !goesOn && !caught ==> s.sent == old(s.sent) && all.batches == done.batches
    {
      ghost var before, was := trace, contexts;
      caught, all := false, done;
      goesOn := WaitForSends(i);
      WorkedStays(before, trace, initially, was, contexts, i, from, done);
      if goesOn {
        caught, all := SwapAndSend(i, answer, from, done, start);
        goesOn := !caught;
      }
    }

    /** The swap, which is the next event, and the sends. */
    method SwapAndSend(i: nat, answer: nat -> Outcome, ghost from: nat, ghost done: Work, ghost start: nat)
      returns (caught: bool, ghost all: Work)
      requires Valid() && At(i, Writer(WSwap, [])) && from <= |trace| && start <= |trace|
      requires Worked(trace, initially, contexts, i, from, done)
      modifies this, m_sem, m_waitSem
      ensures Valid() && old(trace) <= trace && Worked(trace, initially, contexts, i, from, all)
      ensures At(i, Writer(if caught then WClear else WTest, []))
      ensures caught ==> MayLeave(trace, initially, start, i)
      ensures !caught ==> WorksOn(old(s).sent, s.sent, done, all, answer)
    {
      ghost var before, was := trace, contexts;
      var batch := SwapQueue(i);
      ghost var swapped, at, taken := trace, 0, {};
      caught, at, taken := SendBatch(batch, answer, i);
      if AllSucceed(answer) { SuccessEnds(answer, 0, |batch|); }
      if caught { HasThrownStays(trace, trace, initially, |swapped|, start, i); }
      SteppedStays(swapped, trace, initially, |before|, i, Success, old(s));
      WorkedStays(before, trace, initially, was, contexts, i, from, done);
      all := Work(done.sweeps, done.batches + [Batch(|before|, batch)]);
      if Ending(answer, 0, |batch|).Failure? {
        all := all.(sweeps := done.sweeps + [Sweep(at, taken)]);
      }
    }

    // -------------------------------------------------------------- the callers

    /** A call of start() appears as a new thread. */
    ghost method CallStart() returns (i: nat)
      requires Valid()
      modifies this`s, this`trace
      ensures Valid() && old(trace) <= trace
      ensures At(i, Thread.Start(Wait1)) && s == Apply(old(s), AsyncStreams.CallStart)
    {
      i := |s.threads|;
      Step(AsyncStreams.CallStart);
    }

    /** From event `from` on, thread i has scheduled doRead() and then doWrite(). */
    ghost predicate HasSpawned(from: nat, i: nat)
      reads this
    {
      exists n: nat, m: nat ::
        from <= n < m
        && Did(trace, initially, n, i, Thread.Start(SpawnRead)) && Did(trace, initially, m, i, Thread.Start(SpawnWrite))
    }

    /** From event `from` on, thread i has run innerClose(), and what it took is claimed. */
    ghost predicate HasClosed(from: nat, i: nat)
      reads this
    {
      exists at: nat, taken: set<Requests.CtxId> ::
        from <= at && Took(trace, initially, at, i, Thread.Start(Check), taken) && Claimed(contexts, taken)
    }

    /** start() on fiber i: None when the run ends with the fiber waiting, otherwise the result.
        Both tokens are back, or have gone to the reader and the writer.  `reconnects` and `accepts`
        are how reconnect() and the connect callback come out. */
    method Start(i: nat, reconnects: bool, accepts: bool) returns (started: Option<bool>)
      requires Valid() && At(i, Thread.Start(Wait1))
      modifies this, m_sem, m_waitSem
      ensures Valid() && old(trace) <= trace && i < |s.threads|
      ensures if started.None? then IsParkedStart(s.threads[i]) else At(i, Finished)
      ensures started == Some(true) ==> HasSpawned(|old(trace)|, i)
      ensures started == Some(false) ==> HasClosed(|old(trace)|, i)
      ensures started.Some? ==> Connected(trace, initially, |old(trace)|, i, reconnects, accepts, started.value)
    {
      var runs := WaitFiber(i);
      if !runs {
        return None;
      }
      ghost var from := |trace|;
      var ok := Connect(i, reconnects, accepts);
      ghost var before := trace;
      if ok {
        ghost var n, m := StartFibers(i);
      } else {
        ghost var at, taken := GiveUp(i);
      }
      ConnectedStays(before, trace, initially, from, |old(trace)|, i, reconnects, accepts, ok);
      started := Some(ok);
    }

    /** waitFiber() */
    method WaitFiber(i: nat) returns (runs: bool)
      requires Valid() && At(i, Thread.Start(Wait1))
      modifies this, m_sem, m_waitSem
      ensures Valid() && old(trace) <= trace && i < |s.threads|
      ensures if runs then At(i, Thread.Start(Check)) else IsParkedStart(s.threads[i])
    {
      runs := WaitToken(i, Thread.Start(Wait2), Thread.Start(Parked1));
      if runs {
        runs := WaitToken(i, Thread.Start(Check), Thread.Start(Parked2));
      }
    }

    /** startRead() and startWrite(), events n and m. */
    method StartFibers(ghost i: nat) returns (ghost n: nat, ghost m: nat)
      requires Valid() && At(i, Thread.Start(SpawnRead))
      modifies this, m_sem, m_waitSem
      ensures Valid() && old(trace) <= trace && At(i, Finished)
      ensures |old(trace)| <= n < m && Did(trace, initially, n, i, Thread.Start(SpawnRead))
      ensures Did(trace, initially, m, i, Thread.Start(SpawnWrite))
    {
      n := Spawn(i, Thread.Start(SpawnWrite));
      ghost var before := trace;
      m := Spawn(i, Finished);
      DidStays(before, trace, initially, n, i, Thread.Start(SpawnRead));
    }

    /** Scheduling doRead() or doWrite(). */
    method Spawn(ghost i: nat, ghost next: Thread) returns (ghost n: nat)
      requires Valid() && i < |s.threads|
      requires (s.threads[i], next) in {(Thread.Start(SpawnRead), Thread.Start(SpawnWrite)),
                                        (Thread.Start(SpawnWrite), Finished)}
      modifies this, m_sem, m_waitSem
      ensures Valid() && old(trace) <= trace && At(i, next)
      ensures n == |old(trace)| < |trace| && Did(trace, initially, n, i, old(s).threads[i])
    {
      n := |trace|;
      ghost var before := trace;
      Finish(i, Success, next);
      assert trace[..n] == before;
    }

    method GiveUp(ghost i: nat) returns (ghost at: nat, ghost taken: set<Requests.CtxId>)
      requires Valid() && At(i, Thread.Start(Closing(ToShut)))
      modifies this, m_sem, m_waitSem
      ensures Valid() && old(trace) <= trace && At(i, Finished)
      ensures |old(trace)| <= at && Took(trace, initially, at, i, Thread.Start(Check), taken)
      ensures Claimed(contexts, taken)
    {
      at, taken := InnerClose(i, Thread.Start(Check));
      ghost var before, was := trace, contexts;
      ReturnToken(i, Thread.Start(Return2));
      ReturnToken(i, Finished);
      DidStays(before, trace, initially, at, i, Thread.Start(Closing(ToSwap)));
      ClaimsStay(was, contexts, taken);
    }

    /** The connection test, reconnect() and the connect callback, which may fail. */
    method Connect(ghost i: nat, reconnects: bool, accepts: bool) returns (ok: bool)
      requires Valid() && At(i, Thread.Start(Check))
      modifies this, m_sem, m_waitSem
      ensures Valid() && old(trace) <= trace && At(i, Thread.Start(if ok then SpawnRead else Closing(ToShut)))
      ensures Connected(trace, initially, |old(trace)|, i, reconnects, accepts, ok)
    {
      ghost var from := |trace|;
      var connected := TestConnected(i, Thread.Start(Callback), Thread.Start(StartPc.Reconnect));
      ghost var up, tested := connected, trace;
      assert Tested(trace, initially, from, i, up);
      assert connected ==> ArrivesUp(trace, initially, from, i);
      if !connected {
        connected := Reconnect(i, reconnects);
        ArrivalStays(tested, trace, initially, from, i, up);
        if !connected {
          return false;
        }
      }
      ghost var arrived := trace;
      ok := CallBack(i, accepts);
      ArrivalStays(arrived, trace, initially, from, i, up);
      CameUpStays(arrived, trace, initially, from, i);
    }

    /** The connect callback; true as well when there is none. */
    method CallBack(ghost i: nat, accepts: bool) returns (ok: bool)
      requires Valid() && At(i, Thread.Start(Callback))
      modifies this, m_sem, m_waitSem
      ensures Valid() && old(trace) <= trace && At(i, Thread.Start(if ok then SpawnRead else Closing(ToShut)))
      ensures ok == accepts
    {
      ok := accepts;
      Finish(i, if ok then Success else Failure, Thread.Start(if ok then SpawnRead else Closing(ToShut)));
    }

    method Reconnect(ghost i: nat, reconnects: bool) returns (ok: bool)
      requires Valid() && At(i, Thread.Start(StartPc.Reconnect))
      modifies this, m_sem, m_waitSem
      ensures Valid() && old(trace) <= trace && At(i, Thread.Start(if ok then Callback else Closing(ToShut)))
      ensures ok == reconnects && (ok ==> ArrivesUp(trace, initially, |old(trace)|, i))
    {
      ok := reconnects;
      m_connected := ok;
      Finish(i, if ok then Success else Failure, Thread.Start(if ok then Callback else Closing(ToShut)));
    }

    /** enqueue(): the item goes in under the lock, and who found the queue empty notifies. */
    method Enqueue(item: Item) returns (empty: bool)
      requires Valid()
      modifies this, m_sem, m_waitSem
      ensures Valid() && old(trace) + [Event.Thread(AsyncStreams.Enqueue(item))] <= trace
      ensures empty == (old(m_queue) == []) && At(|old(s.threads)|, Finished)
      ensures empty <==> exists n: nat :: |old(trace)| <= n && Did(trace, initially, n, |old(s.threads)|, Sender)
    {
      ghost var before := trace;
      ghost var i := |s.threads|;
      empty := Push(item);
      if empty {
        Yield(Role(Some(i), None, {}), Sender);
        ghost var pushed := trace;
        var woken := m_sem.Notify();
        Finish(i, Success, Finished);
        assert Did(trace, initially, |pushed|, i, Sender);
      } else {
        assert trace[..|before|] == before;
      }
    }

    /** The locked part of enqueue(). */
    method Push(item: Item) returns (empty: bool)
      requires Valid()
      modifies this`m_queue, this`s, this`trace
      ensures Valid() && trace == old(trace) + [Event.Thread(AsyncStreams.Enqueue(item))]
      ensures m_queue == old(m_queue) + [item] && s.hist == old(s.hist) + [item]
      ensures empty == (old(m_queue) == []) && At(|old(s.threads)|, if empty then Sender else Finished)
    {
      empty := m_queue == [];
      m_queue := m_queue + [item];
      Step(AsyncStreams.Enqueue(item));
    }

    /** close() by the user */
    method Close()
      requires Valid()
      modifies this`m_connected, this`s, this`trace
      ensures Valid() && old(trace) <= trace && s == Apply(old(s), UserClose)
    {
      m_connected := false;
      Step(UserClose);
    }
  }

  predicate IsParkedThread(t: Thread) { IsParkedStart(t) || IsParkedWriter(t) }

  /** Whatever has been called and however the threads interleaved: the tokens add up, a
      non-empty queue has its wakeup on the way, what was sent is an in-order part of what was
      accepted, and no request has woken its fiber twice. */
  lemma AtEveryPoint(stream: AsyncSocketStream)
    requires stream.Valid()
    ensures stream.m_waitSem.m_count + Sum(Tokens, stream.s.threads) == 2
    ensures stream.m_queue != [] && stream.m_sem.m_count == 0 ==>
              exists i :: 0 <= i < |stream.s.threads| && (stream.s.threads[i].Sender? ||
                (stream.s.threads[i].Writer? && stream.s.threads[i].wpc.WSwap?))
    ensures Within(stream.s.sent + InHand(stream.s.threads) + stream.m_queue, stream.s.hist)
    ensures forall c :: 0 <= c < |stream.contexts| ==> stream.contexts[c].wakes <= 1
  {
    AfterReachable(stream.initially, stream.trace);
    ReachableInv(stream.s);
    AfterKeepsWake(Initially(stream.initially), stream.trace);
    forall c | 0 <= c < |stream.contexts| ensures stream.contexts[c].wakes <= 1 {
      assert Requests.OneWakeup(stream.r, c);
    }
  }

  /** Of the object at rest: if requests were added in good order, every one has scheduled its
      fiber exactly once, and none is registered. */
  lemma AtRestAllAnswered(stream: AsyncSocketStream)
    requires stream.Valid() && AtRest(Joint(stream.s, stream.r))
    requires NoPeek(stream.trace) && AllOrderly(Initially(stream.initially), stream.trace)
    ensures stream.m_ctxs == map[]
    ensures forall c :: 0 <= c < |stream.contexts| ==> stream.contexts[c].wakes == 1
  {
    AfterKeepsCared(Initially(stream.initially), stream.trace);
    forall c | 0 <= c < |stream.contexts| ensures stream.contexts[c].wakes == 1 {
      EveryRequestAnswered(stream.initially, stream.trace, c);
    }
  }
}

/** Whether a waiting request is answered depends on both sides: the threads of the stream and
    the contexts in m_ctxs.  Here the two transition systems run together: the swap of
    innerClose() is one step of both, and a response comes from a reader in doRecv(). */
module AsyncDeliveries {
  import opened AsyncStreams
  import opened AsyncStreamTheorems
  import opened AsyncStreamCloses
  import Requests = RequestWaiters

  datatype Joint = Joint(s: State, r: Requests.State)

  datatype Event =
    | Thread(step: Step)
    | Request(act: Requests.Step)

  function Initially(connected: bool): Joint { Joint(Init(connected), Requests.INIT) }

  ghost predicate SomebodyReceives(s: State) {
    exists i :: 0 <= i < |s.threads| && s.threads[i] == Reader(RRecv)
  }

  /** m_ctxs is swapped by innerClose() only, and responses are read by doRecv() only. */
  ghost predicate CanHappen(j: Joint, e: Event) {
    e.Request? ==> !e.act.Close? && (e.act.Response? ==> SomebodyReceives(j.s))
  }

  ghost function Happen(j: Joint, e: Event): Joint {
    if !CanHappen(j, e) then j
    else
      match e
      case Thread(step) =>
        Joint(Apply(j.s, step), if Swaps(j.s, step) then Requests.Apply(j.r, Requests.Close) else j.r)
      case Request(act) => Joint(j.s, Requests.Apply(j.r, act))
  }

  ghost function AfterAll(j: Joint, events: seq<Event>): Joint
    decreases |events|
  {
    if events == [] then j else AfterAll(Happen(j, events[0]), events[1..])
  }

  lemma {:induction false} AfterOn(j: Joint, events: seq<Event>, e: Event)
    ensures AfterAll(j, events + [e]) == Happen(AfterAll(j, events), e)
    decreases |events|
  {
    if events == [] {
      assert AfterAll(Happen(j, e), []) == Happen(j, e) && [e][1..] == [];
    } else {
      assert (events + [e])[1..] == events[1..] + [e];
      AfterOn(Happen(j, events[0]), events[1..], e);
    }
  }

  /** The stream's side of a joint run is a run of the stream. */
  lemma {:induction false} StreamSteps(j: Joint, events: seq<Event>) returns (steps: seq<Step>)
    ensures AfterAll(j, events).s == Run(j.s, steps)
    decreases |events|
  {
    if events == [] {
      return [];
    }
    steps := StreamSteps(Happen(j, events[0]), events[1..]);
    if events[0].Thread? {
      var all := [events[0].step] + steps;
      assert all[1..] == steps;
      steps := all;
    }
  }

  lemma AfterReachable(connected: bool, events: seq<Event>)
    ensures Reachable(AfterAll(Initially(connected), events).s)
  {
    var steps := StreamSteps(Initially(connected), events);
  }

  lemma {:induction false} AfterKeepsWake(j: Joint, events: seq<Event>)
    requires Requests.WakeInv(j.r)
    ensures Requests.WakeInv(AfterAll(j, events).r)
    decreases |events|
  {
    if events != [] {
      var e := events[0];
      Requests.StepKeepsWake(j.r, if e.Request? then e.act else Requests.Close);
      AfterKeepsWake(Happen(j, e), events[1..]);
    }
  }

  // ---------------------------------------------------------------- registered requests are found

  /** Whoever is registered will be found by a close, if by nobody before. */
  ghost predicate Attended(j: Joint) {
    j.r.m_ctxs != map[] ==> CloseComes(j.s)
  }

  lemma AttendedUnlessAbandoned(j: Joint, e: Event)
    requires Inv(j.s) && Attended(j)
    ensures Attended(Happen(j, e)) <==> (e.Request? && e.act.AddCtx? ==> CloseComes(j.s))
  {
    match e
    case Thread(step) => if CloseComes(j.s) && !Swaps(j.s, step) { CloseStillComes(j.s, step); }
    case Request(act) =>
      if act.AddCtx? {
        assert act.sn in Happen(j, e).r.m_ctxs;
      }
  }

  /** Every context that is not woken has somebody who will find it: a doRsp() call, a close that
      has taken it, or one that will. */
  ghost predicate Cared(j: Joint) {
    Requests.CoverInv(j.r) && Attended(j)
  }

  ghost predicate JointInv(j: Joint) {
    Inv(j.s) && Requests.WakeInv(j.r) && Requests.ListedInv(j.r)
  }

  /** What callers owe: a request is added while a close is sure to come, under a number that
      is not in use, and its timer does not outlive its entry. */
  ghost predicate Orderly(j: Joint, e: Event) {
    e.Request? ==> Requests.Clean(j.r, e.act) && (e.act.AddCtx? ==> CloseComes(j.s))
  }

  predicate IsPeek(e: Event) { e.Request? && e.act.Peek? }

  lemma HappenKeepsInv(j: Joint, e: Event)
    requires JointInv(j) && !IsPeek(e)
    ensures JointInv(Happen(j, e))
  {
    match e
    case Thread(step) =>
      StepKeepsInv(j.s, step);
      Requests.StepKeepsWake(j.r, Requests.Close);
      Requests.StepKeepsListed(j.r, Requests.Close);
    case Request(act) =>
      Requests.StepKeepsWake(j.r, act);
      Requests.StepKeepsListed(j.r, act);
  }

  lemma CoveredUnlessUnclean(j: Joint, e: Event)
    requires JointInv(j) && Requests.CoverInv(j.r) && CanHappen(j, e)
    ensures Requests.CoverInv(Happen(j, e).r) <==> (e.Request? ==> Requests.Clean(j.r, e.act))
  {
    var act := if e.Request? then e.act else Requests.Close;
    Requests.CoveredIffNobodyStranded(j.r, act);
    Requests.StrandsIffUnclean(j.r, act);
  }

  /** One event leaves every request cared for exactly when it is orderly. */
  lemma CaredIffOrderly(j: Joint, e: Event)
    requires JointInv(j) && Cared(j)
    ensures Cared(Happen(j, e)) <==> Orderly(j, e)
  {
    AttendedUnlessAbandoned(j, e);
    if CanHappen(j, e) {
      CoveredUnlessUnclean(j, e);
    }
  }

  ghost predicate AlwaysCared(j: Joint, events: seq<Event>)
    decreases |events|
  {
    Cared(j) && (events == [] || AlwaysCared(Happen(j, events[0]), events[1..]))
  }

  ghost predicate AllOrderly(j: Joint, events: seq<Event>)
    decreases |events|
  {
    events == [] || (Orderly(j, events[0]) && AllOrderly(Happen(j, events[0]), events[1..]))
  }

  predicate NoPeek(events: seq<Event>) {
    forall i :: 0 <= i < |events| ==> !IsPeek(events[i])
  }

  /** Over whole runs without getCtx(): no request is ever without somebody who will find it
      exactly when every event is orderly. */
  lemma {:induction false} AlwaysCaredIffOrderly(j: Joint, events: seq<Event>)
    requires JointInv(j) && Cared(j) && NoPeek(events)
    ensures AlwaysCared(j, events) <==> AllOrderly(j, events)
    decreases |events|
  {
    if events != [] {
      var e := events[0];
      CaredIffOrderly(j, e);
      HappenKeepsInv(j, e);
      if Orderly(j, e) {
        AlwaysCaredIffOrderly(Happen(j, e), events[1..]);
      }
    }
  }

  // ---------------------------------------------------------------- every request is answered

  /** No close comes any more, and nothing is in flight. */
  ghost predicate AtRest(j: Joint) {
    !CloseComes(j.s) && Requests.Quiescent(j.r)
  }

  lemma {:induction false} AfterKeepsCared(j: Joint, events: seq<Event>)
    requires JointInv(j) && Cared(j) && NoPeek(events) && AllOrderly(j, events)
    ensures JointInv(AfterAll(j, events)) && Cared(AfterAll(j, events))
    decreases |events|
  {
    if events != [] {
      CaredIffOrderly(j, events[0]);
      HappenKeepsInv(j, events[0]);
      AfterKeepsCared(Happen(j, events[0]), events[1..]);
    }
  }

  /** Once an orderly run has come to rest, every request has been woken exactly once and m_ctxs
      is empty. */
  lemma EveryRequestAnswered(connected: bool, events: seq<Event>, c: Requests.CtxId)
    requires NoPeek(events) && AllOrderly(Initially(connected), events)
    requires AtRest(AfterAll(Initially(connected), events)) && c < |AfterAll(Initially(connected), events).r.ctxs|
    ensures var r := AfterAll(Initially(connected), events).r; r.ctxs[c].wakes == 1 && r.m_ctxs == map[]
  {
    AfterKeepsCared(Initially(connected), events);
    Requests.CoveredAtRest(AfterAll(Initially(connected), events).r, c);
  }

  // ---------------------------------------------------------------- one request, exactly

  /** No timers and no getCtx() in what follows; start(), sends, closes and other requests as
      they like. */
  predicate Calm(events: seq<Event>) {
    forall i :: 0 <= i < |events| ==> IsCalm(events[i])
  }

  predicate IsCalm(e: Event) { e.Request? ==> !e.act.Peek? && !e.act.TimeOut? }

  /** Every thread has ended or is parked, and nothing is in flight. */
  ghost predicate Settled(j: Joint) {
    Still(j.s) && Requests.Quiescent(j.r)
  }

  predicate Woken(r: Requests.State, c: Requests.CtxId) {
    c < |r.ctxs| && r.ctxs[c].wakes == 1
  }

  /** Wherever the threads go from here, when they have come to a standstill c has been woken. */
  ghost predicate AlwaysAnswered(j: Joint, c: Requests.CtxId) {
    forall events: seq<Event> :: Calm(events) && Settled(AfterAll(j, events)) ==> Woken(AfterAll(j, events).r, c)
  }

  predicate Registered(r: Requests.State, c: Requests.CtxId) {
    c < |r.ctxs| && r.ctxs[c].sn in r.m_ctxs && r.m_ctxs[r.ctxs[c].sn] == c
  }

  /** c is woken, being answered, or registered with a close to come. */
  ghost predicate Kept(j: Joint, c: Requests.CtxId) {
    && Inv(j.s) && Requests.WakeInv(j.r) && c < |j.r.ctxs| && Requests.Covered(j.r, c)
    && (Registered(j.r, c) ==> CloseComes(j.s))
  }

  lemma CoveredWhenCalm(r: Requests.State, act: Requests.Step, c: Requests.CtxId)
    requires Requests.WakeInv(r) && c < |r.ctxs| && Requests.Covered(r, c) && !act.TimeOut?
    ensures Requests.Covered(Requests.Apply(r, act), c)
    ensures Registered(Requests.Apply(r, act), c) ==> Registered(r, c)
  {
    var r' := Requests.Apply(r, act);
    match act
    case Go(i) => if i < |r.calls| { Requests.CallKeepsCover(r, i, c); }
    case Close =>
      Requests.CallsKept(r, r', c);
      assert Registered(r, c) ==> c in r.m_ctxs.Values;
    case Response(sn) =>
      Requests.CallsKept(r, r', c);
      assert sn in r.m_ctxs ==> r'.calls[|r.calls|] == Requests.Load(r.m_ctxs[sn]);
    case CloseNext(d) =>
      Requests.CallsKept(r, r', c);
      assert d in r.drained ==> r'.calls[|r.calls|] == Requests.Load(d);
    case AddCtx(_) => Requests.CallsKept(r, r', c);
    case Peek(_) => Requests.CallsKept(r, r', c);
  }

  lemma StaysKept(j: Joint, e: Event, c: Requests.CtxId)
    requires Kept(j, c) && IsCalm(e)
    ensures Kept(Happen(j, e), c)
  {
    match e
    case Thread(step) =>
      StepKeepsInv(j.s, step);
      Requests.StepKeepsWake(j.r, Requests.Close);
      CoveredWhenCalm(j.r, Requests.Close, c);
      if CloseComes(j.s) && !Swaps(j.s, step) { CloseStillComes(j.s, step); }
    case Request(act) =>
      Requests.StepKeepsWake(j.r, act);
      CoveredWhenCalm(j.r, act, c);
  }

  lemma {:induction false} KeptIsWoken(j: Joint, events: seq<Event>, c: Requests.CtxId)
    requires Kept(j, c) && Calm(events) && Settled(AfterAll(j, events))
    ensures Woken(AfterAll(j, events).r, c)
    decreases |events|
  {
    if events == [] {
      StillHasNoClose(j.s);
      Requests.CoveredAtRest(j.r, c);
    } else {
      assert IsCalm(events[0]);
      StaysKept(j, events[0], c);
      KeptIsWoken(Happen(j, events[0]), events[1..], c);
    }
  }

  function Threads(steps: seq<Step>): seq<Event> {
    if steps == [] then [] else [Thread(steps[0])] + Threads(steps[1..])
  }

  function Acts(steps: seq<Requests.Step>): seq<Event> {
    if steps == [] then [] else [Request(steps[0])] + Acts(steps[1..])
  }

  lemma {:induction false} ThreadsRun(j: Joint, steps: seq<Step>)
    requires NeverSwaps(j.s, steps)
    ensures AfterAll(j, Threads(steps)) == Joint(Run(j.s, steps), j.r) && Calm(Threads(steps))
    decreases |steps|
  {
    if steps != [] {
      assert Threads(steps)[1..] == Threads(steps[1..]);
      ThreadsRun(Happen(j, Thread(steps[0])), steps[1..]);
    }
  }

  /** Nothing that is in flight concerns c, which has not been woken. */
  ghost predicate Unwoken(r: Requests.State, c: Requests.CtxId) {
    c < |r.ctxs| && r.ctxs[c].wakes == 0 && c !in r.drained && Requests.Unnamed(r.calls, c)
  }

  lemma {:induction false} WorkRuns(j: Joint, steps: seq<Requests.Step>, c: Requests.CtxId)
    requires Requests.AllWork(j.r, steps) && Unwoken(j.r, c)
    ensures AfterAll(j, Acts(steps)) == Joint(j.s, Requests.Run(j.r, steps)) && Calm(Acts(steps))
    ensures Unwoken(Requests.Run(j.r, steps), c)
    decreases |steps|
  {
    if steps != [] {
      assert Acts(steps)[1..] == Acts(steps[1..]);
      WorkRuns(Happen(j, Request(steps[0])), steps[1..], c);
    }
  }

  lemma {:induction false} AfterBoth(j: Joint, a: seq<Event>, b: seq<Event>)
    ensures AfterAll(j, a + b) == AfterAll(AfterAll(j, a), b)
    decreases |a|
  {
    if a == [] {
      assert a + b == b;
    } else {
      assert (a + b)[1..] == a[1..] + b;
      AfterBoth(Happen(j, a[0]), a[1..], b);
    }
  }

  /** Without a close to come everything can end with c unwoken. */
  lemma CanBeLost(j: Joint, c: Requests.CtxId) returns (events: seq<Event>)
    requires Inv(j.s) && Requests.WakeInv(j.r) && !CloseComes(j.s) && Unwoken(j.r, c)
    ensures Calm(events) && Settled(AfterAll(j, events)) && !Woken(AfterAll(j, events).r, c)
  {
    var steps := Avoid(j.s);
    ThreadsRun(j, steps);
    var work := Requests.RacesEnd(j.r);
    WorkRuns(Joint(Run(j.s, steps), j.r), work, c);
    events := Threads(steps) + Acts(work);
    AfterBoth(j, Threads(steps), Acts(work));
  }

  /** A request added under a free number is answered whatever happens, without timers and
      getCtx(), exactly when a close is sure to come when it is added. */
  lemma AnsweredIffCloseComes(j: Joint, sn: Requests.Sn)
    requires JointInv(j) && sn !in j.r.m_ctxs
    ensures AlwaysAnswered(Happen(j, Request(Requests.AddCtx(sn))), |j.r.ctxs|) <==> CloseComes(j.s)
  {
    var j', c := Happen(j, Request(Requests.AddCtx(sn))), |j.r.ctxs|;
    Requests.StepKeepsWake(j.r, Requests.AddCtx(sn));
    if CloseComes(j.s) {
      forall events: seq<Event> | Calm(events) && Settled(AfterAll(j', events))
        ensures Woken(AfterAll(j', events).r, c)
      {
        KeptIsWoken(j', events, c);
      }
    } else {
      AddedUnwoken(j.r, sn);
      var events := CanBeLost(j', c);
    }
  }

  lemma AddedUnwoken(r: Requests.State, sn: Requests.Sn)
    requires Requests.WakeInv(r)
    ensures Unwoken(Requests.Apply(r, Requests.AddCtx(sn)), |r.ctxs|)
  {
    Requests.NewIsUnnamed(r);
  }

  // ---------------------------------------------------------------- too late

  /** A thread that does not receive, and neither closes nor schedules one that does. */
  predicate IsOut(t: Thread) {
    match t
    case Sender => true
    case Finished => true
    case Writer(pc, _) => pc.WClear? || pc.WReturn?
    case _ => false
  }

  ghost predicate AllOut(s: State) {
    forall i :: 0 <= i < |s.threads| ==> IsOut(s.threads[i])
  }

  /** Nobody is going to wake c. */
  ghost predicate Lost(j: Joint, c: Requests.CtxId) {
    AllOut(j.s) && Unwoken(j.r, c)
  }

  /** Neither start(), nor a timer of c, nor getCtx(). */
  predicate LeavesAlone(e: Event, c: Requests.CtxId) {
    match e
    case Thread(step) => !step.CallStart?
    case Request(act) => !act.Peek? && (act.TimeOut? ==> act.c != c)
  }

  predicate AllLeaveAlone(events: seq<Event>, c: Requests.CtxId) {
    forall i :: 0 <= i < |events| ==> LeavesAlone(events[i], c)
  }

  lemma OutStaysOut(s: State, step: Step)
    requires AllOut(s) && !step.CallStart?
    ensures AllOut(Apply(s, step))
  {
    if step.Go? && step.i < |s.threads| {
      assert IsOut(s.threads[step.i]);
      forall k | 0 <= k < |s.threads| ensures IsOut(Apply(s, step).threads[k]) {
        if k != step.i {
          OthersKeepThread(s, step, k);
          assert IsOut(s.threads[k]);
        }
      }
    }
  }

  lemma LostStaysLost(j: Joint, e: Event, c: Requests.CtxId)
    requires Lost(j, c) && LeavesAlone(e, c)
    ensures Lost(Happen(j, e), c)
  {
    match e
    case Thread(step) =>
      OutStaysOut(j.s, step);
      assert step.Go? && step.i < |j.s.threads| ==> IsOut(j.s.threads[step.i]);
    case Request(act) =>
  }

  lemma {:induction false} LostForever(j: Joint, events: seq<Event>, c: Requests.CtxId)
    requires Lost(j, c) && AllLeaveAlone(events, c)
    ensures Lost(AfterAll(j, events), c)
    decreases |events|
  {
    if events != [] {
      LostStaysLost(j, events[0], c);
      LostForever(Happen(j, events[0]), events[1..], c);
    }
  }

  /** A request added, in good order otherwise, when every thread has swapped or ended: without a
      timer of its own or a later start() nobody ever wakes it. */
  lemma {:induction false} LateRequestIsLost(j: Joint, sn: Requests.Sn, events: seq<Event>)
    requires Requests.WakeInv(j.r) && AllOut(j.s) && AllLeaveAlone(events, |j.r.ctxs|)
    ensures var r := AfterAll(Happen(j, Request(Requests.AddCtx(sn))), events).r;
            |j.r.ctxs| < |r.ctxs| && r.ctxs[|j.r.ctxs|].wakes == 0
  {
    var c := |j.r.ctxs|;
    AddedUnwoken(j.r, sn);
    LostForever(Happen(j, Request(Requests.AddCtx(sn))), events, c);
  }
}

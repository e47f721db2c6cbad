/** Request contexts and their waiters: a context added to m_ctxs is handed to doRsp() by a
    response, a timeout or a close, and doRsp() wakes the waiting fiber through a load and a
    compare-and-swap on `scheduler`.  The load, the CAS and the schedule are separate steps,
    and any number of doRsp() calls race. */
module RequestWaiters {
  import opened Counting

  type Sn = nat
  type CtxId = nat

  /** A context whose fiber was set before addCtx(): the scheduler field is non-null until a
      CAS clears it, and wakes counts the times the fiber has been scheduled. */
  datatype Ctx = Ctx(sn: Sn, scheduler: bool, wakes: nat)

  /** A doRsp() call: about to load, holding the loaded pointer, past a successful CAS. */
  datatype Rsp =
    | Load(c: CtxId)
    | Cas(c: CtxId, loaded: bool)
    | Schedule(c: CtxId)
    | Done

  /** `drained` are the contexts that a close swapped out of m_ctxs and has not reached yet. */
  datatype State = State(
    ctxs: seq<Ctx>,
    m_ctxs: map<Sn, CtxId>,
    drained: set<CtxId>,
    calls: seq<Rsp>)

  datatype Step =
    | AddCtx(sn: Sn)
    | Response(sn: Sn)
    | TimeOut(c: CtxId)
    | Close
    | CloseNext(c: CtxId)
    | Peek(sn: Sn)
    | Go(i: nat)

  const INIT := State([], map[], {}, [])

  function StepCall(s: State, i: nat): State
    requires i < |s.calls|
  {
    match s.calls[i]
    case Load(c) =>
      if c < |s.ctxs| then s.(calls := s.calls[i := Cas(c, s.ctxs[c].scheduler)]) else s
    case Cas(c, loaded) =>
      if c >= |s.ctxs| then s
      else if s.ctxs[c].scheduler != loaded || !loaded then s.(calls := s.calls[i := Done])
      else s.(ctxs := s.ctxs[c := s.ctxs[c].(scheduler := false)], calls := s.calls[i := Schedule(c)])
    case Schedule(c) =>
      if c >= |s.ctxs| then s
      else s.(ctxs := s.ctxs[c := s.ctxs[c].(wakes := s.ctxs[c].wakes + 1)], calls := s.calls[i := Done])
    case Done => s
  }

  function Apply(s: State, step: Step): State {
    match step
    case AddCtx(sn) =>
      // std::unordered_map::insert keeps an existing entry
      s.(ctxs := s.ctxs + [Ctx(sn, true, 0)],
         m_ctxs := if sn in s.m_ctxs then s.m_ctxs else s.m_ctxs[sn := |s.ctxs|])
    case Response(sn) =>
      if sn in s.m_ctxs then s.(m_ctxs := s.m_ctxs - {sn}, calls := s.calls + [Load(s.m_ctxs[sn])]) else s
    case TimeOut(c) =>
      if c < |s.ctxs| then s.(m_ctxs := s.m_ctxs - {s.ctxs[c].sn}, calls := s.calls + [Load(c)]) else s
    case Close => s.(m_ctxs := map[], drained := s.drained + s.m_ctxs.Values)
    case CloseNext(c) =>
      if c in s.drained then s.(drained := s.drained - {c}, calls := s.calls + [Load(c)]) else s
    case Peek(sn) =>
      if sn in s.m_ctxs then s.(calls := s.calls + [Load(s.m_ctxs[sn])]) else s
    case Go(i) => if i < |s.calls| then StepCall(s, i) else s
  }

  function Run(s: State, steps: seq<Step>): State
    decreases |steps|
  {
    if steps == [] then s else Run(Apply(s, steps[0]), steps[1..])
  }

  // ---------------------------------------------------------------- at most once

  /** Calls that have won the CAS for c and not scheduled its fiber yet. */
  function Winner(c: CtxId): Rsp -> nat {
    (r: Rsp) => if r == Schedule(c) then 1 else 0
  }

  /** A context owns exactly one wakeup: still in `scheduler`, won by a call, or delivered. */
  ghost predicate OneWakeup(s: State, c: CtxId)
    requires c < |s.ctxs|
  {
    (if s.ctxs[c].scheduler then 1 else 0) + s.ctxs[c].wakes + Sum(Winner(c), s.calls) == 1
  }

  ghost predicate KnownCtx(s: State, r: Rsp) {
    r.Done? || r.c < |s.ctxs|
  }

  ghost predicate WakeInv(s: State) {
    && (forall i :: 0 <= i < |s.calls| ==> KnownCtx(s, s.calls[i]))
    && (forall c :: 0 <= c < |s.ctxs| ==> OneWakeup(s, c))
    && (forall sn :: sn in s.m_ctxs ==> s.m_ctxs[sn] < |s.ctxs|)
    && (forall c :: c in s.drained ==> c < |s.ctxs|)
  }

  lemma CallWakeup(s: State, i: nat, c: CtxId)
    requires WakeInv(s) && i < |s.calls| && c < |s.ctxs|
    ensures OneWakeup(StepCall(s, i), c)
  {
    var s' := StepCall(s, i);
    assert OneWakeup(s, c) && KnownCtx(s, s.calls[i]);
    if !s.calls[i].Done? {
      SumUpdate(Winner(c), s.calls, i, s'.calls[i]);
    }
  }

  /** A fresh context starts with its one wakeup in `scheduler`. */
  lemma NewCtxWakeup(s: State, sn: Sn)
    requires WakeInv(s)
    ensures OneWakeup(Apply(s, AddCtx(sn)), |s.ctxs|)
  {
    var c := |s.ctxs|;
    forall r | r in s.calls ensures Winner(c)(r) == 0 {
      var i :| 0 <= i < |s.calls| && s.calls[i] == r;
      assert KnownCtx(s, s.calls[i]);
    }
    SumZero(Winner(c), s.calls);
  }

  lemma StepWakeup(s: State, step: Step, c: CtxId)
    requires WakeInv(s) && c < |s.ctxs|
    ensures OneWakeup(Apply(s, step), c)
  {
    assert OneWakeup(s, c);
    match step
    case Go(i) => if i < |s.calls| { CallWakeup(s, i, c); }
    case AddCtx(sn) =>
    case Close =>
    case Response(sn) => if sn in s.m_ctxs { SumAppend(Winner(c), s.calls, Load(s.m_ctxs[sn])); }
    case Peek(sn) => if sn in s.m_ctxs { SumAppend(Winner(c), s.calls, Load(s.m_ctxs[sn])); }
    case TimeOut(d) => SumAppend(Winner(c), s.calls, Load(d));
    case CloseNext(d) => SumAppend(Winner(c), s.calls, Load(d));
  }

  lemma StepKeepsKnown(s: State, step: Step)
    requires WakeInv(s)
    ensures var s' := Apply(s, step);
            && (forall i :: 0 <= i < |s'.calls| ==> KnownCtx(s', s'.calls[i]))
            && (forall sn :: sn in s'.m_ctxs ==> s'.m_ctxs[sn] < |s'.ctxs|)
            && (forall c :: c in s'.drained ==> c < |s'.ctxs|)
  {
    var s' := Apply(s, step);
    forall i | 0 <= i < |s'.calls| ensures KnownCtx(s', s'.calls[i]) {
      if i < |s.calls| { assert KnownCtx(s, s.calls[i]); }
    }
  }

  lemma StepKeepsWake(s: State, step: Step)
    requires WakeInv(s)
    ensures WakeInv(Apply(s, step))
  {
    var s' := Apply(s, step);
    StepKeepsKnown(s, step);
    forall c | 0 <= c < |s'.ctxs| ensures OneWakeup(s', c) {
      if c < |s.ctxs| {
        StepWakeup(s, step, c);
      } else {
        NewCtxWakeup(s, step.sn);
      }
    }
  }

  /** Under any race of responses, timeouts and closes, and even with reused sequence
      numbers, a waiting fiber is scheduled at most once. */
  lemma {:induction false} ScheduledAtMostOnce(s: State, steps: seq<Step>)
    requires WakeInv(s)
    ensures WakeInv(Run(s, steps))
    ensures forall c :: 0 <= c < |Run(s, steps).ctxs| ==> Run(s, steps).ctxs[c].wakes <= 1
    decreases |steps|
  {
    if steps == [] {
      forall c | 0 <= c < |s.ctxs| ensures s.ctxs[c].wakes <= 1 {
        assert OneWakeup(s, c);
      }
    } else {
      StepKeepsWake(s, steps[0]);
      ScheduledAtMostOnce(Apply(s, steps[0]), steps[1..]);
    }
  }

  // ---------------------------------------------------------------- answered numbers

  /** The step ends the registration of the number: its response, a timeout of a context under it,
      or a close. */
  predicate Releases(s: State, step: Step, sn: Sn) {
    match step
    case Response(answered) => answered == sn
    case TimeOut(c) => c < |s.ctxs| && s.ctxs[c].sn == sn
    case Close => true
    case _ => false
  }

  /** After it no response finds anybody under the number until another context is added under it,
      so that nobody is answered a second time. */
  lemma ReleasedIsFree(s: State, step: Step, sn: Sn, steps: seq<Step>)
    requires Releases(s, step, sn) && AddCtx(sn) !in steps
    ensures sn !in Run(Apply(s, step), steps).m_ctxs
    ensures Apply(Run(Apply(s, step), steps), Response(sn)) == Run(Apply(s, step), steps)
  {
    StaysFree(Apply(s, step), steps, sn);
  }

  lemma {:induction false} StaysFree(s: State, steps: seq<Step>, sn: Sn)
    requires sn !in s.m_ctxs && AddCtx(sn) !in steps
    ensures sn !in Run(s, steps).m_ctxs
    decreases |steps|
  {
    if steps != [] {
      StaysFree(Apply(s, steps[0]), steps[1..], sn);
    }
  }

  // ---------------------------------------------------------------- at least once

  /** Some call is going to clear the scheduler of c. */
  predicate Responding(r: Rsp, c: CtxId) {
    r == Load(c) || r == Cas(c, true)
  }

  /** A context that has not been woken is still registered, so that a response, its timeout or
      a close can find it, still in the hands of a close, or has a doRsp() under way.  Whether a
      close comes is not decided here; see AsyncDeliveries. */
  ghost predicate Covered(s: State, c: CtxId)
    requires c < |s.ctxs|
  {
    || !s.ctxs[c].scheduler
    || (s.ctxs[c].sn in s.m_ctxs && s.m_ctxs[s.ctxs[c].sn] == c)
    || c in s.drained
    || exists i :: 0 <= i < |s.calls| && Responding(s.calls[i], c)
  }

  /** Every context is covered, and m_ctxs lists contexts under their own numbers. */
  ghost predicate CoverInv(s: State) {
    && (forall c :: 0 <= c < |s.ctxs| ==> Covered(s, c))
    && (forall sn :: sn in s.m_ctxs ==> s.m_ctxs[sn] < |s.ctxs| && s.ctxs[s.m_ctxs[sn]].sn == sn)
  }

  /** A step that leaves a waiter with nobody to wake it: addCtx() under a number in use, or
      the timeout of a context whose number another one holds by now, if nothing but its entry
      in m_ctxs would still have woken that one. */
  ghost predicate Strands(s: State, step: Step) {
    match step
    case AddCtx(sn) => sn in s.m_ctxs
    case TimeOut(c) => c < |s.ctxs| && s.ctxs[c].sn in s.m_ctxs && OnlyListed(s, s.m_ctxs[s.ctxs[c].sn], c)
    case _ => false
  }

  ghost predicate OnlyListed(s: State, h: CtxId, c: CtxId) {
    && h != c && h < |s.ctxs| && s.ctxs[h].scheduler && h !in s.drained
    && forall i :: 0 <= i < |s.calls| ==> !Responding(s.calls[i], h)
  }

  /** What a caller can see to: numbers are distinct among the contexts in m_ctxs, and a timer
      does not outlive its context's entry there. */
  predicate Clean(s: State, step: Step) {
    match step
    case AddCtx(sn) => sn !in s.m_ctxs
    case TimeOut(c) => c < |s.ctxs| && s.ctxs[c].sn in s.m_ctxs ==> s.m_ctxs[s.ctxs[c].sn] == c
    case _ => true
  }

  ghost predicate NobodyStranded(s: State, steps: seq<Step>)
    decreases |steps|
  {
    steps == [] || (!Strands(s, steps[0]) && NobodyStranded(Apply(s, steps[0]), steps[1..]))
  }

  predicate AllClean(s: State, steps: seq<Step>)
    decreases |steps|
  {
    steps == [] || (Clean(s, steps[0]) && AllClean(Apply(s, steps[0]), steps[1..]))
  }

  lemma {:induction false} CleanStrandsNobody(s: State, steps: seq<Step>)
    requires AllClean(s, steps)
    ensures NobodyStranded(s, steps)
    decreases |steps|
  {
    if steps != [] {
      CleanStrandsNobody(Apply(s, steps[0]), steps[1..]);
    }
  }

  lemma CallKeepsCover(s: State, i: nat, c: CtxId)
    requires WakeInv(s) && i < |s.calls| && c < |s.ctxs| && Covered(s, c)
    ensures Covered(StepCall(s, i), c)
  {
    var s' := StepCall(s, i);
    assert KnownCtx(s, s.calls[i]);
    if exists j :: 0 <= j < |s.calls| && Responding(s.calls[j], c) {
      var j :| 0 <= j < |s.calls| && Responding(s.calls[j], c);
      if s'.ctxs[c].scheduler {
        assert Responding(s'.calls[j], c);
      }
    }
  }

  /** A step covers every context that it does not strand. */
  lemma StepKeepsCovered(s: State, step: Step, c: CtxId)
    requires WakeInv(s) && CoverInv(s) && c < |s.ctxs| && !Strands(s, step)
    ensures Covered(Apply(s, step), c)
  {
    var s' := Apply(s, step);
    assert Covered(s, c);
    match step
    case Go(i) =>
      if i < |s.calls| { CallKeepsCover(s, i, c); }
    case Close =>
      if s.ctxs[c].sn in s.m_ctxs && s.m_ctxs[s.ctxs[c].sn] == c {
        assert c in s.m_ctxs.Values;
      }
      CallsKept(s, s', c);
    case TimeOut(d) => TimeOutKeepsCovered(s, d, c);
    case Response(sn) =>
      if sn in s.m_ctxs { assert s'.calls[|s.calls|] == Load(s.m_ctxs[sn]); }
      CallsKept(s, s', c);
    case CloseNext(d) =>
      if d in s.drained { assert s'.calls[|s.calls|] == Load(d); }
      CallsKept(s, s', c);
    case AddCtx(sn) => CallsKept(s, s', c);
    case Peek(sn) => CallsKept(s, s', c);
  }

  lemma TimeOutKeepsCovered(s: State, d: CtxId, c: CtxId)
    requires CoverInv(s) && c < |s.ctxs| && !Strands(s, TimeOut(d))
    ensures Covered(Apply(s, TimeOut(d)), c)
  {
    var s' := Apply(s, TimeOut(d));
    assert Covered(s, c);
    CallsKept(s, s', c);
    if d < |s.ctxs| {
      assert s'.calls[|s.calls|] == Load(d);
      if c != d && s.ctxs[d].sn in s.m_ctxs && s.m_ctxs[s.ctxs[d].sn] == c {
        assert !OnlyListed(s, c, d);
      }
    }
  }

  lemma CallsKept(s: State, s': State, c: CtxId)
    requires s.calls <= s'.calls
    ensures (exists i :: 0 <= i < |s.calls| && Responding(s.calls[i], c)) ==>
              exists i :: 0 <= i < |s'.calls| && Responding(s'.calls[i], c)
  {
    if exists i :: 0 <= i < |s.calls| && Responding(s.calls[i], c) {
      var i :| 0 <= i < |s.calls| && Responding(s.calls[i], c);
      assert Responding(s'.calls[i], c);
    }
  }

  lemma UnstrandedKeepsCover(s: State, step: Step)
    requires WakeInv(s) && CoverInv(s) && !Strands(s, step)
    ensures CoverInv(Apply(s, step))
  {
    var s' := Apply(s, step);
    forall c | 0 <= c < |s'.ctxs| ensures Covered(s', c) {
      if c < |s.ctxs| {
        StepKeepsCovered(s, step, c);
      } else {
        assert s'.ctxs[c] == Ctx(step.sn, true, 0);
      }
    }
    if step.Go? && step.i < |s.calls| {
      assert KnownCtx(s, s.calls[step.i]);
    }
  }

  lemma StrandedIsUncovered(s: State, step: Step) returns (c: CtxId)
    requires WakeInv(s) && CoverInv(s) && Strands(s, step)
    ensures c < |Apply(s, step).ctxs| && !Covered(Apply(s, step), c)
  {
    var s' := Apply(s, step);
    if step.AddCtx? {
      c := |s.ctxs|;
      assert s'.ctxs[c] == Ctx(step.sn, true, 0);
      forall i | 0 <= i < |s'.calls| ensures !Responding(s'.calls[i], c) {
        assert KnownCtx(s, s.calls[i]);
      }
    } else {
      c := s.m_ctxs[s.ctxs[step.c].sn];
      forall i | 0 <= i < |s'.calls| ensures !Responding(s'.calls[i], c) {
        if i < |s.calls| { assert !Responding(s.calls[i], c); }
      }
    }
  }

  /** Every context stays covered over a step exactly when the step strands nobody. */
  lemma CoveredIffNobodyStranded(s: State, step: Step)
    requires WakeInv(s) && CoverInv(s)
    ensures CoverInv(Apply(s, step)) <==> !Strands(s, step)
  {
    if Strands(s, step) {
      var c := StrandedIsUncovered(s, step);
    } else {
      UnstrandedKeepsCover(s, step);
    }
  }

  /** Every context is covered at every point of a run. */
  ghost predicate AlwaysCovered(s: State, steps: seq<Step>)
    decreases |steps|
  {
    CoverInv(s) && (steps == [] || AlwaysCovered(Apply(s, steps[0]), steps[1..]))
  }

  /** No context ever lacks somebody to wake it, exactly when no step of the run strands one. */
  lemma {:induction false} AlwaysCoveredIffNobodyStranded(s: State, steps: seq<Step>)
    requires WakeInv(s) && CoverInv(s)
    ensures AlwaysCovered(s, steps) <==> NobodyStranded(s, steps)
    decreases |steps|
  {
    if steps != [] {
      CoveredIffNobodyStranded(s, steps[0]);
      StepKeepsWake(s, steps[0]);
      if !Strands(s, steps[0]) {
        AlwaysCoveredIffNobodyStranded(Apply(s, steps[0]), steps[1..]);
      }
    }
  }

  // ---------------------------------------------------------------- what callers can see to

  /** No call that is under way names c. */
  predicate Unnamed(calls: seq<Rsp>, c: CtxId) {
    forall i :: 0 <= i < |calls| ==> calls[i].Done? || calls[i].c != c
  }

  /** Registered contexts are listed under their own numbers, and nobody else is after them. */
  ghost predicate ListedInv(s: State) {
    forall sn :: sn in s.m_ctxs ==> Listed(s, sn, s.m_ctxs[sn])
  }

  ghost predicate Listed(s: State, sn: Sn, c: CtxId) {
    c < |s.ctxs| && s.ctxs[c].sn == sn && s.ctxs[c].scheduler && c !in s.drained && Unnamed(s.calls, c)
  }

  lemma NewIsUnnamed(s: State)
    requires WakeInv(s)
    ensures Unnamed(s.calls, |s.ctxs|)
  {
    forall i | 0 <= i < |s.calls| ensures s.calls[i].Done? || s.calls[i].c != |s.ctxs| {
      assert KnownCtx(s, s.calls[i]);
    }
  }

  lemma CallKeepsListed(s: State, i: nat)
    requires WakeInv(s) && ListedInv(s) && i < |s.calls|
    ensures ListedInv(StepCall(s, i))
  {
    var s' := StepCall(s, i);
    forall sn | sn in s'.m_ctxs ensures Listed(s', sn, s'.m_ctxs[sn]) {
      assert Listed(s, sn, s.m_ctxs[sn]);
    }
  }

  /** getCtx(), which nothing in the repository calls, is the one way to a registered context
      that leaves it registered. */
  lemma StepKeepsListed(s: State, step: Step)
    requires WakeInv(s) && ListedInv(s) && !step.Peek?
    ensures ListedInv(Apply(s, step))
  {
    var s' := Apply(s, step);
    if step.Go? && step.i < |s.calls| {
      CallKeepsListed(s, step.i);
    } else {
      forall sn | sn in s'.m_ctxs ensures Listed(s', sn, s'.m_ctxs[sn]) {
        if sn in s.m_ctxs {
          assert Listed(s, sn, s.m_ctxs[sn]);
        } else {
          NewIsUnnamed(s);
        }
        if step.Response? && step.sn in s.m_ctxs {
          assert Listed(s, step.sn, s.m_ctxs[step.sn]);
        }
      }
    }
  }

  lemma StrandsIffUnclean(s: State, step: Step)
    requires ListedInv(s)
    ensures Strands(s, step) <==> !Clean(s, step)
  {
    if step.TimeOut? && step.c < |s.ctxs| && s.ctxs[step.c].sn in s.m_ctxs {
      var h := s.m_ctxs[s.ctxs[step.c].sn];
      assert Listed(s, s.ctxs[step.c].sn, h);
      assert h != step.c ==> OnlyListed(s, h, step.c);
    }
  }

  predicate NoPeek(steps: seq<Step>) {
    forall i :: 0 <= i < |steps| ==> !steps[i].Peek?
  }

  /** Without getCtx() every context stays covered exactly when no number is added while in use
      and no timer goes off after another context has taken over the number. */
  lemma {:induction false} AlwaysCoveredIffAllClean(s: State, steps: seq<Step>)
    requires WakeInv(s) && CoverInv(s) && ListedInv(s) && NoPeek(steps)
    ensures AlwaysCovered(s, steps) <==> AllClean(s, steps)
    decreases |steps|
  {
    if steps != [] {
      CoveredIffNobodyStranded(s, steps[0]);
      StrandsIffUnclean(s, steps[0]);
      StepKeepsWake(s, steps[0]);
      if Clean(s, steps[0]) {
        StepKeepsListed(s, steps[0]);
        AlwaysCoveredIffAllClean(Apply(s, steps[0]), steps[1..]);
      }
    }
  }

  // ---------------------------------------------------------------- at the end

  lemma {:induction false} RunKeepsCover(s: State, steps: seq<Step>)
    requires WakeInv(s) && CoverInv(s) && NobodyStranded(s, steps)
    ensures WakeInv(Run(s, steps)) && CoverInv(Run(s, steps))
    decreases |steps|
  {
    if steps != [] {
      StepKeepsWake(s, steps[0]);
      UnstrandedKeepsCover(s, steps[0]);
      RunKeepsCover(Apply(s, steps[0]), steps[1..]);
    }
  }

  /** No doRsp() is under way and no close is handing out contexts. */
  predicate Quiescent(s: State) {
    s.drained == {} && forall i :: 0 <= i < |s.calls| ==> s.calls[i].Done?
  }

  /** Scheduled exactly once, or registered under its number and not scheduled. */
  predicate WokenOrRegistered(s: State, c: CtxId)
    requires c < |s.ctxs|
  {
    || s.ctxs[c].wakes == 1
    || (s.ctxs[c].wakes == 0 && s.ctxs[c].sn in s.m_ctxs && s.m_ctxs[s.ctxs[c].sn] == c)
  }

  lemma CoveredAtRest(s: State, c: CtxId)
    requires WakeInv(s) && Quiescent(s) && c < |s.ctxs| && Covered(s, c)
    ensures WokenOrRegistered(s, c)
  {
    assert OneWakeup(s, c);
    SumZero(Winner(c), s.calls);
    forall i | 0 <= i < |s.calls| ensures !Responding(s.calls[i], c) {
    }
  }

  /** Once the races are over, and nobody has been stranded, every context has been scheduled
      exactly once, or is still registered in m_ctxs and has not been scheduled. */
  lemma ScheduledExactlyOnce(steps: seq<Step>, c: CtxId)
    requires NobodyStranded(INIT, steps)
    requires Quiescent(Run(INIT, steps)) && c < |Run(INIT, steps).ctxs|
    ensures WokenOrRegistered(Run(INIT, steps), c)
  {
    RunKeepsCover(INIT, steps);
    CoveredAtRest(Run(INIT, steps), c);
  }

  /** The same from what a caller can see to. */
  lemma CleanRunsScheduleExactlyOnce(steps: seq<Step>, c: CtxId)
    requires AllClean(INIT, steps)
    requires Quiescent(Run(INIT, steps)) && c < |Run(INIT, steps).ctxs|
    ensures WokenOrRegistered(Run(INIT, steps), c)
  {
    CleanStrandsNobody(INIT, steps);
    ScheduledExactlyOnce(steps, c);
  }

  // ---------------------------------------------------------------- getting there

  /** The steps a doRsp() call has left. */
  function CallLeft(r: Rsp): nat {
    match r
    case Load(_) => 3
    case Cas(_, _) => 2
    case Schedule(_) => 1
    case Done => 0
  }

  /** The steps left until nothing is in flight: those of the calls, and for every context in
      the hands of a close one more than a call has. */
  function Unfinished(s: State): nat {
    Sum(CallLeft, s.calls) + 4 * |s.drained|
  }

  /** A step of a doRsp() that has not returned, or of the last loop of innerClose(). */
  predicate Works(s: State, step: Step) {
    (step.Go? && step.i < |s.calls| && !s.calls[step.i].Done?) || (step.CloseNext? && step.c in s.drained)
  }

  /** What a step can add to what is in flight. */
  function Opens(s: State, step: Step): nat {
    match step
    case Response(_) => 3
    case Peek(_) => 3
    case TimeOut(_) => 3
    case Close => 4 * |s.m_ctxs|
    case _ => 0
  }

  lemma CallWorks(s: State, i: nat)
    requires WakeInv(s) && i < |s.calls|
    ensures Unfinished(StepCall(s, i)) <= Unfinished(s) - if s.calls[i].Done? then 0 else 1
  {
    assert KnownCtx(s, s.calls[i]);
    SumUpdate(CallLeft, s.calls, i, StepCall(s, i).calls[i]);
  }

  lemma ValuesAtMost(m: map<Sn, CtxId>)
    ensures |m.Values| <= |m|
    decreases |m|
  {
    if m.Keys != {} {
      var k :| k in m.Keys;
      var rest := m - {k};
      assert rest.Keys == m.Keys - {k};
      ValuesAtMost(rest);
      forall v | v in m.Values ensures v in rest.Values + {m[k]} {
        var j :| j in m && m[j] == v;
        assert j != k ==> rest[j] == v;
      }
      SubsetAtMost(m.Values, rest.Values + {m[k]});
    } else {
      assert m.Values == {};
    }
  }

  lemma SubsetAtMost(a: set<CtxId>, b: set<CtxId>)
    requires a <= b
    ensures |a| <= |b|
  {
    assert b == a + (b - a);
  }

  lemma CloseOpens(s: State)
    ensures Unfinished(Apply(s, Close)) <= Unfinished(s) + 4 * |s.m_ctxs|
  {
    ValuesAtMost(s.m_ctxs);
    assert |s.drained + s.m_ctxs.Values| <= |s.drained| + |s.m_ctxs.Values|;
  }

  /** Work lowers what is left, and only what a step opens raises it. */
  lemma WorkLowers(s: State, step: Step)
    requires WakeInv(s)
    ensures Unfinished(Apply(s, step)) <= Unfinished(s) + Opens(s, step) - if Works(s, step) then 1 else 0
  {
    match step
    case Go(i) => if i < |s.calls| { CallWorks(s, i); }
    case AddCtx(_) =>
    case Close => CloseOpens(s);
    case Response(sn) => if sn in s.m_ctxs { SumAppend(CallLeft, s.calls, Load(s.m_ctxs[sn])); }
    case Peek(sn) => if sn in s.m_ctxs { SumAppend(CallLeft, s.calls, Load(s.m_ctxs[sn])); }
    case TimeOut(d) => SumAppend(CallLeft, s.calls, Load(d));
    case CloseNext(d) =>
      SumAppend(CallLeft, s.calls, Load(d));
      assert d in s.drained ==> |s.drained - {d}| == |s.drained| - 1;
  }

  function Worked(s: State, steps: seq<Step>): nat
    decreases |steps|
  {
    if steps == [] then 0 else (if Works(s, steps[0]) then 1 else 0) + Worked(Apply(s, steps[0]), steps[1..])
  }

  function Opened(s: State, steps: seq<Step>): nat
    decreases |steps|
  {
    if steps == [] then 0 else Opens(s, steps[0]) + Opened(Apply(s, steps[0]), steps[1..])
  }

  lemma {:induction false} WorkIsBounded(s: State, steps: seq<Step>)
    requires WakeInv(s)
    ensures Unfinished(Run(s, steps)) + Worked(s, steps) <= Unfinished(s) + Opened(s, steps)
    decreases |steps|
  {
    if steps != [] {
      WorkLowers(s, steps[0]);
      StepKeepsWake(s, steps[0]);
      WorkIsBounded(Apply(s, steps[0]), steps[1..]);
    }
  }

  lemma QuiescentIffFinished(s: State)
    ensures Quiescent(s) <==> Unfinished(s) == 0
  {
    if Quiescent(s) {
      SumZero(CallLeft, s.calls);
    } else if s.drained == {} {
      var i :| 0 <= i < |s.calls| && !s.calls[i].Done?;
      SumAtLeast(CallLeft, s.calls, i);
    }
  }

  /** While anything is in flight, somebody can do a step of work. */
  lemma SomebodyWorks(s: State) returns (step: Step)
    requires !Quiescent(s)
    ensures Works(s, step)
  {
    if s.drained != {} {
      var c :| c in s.drained;
      step := CloseNext(c);
    } else {
      var i :| 0 <= i < |s.calls| && !s.calls[i].Done?;
      step := Go(i);
    }
  }

  predicate AllWork(s: State, steps: seq<Step>)
    decreases |steps|
  {
    steps == [] || (Works(s, steps[0]) && AllWork(Apply(s, steps[0]), steps[1..]))
  }

  /** From any state, however many calls race, work alone brings everything to rest. */
  lemma {:induction false} RacesEnd(s: State) returns (steps: seq<Step>)
    requires WakeInv(s)
    ensures AllWork(s, steps) && |steps| <= Unfinished(s) && Quiescent(Run(s, steps))
    decreases Unfinished(s)
  {
    if Quiescent(s) {
      return [];
    }
    var step := SomebodyWorks(s);
    WorkLowers(s, step);
    StepKeepsWake(s, step);
    var rest := RacesEnd(Apply(s, step));
    steps := [step] + rest;
    assert steps[1..] == rest;
  }

  function StepsOf(steps: seq<Step>, k: nat): nat {
    if steps == [] then 0 else (if steps[0] == Go(k) then 1 else 0) + StepsOf(steps[1..], k)
  }

  lemma CallMoves(s: State, step: Step, k: nat)
    requires WakeInv(s) && k < |s.calls|
    ensures k < |Apply(s, step).calls|
    ensures CallLeft(Apply(s, step).calls[k]) <=
            CallLeft(s.calls[k]) - if step == Go(k) && !s.calls[k].Done? then 1 else 0
  {
    assert KnownCtx(s, s.calls[k]);
  }

  /** A doRsp() call is over once it has had the steps it has left, whatever everybody else
      does in between: losing the race costs it no more. */
  lemma {:induction false} CallReturns(s: State, steps: seq<Step>, k: nat)
    requires WakeInv(s) && k < |s.calls| && StepsOf(steps, k) >= CallLeft(s.calls[k])
    ensures k < |Run(s, steps).calls| && Run(s, steps).calls[k].Done?
    decreases |steps|
  {
    if steps != [] {
      CallMoves(s, steps[0], k);
      StepKeepsWake(s, steps[0]);
      CallReturns(Apply(s, steps[0]), steps[1..], k);
    }
  }

  // ---------------------------------------------------------------- witnesses

  /** With a reused sequence number the second waiter is stranded: nothing is in flight, a
      close has come and gone, and its fiber was never scheduled. */
  lemma ReusedSnStrandsWaiter()
    ensures exists steps: seq<Step> ::
              var s := Run(INIT, steps);
              Quiescent(s) && s.m_ctxs == map[] && |s.ctxs| == 2 && s.ctxs[0].wakes == 1 && s.ctxs[1].wakes == 0
  {
    var steps := [AddCtx(5), AddCtx(5), Close, CloseNext(0), Go(0), Go(0), Go(0)];
    var s1 := Apply(INIT, steps[0]);
    var s2 := Apply(s1, steps[1]);
    assert s2.m_ctxs == map[5 := 0];
    var s3 := Apply(s2, steps[2]);
    assert 0 in s2.m_ctxs.Values by { assert s2.m_ctxs[5] == 0; }
    assert s3.drained == {0};
    var s4 := Apply(s3, steps[3]);
    var s5 := Apply(s4, steps[4]);
    var s6 := Apply(s5, steps[5]);
    var s7 := Apply(s6, steps[6]);
    assert s7.calls == [Done];
    calc {
      Run(INIT, steps);
      Run(s1, steps[1..]);
      { assert steps[1..][1..] == steps[2..]; }
      Run(s2, steps[2..]);
      { assert steps[2..][1..] == steps[3..]; }
      Run(s3, steps[3..]);
      { assert steps[3..][1..] == steps[4..]; }
      Run(s4, steps[4..]);
      { assert steps[4..][1..] == steps[5..]; }
      Run(s5, steps[5..]);
      { assert steps[5..][1..] == steps[6..]; }
      Run(s6, steps[6..]);
      { assert steps[6..][1..] == []; }
      s7;
    }
  }

  /** No context is added under a number in use. */
  predicate DistinctLive(s: State, steps: seq<Step>)
    decreases |steps|
  {
    steps == [] || ((steps[0].AddCtx? ==> steps[0].sn !in s.m_ctxs) && DistinctLive(Apply(s, steps[0]), steps[1..]))
  }

  const ANSWERED := State([Ctx(5, false, 1)], map[], {}, [Done])
  const STRANDED := State([Ctx(5, false, 1), Ctx(5, true, 0)], map[], {}, [Done, Done])

  /** A context is added, answered and woken. */
  lemma AnsweredFirst(rest: seq<Step>)
    ensures var steps := [AddCtx(5), Response(5), Go(0), Go(0), Go(0)] + rest;
            Run(INIT, steps) == Run(ANSWERED, rest) && (DistinctLive(INIT, steps) <==> DistinctLive(ANSWERED, rest))
  {
    var steps := [AddCtx(5), Response(5), Go(0), Go(0), Go(0)] + rest;
    var s1 := Apply(INIT, AddCtx(5));
    var s2 := Apply(s1, Response(5));
    assert s1.m_ctxs == map[5 := 0] && s2.m_ctxs == map[] && s2.calls == [Load(0)];
    var s3 := Apply(s2, Go(0));
    var s4 := Apply(s3, Go(0));
    assert Apply(s4, Go(0)) == ANSWERED;
    assert steps[1..][1..] == steps[2..] && steps[2..][1..] == steps[3..] && steps[3..][1..] == steps[4..];
    assert steps[4..][1..] == rest;
    assert Run(s3, steps[3..]) == Run(ANSWERED, rest) && DistinctLive(s3, steps[3..]) == DistinctLive(ANSWERED, rest);
    assert Run(s1, steps[1..]) == Run(ANSWERED, rest) && DistinctLive(s1, steps[1..]) == DistinctLive(ANSWERED, rest);
  }

  /** The number is used again, and then the timer of the first context goes off. */
  lemma TimedOutLate()
    ensures var steps := [AddCtx(5), TimeOut(0), Go(1), Go(1), Close];
            Run(ANSWERED, steps) == STRANDED && DistinctLive(ANSWERED, steps)
  {
    var steps := [AddCtx(5), TimeOut(0), Go(1), Go(1), Close];
    var s1 := Apply(ANSWERED, steps[0]);
    var s2 := Apply(s1, steps[1]);
    assert s1.m_ctxs == map[5 := 1] && s2.m_ctxs == map[] && s2.calls == [Done, Load(0)];
    var s3 := Apply(s2, steps[2]);
    var s4 := Apply(s3, steps[3]);
    assert Apply(s4, steps[4]) == STRANDED;
    assert steps[1..][1..] == steps[2..] && steps[2..][1..] == steps[3..] && steps[3..][1..] == steps[4..];
    assert steps[4..][1..] == [];
    assert Run(s4, steps[4..]) == STRANDED && DistinctLive(s4, steps[4..]);
    assert Run(s3, steps[3..]) == STRANDED && DistinctLive(s3, steps[3..]);
    assert Run(s1, steps[1..]) == STRANDED && DistinctLive(s1, steps[1..]);
  }

  /** Distinct numbers among the contexts in m_ctxs are not enough: the timeout of a context
      that has been answered erases the entry of a later one with the same number.  doRsp()
      cancels the timer of its context, so this takes a timer whose callback has been collected
      before that. */
  lemma LateTimeOutStrandsWaiter()
    ensures exists steps: seq<Step> ::
              DistinctLive(INIT, steps) && Quiescent(Run(INIT, steps)) && Run(INIT, steps) == STRANDED
  {
    var rest := [AddCtx(5), TimeOut(0), Go(1), Go(1), Close];
    AnsweredFirst(rest);
    TimedOutLate();
  }
}

/** When an innerClose() with its swap of m_ctxs is sure to come: exactly when a thread is bound
    for it or a start is next in line for its second token. */
module AsyncStreamCloses {
  import opened Counting
  import opened FiberSemaphores
  import opened AsyncStreams
  import opened AsyncStreamTokens
  import opened AsyncStreamTheorems
  import opened AsyncStreamWedges
  import opened AsyncStreamServices

  /** A thread about to swap m_ctxs. */
  predicate AtSwap(t: Thread) {
    match t
    case Start(pc) => pc == Closing(ToSwap)
    case Reader(pc) => pc == RClosing(ToSwap)
    case Writer(pc, _) => pc == WClosing(ToSwap)
    case _ => false
  }

  predicate Swaps(s: State, step: Step) {
    step.Go? && step.i < |s.threads| && AtSwap(s.threads[step.i])
  }

  predicate BeforeSwap(step: ClosePc) { step.ToShut? || step.ToNotify? || step.ToSwap? }

  /** A thread that swaps m_ctxs before it ends, or leaves one behind that does, whatever
      happens: a start with both tokens until it has scheduled the reader, a reader, or anybody in
      innerClose() up to the swap. */
  predicate IsBound(t: Thread) {
    match t
    case Start(pc) =>
      pc.Check? || pc.Reconnect? || pc.Callback? || pc.SpawnRead? || (pc.Closing? && BeforeSwap(pc.step))
    case Reader(pc) => pc.RTest? || pc.RRecv? || (pc.RClosing? && BeforeSwap(pc.step))
    case Writer(pc, _) => pc.WClosing? && BeforeSwap(pc.step)
    case _ => false
  }

  /** Bound for the swap, or parked for a second token that nobody can take first. */
  ghost predicate IsSure(s: State, i: nat) {
    i < |s.threads| && (IsBound(s.threads[i]) || (s.threads[i] == Start(Parked2) && !Contended(s, i)))
  }

  ghost predicate CloseComes(s: State) {
    exists i: nat :: IsSure(s, i)
  }

  // ---------------------------------------------------------------- sure until it has happened

  lemma OwnStepStaysBound(s: State, i: nat, o: Outcome)
    requires i < |s.threads| && IsBound(s.threads[i]) && !AtSwap(s.threads[i])
    ensures CloseComes(Apply(s, Go(i, o)))
  {
    var s' := Apply(s, Go(i, o));
    if s.threads[i] == Start(SpawnRead) {
      assert IsSure(s', |s.threads|);
    } else {
      assert IsSure(s', i);
    }
  }

  /** A thread that asks for a token gets behind a parked start. */
  lemma AskedContended(s: State, h: nat, o: Outcome, i: nat)
    requires Inv(s) && h < |s.threads| && (s.threads[h] == Start(Wait1) || s.threads[h] == Start(Wait2))
    requires i < |s.threads| && s.threads[i] == Start(Parked2) && Contended(Apply(s, Go(h, o)), i)
    ensures Contended(s, i)
  {
    var s', ws := Apply(s, Go(h, o)), s.waitSem.waiters;
    NobodyStored(s, i);
    var k: nat :| Clashes(s', i, k);
    if k == h {
      assert i in ws && h !in ws;
      NotBefore(ws, h, i);
    } else if s.threads[k] == Start(Parked1) {
      BeforeDropLast(ws, h, k, i);
    }
    ClashContends(s, i, k);
  }

  lemma MoreThreadsContended(s: State, s': State, i: nat)
    requires s.threads <= s'.threads && s'.waitSem == s.waitSem
    requires forall k :: |s.threads| <= k < |s'.threads| ==> !HoldsOne(s'.threads[k]) && s'.threads[k] != Start(Parked1)
    requires i < |s.threads| && s.threads[i] == Start(Parked2) && Contended(s', i)
    ensures Contended(s, i)
  {
    var k: nat :| Clashes(s', i, k);
    ClashContends(s, i, k);
  }

  lemma NextInLineStays(s: State, step: Step, i: nat)
    requires Inv(s) && i < |s.threads| && s.threads[i] == Start(Parked2) && !Contended(s, i)
    ensures IsSure(Apply(s, step), i)
  {
    var s' := Apply(s, step);
    if !step.Go? {
      if Contended(s', i) { MoreThreadsContended(s, s', i); }
    } else if step.i < |s.threads| && step.i != i {
      OthersKeepThread(s, step, i);
      if s.threads[step.i] == Start(Wait1) || s.threads[step.i] == Start(Wait2) {
        if Contended(s', i) { AskedContended(s, step.i, step.outcome, i); }
      } else if !IsParkedStart(s.threads[step.i]) {
        StepServes(s, step.i, step.outcome);
        ServedIsReady(s, s', step.i, i);
      }
    }
  }

  /** A close that comes still comes until it has swapped. */
  lemma CloseStillComes(s: State, step: Step)
    requires Inv(s) && CloseComes(s) && !Swaps(s, step)
    ensures CloseComes(Apply(s, step))
  {
    var i: nat :| IsSure(s, i);
    if !IsBound(s.threads[i]) {
      NextInLineStays(s, step, i);
    } else if step.Go? && step.i == i {
      OwnStepStaysBound(s, i, step.outcome);
    } else {
      OthersKeepThread(s, step, i);
      assert IsSure(Apply(s, step), i);
    }
  }

  /** Every thread has ended or is parked. */
  ghost predicate Still(s: State) {
    forall i :: 0 <= i < |s.threads| ==> s.threads[i] == Finished || IsParked(s.threads[i])
  }

  lemma SureIsNotStill(s: State, i: nat)
    requires Inv(s) && IsSure(s, i)
    ensures !Still(s)
  {
    var h := i;
    if !IsBound(s.threads[i]) {
      h := Driven(s, i);
    }
    assert !(s.threads[h] == Finished || IsParked(s.threads[h]));
  }

  lemma StillHasNoClose(s: State)
    requires Inv(s) && Still(s)
    ensures !CloseComes(s)
  {
    if i: nat :| IsSure(s, i) {
      SureIsNotStill(s, i);
    }
  }

  ghost predicate NeverSwaps(s: State, steps: seq<Step>)
    decreases |steps|
  {
    steps == [] || (!Swaps(s, steps[0]) && NeverSwaps(Apply(s, steps[0]), steps[1..]))
  }

  lemma {:induction false} StillToCome(s: State, steps: seq<Step>)
    requires Inv(s) && CloseComes(s) && NeverSwaps(s, steps)
    ensures Inv(Run(s, steps)) && CloseComes(Run(s, steps))
    decreases |steps|
  {
    if steps != [] {
      CloseStillComes(s, steps[0]);
      StepKeepsInv(s, steps[0]);
      StillToCome(Apply(s, steps[0]), steps[1..]);
    }
  }

  // ---------------------------------------------------------------- avoidable otherwise

  ghost predicate NobodyBound(s: State) {
    forall i :: 0 <= i < |s.threads| ==> !IsBound(s.threads[i])
  }

  ghost predicate NobodyWaits(s: State) {
    forall i :: 0 <= i < |s.threads| ==> !WaitingStart(s.threads[i])
  }

  /** Two starts clash, and nobody is next in line. */
  ghost predicate Blocked(s: State) {
    && (exists x: nat, y: nat :: Clash(s, x, y))
    && forall k: nat :: k < |s.threads| && s.threads[k] == Start(Parked2) ==> Contended(s, k)
  }

  /** No thread is bound for the swap, and no start will ever get both tokens. */
  ghost predicate Barren(s: State) {
    NobodyBound(s) && (NobodyWaits(s) || Blocked(s))
  }

  lemma ClashStoresNone(s: State, x: nat, y: nat)
    requires Inv(s) && Clash(s, x, y)
    ensures s.waitSem.count == 0
  {
    if Split(s, x, y) { SplitTakesAll(s, x, y, x); } else { NobodyStored(s, x); }
  }

  /** A clash concerns every start that has asked for a token, but one next in line. */
  lemma ClashContendsAll(s: State, x: nat, y: nat, k: nat)
    requires Inv(s) && Clash(s, x, y) && k < |s.threads|
    requires s.threads[k] == Start(Parked1) || s.threads[k] == Start(Wait2)
    ensures Contended(s, k)
  {
    if k == x || k == y {
      ClashContends(s, k, if k == x then y else x);
    } else if Split(s, x, y) {
      SplitTakesAll(s, x, y, k);
      SplitKeepsOut(s, k, x, y);
    } else {
      ClashContends(s, k, x);
    }
  }

  /** Contended starts stay contended, and nobody joins them but from among themselves. */
  lemma BlockedStays(s: State, g: nat, o: Outcome)
    requires Inv(s) && Blocked(s) && g < |s.threads|
    ensures Blocked(Apply(s, Go(g, o)))
  {
    var s' := Apply(s, Go(g, o));
    var x: nat, y: nat :| Clash(s, x, y);
    ClashStays(s, Go(g, o), x, y);
    forall k: nat | k < |s'.threads| && s'.threads[k] == Start(Parked2) ensures Contended(s', k) {
      ParksContended(s, g, o, x, y, k);
    }
  }

  /** A start parks with a token only after it had one. */
  lemma ParksOnlyHolding(s: State, g: nat, o: Outcome, k: nat)
    requires SemInv(s) && g < |s.threads|
    requires k < |Apply(s, Go(g, o)).threads| && Apply(s, Go(g, o)).threads[k] == Start(Parked2)
    ensures k < |s.threads| && HoldsOne(s.threads[k])
  {
    if !WaitingStart(s.threads[g]) {
      StepServes(s, g, o);
      assert k != g && k < |s.threads|;
      OthersKeepThread(s, Go(g, o), k);
    }
  }

  lemma ParksContended(s: State, g: nat, o: Outcome, x: nat, y: nat, k: nat)
    requires Inv(s) && Blocked(s) && Clash(s, x, y) && g < |s.threads|
    requires k < |Apply(s, Go(g, o)).threads| && Apply(s, Go(g, o)).threads[k] == Start(Parked2)
    ensures Contended(Apply(s, Go(g, o)), k)
  {
    ParksOnlyHolding(s, g, o, k);
    if s.threads[k] == Start(Wait2) {
      ClashContendsAll(s, x, y, k);
    }
    var t := ContendedStays(s, Go(g, o), k);
  }

  // ---------------------------------------------------------------- to a standstill without a close

  /** How a thread can be let go on without closing: a writer's sends throw. */
  function Unclosing(t: Thread): Outcome { if t.Writer? then Throw else Failure }

  lemma StaysUnbound(s: State, g: nat)
    requires Inv(s) && Barren(s) && g < |s.threads|
    ensures NobodyBound(Apply(s, Go(g, Unclosing(s.threads[g]))))
  {
    var s' := Apply(s, Go(g, Unclosing(s.threads[g])));
    OwnStaysUnbound(s, g);
    forall k | 0 <= k < |s.threads| && k != g ensures !IsBound(s'.threads[k]) {
      OtherStaysUnbound(s, g, Unclosing(s.threads[g]), k);
    }
  }

  lemma ContendedIsUnbound(s: State, k: nat)
    requires Contended(s, k) && k < |s.threads|
    ensures !IsBound(s.threads[k])
  {
  }

  lemma ResumedIsUnbound(s: State, s': State, k: nat)
    requires KeepsThread(k, s, s') && !IsBound(s.threads[k]) && s.threads[k] != Start(Parked2)
    ensures !IsBound(s'.threads[k])
  {
  }

  lemma OtherStaysUnbound(s: State, g: nat, o: Outcome, k: nat)
    requires Inv(s) && Barren(s) && g < |s.threads| && k < |s.threads| && k != g
    ensures k < |Apply(s, Go(g, o)).threads| && !IsBound(Apply(s, Go(g, o)).threads[k])
  {
    OthersKeepThread(s, Go(g, o), k);
    if s.threads[k] == Start(Parked2) {
      var t := ContendedStays(s, Go(g, o), k);
      ContendedIsUnbound(t, k);
    } else {
      ResumedIsUnbound(s, Apply(s, Go(g, o)), k);
    }
  }

  /** The thread itself and the one that it may have scheduled. */
  lemma OwnStaysUnbound(s: State, g: nat)
    requires Inv(s) && Barren(s) && g < |s.threads|
    ensures var t := Apply(s, Go(g, Unclosing(s.threads[g]))).threads;
            (|t| == |s.threads| && !IsBound(t[g])) || t == s.threads[g := Finished] + [Writer(WTest, [])]
  {
    assert !IsBound(s.threads[g]);
    match s.threads[g]
    case Start(pc) => if pc.SpawnWrite? { SpawnsWriter(s, g); } else { StartStaysUnbound(s, g); }
    case Reader(_) => ReaderStaysUnbound(s, g);
    case Writer(_, _) => WriterStaysUnbound(s, g);
    case Sender => SenderEnds(s, g);
    case Finished =>
  }

  lemma ReaderStaysUnbound(s: State, g: nat)
    requires Inv(s) && g < |s.threads| && s.threads[g].Reader? && !IsBound(s.threads[g])
    ensures var t := Apply(s, Go(g, Failure)).threads; |t| == |s.threads| && !IsBound(t[g])
  {
    ReturnsToken(s, g);
  }

  lemma SenderEnds(s: State, g: nat)
    requires Inv(s) && g < |s.threads| && s.threads[g].Sender?
    ensures var t := Apply(s, Go(g, Failure)).threads; |t| == |s.threads| && t[g] == Finished
  {
    BecomeSemInv(s, g, Finished);
    WakesOnlyParked(Become(s, g, Finished));
  }

  lemma SpawnsWriter(s: State, g: nat)
    requires g < |s.threads| && s.threads[g] == Start(SpawnWrite)
    ensures Apply(s, Go(g, Failure)).threads == s.threads[g := Finished] + [Writer(WTest, [])]
  {
  }

  lemma StartStaysUnbound(s: State, g: nat)
    requires Inv(s) && Barren(s) && g < |s.threads| && s.threads[g].Start? && !s.threads[g].spc.SpawnWrite?
    ensures var t := Apply(s, Go(g, Failure)).threads; |t| == |s.threads| && !IsBound(t[g])
  {
    assert !IsBound(s.threads[g]);
    match s.threads[g].spc
    case Wait2 =>
      var x: nat, y: nat :| Clash(s, x, y);
      ClashStoresNone(s, x, y);
    case Return1 => ReturnsOne(s, g);
    case Return2 => ReturnsToken(s, g);
    case _ =>
  }

  lemma ReturnsOne(s: State, g: nat)
    requires SemInv(s) && g < |s.threads| && s.threads[g] == Start(Return1)
    ensures Apply(s, Go(g, Failure)).threads[g] == Start(Return2)
  {
    BecomeSemInv(s, g, Start(Return2));
    WakesOnlyParked(Become(s, g, Start(Return2)));
  }

  lemma WriterStaysUnbound(s: State, g: nat)
    requires Inv(s) && g < |s.threads| && s.threads[g].Writer? && !IsBound(s.threads[g])
    ensures var t := Apply(s, Go(g, Throw)).threads; |t| == |s.threads| && !IsBound(t[g])
  {
    match s.threads[g].wpc
    case WReturn => ReturnsToken(s, g);
    case WClosing(step) => assert step == ToClear;
    case _ =>
  }

  lemma BarrenStays(s: State, g: nat)
    requires Inv(s) && Barren(s) && g < |s.threads|
    ensures Barren(Apply(s, Go(g, Unclosing(s.threads[g]))))
  {
    StaysUnbound(s, g);
    var o := Unclosing(s.threads[g]);
    if NobodyWaits(s) {
      StepServes(s, g, o);
      assert NobodyWaits(Apply(s, Go(g, o))) by {
        forall k | 0 <= k < |s.threads| && k != g ensures !WaitingStart(Apply(s, Go(g, o)).threads[k]) {
          OthersKeepThread(s, Go(g, o), k);
        }
      }
    } else {
      BlockedStays(s, g, o);
    }
  }

  predicate CanRun(t: Thread) { t != Finished && !IsParked(t) }

  lemma SenderDrives(s: State, g: nat, o: Outcome)
    requires g < |s.threads| && s.threads[g].Sender?
    ensures Weight(Apply(s, Go(g, o))) < Weight(s)
  {
    var m := Become(s, g, Finished);
    SumUpdate(Phase, s.threads, g, Finished);
    WakeLightens(m.threads, m.sem.Woken());
  }

  lemma WaiterDrives(s: State, g: nat)
    requires Inv(s) && Barren(s) && g < |s.threads| && (s.threads[g] == Start(Wait1) || s.threads[g] == Start(Wait2))
    ensures Weight(Apply(s, Go(g, Failure))) < Weight(s)
  {
    SumUpdate(Phase, s.threads, g, Apply(s, Go(g, Failure)).threads[g]);
  }

  /** In a barren state every step leads closer to a standstill. */
  lemma BarrenDrives(s: State, g: nat)
    requires Inv(s) && Barren(s) && g < |s.threads| && CanRun(s.threads[g])
    ensures Weight(Apply(s, Go(g, Unclosing(s.threads[g])))) < Weight(s)
  {
    match s.threads[g]
    case Start(pc) =>
      if pc == Wait1 || pc == Wait2 { WaiterDrives(s, g); } else { StartDrives(s, g); }
    case Reader(_) => ReaderDrives(s, g);
    case Writer(_, _) =>
      assert IsWriting(s.threads[g]) && !HasActiveReader(s);
      WriterDrives(s, g);
    case Sender => SenderDrives(s, g, Failure);
  }

  lemma {:induction false} StandStill(s: State) returns (steps: seq<Step>)
    requires Inv(s) && Barren(s)
    ensures NeverSwaps(s, steps) && Inv(Run(s, steps)) && Still(Run(s, steps))
    decreases Weight(s)
  {
    if Still(s) {
      return [];
    }
    var g: nat :| g < |s.threads| && CanRun(s.threads[g]);
    var step := Go(g, Unclosing(s.threads[g]));
    BarrenDrives(s, g);
    BarrenStays(s, g);
    StepKeepsInv(s, step);
    var rest := StandStill(Apply(s, step));
    steps := [step] + rest;
    assert steps[1..] == rest;
  }

  // ---------------------------------------------------------------- getting there

  /** Nobody bound, and no start that has parked with a token. */
  ghost predicate Open(s: State) {
    NobodyBound(s) && forall k :: 0 <= k < |s.threads| ==> s.threads[k] != Start(Parked2)
  }

  lemma Asks(s: State, k: nat)
    requires Open(s) && k < |s.threads| && s.threads[k] == Start(Wait1)
    ensures var s' := Apply(s, Go(k, Success));
            && Open(s') && !Swaps(s, Go(k, Success)) && |s'.threads| == |s.threads|
            && s'.threads == s.threads[k := Start(if s.waitSem.count > 0 then Wait2 else Parked1)]
  {
  }

  /** Once two starts have asked for a token they clash. */
  lemma TwoAsked(s: State, z: nat, y: nat)
    requires Inv(s) && Open(s) && z < |s.threads| && y < |s.threads| && z != y
    requires s.threads[z] == Start(Wait2) || s.threads[z] == Start(Parked1)
    requires s.threads[y] == Start(Wait1)
    ensures var s' := Apply(s, Go(y, Success)); Barren(s') && !Swaps(s, Go(y, Success))
  {
    var s' := Apply(s, Go(y, Success));
    Asks(s, y);
    assert Clash(s', z, y) || Clash(s', y, z);
  }

  lemma OneStep(s: State, step: Step)
    requires Inv(s) && !Swaps(s, step)
    ensures NeverSwaps(s, [step]) && Inv(Run(s, [step])) && Run(s, [step]) == Apply(s, step)
  {
    StepKeepsInv(s, step);
    assert Run(Apply(s, step), [step][1..]) == Apply(s, step) && NeverSwaps(Apply(s, step), [step][1..]);
  }

  /** Two starts that have not both asked for a token yet come to clash. */
  lemma TwoBlock(s: State, z: nat, y: nat) returns (steps: seq<Step>)
    requires Inv(s) && Open(s) && z < |s.threads| && y < |s.threads| && z != y
    requires WaitingStart(s.threads[z]) && s.threads[y] == Start(Wait1)
    ensures NeverSwaps(s, steps) && Inv(Run(s, steps)) && Barren(Run(s, steps))
  {
    if s.threads[z] == Start(Wait1) {
      Asks(s, z);
      OneStep(s, Go(z, Success));
      var s' := Apply(s, Go(z, Success));
      TwoAsked(s', z, y);
      OneStep(s', Go(y, Success));
      steps := [Go(z, Success)] + [Go(y, Success)];
      NeverSwapsThen(s, [Go(z, Success)], [Go(y, Success)]);
    } else {
      TwoAsked(s, z, y);
      OneStep(s, Go(y, Success));
      steps := [Go(y, Success)];
    }
  }

  /** A waiting start and a new call of start() come to clash. */
  lemma CallBlocks(s: State, z: nat) returns (steps: seq<Step>)
    requires Inv(s) && Open(s) && z < |s.threads| && WaitingStart(s.threads[z])
    ensures NeverSwaps(s, steps) && Inv(Run(s, steps)) && Barren(Run(s, steps))
  {
    OneStep(s, CallStart);
    var rest := TwoBlock(Apply(s, CallStart), z, |s.threads|);
    NeverSwapsThen(s, [CallStart], rest);
    steps := [CallStart] + rest;
  }

  lemma ToBarren(s: State) returns (steps: seq<Step>)
    requires Inv(s) && !CloseComes(s)
    ensures NeverSwaps(s, steps) && Inv(Run(s, steps)) && Barren(Run(s, steps))
  {
    forall i | 0 <= i < |s.threads| ensures !IsBound(s.threads[i]) {
      assert !IsSure(s, i);
    }
    forall k: nat | k < |s.threads| && s.threads[k] == Start(Parked2) ensures Contended(s, k) {
      assert !IsSure(s, k);
    }
    if Barren(s) {
      steps := [];
    } else {
      var z :| 0 <= z < |s.threads| && WaitingStart(s.threads[z]);
      forall k | 0 <= k < |s.threads| ensures s.threads[k] != Start(Parked2) {
        if s.threads[k] == Start(Parked2) {
          var m: nat :| Clashes(s, k, m);
        }
      }
      steps := CallBlocks(s, z);
    }
  }

  lemma {:induction false} NeverSwapsThen(s: State, a: seq<Step>, b: seq<Step>)
    requires NeverSwaps(s, a) && NeverSwaps(Run(s, a), b)
    ensures NeverSwaps(s, a + b) && Run(s, a + b) == Run(Run(s, a), b)
    decreases |a|
  {
    if a == [] {
      assert a + b == b;
    } else {
      assert (a + b)[1..] == a[1..] + b;
      NeverSwapsThen(Apply(s, a[0]), a[1..], b);
    }
  }

  /** The threads, with calls of start() and sends whenever they like, can come to a standstill
      without another swap of m_ctxs. */
  ghost predicate CloseAvoidable(s: State) {
    exists steps: seq<Step> :: NeverSwaps(s, steps) && Still(Run(s, steps))
  }

  /** That is so exactly when no close is sure to come. */
  lemma CloseAvoidableIffNoneComes(s: State)
    requires Reachable(s)
    ensures CloseAvoidable(s) <==> !CloseComes(s)
  {
    ReachableInv(s);
    if CloseComes(s) {
      if CloseAvoidable(s) {
        var steps: seq<Step> :| NeverSwaps(s, steps) && Still(Run(s, steps));
        StillToCome(s, steps);
        StillHasNoClose(Run(s, steps));
      }
    } else {
      var steps := Avoid(s);
    }
  }

  lemma Avoid(s: State) returns (steps: seq<Step>)
    requires Inv(s) && !CloseComes(s)
    ensures NeverSwaps(s, steps) && Still(Run(s, steps))
  {
    var a := ToBarren(s);
    var b := StandStill(Run(s, a));
    NeverSwapsThen(s, a, b);
    steps := a + b;
  }
}

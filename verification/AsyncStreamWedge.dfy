/** Whether a start() can proceed: the two exit tokens can be split between two of them, and
    exactly when. */
module AsyncStreamWedges {
  import opened Counting
  import opened FiberSemaphores
  import opened Wrappers
  import opened AsyncStreams
  import opened AsyncStreamTokens
  import opened AsyncStreamTheorems

  predicate HoldsOneParked(t: Thread) {
    t == Start(Parked2)
  }

  /** Two start() calls have each taken one of the two tokens and wait for the other's. */
  ghost predicate Wedged(s: State) {
    exists j, k :: 0 <= j < k < |s.threads| && HoldsOneParked(s.threads[j]) && HoldsOneParked(s.threads[k])
  }

  /** Somebody who holds a token and is not parked on any semaphore. */
  predicate CanReturnToken(t: Thread) {
    Tokens(t) > 0 && !IsParked(t)
  }

  lemma OnlyTwoHolders(s: State, j: nat, k: nat, i: nat)
    requires TokenInv(s) && j < k < |s.threads| && i < |s.threads| && i != j && i != k
    requires HoldsOneParked(s.threads[j]) && HoldsOneParked(s.threads[k])
    ensures s.waitSem.count == 0 && Tokens(s.threads[i]) == 0
  {
    var r := s.threads[j := Finished];
    SumUpdate(Tokens, s.threads, j, Finished);
    SumUpdate(Tokens, r, k, Finished);
    SumAtLeast(Tokens, r[k := Finished], i);
  }

  /** A parked start() can be served, because some runnable thread still holds a token,
      exactly when the two tokens are not split between two parked starts. */
  lemma ParkedStartIsServedUnlessWedged(s: State, i: nat)
    requires Reachable(s) && i < |s.threads| && IsParkedStart(s.threads[i])
    ensures (exists h :: 0 <= h < |s.threads| && CanReturnToken(s.threads[h])) <==> !Wedged(s)
  {
    ReachableInv(s);
    if Wedged(s) {
      var j, k :| 0 <= j < k < |s.threads| && HoldsOneParked(s.threads[j]) && HoldsOneParked(s.threads[k]);
      forall h | 0 <= h < |s.threads| ensures !CanReturnToken(s.threads[h]) {
        if h != j && h != k { OnlyTwoHolders(s, j, k, h); }
      }
    } else {
      var h := SomebodyRunnable(s, i);
      assert CanReturnToken(s.threads[h]);
    }
  }

  lemma SomebodyRunnable(s: State, i: nat) returns (h: nat)
    requires Inv(s) && i < |s.threads| && IsParkedStart(s.threads[i]) && !Wedged(s)
    ensures h < |s.threads| && CanReturnToken(s.threads[h])
  {
    assert s.waitSem.waiters != [] && s.waitSem.count == 0;
    var a := SumWitness(Tokens, s.threads);
    var b := a;
    if Tokens(s.threads[a]) == 1 {
      var rest := s.threads[a := Finished];
      SumUpdate(Tokens, s.threads, a, Finished);
      b := SumWitness(Tokens, rest);
    }
    if CanReturnToken(s.threads[a]) {
      h := a;
    } else if CanReturnToken(s.threads[b]) {
      h := b;
    } else {
      var w := if IsParkedWriter(s.threads[a]) then a else b;
      assert IsParkedWriter(s.threads[w]) by {
        if a < b { assert !(HoldsOneParked(s.threads[a]) && HoldsOneParked(s.threads[b])); }
        if b < a { assert !(HoldsOneParked(s.threads[b]) && HoldsOneParked(s.threads[a])); }
      }
      assert IsWriting(s.threads[w]) && !Released(s, s.threads[w]);
      h :| 0 <= h < |s.threads| && IsActiveReader(s.threads[h]);
    }
  }

  /** Being wedged is final: whatever happens next, both starts stay parked. */
  lemma {:induction false} WedgedForever(s: State, steps: seq<Step>)
    requires Inv(s) && Wedged(s)
    ensures Wedged(Run(s, steps))
    decreases |steps|
  {
    if steps != [] {
      var s' := WedgedStep(s, steps[0]);
      WedgedForever(s', steps[1..]);
    }
  }

  lemma WedgedStep(s: State, step: Step) returns (s': State)
    requires Inv(s) && Wedged(s)
    ensures s' == Apply(s, step) && Inv(s') && Wedged(s')
  {
    s' := Apply(s, step);
    var j, k :| 0 <= j < k < |s.threads| && HoldsOneParked(s.threads[j]) && HoldsOneParked(s.threads[k]);
    StepStaysWedged(s, step, j, k);
    assert HoldsOneParked(s'.threads[j]) && HoldsOneParked(s'.threads[k]);
    StepKeepsInv(s, step);
  }

  lemma StepStaysWedged(s: State, step: Step, j: nat, k: nat)
    requires Inv(s) && j < k < |s.threads|
    requires HoldsOneParked(s.threads[j]) && HoldsOneParked(s.threads[k])
    ensures var s' := Apply(s, step);
            |s.threads| <= |s'.threads| && s'.threads[j] == s.threads[j] && s'.threads[k] == s.threads[k]
  {
    if step.Go? && step.i < |s.threads| && step.i != j && step.i != k {
      OnlyTwoHolders(s, j, k, step.i);
      TokenlessStep(s, step.i, step.outcome);
    }
  }

  /** A thread that holds no token changes no other start. */
  lemma TokenlessStep(s: State, i: nat, o: Outcome)
    requires SemInv(s) && i < |s.threads| && Tokens(s.threads[i]) == 0
    ensures var s' := Apply(s, Go(i, o));
            |s'.threads| == |s.threads| &&
            forall k :: 0 <= k < |s.threads| && k != i && s.threads[k].Start? ==> s'.threads[k] == s.threads[k]
  {
    if s.threads[i].Sender? {
      BecomeSemInv(s, i, Finished);
      var m := Become(s, i, Finished);
      if m.sem.waiters != [] { assert IsParkedWriter(m.threads[m.sem.waiters[0]]); }
    }
  }

  /** It does happen: two overlapping start() calls on an idle stream. */
  lemma OverlappingStartsWedge()
    ensures exists s :: Reachable(s) && Wedged(s)
  {
    var s0 := Init(false);
    var steps := [CallStart, CallStart, Go(0, Success), Go(1, Success), Go(0, Success), Go(1, Success)];
    var s1 := Apply(s0, steps[0]);
    var s2 := Apply(s1, steps[1]);
    var s3 := Apply(s2, steps[2]);
    var s4 := Apply(s3, steps[3]);
    var s5 := Apply(s4, steps[4]);
    var s6 := Apply(s5, steps[5]);
    assert s6.threads == [Start(Parked2), Start(Parked2)];
    assert HoldsOneParked(s6.threads[0]) && HoldsOneParked(s6.threads[1]);
    assert Wedged(s6);
    calc {
      Run(s0, steps);
      Run(s1, steps[1..]);
      { assert steps[1..][1..] == steps[2..]; }
      Run(s2, steps[2..]);
      { assert steps[2..][1..] == steps[3..]; }
      Run(s3, steps[3..]);
      { assert steps[3..][1..] == steps[4..]; }
      Run(s4, steps[4..]);
      { assert steps[4..][1..] == steps[5..]; }
      Run(s5, steps[5..]);
      { assert steps[5..][1..] == []; }
      s6;
    }
  }

  // ---------------------------------------------------------------- when it can still happen

  /** A start that has not asked for its second token yet. */
  predicate Early(t: Thread) {
    t == Start(Wait1) || t == Start(Parked1) || t == Start(Wait2)
  }

  /** a is queued somewhere before b. */
  predicate Before(waiters: seq<Fiber>, a: Fiber, b: Fiber) {
    if waiters == [] || waiters[0] == b then false
    else if waiters[0] == a then b in waiters[1..]
    else Before(waiters[1..], a, b)
  }

  /** Two starts that can come to hold one token each: both early; or b holds one and waits,
      and a has the other, or is served before b. */
  predicate Rivals(s: State, a: nat, b: nat) {
    && a != b && a < |s.threads| && b < |s.threads| && Early(s.threads[a])
    && (Early(s.threads[b]) ||
        (HoldsOneParked(s.threads[b]) &&
         (s.threads[a] == Start(Wait2) || (s.threads[a] == Start(Parked1) && Before(s.waitSem.waiters, a, b)))))
  }

  ghost predicate Risky(s: State) {
    Wedged(s) || exists a: nat, b: nat :: Rivals(s, a, b)
  }

  predicate AllGo(steps: seq<Step>) {
    forall k :: 0 <= k < |steps| ==> steps[k].Go?
  }

  /** Some schedule of the threads there are, with no new call, ends wedged. */
  ghost predicate CanWedge(s: State) {
    exists steps: seq<Step> :: AllGo(steps) && Wedged(Run(s, steps))
  }

  // ---------------------------------------------------------------- driving towards it

  /** How far a thread is from giving its tokens back, connection refused. */
  function Phase(t: Thread): nat {
    match t
    case Start(Wait1) => 13
    case Start(Parked1) => 12
    case Start(Wait2) => 11
    case Start(Parked2) => 10
    case Start(Check) => 9
    case Start(Reconnect) => 7
    case Start(Callback) => 7
    case Start(SpawnRead) => 12
    case Start(SpawnWrite) => 4
    case Start(Closing(ToShut)) => 6
    case Start(Closing(ToNotify)) => 5
    case Start(Closing(ToSwap)) => 4
    case Start(Closing(ToClear)) => 3
    case Start(Return1) => 2
    case Start(Return2) => 1
    case Reader(RTest) => 7
    case Reader(RRecv) => 6
    case Reader(RClosing(ToShut)) => 5
    case Reader(RClosing(ToNotify)) => 4
    case Reader(RClosing(ToSwap)) => 3
    case Reader(RClosing(ToClear)) => 2
    case Reader(RReturn) => 1
    case Writer(_, _) => ExitPhase(t)
    case Sender => 1
    case Finished => 0
  }

  function Weight(s: State): nat { Sum(Phase, s.threads) }

  lemma WakeLightens(threads: seq<Thread>, f: Option<Fiber>)
    ensures Sum(Phase, Wake(threads, f)) <= Sum(Phase, threads)
  {
    if f.Some? && f.value < |threads| {
      SumUpdate(Phase, threads, f.value, Resume(threads[f.value]));
    }
  }

  /** Other starts stay as they are, or the longest waiting one is handed a token. */
  ghost predicate StartsServed(s: State, s': State, h: nat) {
    && |s.threads| <= |s'.threads|
    && (forall k :: 0 <= k < |s.threads| && k != h && !s.threads[k].Start? ==> !s'.threads[k].Start?)
    && if s'.waitSem.waiters == s.waitSem.waiters then
         forall k :: 0 <= k < |s.threads| && k != h && s.threads[k].Start? ==> s'.threads[k] == s.threads[k]
       else
         && s.waitSem.waiters != [] && s'.waitSem.waiters == s.waitSem.waiters[1..]
         && forall k :: 0 <= k < |s.threads| && k != h && s.threads[k].Start? ==>
              s'.threads[k] == if k == s.waitSem.waiters[0] then Resume(s.threads[k]) else s.threads[k]
  }

  /** One step of h towards returning its tokens. */
  ghost predicate Drives(s: State, s': State, h: nat) {
    Weight(s') < Weight(s) && StartsServed(s, s', h)
  }

  lemma BecomeDrives(s: State, s': State, h: nat, t: Thread)
    requires h < |s.threads| && Phase(t) < Phase(s.threads[h])
    requires s'.threads == s.threads[h := t] && s'.waitSem == s.waitSem
    ensures Drives(s, s', h)
  {
    SumUpdate(Phase, s.threads, h, t);
  }

  lemma SpawnDrives(s: State, s': State, h: nat, t: Thread, child: Thread)
    requires h < |s.threads| && Phase(t) + Phase(child) < Phase(s.threads[h])
    requires s'.threads == s.threads[h := t] + [child] && s'.waitSem == s.waitSem
    ensures Drives(s, s', h)
  {
    SumUpdate(Phase, s.threads, h, t);
    SumAppend(Phase, s.threads[h := t], child);
  }

  lemma ReturnDrives(s: State, h: nat, t: Thread)
    requires SemInv(s) && h < |s.threads| && !IsParked(s.threads[h]) && !IsParked(t)
    requires Phase(t) < Phase(s.threads[h])
    ensures Drives(s, NotifyWaitSem(Become(s, h, t)), h)
  {
    var m := Become(s, h, t);
    SumUpdate(Phase, s.threads, h, t);
    WakeLightens(m.threads, m.waitSem.Woken());
    BecomeSemInv(s, h, t);
    if m.waitSem.waiters != [] {
      assert IsParkedStart(m.threads[m.waitSem.waiters[0]]);
      assert m.waitSem.waiters[1..] != m.waitSem.waiters;
    }
  }

  lemma CloseDrives(s: State, h: nat, step: ClosePc, t: Thread)
    requires SemInv(s) && h < |s.threads| && !IsParked(s.threads[h]) && Phase(t) < Phase(s.threads[h])
    ensures Drives(s, Become(InnerClose(s, step).0, h, t), h)
  {
    if step.ToNotify? {
      var m := NotifySem(s);
      WakeLightens(s.threads, s.sem.Woken());
      if s.sem.waiters != [] { assert IsParkedWriter(s.threads[s.sem.waiters[0]]); }
      assert m.threads[h] == s.threads[h];
      SumUpdate(Phase, m.threads, h, t);
    } else {
      BecomeDrives(s, Become(InnerClose(s, step).0, h, t), h, t);
    }
  }

  lemma StartDrives(s: State, h: nat)
    requires SemInv(s) && h < |s.threads| && s.threads[h].Start? && !IsParked(s.threads[h])
    requires Tokens(s.threads[h]) > 0 && s.threads[h] != Start(Wait2)
    ensures Drives(s, Apply(s, Go(h, Failure)), h)
  {
    var s' := Apply(s, Go(h, Failure));
    match s.threads[h].spc
    case Check => BecomeDrives(s, s', h, s'.threads[h]);
    case Reconnect => BecomeDrives(s, s', h, s'.threads[h]);
    case Callback => BecomeDrives(s, s', h, s'.threads[h]);
    case SpawnRead => SpawnDrives(s, s', h, Start(SpawnWrite), Reader(RTest));
    case SpawnWrite => SpawnDrives(s, s', h, Finished, Writer(WTest, []));
    case Closing(step) =>
      var next := InnerClose(s, step).1;
      CloseDrives(s, h, step, Start(if next.Some? then Closing(next.value) else Return1));
    case Return1 => ReturnDrives(s, h, Start(Return2));
    case Return2 => ReturnDrives(s, h, Finished);
  }

  lemma ReaderDrives(s: State, h: nat)
    requires SemInv(s) && h < |s.threads| && s.threads[h].Reader?
    ensures Drives(s, Apply(s, Go(h, Failure)), h)
  {
    var s' := Apply(s, Go(h, Failure));
    match s.threads[h].rpc
    case RTest => BecomeDrives(s, s', h, s'.threads[h]);
    case RRecv => BecomeDrives(s, s', h, s'.threads[h]);
    case RClosing(step) =>
      var next := InnerClose(s, step).1;
      CloseDrives(s, h, step, Reader(if next.Some? then RClosing(next.value) else RReturn));
    case RReturn => ReturnDrives(s, h, Finished);
  }

  lemma WriterDrives(s: State, h: nat)
    requires SemInv(s) && h < |s.threads| && s.threads[h].Writer? && !s.connected && Released(s, s.threads[h])
    ensures Drives(s, Apply(s, Go(h, Throw)), h)
  {
    var s', batch := Apply(s, Go(h, Throw)), s.threads[h].batch;
    match s.threads[h].wpc
    case WClosing(step) =>
      var next := InnerClose(s, step).1;
      CloseDrives(s, h, step, Writer(if next.Some? then WClosing(next.value) else WTest, batch));
    case WReturn => ReturnDrives(s, h, Finished);
    case WTest => BecomeDrives(s, s', h, Writer(WClear, batch));
    case WWait => BecomeDrives(s, s', h, Writer(WSwap, batch));
    case WSwap => BecomeDrives(s, s', h, Writer(WSend, s.queue));
    case WSend => BecomeDrives(s, s', h, Writer(if batch == [] then WTest else WClear, []));
    case WClear => BecomeDrives(s, s', h, Writer(WReturn, batch));
  }

  predicate WaitingStart(t: Thread) { Early(t) || HoldsOneParked(t) }

  /** If somebody other than a waiting start holds a token, somebody can be driven. */
  lemma Drive(s: State, h: nat) returns (g: nat, o: Outcome)
    requires Inv(s) && h < |s.threads| && CanReturnToken(s.threads[h]) && s.threads[h] != Start(Wait2)
    ensures g < |s.threads| && !WaitingStart(s.threads[g]) && Drives(s, Apply(s, Go(g, o)), g)
  {
    g, o := h, Failure;
    match s.threads[h]
    case Start(_) => StartDrives(s, h);
    case Reader(_) => ReaderDrives(s, h);
    case Writer(_, _) =>
      if HasActiveReader(s) {
        g :| 0 <= g < |s.threads| && IsActiveReader(s.threads[g]);
        ReaderDrives(s, g);
      } else {
        assert IsWriting(s.threads[h]);
        o := Throw;
        WriterDrives(s, h);
      }
  }

  // ---------------------------------------------------------------- keeping the rivalry

  lemma BeforePop(ws: seq<Fiber>, a: Fiber, b: Fiber)
    requires Before(ws, a, b)
    ensures ws != [] && ws[0] != b && (ws[0] != a ==> Before(ws[1..], a, b))
  {
  }

  lemma {:induction false} BeforeMeansQueued(ws: seq<Fiber>, a: Fiber, b: Fiber)
    requires Before(ws, a, b)
    ensures a in ws && b in ws
  {
    if ws[0] != a {
      BeforeMeansQueued(ws[1..], a, b);
    }
  }

  /** Serving others only brings rivals closer. */
  lemma ServedRivals(s: State, s': State, h: nat, a: nat, b: nat)
    requires Rivals(s, a, b) && h != a && h != b && StartsServed(s, s', h)
    requires s.threads[a] != Start(Wait1) && s.threads[b] != Start(Wait1)
    requires s.threads[a] == Start(Wait2) ==> Early(s.threads[b])
    ensures Rivals(s', a, b)
  {
    if HoldsOneParked(s.threads[b]) {
      BeforePop(s.waitSem.waiters, a, b);
    }
  }

  /** A start that has a token and finds no second one parks with the first. */
  lemma ParksHolding(s: State, a: nat)
    requires a < |s.threads| && s.threads[a] == Start(Wait2) && s.waitSem.count == 0
    ensures Apply(s, Go(a, Success)).threads == s.threads[a := Start(Parked2)]
    ensures Apply(s, Go(a, Success)).waitSem.waiters == s.waitSem.waiters + [a]
    ensures Weight(Apply(s, Go(a, Success))) < Weight(s)
  {
    SumUpdate(Phase, s.threads, a, Start(Parked2));
  }

  /** A start asks for its first token. */
  lemma AsksFirst(s: State, a: nat, b: nat)
    requires Rivals(s, a, b) && (s.threads[a] == Start(Wait1) || s.threads[b] == Start(Wait1))
    ensures var k := if s.threads[a] == Start(Wait1) then a else b;
            Rivals(Apply(s, Go(k, Success)), a, b) && Weight(Apply(s, Go(k, Success))) < Weight(s)
  {
    var k := if s.threads[a] == Start(Wait1) then a else b;
    var s' := Apply(s, Go(k, Success));
    SumUpdate(Phase, s.threads, k, s'.threads[k]);
  }

  lemma NobodyStored(s: State, k: nat)
    requires Inv(s) && k < |s.threads| && IsParkedStart(s.threads[k])
    ensures s.waitSem.count == 0
  {
  }

  lemma BothHold(s: State, a: nat, b: nat)
    requires Inv(s) && a < |s.threads| && b < |s.threads| && a != b
    requires Tokens(s.threads[a]) == 1 && Tokens(s.threads[b]) == 1
    ensures s.waitSem.count == 0
  {
    if a < b { SumAtLeastTwo(Tokens, s.threads, a, b); } else { SumAtLeastTwo(Tokens, s.threads, b, a); }
  }

  /** Who holds the token that a does not hold. */
  lemma OtherHolder(s: State, a: nat) returns (h: nat)
    requires Inv(s) && a < |s.threads| && Tokens(s.threads[a]) == 1 && s.waitSem.count == 0
    ensures h < |s.threads| && h != a && Tokens(s.threads[h]) == 1
  {
    var rest := s.threads[a := Finished];
    SumUpdate(Tokens, s.threads, a, Finished);
    h := SumWitness(Tokens, rest);
    SumAtLeast(Tokens, rest, h);
  }

  lemma WedgedBy(s: State, a: nat, b: nat)
    requires a < |s.threads| && b < |s.threads| && a != b
    requires HoldsOneParked(s.threads[a]) && HoldsOneParked(s.threads[b])
    ensures Wedged(s)
  {
    if a < b {
      assert HoldsOneParked(s.threads[a]) && HoldsOneParked(s.threads[b]);
    } else {
      assert HoldsOneParked(s.threads[b]) && HoldsOneParked(s.threads[a]);
    }
  }

  /** What one driven step has come to: the wedge, or rivals closer to it. */
  ghost predicate Closer(s: State, s': State, a: nat, b: nat) {
    Wedged(s') || (Weight(s') < Weight(s) && Rivals(s', a, b))
  }

  /** a holds one token and is about to wait for the other, which b does not hold. */
  lemma PushHolder(s: State, a: nat, b: nat) returns (g: nat, o: Outcome, p: nat, q: nat)
    requires Inv(s) && Rivals(s, a, b) && s.threads[a] == Start(Wait2) && s.threads[b] == Start(Parked1)
    ensures Closer(s, Apply(s, Go(g, o)), p, q)
  {
    NobodyStored(s, b);
    g, o, p, q := a, Success, a, b;
    var h := OtherHolder(s, a);
    if s.threads[h] == Start(Wait2) {
      ParksHolding(s, a);
      p, q := h, a;
    } else if HoldsOneParked(s.threads[h]) {
      ParksHolding(s, a);
      WedgedBy(Apply(s, Go(a, Success)), a, h);
    } else {
      if IsParkedWriter(s.threads[h]) {
        WriterNotParkedBesides(s, a, h);
      }
      g, o := Drive(s, h);
      ServedRivals(s, Apply(s, Go(g, o)), g, a, b);
    }
  }

  /** With the other token in a start's hands there is no reader, so the writer is not parked. */
  lemma WriterNotParkedBesides(s: State, a: nat, h: nat)
    requires Inv(s) && a < |s.threads| && h < |s.threads| && s.threads[a] == Start(Wait2) && s.threads[h].Writer?
    requires s.waitSem.count == 0
    ensures !IsParkedWriter(s.threads[h])
  {
    assert IsWriting(s.threads[h]);
    if HasActiveReader(s) {
      var r :| 0 <= r < |s.threads| && IsActiveReader(s.threads[r]);
      var rest := s.threads[a := Finished];
      SumUpdate(Tokens, s.threads, a, Finished);
      if r < h { SumAtLeastTwo(Tokens, rest, r, h); } else { SumAtLeastTwo(Tokens, rest, h, r); }
    }
  }

  /** Both rivals, or a before b, wait for a token that somebody can be driven to return. */
  lemma PushParked(s: State, a: nat, b: nat) returns (g: nat, o: Outcome, p: nat, q: nat)
    requires Inv(s) && !Wedged(s) && Rivals(s, a, b) && s.threads[a] == Start(Parked1)
    requires s.threads[b] != Start(Wait1) && s.threads[b] != Start(Wait2)
    ensures Closer(s, Apply(s, Go(g, o)), p, q)
  {
    NobodyStored(s, a);
    p, q := a, b;
    var h := SomebodyRunnable(s, a);
    if s.threads[h] == Start(Wait2) {
      g, o := h, Success;
      ParksHolding(s, h);
      var s' := Apply(s, Go(h, Success));
      if HoldsOneParked(s.threads[b]) {
        WedgedBy(s', b, h);
      }
    } else {
      g, o := Drive(s, h);
      ServedRivals(s, Apply(s, Go(g, o)), g, a, b);
    }
  }

  /** One step of somebody brings the wedge closer. */
  lemma Push(s: State, a: nat, b: nat) returns (g: nat, o: Outcome, p: nat, q: nat)
    requires Inv(s) && !Wedged(s) && Rivals(s, a, b)
    ensures Closer(s, Apply(s, Go(g, o)), p, q)
  {
    g, o, p, q := a, Success, a, b;
    if s.threads[a] == Start(Wait1) || s.threads[b] == Start(Wait1) {
      AsksFirst(s, a, b);
      g := if s.threads[a] == Start(Wait1) then a else b;
    } else if s.threads[a] == Start(Wait2) && HoldsOneParked(s.threads[b]) {
      NobodyStored(s, b);
      ParksHolding(s, a);
      WedgedBy(Apply(s, Go(a, Success)), a, b);
    } else if s.threads[a] == Start(Wait2) && s.threads[b] == Start(Wait2) {
      BothHold(s, a, b);
      ParksHolding(s, a);
      p, q := b, a;
    } else if s.threads[a] == Start(Wait2) {
      g, o, p, q := PushHolder(s, a, b);
    } else if s.threads[b] == Start(Wait2) {
      g, o, p, q := PushHolder(s, b, a);
    } else {
      g, o, p, q := PushParked(s, a, b);
    }
  }

  lemma PushStep(s: State, a: nat, b: nat) returns (step: Step, s': State, p: nat, q: nat)
    requires Inv(s) && !Wedged(s) && Rivals(s, a, b)
    ensures step.Go? && s' == Apply(s, step) && Inv(s') && Closer(s, s', p, q)
  {
    var g, o;
    g, o, p, q := Push(s, a, b);
    step, s' := Go(g, o), Apply(s, Go(g, o));
    StepKeepsInv(s, step);
  }

  lemma WedgedNow(s: State)
    requires Wedged(s)
    ensures CanWedge(s)
  {
    assert AllGo([]) && Wedged(Run(s, []));
  }

  lemma WedgeAfter(s: State, step: Step)
    requires step.Go? && CanWedge(Apply(s, step))
    ensures CanWedge(s)
  {
    var rest :| AllGo(rest) && Wedged(Run(Apply(s, step), rest));
    var steps := [step] + rest;
    assert steps[0] == step && steps[1..] == rest;
    assert AllGo(steps) && Wedged(Run(s, steps));
  }

  /** Rivals can be scheduled into a wedge. */
  lemma {:induction false} RivalsCanWedge(s: State, a: nat, b: nat)
    requires Inv(s) && Rivals(s, a, b)
    ensures CanWedge(s)
    decreases Weight(s)
  {
    if Wedged(s) {
      WedgedNow(s);
    } else {
      var step, s', p, q := PushStep(s, a, b);
      if Wedged(s') {
        WedgedNow(s');
      } else {
        RivalsCanWedge(s', p, q);
      }
      WedgeAfter(s, step);
    }
  }

  // ---------------------------------------------------------------- and only then

  lemma {:induction false} NotBefore(ws: seq<Fiber>, a: Fiber, b: Fiber)
    requires b in ws && a !in ws
    ensures !Before(ws + [a], a, b)
  {
    if ws[0] != b {
      assert (ws + [a])[1..] == ws[1..] + [a];
      NotBefore(ws[1..], a, b);
    }
  }

  lemma {:induction false} BeforeDropLast(ws: seq<Fiber>, c: Fiber, a: Fiber, b: Fiber)
    requires a != c && b != c
    ensures Before(ws + [c], a, b) == Before(ws, a, b)
  {
    if ws == [] {
      assert ([c])[1..] == [];
    } else {
      assert (ws + [c])[1..] == ws[1..] + [c];
      BeforeDropLast(ws[1..], c, a, b);
    }
  }

  /** A thread that is not waiting for a token does not start to. */
  ghost predicate Serves(s: State, s': State, i: nat) {
    && i < |s.threads| && StartsServed(s, s', i)
    && forall k :: 0 <= k < |s'.threads| && (k == i || k >= |s.threads|) ==> !WaitingStart(s'.threads[k])
  }

  lemma BecomeServes(s: State, s': State, i: nat, t: Thread)
    requires i < |s.threads| && !WaitingStart(t) && s'.threads == s.threads[i := t] && s'.waitSem == s.waitSem
    ensures Serves(s, s', i)
  {
  }

  lemma SpawnServes(s: State, s': State, i: nat, t: Thread, child: Thread)
    requires i < |s.threads| && !WaitingStart(t) && !child.Start?
    requires s'.threads == s.threads[i := t] + [child] && s'.waitSem == s.waitSem
    ensures Serves(s, s', i)
  {
  }

  lemma ReturnServes(s: State, i: nat, t: Thread)
    requires SemInv(s) && i < |s.threads| && !IsParked(s.threads[i]) && !WaitingStart(t) && !IsParked(t)
    ensures Serves(s, NotifyWaitSem(Become(s, i, t)), i)
  {
    var m := Become(s, i, t);
    BecomeSemInv(s, i, t);
    if m.waitSem.waiters != [] {
      assert IsParkedStart(m.threads[m.waitSem.waiters[0]]);
      assert m.waitSem.waiters[1..] != m.waitSem.waiters;
    }
  }

  lemma NotifyServes(s: State, i: nat, t: Thread)
    requires SemInv(s) && i < |s.threads| && !IsParked(s.threads[i]) && !WaitingStart(t)
    ensures Serves(s, Become(NotifySem(s), i, t), i)
  {
    if s.sem.waiters != [] { assert IsParkedWriter(s.threads[s.sem.waiters[0]]); }
  }

  lemma CloseServes(s: State, i: nat, step: ClosePc, t: Thread)
    requires SemInv(s) && i < |s.threads| && !IsParked(s.threads[i]) && !WaitingStart(t)
    ensures Serves(s, Become(InnerClose(s, step).0, i, t), i)
  {
    if step.ToNotify? {
      NotifyServes(s, i, t);
    } else {
      BecomeServes(s, Become(InnerClose(s, step).0, i, t), i, t);
    }
  }

  lemma StartServes(s: State, i: nat, o: Outcome)
    requires SemInv(s) && i < |s.threads| && s.threads[i].Start? && !WaitingStart(s.threads[i])
    ensures Serves(s, Apply(s, Go(i, o)), i)
  {
    var s' := Apply(s, Go(i, o));
    match s.threads[i].spc
    case Check => BecomeServes(s, s', i, s'.threads[i]);
    case Reconnect => BecomeServes(s, s', i, s'.threads[i]);
    case Callback => BecomeServes(s, s', i, s'.threads[i]);
    case SpawnRead => SpawnServes(s, s', i, Start(SpawnWrite), Reader(RTest));
    case SpawnWrite => SpawnServes(s, s', i, Finished, Writer(WTest, []));
    case Closing(step) =>
      var next := InnerClose(s, step).1;
      CloseServes(s, i, step, Start(if next.Some? then Closing(next.value) else Return1));
    case Return1 => ReturnServes(s, i, Start(Return2));
    case Return2 => ReturnServes(s, i, Finished);
  }

  lemma ReaderServes(s: State, i: nat, o: Outcome)
    requires SemInv(s) && i < |s.threads| && s.threads[i].Reader?
    ensures Serves(s, Apply(s, Go(i, o)), i)
  {
    var s' := Apply(s, Go(i, o));
    match s.threads[i].rpc
    case RTest => BecomeServes(s, s', i, s'.threads[i]);
    case RRecv => BecomeServes(s, s', i, s'.threads[i]);
    case RClosing(step) =>
      var next := InnerClose(s, step).1;
      CloseServes(s, i, step, Reader(if next.Some? then RClosing(next.value) else RReturn));
    case RReturn => ReturnServes(s, i, Finished);
  }

  lemma WriterServes(s: State, i: nat, o: Outcome)
    requires SemInv(s) && i < |s.threads| && s.threads[i].Writer?
    ensures Serves(s, Apply(s, Go(i, o)), i)
  {
    var s', batch := Apply(s, Go(i, o)), s.threads[i].batch;
    match s.threads[i].wpc
    case WParked => BecomeServes(s, s', i, s.threads[i]);
    case WClosing(step) =>
      var next := InnerClose(s, step).1;
      CloseServes(s, i, step, Writer(if next.Some? then WClosing(next.value) else WTest, batch));
    case WReturn => ReturnServes(s, i, Finished);
    case WTest => BecomeServes(s, s', i, s'.threads[i]);
    case WWait => BecomeServes(s, s', i, s'.threads[i]);
    case WSwap => BecomeServes(s, s', i, s'.threads[i]);
    case WSend => BecomeServes(s, s', i, s'.threads[i]);
    case WClear => BecomeServes(s, s', i, s'.threads[i]);
  }

  /** Rivals after a step that serves others were rivals before it. */
  lemma ServedBack(s: State, s': State, i: nat, a: nat, b: nat)
    requires SemInv(s) && Serves(s, s', i) && Rivals(s', a, b)
    ensures Rivals(s, a, b)
  {
    assert a != i && b != i && a < |s.threads| && b < |s.threads|;
    assert s.threads[a].Start? && s.threads[b].Start?;
    if s'.waitSem.waiters != s.waitSem.waiters {
      var ws := s.waitSem.waiters;
      assert IsParkedStart(s.threads[ws[0]]);
      if ws[0] == a && HoldsOneParked(s.threads[b]) {
        assert b in ws && b in ws[1..];
      }
    }
  }

  lemma WedgedBack(s: State, s': State, i: nat)
    requires SemInv(s) && Serves(s, s', i) && Wedged(s')
    ensures Wedged(s)
  {
    var j, k :| 0 <= j < k < |s'.threads| && HoldsOneParked(s'.threads[j]) && HoldsOneParked(s'.threads[k]);
    assert j != i && k != i && k < |s.threads|;
    assert s.threads[j].Start? && s.threads[k].Start?;
    if s'.waitSem.waiters != s.waitSem.waiters {
      assert IsParkedStart(s.threads[s.waitSem.waiters[0]]);
    }
    assert HoldsOneParked(s.threads[j]) && HoldsOneParked(s.threads[k]);
  }

  /** Rivals after a start has asked for a token were rivals before it did. */
  lemma AskedBack(s: State, i: nat, o: Outcome, a: nat, b: nat)
    requires Inv(s) && i < |s.threads| && (s.threads[i] == Start(Wait1) || s.threads[i] == Start(Wait2))
    requires Rivals(Apply(s, Go(i, o)), a, b)
    ensures Rivals(s, a, b)
  {
    var s', ws := Apply(s, Go(i, o)), s.waitSem.waiters;
    if a == i {
      if HoldsOneParked(s.threads[b]) {
        assert b in ws && i !in ws;
        NotBefore(ws, a, b);
      }
    } else if b != i && s.waitSem.count == 0 {
      BeforeDropLast(ws, i, a, b);
    }
  }

  lemma WedgedAskedBack(s: State, i: nat, o: Outcome)
    requires Inv(s) && i < |s.threads| && (s.threads[i] == Start(Wait1) || s.threads[i] == Start(Wait2))
    requires Wedged(Apply(s, Go(i, o)))
    ensures Risky(s)
  {
    var s' := Apply(s, Go(i, o));
    var j, k :| 0 <= j < k < |s'.threads| && HoldsOneParked(s'.threads[j]) && HoldsOneParked(s'.threads[k]);
    if j == i {
      assert Rivals(s, i, k);
    } else if k == i {
      assert Rivals(s, i, j);
    } else {
      assert HoldsOneParked(s.threads[j]) && HoldsOneParked(s.threads[k]);
    }
  }

  lemma AskingIsNoRisk(s: State, i: nat, o: Outcome)
    requires Inv(s) && i < |s.threads| && (s.threads[i] == Start(Wait1) || s.threads[i] == Start(Wait2))
    requires Risky(Apply(s, Go(i, o)))
    ensures Risky(s)
  {
    var s' := Apply(s, Go(i, o));
    if Wedged(s') {
      WedgedAskedBack(s, i, o);
    } else {
      var a: nat, b: nat :| Rivals(s', a, b);
      AskedBack(s, i, o, a, b);
    }
  }

  lemma ServingIsNoRisk(s: State, s': State, i: nat)
    requires SemInv(s) && Serves(s, s', i) && Risky(s')
    ensures Risky(s)
  {
    if Wedged(s') {
      WedgedBack(s, s', i);
    } else {
      var a: nat, b: nat :| Rivals(s', a, b);
      ServedBack(s, s', i, a, b);
    }
  }

  /** Scheduling the threads there are creates no risk. */
  lemma SchedulingIsNoRisk(s: State, i: nat, o: Outcome)
    requires Inv(s) && Risky(Apply(s, Go(i, o)))
    ensures Risky(s)
  {
    if i < |s.threads| {
      var s' := Apply(s, Go(i, o));
      match s.threads[i]
      case Start(pc) =>
        if pc == Wait1 || pc == Wait2 {
          AskingIsNoRisk(s, i, o);
        } else if !IsParkedStart(s.threads[i]) {
          StartServes(s, i, o);
          ServingIsNoRisk(s, s', i);
        }
      case Reader(_) =>
        ReaderServes(s, i, o);
        ServingIsNoRisk(s, s', i);
      case Writer(_, _) =>
        WriterServes(s, i, o);
        ServingIsNoRisk(s, s', i);
      case Sender =>
        SenderServes(s, i, o);
        ServingIsNoRisk(s, s', i);
      case Finished =>
    }
  }

  lemma SenderServes(s: State, i: nat, o: Outcome)
    requires SemInv(s) && i < |s.threads| && s.threads[i].Sender?
    ensures Serves(s, Apply(s, Go(i, o)), i)
  {
    BecomeSemInv(s, i, Finished);
    var m := Become(s, i, Finished);
    if m.sem.waiters != [] { assert IsParkedWriter(m.threads[m.sem.waiters[0]]); }
  }

  lemma {:induction false} WedgeWasRisky(s: State, steps: seq<Step>)
    requires Inv(s) && AllGo(steps) && Wedged(Run(s, steps))
    ensures Risky(s)
    decreases |steps|
  {
    if steps != [] {
      var step := steps[0];
      assert step.Go?;
      StepKeepsInv(s, step);
      WedgeWasRisky(Apply(s, step), steps[1..]);
      SchedulingIsNoRisk(s, step.i, step.outcome);
    }
  }

  /** The threads there are can be scheduled into a wedge exactly when two starts are rivals,
      or already wedged. */
  lemma CanWedgeIffRisky(s: State)
    requires Reachable(s)
    ensures CanWedge(s) <==> Risky(s)
  {
    ReachableInv(s);
    if CanWedge(s) {
      var steps :| AllGo(steps) && Wedged(Run(s, steps));
      WedgeWasRisky(s, steps);
    }
    if Wedged(s) {
      WedgedNow(s);
    } else if Risky(s) {
      var a: nat, b: nat :| Rivals(s, a, b);
      RivalsCanWedge(s, a, b);
    }
  }

  // ---------------------------------------------------------------- what a caller can do

  ghost predicate SomebodyEarly(s: State) {
    exists k :: 0 <= k < |s.threads| && Early(s.threads[k])
  }

  /** A new call that finds nobody early is no rival to anybody. */
  lemma AloneHasNoRival(s: State, a: nat, b: nat)
    requires !SomebodyEarly(s)
    ensures !Rivals(Apply(s, CallStart), a, b)
  {
    assert Apply(s, CallStart).threads[|s.threads|] == Start(Wait1);
    assert a < |s.threads| ==> !Early(s.threads[a]);
    assert b < |s.threads| ==> !Early(s.threads[b]);
  }

  lemma CallWedgesNobody(s: State)
    ensures Wedged(Apply(s, CallStart)) ==> Wedged(s)
  {
    var s' := Apply(s, CallStart);
    if Wedged(s') {
      var j, k :| 0 <= j < k < |s'.threads| && HoldsOneParked(s'.threads[j]) && HoldsOneParked(s'.threads[k]);
      assert HoldsOneParked(s.threads[j]) && HoldsOneParked(s.threads[k]);
    }
  }

  /** Calling start() creates the risk exactly when an earlier call has not asked for its second
      token yet. */
  lemma CallIsRiskyIffSomebodyEarly(s: State)
    requires !Risky(s)
    ensures Risky(Apply(s, CallStart)) <==> SomebodyEarly(s)
  {
    var s', n := Apply(s, CallStart), |s.threads|;
    assert s'.threads[n] == Start(Wait1);
    CallWedgesNobody(s);
    if SomebodyEarly(s) {
      var k :| 0 <= k < |s.threads| && Early(s.threads[k]);
      assert s'.threads[k] == s.threads[k];
      assert Rivals(s', k, n);
    } else {
      forall a: nat, b: nat ensures !Rivals(s', a, b) {
        AloneHasNoRival(s, a, b);
      }
    }
  }

  /** Closing from outside and sending create no risk. */
  lemma OthersAreNoRisk(s: State, step: Step)
    requires step.UserClose? || step.Enqueue?
    requires Risky(Apply(s, step))
    ensures Risky(s)
  {
    var s' := Apply(s, step);
    assert forall k :: 0 <= k < |s.threads| ==> s'.threads[k] == s.threads[k];
    assert forall k :: |s.threads| <= k < |s'.threads| ==> !s'.threads[k].Start?;
    if Wedged(s') {
      var j, k :| 0 <= j < k < |s'.threads| && HoldsOneParked(s'.threads[j]) && HoldsOneParked(s'.threads[k]);
      assert HoldsOneParked(s.threads[j]) && HoldsOneParked(s.threads[k]);
    } else {
      var a: nat, b: nat :| Rivals(s', a, b);
      assert Rivals(s, a, b);
    }
  }

  /** At no point of a run can the threads there are be scheduled into a wedge. */
  ghost predicate NeverAtRisk(s: State, steps: seq<Step>)
    decreases |steps|
  {
    !Risky(s) && (steps == [] || NeverAtRisk(Apply(s, steps[0]), steps[1..]))
  }

  /** Every start() is called while no earlier call is early. */
  ghost predicate CallsApart(s: State, steps: seq<Step>)
    decreases |steps|
  {
    steps == [] ||
    ((steps[0].CallStart? ==> !SomebodyEarly(s)) && CallsApart(Apply(s, steps[0]), steps[1..]))
  }

  lemma StepIsRiskyIffCallTooEarly(s: State, step: Step)
    requires Inv(s) && !Risky(s)
    ensures Risky(Apply(s, step)) <==> step.CallStart? && SomebodyEarly(s)
  {
    match step
    case CallStart => CallIsRiskyIffSomebodyEarly(s);
    case Go(i, o) => if Risky(Apply(s, step)) { SchedulingIsNoRisk(s, i, o); }
    case UserClose => if Risky(Apply(s, step)) { OthersAreNoRisk(s, step); }
    case Enqueue(_) => if Risky(Apply(s, step)) { OthersAreNoRisk(s, step); }
  }

  lemma {:induction false} NeverAtRiskIffCallsApart(s: State, steps: seq<Step>)
    requires Inv(s) && !Risky(s)
    ensures NeverAtRisk(s, steps) <==> CallsApart(s, steps)
    decreases |steps|
  {
    if steps != [] {
      var step := steps[0];
      StepIsRiskyIffCallTooEarly(s, step);
      if !Risky(Apply(s, step)) {
        StepKeepsInv(s, step);
        NeverAtRiskIffCallsApart(Apply(s, step), steps[1..]);
      }
    }
  }

  /** Over whole runs: the stream is never in danger of a wedge exactly when every start() is
      called while no earlier one is early, and then it never gets wedged. */
  lemma WedgeFreeIffCallsApart(connected: bool, steps: seq<Step>)
    ensures NeverAtRisk(Init(connected), steps) <==> CallsApart(Init(connected), steps)
    ensures CallsApart(Init(connected), steps) ==> !Wedged(Run(Init(connected), steps))
  {
    NeverAtRiskIffCallsApart(Init(connected), steps);
    if NeverAtRisk(Init(connected), steps) {
      SafeAtEnd(Init(connected), steps);
    }
  }

  lemma {:induction false} SafeAtEnd(s: State, steps: seq<Step>)
    requires NeverAtRisk(s, steps)
    ensures !Risky(Run(s, steps))
    decreases |steps|
  {
    if steps != [] {
      SafeAtEnd(Apply(s, steps[0]), steps[1..]);
    }
  }
}

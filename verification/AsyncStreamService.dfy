/** Which parked start() can still come to hold both tokens. */
module AsyncStreamServices {
  import opened Counting
  import opened FiberSemaphores
  import opened AsyncStreams
  import opened AsyncStreamTokens
  import opened AsyncStreamTheorems
  import opened AsyncStreamWedges

  predicate HoldsOne(t: Thread) {
    t == Start(Wait2) || t == Start(Parked2)
  }

  /** Two starts of which neither can get both tokens before the other gets one: each has one,
      or x is going to get its first before y gets its second. */
  predicate Clash(s: State, x: nat, y: nat) {
    && x != y && x < |s.threads| && y < |s.threads|
    && ((HoldsOne(s.threads[x]) && HoldsOne(s.threads[y]))
        || (s.threads[x] == Start(Parked1) &&
            (s.threads[y] == Start(Parked1) || s.threads[y] == Start(Wait2)
             || (s.threads[y] == Start(Parked2) && Before(s.waitSem.waiters, x, y)))))
  }

  predicate Split(s: State, x: nat, y: nat) {
    x != y && x < |s.threads| && y < |s.threads| && HoldsOne(s.threads[x]) && HoldsOne(s.threads[y])
  }

  predicate Clashes(s: State, i: nat, k: nat) { Clash(s, i, k) || Clash(s, k, i) }

  /** Start i clashes with another one, or waits for its first token while two others have one
      each. */
  ghost predicate Contended(s: State, i: nat) {
    || (exists k: nat :: Clashes(s, i, k))
    || (Waits(s, i) && exists j: nat, k: nat :: Split(s, j, k))
  }

  predicate Waits(s: State, i: nat) {
    i < |s.threads| && s.threads[i] == Start(Parked1)
  }

  // ---------------------------------------------------------------- contention is final

  lemma SplitTakesAll(s: State, x: nat, y: nat, h: nat)
    requires TokenInv(s) && Split(s, x, y)
    ensures s.waitSem.count == 0
    ensures h < |s.threads| && h != x && h != y ==> Tokens(s.threads[h]) == 0
  {
    var r := s.threads[x := Finished];
    SumUpdate(Tokens, s.threads, x, Finished);
    SumUpdate(Tokens, r, y, Finished);
    if h < |s.threads| && h != x && h != y {
      SumAtLeast(Tokens, r[y := Finished], h);
    }
  }

  lemma SplitAsks(s: State, x: nat, y: nat, h: nat, o: Outcome)
    requires Inv(s) && Split(s, x, y) && (h == x || h == y)
    ensures var t := Apply(s, Go(h, o)).threads; t == s.threads || t == s.threads[h := Start(Parked2)]
  {
    SplitTakesAll(s, x, y, h);
  }

  /** Two starts with one token each keep them, and no other start moves on. */
  lemma SplitStays(s: State, step: Step, x: nat, y: nat, i: nat)
    requires Inv(s) && Split(s, x, y) && i < |s.threads| && s.threads[i].Start?
    ensures Split(Apply(s, step), x, y)
    ensures Waits(s, i) ==> Waits(Apply(s, step), i)
  {
    if step.Go? && step.i < |s.threads| {
      if step.i == x || step.i == y {
        SplitAsks(s, x, y, step.i, step.outcome);
      } else {
        SplitTakesAll(s, x, y, step.i);
        TokenlessStep(s, step.i, step.outcome);
        assert IsParkedStart(s.threads[i]) && step.i == i ==> Apply(s, step) == s;
      }
    }
  }

  lemma {:induction false} BeforeLast(ws: seq<Fiber>, a: Fiber, b: Fiber)
    requires a in ws && b !in ws && a != b
    ensures Before(ws + [b], a, b)
  {
    if ws[0] != a {
      assert (ws + [b])[1..] == ws[1..] + [b];
      BeforeLast(ws[1..], a, b);
    } else {
      assert (ws + [b])[1..][|ws| - 1] == b;
    }
  }

  lemma StepServes(s: State, h: nat, o: Outcome)
    requires SemInv(s) && h < |s.threads| && !WaitingStart(s.threads[h])
    ensures Serves(s, Apply(s, Go(h, o)), h)
  {
    match s.threads[h]
    case Start(_) => StartServes(s, h, o);
    case Reader(_) => ReaderServes(s, h, o);
    case Writer(_, _) => WriterServes(s, h, o);
    case Sender => SenderServes(s, h, o);
    case Finished =>
  }

  /** Serving the longest waiting start leaves a clash a clash. */
  lemma ServedClash(s: State, s': State, h: nat, x: nat, y: nat)
    requires SemInv(s) && Serves(s, s', h) && h != x && h != y && Clash(s, x, y) && !Split(s, x, y)
    ensures Clash(s', x, y) || Clash(s', y, x)
  {
    if s'.waitSem.waiters != s.waitSem.waiters && s.threads[y] == Start(Parked2) {
      BeforePop(s.waitSem.waiters, x, y);
    }
  }

  /** A start asks for a token, maybe one of the two. */
  lemma AskedClash(s: State, h: nat, o: Outcome, x: nat, y: nat)
    requires Inv(s) && h < |s.threads| && (s.threads[h] == Start(Wait1) || s.threads[h] == Start(Wait2))
    requires Clash(s, x, y) && !Split(s, x, y)
    ensures Clash(Apply(s, Go(h, o)), x, y)
  {
    var s', ws := Apply(s, Go(h, o)), s.waitSem.waiters;
    NobodyStored(s, x);
    if h == y {
      assert x in ws && y !in ws;
      BeforeLast(ws, x, y);
    } else if s.threads[y] == Start(Parked2) {
      BeforeDropLast(ws, h, x, y);
    }
  }

  lemma ClashStays(s: State, step: Step, x: nat, y: nat)
    requires Inv(s) && Clash(s, x, y)
    ensures Clash(Apply(s, step), x, y) || Clash(Apply(s, step), y, x)
  {
    if Split(s, x, y) {
      SplitStays(s, step, x, y, x);
    } else if step.Go? && step.i < |s.threads| {
      var h := step.i;
      if s.threads[h] == Start(Wait1) || s.threads[h] == Start(Wait2) {
        AskedClash(s, h, step.outcome, x, y);
      } else if !IsParkedStart(s.threads[h]) {
        StepServes(s, h, step.outcome);
        ServedClash(s, Apply(s, step), h, x, y);
      }
    }
  }

  lemma ClashContends(s: State, i: nat, k: nat)
    requires Clashes(s, i, k)
    ensures Contended(s, i)
  {
  }

  lemma SplitKeepsOut(s: State, i: nat, j: nat, k: nat)
    requires Waits(s, i) && Split(s, j, k)
    ensures Contended(s, i)
  {
  }

  lemma ContendedStays(s: State, step: Step, i: nat) returns (s': State)
    requires Inv(s) && Contended(s, i)
    ensures s' == Apply(s, step) && Inv(s') && Contended(s', i)
  {
    s' := Apply(s, step);
    StepKeepsInv(s, step);
    if k: nat :| Clashes(s, i, k) {
      ClashesStay(s, step, i, k);
      ClashContends(s', i, k);
    } else {
      var j: nat, k: nat :| Split(s, j, k);
      SplitStays(s, step, j, k, i);
      SplitKeepsOut(s', i, j, k);
    }
  }

  lemma ClashesStay(s: State, step: Step, i: nat, k: nat)
    requires Inv(s) && Clashes(s, i, k)
    ensures Clashes(Apply(s, step), i, k)
  {
    if Clash(s, i, k) { ClashStays(s, step, i, k); } else { ClashStays(s, step, k, i); }
  }

  lemma {:induction false} ContendedForever(s: State, steps: seq<Step>, i: nat)
    requires Inv(s) && Contended(s, i)
    ensures Contended(Run(s, steps), i)
    decreases |steps|
  {
    if steps != [] {
      var s' := ContendedStays(s, steps[0], i);
      ContendedForever(s', steps[1..], i);
    }
  }

  // ---------------------------------------------------------------- without it, it is served

  /** On its way to both tokens, with nobody in between. */
  ghost predicate Ready(s: State, i: nat) {
    i < |s.threads| && (HoldsOne(s.threads[i]) || s.threads[i] == Start(Parked1)) && !Contended(s, i)
  }

  ghost predicate Has(s: State, i: nat) {
    i < |s.threads| && s.threads[i] == Start(Check)
  }

  lemma ClashBack(s: State, s': State, h: nat, x: nat, y: nat)
    requires SemInv(s) && Serves(s, s', h) && Clash(s', x, y)
    ensures Clash(s, x, y) || Clash(s, y, x)
  {
    assert x != h && y != h && x < |s.threads| && y < |s.threads|;
    assert s.threads[x].Start? && s.threads[y].Start?;
    if s'.waitSem.waiters != s.waitSem.waiters {
      var ws := s.waitSem.waiters;
      assert IsParkedStart(s.threads[ws[0]]);
      if s.threads[x] == Start(Parked2) && ws[0] == y { assert x in ws && x in ws[1..]; }
      if s.threads[y] == Start(Parked2) && ws[0] == x { assert y in ws && y in ws[1..]; }
    }
  }

  lemma SplitBack(s: State, s': State, h: nat, i: nat, x: nat, y: nat)
    requires SemInv(s) && Serves(s, s', h) && i < |s.threads| && s.threads[i] == s'.threads[i] == Start(Parked1)
    requires Split(s', x, y)
    ensures Contended(s, i)
  {
    ClashBack(s, s', h, x, y);
    if !Split(s, x, y) {
      var w := s.waitSem.waiters[0];
      assert w in {x, y} && s.threads[w] == Start(Parked1);
      ClashContends(s, i, w);
    }
  }

  lemma ContendedBack(s: State, s': State, h: nat, i: nat)
    requires SemInv(s) && Serves(s, s', h) && i < |s.threads| && IsParkedStart(s.threads[i]) && h != i
    requires Contended(s', i) && !Has(s', i)
    ensures Contended(s, i)
  {
    if k: nat :| Clashes(s', i, k) {
      if Clash(s', i, k) { ClashBack(s, s', h, i, k); } else { ClashBack(s, s', h, k, i); }
      assert Clashes(s, i, k);
    } else {
      var j: nat, k: nat :| Split(s', j, k);
      SplitBack(s, s', h, i, j, k);
    }
  }

  lemma ServedIsReady(s: State, s': State, h: nat, i: nat)
    requires SemInv(s) && Serves(s, s', h) && Ready(s, i) && IsParkedStart(s.threads[i]) && h != i
    ensures Has(s', i) || Ready(s', i)
  {
    if !Has(s', i) && Contended(s', i) {
      ContendedBack(s, s', h, i);
    }
  }

  lemma SplitContends(s: State, x: nat, y: nat, i: nat)
    requires Split(s, x, y) && i < |s.threads| && IsParkedStart(s.threads[i])
    ensures Contended(s, i)
  {
    if HoldsOne(s.threads[i]) {
      assert Clashes(s, i, if x == i then y else x);
    }
  }

  /** Somebody who can be driven to return a token that i waits for. */
  lemma Driven(s: State, i: nat) returns (h: nat)
    requires Inv(s) && Ready(s, i) && IsParkedStart(s.threads[i])
    ensures h < |s.threads| && CanReturnToken(s.threads[h]) && !HoldsOne(s.threads[h])
  {
    NobodyStored(s, i);
    h := SumWitness(Tokens, s.threads);
    if HoldsOne(s.threads[h]) {
      var b := h;
      h := OtherHolder(s, b);
      if HoldsOne(s.threads[h]) {
        SplitContends(s, b, h, i);
      }
    }
    if IsParkedWriter(s.threads[h]) {
      assert IsWriting(s.threads[h]) && !Released(s, s.threads[h]);
      h :| 0 <= h < |s.threads| && IsActiveReader(s.threads[h]);
    }
  }

  lemma OwnReady(s: State, i: nat)
    requires Inv(s) && Ready(s, i) && s.threads[i] == Start(Wait2)
    ensures var s' := Apply(s, Go(i, Success)); (Has(s', i) || Ready(s', i)) && Weight(s') < Weight(s)
  {
    var s' := Apply(s, Go(i, Success));
    SumUpdate(Phase, s.threads, i, s'.threads[i]);
    if !Has(s', i) && Contended(s', i) {
      OwnContended(s, i);
    }
  }

  lemma OwnContended(s: State, i: nat)
    requires Inv(s) && i < |s.threads| && s.threads[i] == Start(Wait2)
    requires var s' := Apply(s, Go(i, Success)); !Has(s', i) && Contended(s', i)
    ensures Contended(s, i)
  {
    var k: nat :| Clashes(Apply(s, Go(i, Success)), i, k);
    assert Clashes(s, i, k);
  }

  /** One step of somebody towards both tokens for i. */
  lemma ServeStep(s: State, i: nat) returns (step: Step, s': State)
    requires Inv(s) && Ready(s, i)
    ensures step.Go? && s' == Apply(s, step) && Inv(s') && (Has(s', i) || Ready(s', i)) && Weight(s') < Weight(s)
  {
    step := Go(i, Success);
    if s.threads[i] == Start(Wait2) {
      OwnReady(s, i);
    } else {
      var h := Driven(s, i);
      var g, o := Drive(s, h);
      step := Go(g, o);
      StepServes(s, g, o);
      ServedIsReady(s, Apply(s, step), g, i);
    }
    s' := Apply(s, step);
    StepKeepsInv(s, step);
  }

  lemma {:induction false} Serve(s: State, i: nat) returns (steps: seq<Step>)
    requires Inv(s) && Ready(s, i)
    ensures AllGo(steps) && Has(Run(s, steps), i)
    decreases Weight(s)
  {
    var step, s' := ServeStep(s, i);
    var rest := [];
    if !Has(s', i) {
      rest := Serve(s', i);
    }
    steps := [step] + rest;
    assert steps[1..] == rest;
  }

  /** Some schedule of the threads there are brings a parked start to both tokens exactly when
      it is not contended. */
  lemma ParkedStartIsServedIffUncontended(s: State, i: nat)
    requires Reachable(s) && i < |s.threads| && IsParkedStart(s.threads[i])
    ensures (exists steps :: AllGo(steps) && Has(Run(s, steps), i)) <==> !Contended(s, i)
  {
    ReachableInv(s);
    if Contended(s, i) {
      forall steps | AllGo(steps) ensures !Has(Run(s, steps), i) {
        ContendedForever(s, steps, i);
      }
    } else {
      var steps := Serve(s, i);
      assert AllGo(steps) && Has(Run(s, steps), i);
    }
  }

  /** Not being wedged yet is not enough: one start parked with a token, another about to. */
  lemma ContendedBeforeWedged()
    ensures exists s, i: nat :: Reachable(s) && i < |s.threads| && IsParkedStart(s.threads[i])
                                && !Wedged(s) && Contended(s, i)
  {
    var steps := [CallStart, CallStart, Go(0, Success), Go(1, Success), Go(0, Success)];
    var s1 := Apply(Init(false), steps[0]);
    var s2 := Apply(s1, steps[1]);
    var s3 := Apply(s2, steps[2]);
    var s4 := Apply(s3, steps[3]);
    var s5 := Apply(s4, steps[4]);
    assert steps[1..][1..] == steps[2..] && steps[2..][1..] == steps[3..] && steps[3..][1..] == steps[4..];
    assert steps[4..][1..] == [];
    assert Run(s4, steps[4..]) == s5;
    assert Run(s3, steps[3..]) == s5;
    assert Run(s2, steps[2..]) == s5;
    assert Run(s1, steps[1..]) == s5;
    assert Run(Init(false), steps) == s5;
    assert s5.threads == [Start(Parked2), Start(Wait2)];
    assert Clashes(s5, 0, 1) && !HoldsOneParked(s5.threads[1]);
    assert Reachable(s5) && IsParkedStart(s5.threads[0]) && !Wedged(s5) && Contended(s5, 0);
  }
}

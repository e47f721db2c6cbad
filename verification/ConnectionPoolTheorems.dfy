/** Accounting, ownership and wakeups of the connection pool over every interleaving. */
module ConnectionPoolTheorems {
  import opened Counting
  import opened ConnectionPools

  lemma SumsAfterBecome(clients: seq<Client>, i: nat, t: Client)
    requires i < |clients|
    ensures var r := clients[i := t];
            && Sum(InTransit, r) + InTransit(clients[i]) == Sum(InTransit, clients) + InTransit(t)
            && Sum(IsParked, r) + IsParked(clients[i]) == Sum(IsParked, clients) + IsParked(t)
            && Sum(OnTheWay, r) + OnTheWay(clients[i]) == Sum(OnTheWay, clients) + OnTheWay(t)
  {
    SumUpdate(InTransit, clients, i, t);
    SumUpdate(IsParked, clients, i, t);
    SumUpdate(OnTheWay, clients, i, t);
  }

  lemma SumsAfterArrival(clients: seq<Client>, t: Client)
    ensures var r := clients + [t];
            && Sum(InTransit, r) == Sum(InTransit, clients) + InTransit(t)
            && Sum(IsParked, r) == Sum(IsParked, clients) + IsParked(t)
            && Sum(OnTheWay, r) == Sum(OnTheWay, clients) + OnTheWay(t)
  {
    SumAppend(InTransit, clients, t);
    SumAppend(IsParked, clients, t);
    SumAppend(OnTheWay, clients, t);
  }

  /** notify_one() turns one parked getter into one on its way, or finds nobody parked. */
  lemma SumsAfterNotify(clients: seq<Client>, w: nat)
    ensures var r := NotifyOne(clients, w);
            && Sum(InTransit, r) == Sum(InTransit, clients)
            && (if Sum(IsParked, clients) == 0 then r == clients
                else Sum(IsParked, r) + 1 == Sum(IsParked, clients) &&
                     Sum(OnTheWay, r) == Sum(OnTheWay, clients) + 1)
  {
    var i := if w < |clients| && clients[w].Parked? then w else ParkedAt(clients, 0);
    if i < |clients| {
      SumsAfterBecome(clients, i, Woken);
      SumAtLeast(IsParked, clients, i);
    } else {
      SumZero(IsParked, clients);
    }
  }

  // ---------------------------------------------------------------- accounting and wakeups

  ghost predicate CountInv(s: State, slack: int) {
    AccountInv(s) && Slack(s, slack)
  }

  lemma TakeKeepsCounts(s: State, i: nat, slack: nat)
    requires CountInv(s, slack) && i < |s.clients| && (s.clients[i].Entering? || s.clients[i].Woken?)
    ensures CountInv(StepTake(s, i), slack)
  {
    match Take(s.pool).1
    case Block => SumsAfterBecome(s.clients, i, Parked);
    case Reserve => SumsAfterBecome(s.clients, i, Creating);
    case Pop(c) => SumsAfterBecome(s.clients, i, Checking(c));
  }

  /** Giving up a slot frees one unit of capacity and sends one notify. */
  lemma GiveUpKeepsCounts(s: State, i: nat, w: nat, pool: Pool, slack: nat)
    requires CountInv(s, slack) && i < |s.clients| && (s.clients[i].Creating? || s.clients[i].Checking?)
    requires pool == s.pool.(created := s.pool.created - 1)
    ensures CountInv(Notify(Become(s, i, Entering).(pool := pool), w), slack)
  {
    SumsAfterBecome(s.clients, i, Entering);
    SumsAfterNotify(s.clients[i := Entering], w);
  }

  lemma LendKeepsCounts(s: State, i: nat, c: Conn, next: Conn, slack: nat)
    requires CountInv(s, slack) && i < |s.clients| && (s.clients[i].Creating? || s.clients[i].Checking?)
    requires c !in s.lent
    ensures CountInv(Become(s, i, Out).(lent := s.lent + {c}, nextConn := next), slack)
  {
    SumsAfterBecome(s.clients, i, Out);
  }

  lemma WarmingKeepsCounts(s: State, i: nat, w: nat, slack: nat)
    requires CountInv(s, slack) && i < |s.clients| && s.clients[i].Warming?
    ensures CountInv(StepClient(s, i, true, w), slack)
  {
    SumsAfterBecome(s.clients, i, Out);
    SumsAfterNotify(s.clients[i := Out], w);
  }

  /** A failing warmup() frees a slot and wakes nobody. */
  lemma WarmUpFails(s: State, i: nat, w: nat)
    requires AccountInv(s) && i < |s.clients| && s.clients[i].Warming?
    ensures var s' := StepClient(s, i, false, w);
            && AccountInv(s') && Free(s') == Free(s) + 1
            && Sum(IsParked, s'.clients) == Sum(IsParked, s.clients)
            && Sum(OnTheWay, s'.clients) == Sum(OnTheWay, s.clients)
  {
    SumsAfterBecome(s.clients, i, Out);
  }

  lemma ClientKeepsCounts(s: State, i: nat, ok: bool, w: nat, slack: nat)
    requires CountInv(s, slack) && OwnerInv(s) && i < |s.clients| && (s.clients[i].Warming? ==> ok)
    ensures CountInv(StepClient(s, i, ok, w), slack)
  {
    match s.clients[i]
    case Entering => TakeKeepsCounts(s, i, slack);
    case Woken => TakeKeepsCounts(s, i, slack);
    case Parked =>
    case Creating =>
      if ok { LendKeepsCounts(s, i, s.nextConn, s.nextConn + 1, slack); }
      else { GiveUpKeepsCounts(s, i, w, DropReservation(s.pool), slack); }
    case Checking(c) =>
      if ok {
        LendKeepsCounts(s, i, c, s.nextConn, slack);
      } else {
        SumAtLeast(InTransit, s.clients, i);
        GiveUpKeepsCounts(s, i, w, DropDead(s.pool), slack);
      }
    case Owing =>
      SumsAfterBecome(s.clients, i, Out);
      SumsAfterNotify(s.clients[i := Out], w);
    case Warming => WarmingKeepsCounts(s, i, w, slack);
    case Out =>
  }

  lemma SweepKeepsCounts(s: State, expired: set<Conn>, slack: nat)
    requires CountInv(s, slack)
    ensures CountInv(s.(pool := Sweep(s.pool, expired)), slack)
  {
  }

  lemma PutKeepsCounts(s: State, c: Conn, slack: nat)
    requires CountInv(s, slack) && c in s.lent
    ensures CountInv(Apply(s, Put(c)), slack)
  {
    SumsAfterArrival(s.clients, Owing);
  }

  /** Every step but a failing warmup() keeps the accounting, and the slack of the wakeups. */
  lemma StepKeepsCounts(s: State, step: Step, slack: nat)
    requires CountInv(s, slack) && OwnerInv(s) && !FailingWarmUp(s, step)
    requires step.Put? ==> step.c in s.lent
    ensures CountInv(Apply(s, step), slack)
  {
    match step
    case Get => SumsAfterArrival(s.clients, Entering);
    case Put(c) => PutKeepsCounts(s, c, slack);
    case WarmUp => SumsAfterArrival(s.clients, Warming);
    case CheckIdle(expired) => SweepKeepsCounts(s, expired, slack);
    case Spurious(i) =>
      if i < |s.clients| && s.clients[i].Parked? { SumsAfterBecome(s.clients, i, Woken); }
    case Go(i, ok, w) =>
      if i < |s.clients| { ClientKeepsCounts(s, i, ok, w, slack); }
  }

  lemma StepKeepsAccount(s: State, step: Step)
    requires Books(s) && (step.Put? ==> step.c in s.lent)
    ensures AccountInv(Apply(s, step))
  {
    if FailingWarmUp(s, step) {
      WarmUpFails(s, step.i, step.w);
    } else {
      StepKeepsCounts(s, step, if Free(s) > 0 then Free(s) else 0);
    }
  }

  /** The one step that can lose a wakeup, and exactly when it does. */
  lemma WakeupsKeptUnlessLost(s: State, step: Step)
    requires Books(s) && WakeInv(s) && (step.Put? ==> step.c in s.lent)
    ensures WakeInv(Apply(s, step)) <==> !LosesWakeup(s, step)
  {
    if FailingWarmUp(s, step) {
      WarmUpFails(s, step.i, step.w);
    } else {
      StepKeepsCounts(s, step, 0);
    }
  }

  // ---------------------------------------------------------------- ownership

  lemma {:induction false} KeptIsSublist(conns: seq<Conn>, k: nat, expired: set<Conn>)
    requires k <= |conns|
    requires forall i, j :: 0 <= i < j < |conns| ==> conns[i] != conns[j]
    ensures var r := Kept(conns, k, expired);
            && (forall c :: c in r <==> c in conns[..k] && c !in expired)
            && (forall i, j :: 0 <= i < j < |r| ==> r[i] != r[j])
  {
    if k > 0 {
      KeptIsSublist(conns, k - 1, expired);
      assert conns[..k] == conns[..k - 1] + [conns[k - 1]];
      assert conns[k - 1] !in conns[..k - 1];
    }
  }

  lemma NotifyKeepsOwners(s: State, w: nat)
    requires OwnerInv(s)
    ensures OwnerInv(Notify(s, w))
  {
  }

  lemma BecomeKeepsOwners(s: State, i: nat, t: Client)
    requires OwnerInv(s) && i < |s.clients| && !t.Checking?
    ensures OwnerInv(Become(s, i, t))
  {
  }

  lemma TakeKeepsOwners(s: State, i: nat)
    requires OwnerInv(s) && i < |s.clients|
    ensures OwnerInv(StepTake(s, i))
  {
    var taken := Take(s.pool).1;
    if taken.Pop? {
      var s' := StepTake(s, i);
      assert s'.pool.conns == s.pool.conns[1..] && s.pool.conns[0] == taken.c;
      assert taken.c in s.pool.conns && taken.c !in s'.pool.conns;
    }
  }

  lemma CreatingKeepsOwners(s: State, i: nat, ok: bool, w: nat)
    requires OwnerInv(s) && i < |s.clients| && s.clients[i].Creating?
    ensures OwnerInv(StepClient(s, i, ok, w))
  {
    var t := if ok then Out else Entering;
    BecomeKeepsOwners(s, i, t);
    if !ok { NotifyKeepsOwners(Become(s, i, t).(pool := DropReservation(s.pool)), w); }
  }

  lemma CheckingKeepsOwners(s: State, i: nat, ok: bool, w: nat)
    requires OwnerInv(s) && i < |s.clients| && s.clients[i].Checking?
    ensures OwnerInv(StepClient(s, i, ok, w))
  {
    var t := if ok then Out else Entering;
    BecomeKeepsOwners(s, i, t);
    if !ok { NotifyKeepsOwners(Become(s, i, t).(pool := DropDead(s.pool)), w); }
  }

  lemma WarmingKeepsOwners(s: State, i: nat, ok: bool, w: nat)
    requires OwnerInv(s) && i < |s.clients| && s.clients[i].Warming?
    ensures OwnerInv(StepClient(s, i, ok, w))
  {
    BecomeKeepsOwners(s, i, Out);
    if ok {
      var m := Become(s, i, Out).(pool := PutBack(s.pool, s.nextConn), nextConn := s.nextConn + 1);
      NotifyKeepsOwners(m, w);
    }
  }

  lemma ClientKeepsOwners(s: State, i: nat, ok: bool, w: nat)
    requires OwnerInv(s) && i < |s.clients|
    ensures OwnerInv(StepClient(s, i, ok, w))
  {
    match s.clients[i]
    case Entering => TakeKeepsOwners(s, i);
    case Woken => TakeKeepsOwners(s, i);
    case Parked =>
    case Creating => CreatingKeepsOwners(s, i, ok, w);
    case Checking(_) => CheckingKeepsOwners(s, i, ok, w);
    case Owing =>
      BecomeKeepsOwners(s, i, Out);
      NotifyKeepsOwners(Become(s, i, Out), w);
    case Warming => WarmingKeepsOwners(s, i, ok, w);
    case Out =>
  }

  lemma PutKeepsOwners(s: State, c: Conn)
    requires OwnerInv(s) && c in s.lent
    ensures OwnerInv(Apply(s, Put(c)))
  {
    assert c !in s.pool.conns;
  }

  lemma StepKeepsOwners(s: State, step: Step)
    requires OwnerInv(s)
    requires step.Put? ==> step.c in s.lent
    ensures OwnerInv(Apply(s, step))
  {
    match step
    case Put(c) => PutKeepsOwners(s, c);
    case CheckIdle(expired) =>
      KeptIsSublist(s.pool.conns, |s.pool.conns|, expired);
      assert s.pool.conns[..|s.pool.conns|] == s.pool.conns;
      var kept := Kept(s.pool.conns, |s.pool.conns|, expired);
      forall k | 0 <= k < |kept| ensures kept[k] in s.pool.conns { assert kept[k] in kept; }
    case Go(i, ok, w) => if i < |s.clients| { ClientKeepsOwners(s, i, ok, w); }
    case Spurious(i) =>
    case _ =>
  }

  // ---------------------------------------------------------------- theorems

  lemma {:induction false} RunKeepsBooks(s: State, steps: seq<Step>)
    requires Books(s) && Disciplined(s, steps)
    ensures Books(Run(s, steps))
    decreases |steps|
  {
    if steps != [] {
      StepKeepsAccount(s, steps[0]);
      StepKeepsOwners(s, steps[0]);
      RunKeepsBooks(Apply(s, steps[0]), steps[1..]);
    }
  }

  /** m_created always counts exactly the idle, lent, checked and reserved connections, and
      never exceeds the limit. */
  lemma CreatedIsExact(maxSize: nat, steps: seq<Step>)
    requires Disciplined(Init(maxSize), steps)
    ensures var s := Run(Init(maxSize), steps);
            && s.pool.created == |s.pool.conns| + |s.lent| + Sum(InTransit, s.clients)
            && s.pool.created <= s.pool.maxSize
  {
    RunKeepsBooks(Init(maxSize), steps);
  }

  /** Hence the `m_created > 0` guards never block a decrement. */
  lemma GuardsNeverFail(maxSize: nat, steps: seq<Step>, i: nat, expired: set<Conn>)
    requires Disciplined(Init(maxSize), steps)
    ensures var s := Run(Init(maxSize), steps);
            && (i < |s.clients| && s.clients[i].Checking? ==> DropDead(s.pool).created == s.pool.created - 1)
            && Sweep(s.pool, expired).created - |Sweep(s.pool, expired).conns|
               == s.pool.created - |s.pool.conns|
  {
    RunKeepsBooks(Init(maxSize), steps);
    var s := Run(Init(maxSize), steps);
    if i < |s.clients| && s.clients[i].Checking? {
      SumAtLeast(InTransit, s.clients, i);
    }
  }

  /** A connection is never idle twice, lent while idle, or checked by two getters. */
  lemma ConnectionsHaveOneOwner(maxSize: nat, steps: seq<Step>)
    requires Disciplined(Init(maxSize), steps)
    ensures OwnerInv(Run(Init(maxSize), steps))
  {
    RunKeepsBooks(Init(maxSize), steps);
  }

  /** Putting a connection back keeps the books right exactly when it was lent. */
  lemma PutKeepsAccountingIffLent(s: State, c: Conn)
    requires Books(s)
    ensures AccountInv(Apply(s, Put(c))) <==> c in s.lent
  {
    SumsAfterArrival(s.clients, Owing);
  }

  /** No wakeup is lost at any point of a run (while a getter sleeps, all free capacity is
      spoken for by getters already notified and notifies still owed) exactly when no failing
      warmup() frees a slot beside a sleeping getter that nobody is on the way to wake. */
  lemma {:induction false} NoLostPoolWakeup(s: State, steps: seq<Step>)
    requires Books(s) && WakeInv(s) && Disciplined(s, steps)
    ensures AlwaysAwake(s, steps) <==> NoneLost(s, steps)
    decreases |steps|
  {
    if steps != [] {
      WakeupsKeptUnlessLost(s, steps[0]);
      if !LosesWakeup(s, steps[0]) {
        StepKeepsAccount(s, steps[0]);
        StepKeepsOwners(s, steps[0]);
        NoLostPoolWakeup(Apply(s, steps[0]), steps[1..]);
      }
    }
  }

  lemma {:induction false} AloneLosesNone(s: State, steps: seq<Step>)
    requires WarmUpsFailAlone(s, steps)
    ensures NoneLost(s, steps)
    decreases |steps|
  {
    if steps != [] {
      AloneLosesNone(Apply(s, steps[0]), steps[1..]);
    }
  }

  lemma {:induction false} AwakeAtEnd(s: State, steps: seq<Step>)
    requires AlwaysAwake(s, steps)
    ensures WakeInv(Run(s, steps))
    decreases |steps|
  {
    if steps != [] {
      AwakeAtEnd(Apply(s, steps[0]), steps[1..]);
    }
  }

  /** A getter sleeps and nobody is on the way to wake one. */
  ghost predicate Asleep(s: State, i: nat) {
    && i < |s.clients| && s.clients[i].Parked?
    && forall k :: 0 <= k < |s.clients| ==> !s.clients[k].Woken? && !s.clients[k].Owing?
  }

  lemma AsleepTakesNothing(s: State, i: nat)
    requires Books(s) && WakeInv(s) && Asleep(s, i)
    ensures s.pool.conns == [] && |s.lent| + Sum(InTransit, s.clients) == s.pool.maxSize
  {
    SumAtLeast(IsParked, s.clients, i);
    SumZero(OnTheWay, s.clients);
  }

  /** Unless some warmup() failed while a getter slept, a getter sleeps with nobody on the way
      only while every connection is in use. */
  lemma SleepersHaveNothingToTake(maxSize: nat, steps: seq<Step>, i: nat)
    requires Disciplined(Init(maxSize), steps) && WarmUpsFailAlone(Init(maxSize), steps)
    requires Asleep(Run(Init(maxSize), steps), i)
    ensures var s := Run(Init(maxSize), steps);
            s.pool.conns == [] && |s.lent| + Sum(InTransit, s.clients) == s.pool.maxSize
  {
    RunKeepsBooks(Init(maxSize), steps);
    AloneLosesNone(Init(maxSize), steps);
    NoLostPoolWakeup(Init(maxSize), steps);
    AwakeAtEnd(Init(maxSize), steps);
    AsleepTakesNothing(Run(Init(maxSize), steps), i);
  }

  /** A failing warmup() does leave a getter asleep next to a free slot. */
  lemma FailingWarmUpLosesWakeup()
    ensures exists steps: seq<Step> ::
              var s := Run(Init(1), steps);
              && Disciplined(Init(1), steps)
              && s.clients == [Out, Parked] && s.pool == Pool(1, 0, [])
  {
    var steps := [WarmUp, Get, Go(1, true, 0), Go(0, false, 0)];
    var s1 := Apply(Init(1), steps[0]);
    var s2 := Apply(s1, steps[1]);
    var s3 := Apply(s2, steps[2]);
    var s4 := Apply(s3, steps[3]);
    assert s4.clients == [Out, Parked] && s4.pool == Pool(1, 0, []);
    assert steps[1..][1..] == steps[2..] && steps[2..][1..] == steps[3..] && steps[3..][1..] == [];
    assert Run(s3, steps[3..]) == s4 && Disciplined(s3, steps[3..]);
    assert Run(s2, steps[2..]) == s4 && Disciplined(s2, steps[2..]);
    assert Run(s1, steps[1..]) == s4 && Disciplined(s1, steps[1..]);
    assert Run(Init(1), steps) == s4 && Disciplined(Init(1), steps);
  }
}

/** The MySQL connection pool: a mutex-protected list of idle connections, a counter of
    existing ones, and a condition variable.  Creating and checking a connection happen
    outside the lock. */
module ConnectionPools {
  import opened Counting

  type Conn = nat

  /** The fields that m_mutex protects. */
  datatype Pool = Pool(maxSize: int, created: int, conns: seq<Conn>)

  /** What one locked pass of get() comes to; Closed while the pool is being destroyed. */
  datatype Taken = Closed | Block | Reserve | Pop(c: Conn)

  // ---------------------------------------------------------------- critical sections

  /** get(): the wait predicate and what follows it under the same lock. */
  function Take(p: Pool): (Pool, Taken) {
    if p.conns != [] then (p.(conns := p.conns[1..]), Pop(p.conns[0]))
    else if p.created < p.maxSize then (p.(created := p.created + 1), Reserve)
    else (p, Block)
  }

  /** A connection could not be created. */
  function DropReservation(p: Pool): Pool {
    p.(created := p.created - 1)
  }

  /** A popped connection turned out dead; the source guards the decrement. */
  function DropDead(p: Pool): Pool {
    if p.created > 0 then p.(created := p.created - 1) else p
  }

  function PutBack(p: Pool, c: Conn): Pool {
    p.(conns := p.conns + [c])
  }

  /** Of the first k connections, those that survive a sweep, in order. */
  function Kept(conns: seq<Conn>, k: nat, expired: set<Conn>): (r: seq<Conn>)
    requires k <= |conns|
    ensures |r| <= k
  {
    if k == 0 then []
    else Kept(conns, k - 1, expired) + (if conns[k - 1] in expired then [] else [conns[k - 1]])
  }

  /** Of the first k connections, those that a sweep deletes, in order. */
  function Dropped(conns: seq<Conn>, k: nat, expired: set<Conn>): seq<Conn>
    requires k <= |conns|
  {
    if k == 0 then []
    else Dropped(conns, k - 1, expired) + (if conns[k - 1] in expired then [conns[k - 1]] else [])
  }

  lemma EraseOrSkip(kept: seq<Conn>, rest: seq<Conn>)
    requires rest != []
    ensures (kept + rest)[..|kept|] + (kept + rest)[|kept| + 1..] == kept + rest[1..]
    ensures kept + rest == (kept + [rest[0]]) + rest[1..]
  {
  }

  /** `created` after k guarded decrements. */
  function Lowered(created: int, k: nat): int {
    if created <= 0 then created else if k <= created then created - k else 0
  }

  /** checkConnections(): drop the expired idle connections and stop counting them. */
  function Sweep(p: Pool, expired: set<Conn>): Pool {
    var kept := Kept(p.conns, |p.conns|, expired);
    p.(conns := kept, created := Lowered(p.created, |p.conns| - |kept|))
  }

  class ConnectionPool {
    const m_maxSize: int
    var m_created: int
    var m_conns: seq<Conn>
    var m_lastUsed: map<Conn, int>
    var m_closing: bool

    function Value(): Pool
      reads this
    {
      Pool(m_maxSize, m_created, m_conns)
    }

    constructor (maxSize: int)
      ensures Value() == Pool(maxSize, 0, []) && !m_closing
    {
      m_maxSize, m_created, m_conns, m_lastUsed, m_closing := maxSize, 0, [], map[], false;
    }

    method TakeSection() returns (r: Taken)
      modifies this`m_created, this`m_conns
      ensures (Value(), r) == if m_closing then (old(Value()), Closed) else Take(old(Value()))
      ensures r.Closed? <==> m_closing
      ensures r.Pop? ==> old(m_conns) != [] && r.c == old(m_conns)[0] && m_conns == old(m_conns)[1..]
      ensures r.Reserve? ==> old(m_conns) == [] && old(m_created) < m_maxSize && m_created == old(m_created) + 1
      ensures r.Block? ==> old(m_conns) == [] && old(m_created) >= m_maxSize
    {
      if m_closing {
        return Closed;
      }
      if m_conns == [] && m_created >= m_maxSize {
        return Block;
      }
      if m_conns != [] {
        r := Pop(m_conns[0]);
        m_conns := m_conns[1..];
      } else {
        m_created := m_created + 1;
        r := Reserve;
      }
    }

    method Put(c: Conn)
      modifies this`m_conns
      ensures Value() == PutBack(old(Value()), c)
    {
      m_conns := m_conns + [c];
    }

    ghost function Expired(now: int, sec: int): set<Conn>
      reads this
    {
      set c | c in m_conns && c in m_lastUsed && now - m_lastUsed[c] >= sec
    }

    /** checkConnections(): erase the connections idle for sec seconds or more, in place. */
    method CheckConnections(now: int, sec: int) returns (toDel: seq<Conn>)
      requires forall c :: c in m_conns ==> c in m_lastUsed
      modifies this`m_created, this`m_conns
      ensures Value() == Sweep(old(Value()), old(Expired(now, sec)))
      ensures toDel == Dropped(old(m_conns), |old(m_conns)|, old(Expired(now, sec)))
      ensures forall c :: c in m_conns <==> c in old(m_conns) && now - m_lastUsed[c] < sec
      ensures forall c :: c in toDel <==> c in old(m_conns) && now - m_lastUsed[c] >= sec
    {
      toDel := [];
      ghost var conns, expired := m_conns, Expired(now, sec);
      ghost var seen := 0;
      var it := 0;
      ghost var erased := 0;
      while it < |m_conns|
        invariant 0 <= seen <= |conns| && 0 <= it
        invariant Swept(conns, seen, expired, it, m_conns, toDel)
        invariant seen == it + erased && m_created == Lowered(old(m_created), erased)
        decreases |conns| - seen
      {
        var c := m_conns[it];
        var without, more := m_conns[..it] + m_conns[it + 1..], toDel + [c];
        seen := SweepNext(conns, seen, expired, it, m_conns, toDel, without, more);
        if now - m_lastUsed[c] >= sec {
          m_conns, toDel := without, more;
          erased := erased + 1;
          if m_created > 0 {
            m_created := m_created - 1;
          }
        } else {
          it := it + 1;
        }
      }
      SweepDone(conns, seen, expired, it, m_conns, toDel);
      WhoIsSwept(conns, |conns|, expired);
      assert conns[..|conns|] == conns;
    }
  }

  /** The loop of checkConnections() after looking at `seen` of the connections: the first `it`
      of the list have been kept, the rest is still to be looked at. */
  ghost predicate Swept(conns: seq<Conn>, seen: nat, expired: set<Conn>, it: nat, list: seq<Conn>, toDel: seq<Conn>)
    requires seen <= |conns|
  {
    var kept := Kept(conns, seen, expired);
    it == |kept| && list == kept + conns[seen..] && toDel == Dropped(conns, seen, expired)
  }

  /** The next connection is skipped or erased. */
  lemma SweepNext(conns: seq<Conn>, seen: nat, expired: set<Conn>, it: nat, list: seq<Conn>, toDel: seq<Conn>,
                  without: seq<Conn>, more: seq<Conn>) returns (next: nat)
    requires seen <= |conns| && Swept(conns, seen, expired, it, list, toDel) && it < |list|
    requires without == list[..it] + list[it + 1..] && more == toDel + [list[it]]
    ensures next == seen + 1 && next <= |conns| && list[it] in conns
    ensures if list[it] in expired then Swept(conns, next, expired, it, without, more)
            else Swept(conns, next, expired, it + 1, list, toDel)
  {
    var kept, rest := Kept(conns, seen, expired), conns[seen..];
    assert list[it] == rest[0] == conns[seen] && rest[1..] == conns[seen + 1..];
    EraseOrSkip(kept, rest);
    assert toDel + [] == toDel && kept + [] == kept;
    next := seen + 1;
  }

  /** A sweep divides the connections into the expired ones and the others. */
  lemma {:induction false} WhoIsSwept(conns: seq<Conn>, k: nat, expired: set<Conn>)
    requires k <= |conns|
    ensures forall c :: c in Kept(conns, k, expired) <==> c in conns[..k] && c !in expired
    ensures forall c :: c in Dropped(conns, k, expired) <==> c in conns[..k] && c in expired
  {
    if k > 0 {
      WhoIsSwept(conns, k - 1, expired);
      assert conns[..k] == conns[..k - 1] + [conns[k - 1]];
    }
  }

  lemma SweepDone(conns: seq<Conn>, seen: nat, expired: set<Conn>, it: nat, list: seq<Conn>, toDel: seq<Conn>)
    requires seen <= |conns| && Swept(conns, seen, expired, it, list, toDel) && it >= |list|
    ensures seen == |conns| && list == Kept(conns, |conns|, expired) && toDel == Dropped(conns, |conns|, expired)
  {
    assert |list| == it + (|conns| - seen);
  }

  // ---------------------------------------------------------------- the interleaving

  /** A thread inside the pool's code, between two of its critical sections. */
  datatype Client =
    | Entering             // in get(), about to take the lock
    | Parked               // waiting on m_cv
    | Woken                // notified, about to re-take the lock
    | Creating             // newConn() for a reserved slot, called by get()
    | Checking(c: Conn)    // checkAndFix() on a popped connection
    | Owing                // in put(), between unlocking and notify_one()
    | Warming              // newConn() for a reserved slot, called by warmup()
    | Out

  /** lent are the connections handed out and not put back; nextConn numbers new ones. */
  datatype State = State(pool: Pool, clients: seq<Client>, lent: set<Conn>, nextConn: Conn)

  /** ok is the outcome of newConn() or checkAndFix(); w the waiter that notify_one() picks. */
  datatype Step =
    | Get
    | Put(c: Conn)
    | WarmUp
    | CheckIdle(expired: set<Conn>)
    | Spurious(i: nat)
    | Go(i: nat, ok: bool, w: nat)

  function Init(maxSize: nat): State {
    State(Pool(maxSize, 0, []), [], {}, 0)
  }

  function ParkedAt(clients: seq<Client>, from: nat): (i: nat)
    requires from <= |clients|
    ensures from <= i <= |clients|
    ensures i < |clients| ==> clients[i].Parked?
    ensures forall k :: from <= k < i ==> !clients[k].Parked?
    decreases |clients| - from
  {
    if from == |clients| || clients[from].Parked? then from else ParkedAt(clients, from + 1)
  }

  /** notify_one(): wakes the chosen waiter, or some other one if that is not waiting. */
  function NotifyOne(clients: seq<Client>, w: nat): seq<Client> {
    var i := if w < |clients| && clients[w].Parked? then w else ParkedAt(clients, 0);
    if i < |clients| then clients[i := Woken] else clients
  }

  function Become(s: State, i: nat, t: Client): State
    requires i < |s.clients|
  {
    s.(clients := s.clients[i := t])
  }

  function Notify(s: State, w: nat): State {
    s.(clients := NotifyOne(s.clients, w))
  }

  function StepTake(s: State, i: nat): State
    requires i < |s.clients|
  {
    var (pool, taken) := Take(s.pool);
    match taken
    case Closed => s
    case Block => Become(s, i, Parked)
    case Reserve => Become(s, i, Creating).(pool := pool)
    case Pop(c) => Become(s, i, Checking(c)).(pool := pool)
  }

  function StepClient(s: State, i: nat, ok: bool, w: nat): State
    requires i < |s.clients|
  {
    match s.clients[i]
    case Entering => StepTake(s, i)
    case Woken => StepTake(s, i)
    case Parked => s
    case Creating =>
      if ok then Become(s, i, Out).(lent := s.lent + {s.nextConn}, nextConn := s.nextConn + 1)
      else Notify(Become(s, i, Entering).(pool := DropReservation(s.pool)), w)
    case Checking(c) =>
      if ok then Become(s, i, Out).(lent := s.lent + {c})
      else Notify(Become(s, i, Entering).(pool := DropDead(s.pool)), w)
    case Owing => Notify(Become(s, i, Out), w)
    case Warming =>
      if ok then
        Notify(Become(s, i, Out).(pool := PutBack(s.pool, s.nextConn), nextConn := s.nextConn + 1), w)
      else Become(s, i, Out).(pool := DropReservation(s.pool))
    case Out => s
  }

  function Apply(s: State, step: Step): State {
    match step
    case Get => s.(clients := s.clients + [Entering])
    case Put(c) => s.(pool := PutBack(s.pool, c), lent := s.lent - {c}, clients := s.clients + [Owing])
    case WarmUp =>
      if s.pool.created < s.pool.maxSize then
        s.(pool := s.pool.(created := s.pool.created + 1), clients := s.clients + [Warming])
      else s
    case CheckIdle(expired) => s.(pool := Sweep(s.pool, expired))
    case Spurious(i) => if i < |s.clients| && s.clients[i].Parked? then Become(s, i, Woken) else s
    case Go(i, ok, w) => if i < |s.clients| then StepClient(s, i, ok, w) else s
  }

  function Run(s: State, steps: seq<Step>): State
    decreases |steps|
  {
    if steps == [] then s else Run(Apply(s, steps[0]), steps[1..])
  }

  /** Only connections currently lent are put back. */
  ghost predicate Disciplined(s: State, steps: seq<Step>)
    decreases |steps|
  {
    if steps == [] then true
    else (steps[0].Put? ==> steps[0].c in s.lent) && Disciplined(Apply(s, steps[0]), steps[1..])
  }

  // ---------------------------------------------------------------- invariants

  /** Existing or reserved connections that are neither idle nor lent. */
  function InTransit(t: Client): nat {
    if t.Creating? || t.Checking? || t.Warming? then 1 else 0
  }

  function IsParked(t: Client): nat { if t.Parked? then 1 else 0 }

  /** Wakeups on their way: notified getters, and puts that still have to notify. */
  function OnTheWay(t: Client): nat { if t.Woken? || t.Owing? then 1 else 0 }

  function Free(s: State): int {
    |s.pool.conns| + s.pool.maxSize - s.pool.created
  }

  ghost predicate AccountInv(s: State) {
    && s.pool.created == |s.pool.conns| + |s.lent| + Sum(InTransit, s.clients)
    && s.pool.created <= s.pool.maxSize
  }

  /** No connection is in two places. */
  ghost predicate OwnerInv(s: State) {
    && (forall i, j :: 0 <= i < j < |s.pool.conns| ==> s.pool.conns[i] != s.pool.conns[j])
    && (forall i :: 0 <= i < |s.pool.conns| ==> s.pool.conns[i] !in s.lent && s.pool.conns[i] < s.nextConn)
    && (forall c :: c in s.lent ==> c < s.nextConn)
    && (forall i :: 0 <= i < |s.clients| && s.clients[i].Checking? ==>
          s.clients[i].c !in s.lent && s.clients[i].c !in s.pool.conns && s.clients[i].c < s.nextConn)
    && (forall i, j :: 0 <= i < j < |s.clients| && s.clients[i].Checking? && s.clients[j].Checking? ==>
          s.clients[i].c != s.clients[j].c)
  }

  /** While a getter sleeps, free capacity is spoken for by wakeups on their way, short of
      `slack`. */
  ghost predicate Slack(s: State, slack: int) {
    Sum(IsParked, s.clients) > 0 ==> Free(s) <= Sum(OnTheWay, s.clients) + slack
  }

  ghost predicate WakeInv(s: State) {
    Slack(s, 0)
  }

  ghost predicate Books(s: State) {
    AccountInv(s) && OwnerInv(s)
  }

  /** A warmup() that fails to create its connection frees its slot without notifying. */
  predicate FailingWarmUp(s: State, step: Step) {
    step.Go? && step.i < |s.clients| && s.clients[step.i].Warming? && !step.ok
  }

  /** That loses a wakeup when a getter sleeps and every wakeup on its way is needed already. */
  ghost predicate LosesWakeup(s: State, step: Step) {
    FailingWarmUp(s, step) && Sum(IsParked, s.clients) > 0 && Free(s) >= Sum(OnTheWay, s.clients)
  }

  ghost predicate NoneLost(s: State, steps: seq<Step>)
    decreases |steps|
  {
    steps == [] || (!LosesWakeup(s, steps[0]) && NoneLost(Apply(s, steps[0]), steps[1..]))
  }

  /** No warmup() fails while a getter sleeps. */
  ghost predicate WarmUpsFailAlone(s: State, steps: seq<Step>)
    decreases |steps|
  {
    steps == [] ||
    ((FailingWarmUp(s, steps[0]) ==> Sum(IsParked, s.clients) == 0) && WarmUpsFailAlone(Apply(s, steps[0]), steps[1..]))
  }

  /** The wakeup invariant holds at every point of a run. */
  ghost predicate AlwaysAwake(s: State, steps: seq<Step>)
    decreases |steps|
  {
    WakeInv(s) && (steps == [] || AlwaysAwake(Apply(s, steps[0]), steps[1..]))
  }
}

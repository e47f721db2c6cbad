/** The fiber-level counting semaphore: wait() takes a token or queues the fiber,
    notify() hands a token to the longest-waiting fiber or stores it. */
module FiberSemaphores {
  import opened Wrappers

  type Fiber = nat

  /** The value of a semaphore: stored tokens and the fibers parked on it, oldest first. */
  datatype Sem = Sem(count: nat, waiters: seq<Fiber>) {

    /** Tokens are stored only while nobody waits. */
    predicate Valid() {
      count > 0 ==> waiters == []
    }

    function Wait(self: Fiber): Sem {
      if count > 0 then Sem(count - 1, waiters) else Sem(count, waiters + [self])
    }

    function Notify(): Sem {
      if waiters == [] then Sem(count + 1, waiters) else Sem(count, waiters[1..])
    }

    /** The fiber that Notify() schedules, if any. */
    function Woken(): Option<Fiber> {
      if waiters == [] then None else Some(waiters[0])
    }
  }

  class FiberSemaphore {
    var m_count: nat
    var m_waiters: seq<Fiber>

    function Value(): Sem
      reads this
    {
      Sem(m_count, m_waiters)
    }

    constructor (count: nat)
      ensures Value() == Sem(count, []) && Value().Valid()
    {
      m_count, m_waiters := count, [];
    }

    method Wait(self: Fiber) returns (parked: bool)
      modifies this
      ensures Value() == old(Value()).Wait(self)
      ensures parked <==> old(m_count) == 0
      ensures old(Value().Valid()) ==> Value().Valid()
    {
      if m_count > 0 {
        m_count := m_count - 1;
        return false;
      }
      m_waiters := m_waiters + [self];
      return true;
    }

    method Notify() returns (woken: Option<Fiber>)
      modifies this
      ensures Value() == old(Value()).Notify()
      ensures woken == old(Value()).Woken()
      ensures old(Value().Valid()) ==> Value().Valid()
    {
      if m_waiters == [] {
        m_count := m_count + 1;
        return None;
      }
      woken := Some(m_waiters[0]);
      m_waiters := m_waiters[1..];
    }
  }

  datatype Op = Wait(self: Fiber) | Notify

  /** The semaphore after a history of operations. */
  function After(initial: nat, ops: seq<Op>): (s: Sem)
  {
    if ops == [] then Sem(initial, [])
    else
      var s := After(initial, ops[..|ops| - 1]);
      match ops[|ops| - 1]
      case Wait(self) => s.Wait(self)
      case Notify => s.Notify()
  }

  /** The fibers allowed past wait(), in the order in which they were let through. */
  function Passed(initial: nat, ops: seq<Op>): seq<Fiber>
  {
    if ops == [] then []
    else
      var s := After(initial, ops[..|ops| - 1]);
      var passed := Passed(initial, ops[..|ops| - 1]);
      match ops[|ops| - 1]
      case Wait(self) => if s.count > 0 then passed + [self] else passed
      case Notify => if s.Woken().Some? then passed + [s.Woken().value] else passed
  }

  /** The callers of wait(), in call order. */
  function Callers(ops: seq<Op>): seq<Fiber>
  {
    if ops == [] then []
    else
      var callers := Callers(ops[..|ops| - 1]);
      match ops[|ops| - 1]
      case Wait(self) => callers + [self]
      case Notify => callers
  }

  function Notifies(ops: seq<Op>): nat
  {
    if ops == [] then 0
    else Notifies(ops[..|ops| - 1]) + (if ops[|ops| - 1].Notify? then 1 else 0)
  }

  /** No wakeup is lost and nobody overtakes: whatever the history, exactly the first
      min(waits, initial + notifies) callers of wait() have been let through, in call order. */
  lemma {:induction false} ReleasesInOrder(initial: nat, ops: seq<Op>)
    ensures After(initial, ops).Valid()
    ensures Callers(ops) == Passed(initial, ops) + After(initial, ops).waiters
    ensures |Passed(initial, ops)| + After(initial, ops).count == initial + Notifies(ops)
    ensures var available := initial + Notifies(ops);
            |Passed(initial, ops)| == if |Callers(ops)| <= available then |Callers(ops)| else available
  {
    if ops != [] {
      ReleasesInOrder(initial, ops[..|ops| - 1]);
    }
  }
}

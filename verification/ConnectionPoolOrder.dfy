/** Which connection a getter gets, and when it gets a new one or none. */
module ConnectionPoolOrder {
  import opened Counting
  import opened ConnectionPools
  import opened Wrappers

  // ---------------------------------------------------------------- when

  /** A getter comes to create a connection only when none is idle and the limit leaves room, and
      to sleep only when none is idle and the limit is reached. */
  lemma CreatesOrSleepsOnlyWithoutIdle(s: State, step: Step, i: nat)
    requires i < |s.clients| && i < |Apply(s, step).clients|
    ensures !s.clients[i].Creating? && Apply(s, step).clients[i].Creating? ==>
              s.pool.conns == [] && s.pool.created < s.pool.maxSize
    ensures !s.clients[i].Parked? && Apply(s, step).clients[i].Parked? ==>
              s.pool.conns == [] && s.pool.created >= s.pool.maxSize
  {
    if step.Go? && step.i < |s.clients| {
      match s.clients[step.i]
      case Creating => NotifyMakesNeither(s.clients[step.i := Entering], step.w);
      case Checking(_) => NotifyMakesNeither(s.clients[step.i := Entering], step.w);
      case Owing => NotifyMakesNeither(s.clients[step.i := Out], step.w);
      case Warming => NotifyMakesNeither(s.clients[step.i := Out], step.w);
      case _ =>
    }
  }

  lemma NotifyMakesNeither(clients: seq<Client>, w: nat)
    ensures |NotifyOne(clients, w)| == |clients|
    ensures forall k :: 0 <= k < |clients| ==> NotifyOne(clients, w)[k] in {clients[k], Woken}
  {
  }

  // ---------------------------------------------------------------- in which order

  /** The connection that a step puts at the end of the idle list. */
  function Arrives(s: State, step: Step): seq<Conn> {
    match step
    case Put(c) => [c]
    case Go(i, ok, _) => if i < |s.clients| && s.clients[i].Warming? && ok then [s.nextConn] else []
    case _ => []
  }

  /** The connection that a getter has come to check. */
  function Hands(s: State, step: Step): seq<Conn> {
    var t := Apply(s, step);
    if step.Go? && step.i < |s.clients| && step.i < |t.clients|
       && !s.clients[step.i].Checking? && t.clients[step.i].Checking?
    then [t.clients[step.i].c] else []
  }

  function AllArrived(s: State, steps: seq<Step>): seq<Conn>
    decreases |steps|
  {
    if steps == [] then [] else Arrives(s, steps[0]) + AllArrived(Apply(s, steps[0]), steps[1..])
  }

  function AllHanded(s: State, steps: seq<Step>): seq<Conn>
    decreases |steps|
  {
    if steps == [] then [] else Hands(s, steps[0]) + AllHanded(Apply(s, steps[0]), steps[1..])
  }

  /** One step: what is handed out is taken from the front, what arrives goes to the end. */
  lemma StepInOrder(s: State, step: Step)
    requires !step.CheckIdle?
    ensures s.pool.conns + Arrives(s, step) == Hands(s, step) + Apply(s, step).pool.conns
  {
    if step.Go? && step.i < |s.clients| {
      NotifyMakesNeither(s.clients[step.i := Out], step.w);
      NotifyMakesNeither(s.clients[step.i := Entering], step.w);
    }
  }

  /** Without checkConnections(): over any run, the connections handed out and those idle at the
      end are those idle before and those put back or warmed up, in that order. */
  lemma {:induction false} HandedInOrder(s: State, steps: seq<Step>)
    requires forall k :: 0 <= k < |steps| ==> !steps[k].CheckIdle?
    ensures s.pool.conns + AllArrived(s, steps) == AllHanded(s, steps) + Run(s, steps).pool.conns
    decreases |steps|
  {
    if steps != [] {
      var t := Apply(s, steps[0]);
      StepInOrder(s, steps[0]);
      HandedInOrder(t, steps[1..]);
      Exchange(s.pool.conns, Arrives(s, steps[0]), Hands(s, steps[0]), t.pool.conns,
               AllArrived(t, steps[1..]), AllHanded(t, steps[1..]), Run(s, steps).pool.conns);
    }
  }

  lemma Exchange(idle: seq<Conn>, a: seq<Conn>, h: seq<Conn>, next: seq<Conn>, more: seq<Conn>, handed: seq<Conn>,
                 last: seq<Conn>)
    requires idle + a == h + next && next + more == handed + last
    ensures idle + (a + more) == h + handed + last
  {
    Reassociate(idle, a, more);
    Reassociate(h, next, more);
    Reassociate(h, handed, last);
  }

  lemma {:induction false} WithinBefore(h: seq<Conn>, part: seq<Conn>, whole: seq<Conn>)
    requires Within(part, whole)
    ensures Within(h + part, h + whole)
    decreases |whole|
  {
    if whole == [] {
      WithinItself(h);
      assert h + part == h + whole == h;
    } else {
      var w := |whole| - 1;
      assert (h + whole)[..|h| + w] == h + whole[..w];
      if part != [] && part[|part| - 1] == whole[w] && Within(part[..|part| - 1], whole[..w]) {
        WithinBefore(h, part[..|part| - 1], whole[..w]);
        assert (h + part)[..|h| + |part| - 1] == h + part[..|part| - 1];
      } else {
        WithinBefore(h, part, whole[..w]);
      }
    }
  }

  lemma {:induction false} WithinItself(s: seq<Conn>)
    ensures Within(s, s)
  {
    if s != [] {
      WithinItself(s[..|s| - 1]);
    }
  }

  lemma {:induction false} WithinAfter(part: seq<Conn>, whole: seq<Conn>, t: seq<Conn>)
    requires Within(part, whole)
    ensures Within(part + t, whole + t)
    decreases |t|
  {
    if t == [] {
      assert part + t == part && whole + t == whole;
    } else {
      var front, x := t[..|t| - 1], t[|t| - 1];
      WithinAfter(part, whole, front);
      WithinAppend(part + front, whole + front, x);
      assert part + t == part + front + [x] && whole + t == whole + front + [x];
    }
  }

  lemma {:induction false} WithinChain(a: seq<Conn>, b: seq<Conn>, c: seq<Conn>)
    requires Within(a, b) && Within(b, c)
    ensures Within(a, c)
    decreases |b| + |c|
  {
    if a != [] && c != [] && b != [] {
      var cs := c[..|c| - 1];
      if b[|b| - 1] == c[|c| - 1] && Within(b[..|b| - 1], cs) {
        if a[|a| - 1] == b[|b| - 1] && Within(a[..|a| - 1], b[..|b| - 1]) {
          WithinChain(a[..|a| - 1], b[..|b| - 1], cs);
        } else {
          WithinChain(a, b[..|b| - 1], cs);
        }
      } else {
        WithinChain(a, b, cs);
      }
    }
  }

  lemma WithinLonger(part: seq<Conn>, whole: seq<Conn>, x: Conn)
    requires Within(part, whole)
    ensures Within(part, whole + [x])
  {
    assert (whole + [x])[..|whole|] == whole;
  }

  lemma {:induction false} KeptWithin(conns: seq<Conn>, k: nat, expired: set<Conn>)
    requires k <= |conns|
    ensures Within(Kept(conns, k, expired), conns[..k])
  {
    if k > 0 {
      var kept, front, c := Kept(conns, k - 1, expired), conns[..k - 1], conns[k - 1];
      KeptWithin(conns, k - 1, expired);
      assert conns[..k] == front + [c];
      if c in expired {
        assert Kept(conns, k, expired) == kept;
        WithinLonger(kept, front, c);
      } else {
        WithinAppend(kept, front, c);
      }
    }
  }

  lemma PassWithin(idle: seq<Conn>, a: seq<Conn>, h: seq<Conn>, next: seq<Conn>, more: seq<Conn>, handed: seq<Conn>,
                   last: seq<Conn>)
    requires idle + a == h + next && Within(handed + last, next + more)
    ensures Within(h + handed + last, idle + (a + more))
  {
    WithinBefore(h, handed + last, next + more);
    Reassociate(h, handed, last);
    Reassociate(h, next, more);
    Reassociate(idle, a, more);
  }

  lemma SweepWithin(idle: seq<Conn>, next: seq<Conn>, more: seq<Conn>, handed: seq<Conn>, last: seq<Conn>)
    requires Within(next, idle) && Within(handed + last, next + more)
    ensures Within([] + handed + last, idle + ([] + more))
  {
    WithinAfter(next, idle, more);
    WithinChain(handed + last, next + more, idle + more);
    assert [] + handed == handed && [] + more == more;
  }

  /** With checkConnections() some idle ones are left out, and the order stays. */
  lemma {:induction false} HandedWithin(s: State, steps: seq<Step>)
    ensures Within(AllHanded(s, steps) + Run(s, steps).pool.conns, s.pool.conns + AllArrived(s, steps))
    decreases |steps|
  {
    var idle, last := s.pool.conns, Run(s, steps).pool.conns;
    if steps == [] {
      WithinItself(idle);
      assert [] + idle == idle + [] == idle;
    } else {
      var t := Apply(s, steps[0]);
      HandedWithin(t, steps[1..]);
      if steps[0].CheckIdle? {
        KeptWithin(idle, |idle|, steps[0].expired);
        assert idle[..|idle|] == idle;
        SweepWithin(idle, t.pool.conns, AllArrived(t, steps[1..]), AllHanded(t, steps[1..]), last);
      } else {
        StepInOrder(s, steps[0]);
        PassWithin(idle, Arrives(s, steps[0]), Hands(s, steps[0]), t.pool.conns, AllArrived(t, steps[1..]),
                   AllHanded(t, steps[1..]), last);
      }
    }
  }
}

/** Nested transactions on one MySQL session: BEGIN/COMMIT/ROLLBACK outside, SAVEPOINT,
    RELEASE and ROLLBACK TO inside.  The database is a value of any type D and a query is any
    function on it. */
module Transactions {

  // ---------------------------------------------------------------- the session

  datatype Save<D> = Save(name: nat, snap: D)

  /** A MySQL session: the visible state, and, inside a transaction, the state it started
      from and its savepoints, oldest first. */
  datatype Session<D> = Session(db: D, inTxn: bool, base: D, saves: seq<Save<D>>)

  datatype Statement<!D> =
    | BEGIN | COMMIT | ROLLBACK
    | SAVEPOINT(name: nat) | RELEASE(name: nat) | ROLLBACK_TO(name: nat)
    | QUERY(f: D -> D)

  /** Setting a savepoint deletes an older one of the same name. */
  function Without<D>(saves: seq<Save<D>>, name: nat): seq<Save<D>> {
    if saves == [] then []
    else
      var last := |saves| - 1;
      Without(saves[..last], name) + if saves[last].name == name then [] else [saves[last]]
  }

  /** The savepoints up to and including the named one; empty when there is none. */
  function Through<D>(saves: seq<Save<D>>, name: nat): (r: seq<Save<D>>)
    ensures r != [] ==> r[|r| - 1].name == name
  {
    if saves == [] then []
    else if saves[|saves| - 1].name == name then saves
    else Through(saves[..|saves| - 1], name)
  }

  /** What a statement does when it succeeds; RELEASE and ROLLBACK TO fail when the savepoint
      does not exist. */
  predicate CanRun<D>(s: Session<D>, st: Statement<D>) {
    match st
    case RELEASE(n) => s.inTxn && Through(s.saves, n) != []
    case ROLLBACK_TO(n) => s.inTxn && Through(s.saves, n) != []
    case _ => true
  }

  function Exec<D>(s: Session<D>, st: Statement<D>): Session<D>
    requires CanRun(s, st)
  {
    match st
    case BEGIN => Session(s.db, true, s.db, [])
    case COMMIT => Session(s.db, false, s.db, [])
    case ROLLBACK => if s.inTxn then Session(s.base, false, s.base, []) else s
    case SAVEPOINT(n) => if s.inTxn then s.(saves := Without(s.saves, n) + [Save(n, s.db)]) else s
    case RELEASE(n) => s.(saves := var t := Through(s.saves, n); t[..|t| - 1])
    case ROLLBACK_TO(n) =>
      var t := Through(s.saves, n);
      s.(db := t[|t| - 1].snap, saves := t)
    case QUERY(f) => s.(db := f(s.db))
  }

  // ---------------------------------------------------------------- the transaction object

  datatype State<D> = State(session: Session<D>, depth: nat, finished: bool, hasError: bool)

  /** A call and how the server answers its statement (0 is success). */
  datatype Op<!D> = Begin(code: int) | Commit(code: int) | Rollback(code: int) | Execute(f: D -> D, code: int)

  /** The statement a call sends, if any. */
  datatype Sent<!D> = Nothing | Sends(st: Statement<D>)

  function StatementOf<D>(s: State<D>, op: Op<D>): Sent<D> {
    match op
    case Begin(_) =>
      if s.finished then Nothing else Sends(if s.depth == 0 then BEGIN else SAVEPOINT(s.depth))
    case Commit(_) =>
      if s.depth == 0 then Nothing else Sends(if s.depth == 1 then COMMIT else RELEASE(s.depth - 1))
    case Rollback(_) =>
      if s.depth == 0 then Nothing else Sends(if s.depth == 1 then ROLLBACK else ROLLBACK_TO(s.depth - 1))
    case Execute(f, _) => if s.finished then Nothing else Sends(QUERY(f))
  }

  /** Whether the server carries the statement out. */
  predicate Succeeds<D>(s: State<D>, op: Op<D>) {
    var sent := StatementOf(s, op);
    sent.Sends? ==> op.code == 0 && CanRun(s.session, sent.st)
  }

  /** One call on the object. */
  function Step<D>(s: State<D>, op: Op<D>): State<D> {
    var sent := StatementOf(s, op);
    if sent.Nothing? then
      if op.Rollback? then s.(finished := true) else s
    else
      var ok := Succeeds(s, op);
      var session := if ok then Exec(s.session, sent.st) else s.session;
      match op
      case Begin(_) => if ok then s.(session := session, depth := s.depth + 1) else s.(hasError := true)
      case Execute(_, _) => State(session, s.depth, s.finished, s.hasError || !ok)
      case _ => State(session, s.depth - 1, s.finished || (ok && s.depth == 1), s.hasError || !ok)
  }

  function Run<D>(s: State<D>, ops: seq<Op<D>>): State<D>
    decreases |ops|
  {
    if ops == [] then s else Run(Step(s, ops[0]), ops[1..])
  }

  /** The destructor rolls an unfinished transaction back. */
  function Destroyed<D>(s: State<D>): State<D> {
    if !s.finished && s.depth > 0 then s.(session := Exec(s.session, ROLLBACK), finished := true) else s
  }

  /** A new object on an idle session. */
  function Fresh<D>(db: D): State<D> { State(Session(db, false, db, []), 0, false, false) }

  // ---------------------------------------------------------------- the reference: a stack of snapshots

  datatype Stack<D> = Stack(db: D, snaps: seq<D>, closed: bool)

  function Drop<D>(t: Stack<D>, db: D): Stack<D>
    requires t.snaps != []
  {
    Stack(db, t.snaps[..|t.snaps| - 1], t.closed || |t.snaps| == 1)
  }

  /** begin pushes the state, commit forgets the newest snapshot, rollback restores it. */
  function StackStep<D>(t: Stack<D>, op: Op<D>): Stack<D> {
    match op
    case Begin(code) => if t.closed || code != 0 then t else t.(snaps := t.snaps + [t.db])
    case Commit(_) => if t.snaps == [] then t else Drop(t, t.db)
    case Rollback(_) => if t.snaps == [] then t.(closed := true) else Drop(t, t.snaps[|t.snaps| - 1])
    case Execute(f, code) => if t.closed || code != 0 then t else t.(db := f(t.db))
  }

  function StackRun<D>(t: Stack<D>, ops: seq<Op<D>>): Stack<D>
    decreases |ops|
  {
    if ops == [] then t else StackRun(StackStep(t, ops[0]), ops[1..])
  }

  /** The savepoints that matter at a depth; the others are left over from rollbacks. */
  function Live<D>(saves: seq<Save<D>>, depth: nat): seq<Save<D>> {
    if saves == [] then []
    else
      var last := |saves| - 1;
      Live(saves[..last], depth) + if saves[last].name < depth then [saves[last]] else []
  }

  /** The inner snapshots under the names their begin calls gave them. */
  function Named<D>(snaps: seq<D>): seq<Save<D>> {
    if |snaps| <= 1 then [] else Named(snaps[..|snaps| - 1]) + [Save(|snaps| - 1, snaps[|snaps| - 1])]
  }

  ghost predicate Refines<D>(s: State<D>, t: Stack<D>) {
    && s.session.db == t.db && s.depth == |t.snaps| && s.finished == t.closed
    && (s.finished ==> s.depth == 0)
    && s.session.inTxn == (s.depth > 0)
    && (s.depth > 0 ==> s.session.base == t.snaps[0] && Live(s.session.saves, s.depth) == Named(t.snaps))
  }

  lemma {:induction false} LiveWithout<D>(saves: seq<Save<D>>, d: nat)
    ensures Live(Without(saves, d), d + 1) == Live(saves, d)
  {
    if saves != [] {
      var last := |saves| - 1;
      LiveWithout(saves[..last], d);
      if saves[last].name != d {
        LiveAppend(Without(saves[..last], d), saves[last], d + 1);
      } else {
        assert Without(saves, d) == Without(saves[..last], d);
      }
    }
  }

  lemma LiveAppend<D>(saves: seq<Save<D>>, s: Save<D>, d: nat)
    ensures Live(saves + [s], d) == Live(saves, d) + if s.name < d then [s] else []
  {
    assert (saves + [s])[..|saves|] == saves;
  }

  /** ROLLBACK TO and RELEASE find the newest live savepoint below any left-over ones. */
  lemma {:induction false} ThroughLive<D>(saves: seq<Save<D>>, d: nat, front: seq<Save<D>>, top: Save<D>)
    requires Live(saves, d + 1) == front + [top] && top.name == d
    ensures var t := Through(saves, d);
            t != [] && t[|t| - 1] == top && Live(t[..|t| - 1], d + 1) == front
  {
    var last := |saves| - 1;
    var init := Live(saves[..last], d + 1);
    if saves[last].name <= d {
      assert front + [top] == init + [saves[last]];
      assert (front + [top])[|front|] == top && (front + [top])[..|front|] == front;
      assert (init + [saves[last]])[|init|] == saves[last] && (init + [saves[last]])[..|init|] == init;
    } else {
      ThroughLive(saves[..last], d, front, top);
    }
  }

  lemma {:induction false} LiveLower<D>(saves: seq<Save<D>>, d: nat, live: seq<Save<D>>)
    requires live == Live(saves, d + 1) && forall i :: 0 <= i < |live| ==> live[i].name < d
    ensures Live(saves, d) == live
  {
    if saves != [] {
      var last := |saves| - 1;
      var init := Live(saves[..last], d + 1);
      assert forall i :: 0 <= i < |init| ==> live[i] == init[i];
      assert saves[last].name < d + 1 ==> live[|init|] == saves[last];
      LiveLower(saves[..last], d, init);
    }
  }

  lemma {:induction false} NamedBelow<D>(snaps: seq<D>)
    ensures |Named(snaps)| == (if |snaps| == 0 then 0 else |snaps| - 1)
    ensures forall i :: 0 <= i < |Named(snaps)| ==> Named(snaps)[i].name < |snaps|
  {
    if |snaps| > 1 {
      NamedBelow(snaps[..|snaps| - 1]);
    }
  }

  /** Setting the savepoint of a new level, whatever was left over under its name. */
  lemma LiveAfterBegin<D>(saves: seq<Save<D>>, snaps: seq<D>, db: D)
    requires snaps != [] && Live(saves, |snaps|) == Named(snaps)
    ensures Live(Without(saves, |snaps|) + [Save(|snaps|, db)], |snaps| + 1) == Named(snaps + [db])
  {
    var d := |snaps|;
    LiveWithout(saves, d);
    LiveAppend(Without(saves, d), Save(d, db), d + 1);
    assert (snaps + [db])[..d] == snaps;
  }

  /** The newest level's savepoint is there, and below it are those of the levels left. */
  lemma LiveBeforeEnd<D>(saves: seq<Save<D>>, snaps: seq<D>) returns (t: seq<Save<D>>)
    requires |snaps| > 1 && Live(saves, |snaps|) == Named(snaps)
    ensures t == Through(saves, |snaps| - 1) && t != [] && t[|t| - 1].snap == snaps[|snaps| - 1]
    ensures Live(t[..|t| - 1], |snaps| - 1) == Named(snaps[..|snaps| - 1]) == Live(t, |snaps| - 1)
  {
    var d, front := |snaps| - 1, Named(snaps[..|snaps| - 1]);
    t := Through(saves, d);
    ThroughLive(saves, d, front, Save(d, snaps[d]));
    NamedBelow(snaps[..d]);
    LiveLower(t[..|t| - 1], d, front);
    LiveAppend(t[..|t| - 1], t[|t| - 1], d);
    assert t == t[..|t| - 1] + [t[|t| - 1]];
  }

  lemma BeginRefines<D>(s: State<D>, t: Stack<D>, code: int)
    requires Refines(s, t)
    ensures Refines(Step(s, Op<D>.Begin(code)), StackStep(t, Op<D>.Begin(code)))
  {
    if !s.finished && code == 0 && s.depth > 0 {
      LiveAfterBegin(s.session.saves, t.snaps, t.db);
    } else {
      assert Named([t.db]) == [] && Live<D>([], 1) == [];
    }
  }

  lemma EndRefines<D>(s: State<D>, t: Stack<D>, op: Op<D>)
    requires Refines(s, t) && (op.Commit? || op.Rollback?) && op.code == 0
    ensures Refines(Step(s, op), StackStep(t, op)) && Succeeds(s, op)
  {
    if s.depth > 1 {
      var saves := LiveBeforeEnd(s.session.saves, t.snaps);
    }
  }

  /** One call keeps the object and the snapshot stack in step; in particular every RELEASE
      and ROLLBACK TO finds its savepoint. */
  lemma StepRefines<D>(s: State<D>, t: Stack<D>, op: Op<D>)
    requires Refines(s, t) && (op.Commit? || op.Rollback? ==> op.code == 0)
    ensures Refines(Step(s, op), StackStep(t, op))
    ensures Succeeds(s, op) <==> StatementOf(s, op).Nothing? || op.code == 0
  {
    match op
    case Begin(code) => BeginRefines(s, t, code);
    case Commit(_) => EndRefines(s, t, op);
    case Rollback(_) => EndRefines(s, t, op);
    case Execute(_, _) =>
  }

  /** Every commit and rollback statement among the calls succeeds. */
  predicate EndsSucceed<D>(ops: seq<Op<D>>) {
    forall i :: 0 <= i < |ops| && (ops[i].Commit? || ops[i].Rollback?) ==> ops[i].code == 0
  }

  /** Nested transactions: when no commit or rollback statement fails (a begin or a query
      may), any sequence of calls leaves the database that the stack of snapshots gives. */
  lemma {:induction false} RunRefines<D>(s: State<D>, t: Stack<D>, ops: seq<Op<D>>)
    requires Refines(s, t) && EndsSucceed(ops)
    ensures Refines(Run(s, ops), StackRun(t, ops))
    decreases |ops|
  {
    if ops != [] {
      StepRefines(s, t, ops[0]);
      RunRefines(Step(s, ops[0]), StackStep(t, ops[0]), ops[1..]);
    }
  }

  /** The same for a new object on an idle session. */
  lemma FreshRunRefines<D>(db: D, ops: seq<Op<D>>)
    requires EndsSucceed(ops)
    ensures Run(Fresh(db), ops).session.db == StackRun(Stack(db, [], false), ops).db
  {
    RunRefines(Fresh(db), Stack(db, [], false), ops);
  }

  // ---------------------------------------------------------------- errors

  /** Some statement among the calls fails. */
  predicate SomeFails<D>(s: State<D>, ops: seq<Op<D>>)
    decreases |ops|
  {
    ops != [] && (!Succeeds(s, ops[0]) || SomeFails(Step(s, ops[0]), ops[1..]))
  }

  /** m_hasError tells exactly whether a statement has failed since the object was made. */
  lemma {:induction false} ErrorsAreRemembered<D>(s: State<D>, ops: seq<Op<D>>)
    ensures Run(s, ops).hasError <==> s.hasError || SomeFails(s, ops)
    decreases |ops|
  {
    if ops != [] {
      ErrorsAreRemembered(Step(s, ops[0]), ops[1..]);
    }
  }

  /** A failing statement leaves the session as it was; commit and rollback count the level as
      closed all the same, begin and execute leave the depth. */
  lemma FailuresLeaveSession<D>(s: State<D>, op: Op<D>)
    requires !Succeeds(s, op)
    ensures var t := Step(s, op);
            && t.session == s.session && t.hasError && t.finished == s.finished
            && t.depth == (if op.Commit? || op.Rollback? then s.depth - 1 else s.depth)
  {
  }

  /** What each call sends: the first level is a transaction of its own, level n within it the
      savepoint n, and nothing is sent once the object is finished but by an end of an open level. */
  lemma StatementsByDepth<D>(s: State<D>, code: int, f: D -> D)
    ensures StatementOf(s, Op<D>.Begin(code)) ==
            if s.finished then Nothing else if s.depth == 0 then Sends(BEGIN) else Sends(SAVEPOINT(s.depth))
    ensures s.depth == 0 ==> StatementOf(s, Op<D>.Commit(code)) == StatementOf(s, Op<D>.Rollback(code)) == Nothing
    ensures s.depth == 1 ==> StatementOf(s, Op<D>.Commit(code)) == Sends(COMMIT)
                             && StatementOf(s, Op<D>.Rollback(code)) == Sends(ROLLBACK)
    ensures s.depth > 1 ==> StatementOf(s, Op<D>.Commit(code)) == Sends(RELEASE(s.depth - 1))
                            && StatementOf(s, Op<D>.Rollback(code)) == Sends(ROLLBACK_TO(s.depth - 1))
    ensures StatementOf(s, Op<D>.Execute(f, code)) == if s.finished then Nothing else Sends(QUERY(f))
  {
  }

  // ---------------------------------------------------------------- the classes

  class Connection<D> {
    var session: Session<D>

    constructor (session: Session<D>)
      ensures this.session == session
    {
      this.session := session;
    }

    /** Send a statement; any statement may fail, and then changes nothing. */
    method Execute(st: Statement<D>) returns (r: int)
      modifies this
      ensures r == 0 ==> CanRun(old(session), st) && session == Exec(old(session), st)
      ensures r != 0 ==> session == old(session)
    {
      r := *;
      if !CanRun(session, st) {
        return 1;
      }
      if r == 0 {
        session := Exec(session, st);
      }
    }
  }

  class Transaction<D> {
    const m_conn: Connection?<D>
    var m_depth: nat
    var m_finished: bool
    var m_hasError: bool

    constructor (conn: Connection?<D>)
      ensures m_conn == conn && m_depth == 0 && !m_finished && !m_hasError
    {
      m_conn, m_depth, m_finished, m_hasError := conn, 0, false, false;
    }

    ghost function View(): State<D>
      requires m_conn != null
      reads this, m_conn
    {
      State(m_conn.session, m_depth, m_finished, m_hasError)
    }

    ghost predicate Same(depth: nat, finished: bool, hasError: bool)
      reads this
    {
      m_depth == depth && m_finished == finished && m_hasError == hasError
    }

    method Begin() returns (b: bool, ghost code: int)
      modifies this, m_conn
      ensures m_conn == null ==> !b && Same(old(m_depth), old(m_finished), old(m_hasError))
      ensures m_conn != null ==> View() == Step(old(View()), Op.Begin(code))
      ensures m_conn != null ==> (b <==> !old(m_finished) && code == 0)
    {
      code := 1;
      if m_conn == null || m_finished {
        return false, code;
      }
      var r := m_conn.Execute(if m_depth == 0 then BEGIN else SAVEPOINT(m_depth));
      code := r;
      if r != 0 {
        m_hasError := true;
        return false, code;
      }
      m_depth := m_depth + 1;
      b := true;
    }

    method Commit() returns (b: bool, ghost code: int)
      modifies this, m_conn
      ensures m_conn == null ==> b == (m_depth == 0) && Same(old(m_depth), old(m_finished), old(m_hasError))
      ensures m_conn != null ==> View() == Step(old(View()), Op.Commit(code))
      ensures m_conn != null ==> (b <==> Succeeds(old(View()), Op.Commit(code)))
    {
      code := 0;
      if m_conn == null || m_depth == 0 {
        return m_depth == 0, code;
      }
      m_depth := m_depth - 1;
      var r := m_conn.Execute(if m_depth == 0 then COMMIT else RELEASE(m_depth));
      code := r;
      if r != 0 {
        m_hasError := true;
        return false, code;
      }
      if m_depth == 0 {
        m_finished := true;
      }
      b := true;
    }

    method Rollback() returns (b: bool, ghost code: int)
      modifies this, m_conn
      ensures m_conn == null ==> !b && Same(old(m_depth), old(m_finished), old(m_hasError))
      ensures m_conn != null ==> View() == Step(old(View()), Op.Rollback(code))
      ensures m_conn != null ==> (b <==> Succeeds(old(View()), Op.Rollback(code)))
    {
      code := 0;
      if m_conn == null {
        return false, code;
      }
      if m_depth == 0 {
        m_finished := true;
        return true, code;
      }
      m_depth := m_depth - 1;
      var r := m_conn.Execute(if m_depth == 0 then ROLLBACK else ROLLBACK_TO(m_depth));
      code := r;
      if r != 0 {
        m_hasError := true;
        return false, code;
      }
      if m_depth == 0 {
        m_finished := true;
      }
      b := true;
    }

    method Execute(f: D -> D) returns (r: int)
      modifies this, m_conn
      ensures m_conn == null ==> r == -1 && Same(old(m_depth), old(m_finished), old(m_hasError))
      ensures m_conn != null ==> View() == Step(old(View()), Op.Execute(f, r))
      ensures old(m_finished) ==> r == -1
    {
      if m_conn == null || m_finished {
        return -1;
      }
      r := m_conn.Execute(QUERY(f));
      if r != 0 {
        m_hasError := true;
      }
    }

    /** The destructor; code is the answer to its ROLLBACK. */
    method Destroy() returns (ghost code: int)
      modifies this, m_conn
      ensures m_conn == null ==> Same(old(m_depth), old(m_finished), old(m_hasError))
      ensures m_conn != null && code == 0 ==> View() == Destroyed(old(View()))
      ensures m_conn != null && code != 0 ==> View() == old(View()).(finished := true)
    {
      code := 0;
      if !m_finished && m_depth > 0 && m_conn != null {
        var r := m_conn.Execute(ROLLBACK);
        code := r;
        m_finished := true;
      }
    }
  }

  // ---------------------------------------------------------------- what that means for the caller

  /** No call closes a level at or below d. */
  predicate StaysAbove<D>(s: State<D>, ops: seq<Op<D>>, d: nat)
    decreases |ops|
  {
    s.depth > d && (ops == [] || StaysAbove(Step(s, ops[0]), ops[1..], d))
  }

  lemma {:induction false} SnapsKept<D>(s: State<D>, t: Stack<D>, ops: seq<Op<D>>, d: nat)
    requires Refines(s, t) && EndsSucceed(ops) && StaysAbove(s, ops, d)
    ensures Refines(Run(s, ops), StackRun(t, ops)) && Run(s, ops).depth > d
    ensures StackRun(t, ops).snaps[..d + 1] == t.snaps[..d + 1]
    decreases |ops|
  {
    if ops != [] {
      StepRefines(s, t, ops[0]);
      SnapsKept(Step(s, ops[0]), StackStep(t, ops[0]), ops[1..], d);
    }
  }

  /** A level that is still open after `inner` holds the state at its begin. */
  lemma LevelKept<D>(s: State<D>, t: Stack<D>, inner: seq<Op<D>>) returns (u: Stack<D>)
    requires Refines(s, t) && !s.finished && EndsSucceed(inner)
    requires StaysAbove(Step(s, Op<D>.Begin(0)), inner, s.depth)
    ensures Refines(Run(Step(s, Op<D>.Begin(0)), inner), u)
    ensures |u.snaps| > s.depth && u.snaps[s.depth] == s.session.db
  {
    var begin := Op<D>.Begin(0);
    StepRefines(s, t, begin);
    SnapsKept(Step(s, begin), StackStep(t, begin), inner, s.depth);
    u := StackRun(StackStep(t, begin), inner);
    assert u.snaps[..s.depth + 1][s.depth] == StackStep(t, begin).snaps[..s.depth + 1][s.depth] == t.db;
  }

  /** A rollback restores the state at its matching begin, whatever was done, begun, committed
      or rolled back in between. */
  lemma RollbackRestoresBegin<D>(s: State<D>, t: Stack<D>, inner: seq<Op<D>>)
    requires Refines(s, t) && !s.finished && EndsSucceed(inner)
    requires var begun := Step(s, Op<D>.Begin(0));
             StaysAbove(begun, inner, s.depth) && Run(begun, inner).depth == s.depth + 1
    ensures var after := Step(Run(Step(s, Op<D>.Begin(0)), inner), Op<D>.Rollback(0));
            after.session.db == s.session.db && after.depth == s.depth
  {
    var u := LevelKept(s, t, inner);
    StepRefines(Run(Step(s, Op<D>.Begin(0)), inner), u, Op<D>.Rollback(0));
  }

  /** Destroying the object before the outermost level is closed restores the state at the
      outermost begin and leaves no transaction open on the connection. */
  lemma DestroyRestoresOutermost<D>(s: State<D>, t: Stack<D>, inner: seq<Op<D>>)
    requires Refines(s, t) && !s.finished && s.depth == 0 && EndsSucceed(inner)
    requires StaysAbove(Step(s, Op<D>.Begin(0)), inner, 0)
    ensures var after := Destroyed(Run(Step(s, Op<D>.Begin(0)), inner));
            after.session.db == s.session.db && !after.session.inTxn && after.finished
  {
    var u := LevelKept(s, t, inner);
  }

  /** The outermost commit or rollback followed by destruction leaves the connection clean
      exactly when its statement succeeded: the depth is counted down before the answer is
      known, so the destructor no longer sees an open level. */
  lemma LeaksExactlyOnFailedEnd<D>(s: State<D>, t: Stack<D>, op: Op<D>)
    requires Refines(s, t) && s.depth == 1 && (op.Commit? || op.Rollback?)
    ensures !Destroyed(Step(s, op)).session.inTxn <==> op.code == 0
  {
    if op.code == 0 {
      EndRefines(s, t, op);
    }
  }

  lemma {:induction false} WithoutHasNone<D>(saves: seq<Save<D>>, name: nat)
    ensures forall i :: 0 <= i < |Without(saves, name)| ==> Without(saves, name)[i].name != name
  {
    if saves != [] {
      WithoutHasNone(saves[..|saves| - 1], name);
    }
  }

  /** Rolling back to depth d leaves the savepoint of level d behind with the state it restored,
      as the newest one. */
  lemma RollbackLeavesSavepoint<D>(s: State<D>, t: Stack<D>)
    requires Refines(s, t) && s.depth > 1
    ensures var back := Step(s, Op<D>.Rollback(0));
            && back.session.saves != []
            && back.session.saves[|back.session.saves| - 1] == Save(s.depth - 1, t.snaps[s.depth - 1])
            && !back.finished && back.depth == s.depth - 1 && back.session.inTxn
            && back.session.db == t.snaps[s.depth - 1]
  {
    var saves := LiveBeforeEnd(s.session.saves, t.snaps);
  }

  /** The next begin at that depth replaces what was left over: one savepoint has the level's
      name, the newest, and it holds the present state. */
  lemma BeginReplacesSavepoint<D>(s: State<D>)
    requires !s.finished && s.depth > 0 && s.session.inTxn
    ensures var saves := Step(s, Op<D>.Begin(0)).session.saves;
            && saves != [] && saves[|saves| - 1] == Save(s.depth, s.session.db)
            && forall i :: 0 <= i < |saves| ==> (saves[i].name == s.depth <==> i == |saves| - 1)
  {
    WithoutHasNone(s.session.saves, s.depth);
  }

  /** After a query, too. */
  lemma QueryThenBegin<D>(s: State<D>, f: D -> D)
    requires !s.finished && s.depth > 0 && s.session.inTxn
    ensures var saves := Step(Step(s, Op<D>.Execute(f, 0)), Op<D>.Begin(0)).session.saves;
            && saves != [] && saves[|saves| - 1] == Save(s.depth, f(s.session.db))
            && forall i :: 0 <= i < |saves| ==> (saves[i].name == s.depth <==> i == |saves| - 1)
  {
    BeginReplacesSavepoint(Step(s, Op<D>.Execute(f, 0)));
  }

  /** A rolled-back inner level leaves its savepoint behind, whatever was done in it; after any
      query the next begin replaces it and the new savepoint is the only one of its name. */
  lemma StaleSavepoint<D>(s: State<D>, t: Stack<D>, inner: seq<Op<D>>, f: D -> D)
    requires Refines(s, t) && !s.finished && s.depth > 0 && EndsSucceed(inner)
    requires var begun := Step(s, Op<D>.Begin(0));
             StaysAbove(begun, inner, s.depth) && Run(begun, inner).depth == s.depth + 1
    ensures var left := Step(Run(Step(s, Op<D>.Begin(0)), inner), Op<D>.Rollback(0)).session.saves;
            left != [] && left[|left| - 1] == Save(s.depth, s.session.db)
    ensures var back := Step(Run(Step(s, Op<D>.Begin(0)), inner), Op<D>.Rollback(0));
            var saves := Step(Step(back, Op<D>.Execute(f, 0)), Op<D>.Begin(0)).session.saves;
            && saves != [] && saves[|saves| - 1] == Save(s.depth, f(s.session.db))
            && forall i :: 0 <= i < |saves| ==> (saves[i].name == s.depth <==> i == |saves| - 1)
  {
    var back := Step(Run(Step(s, Op<D>.Begin(0)), inner), Op<D>.Rollback(0));
    var u := LevelKept(s, t, inner);
    RollbackLeavesSavepoint(Run(Step(s, Op<D>.Begin(0)), inner), u);
    QueryThenBegin(back, f);
  }
}

/** AsyncLogAppender: producers fill a current buffer under a lock, one background thread
    swaps the full buffers out, writes them, and gives two empty ones back. */
module AsyncLogs {
  import opened Wrappers
  import Streams

  /** kLargeBuffer. */
  const SIZE: nat := 4_000_000

  /** The more buffers a round may collect before it is cut down to KEPT. */
  const FLOOD: nat := 25
  const KEPT: nat := 2

  type Buffer = string

  // ---------------------------------------------------------------- FixedBuffer

  /** append(): all of it or nothing, and the last byte is never used. */
  function Append(b: Buffer, msg: string): Buffer {
    if SIZE - |b| > |msg| then b + msg else b
  }

  class FixedBuffer {
    /** The storage is part of the object. */
    var m_data: seq<char>
    var m_cur: nat

    ghost predicate Valid()
      reads this
    {
      |m_data| == SIZE && m_cur < SIZE
    }

    ghost function Text(): Buffer
      reads this
      requires Valid()
    {
      m_data[..m_cur]
    }

    constructor ()
      ensures Valid() && Text() == ""
    {
      m_data, m_cur := seq(SIZE, _ => '\0'), 0;
    }

    function Avail(): int
      reads this
    {
      SIZE - m_cur
    }

    method AppendText(msg: string)
      requires Valid()
      modifies this
      ensures Valid() && Text() == Append(old(Text()), msg)
    {
      if Avail() > |msg| {
        m_data := m_data[..m_cur] + msg + m_data[m_cur + |msg|..];
        m_cur := m_cur + |msg|;
      }
    }

    method Reset()
      requires Valid()
      modifies this
      ensures Valid() && Text() == ""
    {
      m_cur := 0;
    }
  }

  // ---------------------------------------------------------------- the steps

  /** Where the background thread is. */
  datatype Phase = Head | Collected | Writing(i: nat) | Stopped

  /** A stretch of logged text that has left memory. */
  datatype Segment = Segment(kept: bool, text: string)

  /** The appender, the thread's locals, and what has been written.  `lost` is the text this
      round has dropped, `past` every earlier stretch in order.  `crashed` stands for a null
      current buffer or back() on an empty vector. */
  datatype State = State(
    current: Option<Buffer>, next: Option<Buffer>, buffers: seq<Buffer>,
    new1: Option<Buffer>, new2: Option<Buffer>, toWrite: seq<Buffer>,
    phase: Phase, file: string, lost: string, past: seq<Segment>, crashed: bool)

  const INITIAL := State(Some(""), Some(""), [], Some(""), Some(""), [], Head, "", "", [], false)

  /** Log is one call of log() under the lock; the others are the thread: Collect its critical
      section, Trim the flood guard, Write one buffer, Recycle the rest of the loop body. */
  datatype Step = Log(msg: string) | Collect | Trim | Write | Recycle | Stop

  function Concat(bs: seq<Buffer>): string {
    if bs == [] then "" else bs[0] + Concat(bs[1..])
  }

  function DoLog(s: State, msg: string): State {
    if s.current.None? then s.(crashed := true)
    else if SIZE - |s.current.value| > Streams.AsInt(|msg|) then
      s.(current := Some(Append(s.current.value, msg)))
    else
      var spare := if s.next.Some? then s.next.value else "";
      s.(buffers := s.buffers + [s.current.value], current := Some(Append(spare, msg)), next := None)
  }

  function DoCollect(s: State): State {
    if s.current.None? then s.(crashed := true)
    else
      var full := s.buffers + [s.current.value];
      var t := s.(current := s.new1, new1 := None, buffers := s.toWrite, toWrite := full, phase := Collected);
      if t.next.None? then t.(next := t.new2, new2 := None) else t
  }

  function DoTrim(s: State): State {
    if |s.toWrite| > FLOOD
    then s.(toWrite := s.toWrite[..KEPT], lost := Concat(s.toWrite[KEPT..]), phase := Writing(0))
    else s.(phase := Writing(0))
  }

  function DoWrite(s: State): State
    requires s.phase.Writing? && s.phase.i < |s.toWrite|
  {
    var text := s.toWrite[s.phase.i];
    s.(file := s.file + text, past := s.past + [Segment(true, text)], phase := Writing(s.phase.i + 1))
  }

  /** resize(2), then refill newBuffer1 and newBuffer2 from the back; they come back reset. */
  function DoRecycle(s: State): State {
    var left := if |s.toWrite| > KEPT then KEPT else |s.toWrite|;
    var need := (if s.new1.None? then 1 else 0) + (if s.new2.None? then 1 else 0);
    s.(new1 := if s.new1.None? then Some("") else s.new1,
       new2 := if s.new2.None? then Some("") else s.new2,
       toWrite := [], phase := Head, lost := "", past := s.past + [Segment(false, s.lost)],
       crashed := s.crashed || need > left)
  }

  predicate Enabled(s: State, step: Step) {
    match step
    case Log(_) => true
    case Collect => s.phase.Head?
    case Trim => s.phase.Collected?
    case Write => s.phase.Writing? && s.phase.i < |s.toWrite|
    case Recycle => s.phase.Writing? && s.phase.i >= |s.toWrite|
    case Stop => s.phase.Head?
  }

  /** A step that is not enabled leaves the state alone. */
  function Apply(s: State, step: Step): State {
    if !Enabled(s, step) then s
    else
      match step
      case Log(msg) => DoLog(s, msg)
      case Collect => DoCollect(s)
      case Trim => DoTrim(s)
      case Write => DoWrite(s)
      case Recycle => DoRecycle(s)
      case Stop => s.(phase := Stopped)
  }

  function Run(s: State, steps: seq<Step>): State
    decreases |steps|
  {
    if steps == [] then s else Run(Apply(s, steps[0]), steps[1..])
  }

  // ---------------------------------------------------------------- recycling

  /** The producer always has a current buffer; a missing next one means that a full one has
      been pushed since the last swap, and the round then has two buffers to give back. */
  ghost predicate Stocked(s: State) {
    && !s.crashed
    && s.current.Some? && |s.current.value| < SIZE
    && (s.next.Some? ==> s.next.value == "")
    && (s.next.None? ==> s.buffers != [])
    && (s.new1.Some? ==> s.new1.value == "") && (s.new2.Some? ==> s.new2.value == "")
    && match s.phase
       case Writing(i) => s.new1.None? && |s.toWrite| >= (if s.new2.None? then 2 else 1) && i <= |s.toWrite|
       case Collected => s.new1.None? && |s.toWrite| >= (if s.new2.None? then 2 else 1) && s.lost == ""
       case _ => s.new1.Some? && s.new2.Some? && s.toWrite == [] && s.lost == ""
  }

  lemma StepStocked(s: State, step: Step)
    requires Stocked(s)
    ensures Stocked(Apply(s, step))
  {
  }

  /** Recycling never underflows: in every run log() finds a current buffer, back() is never
      called on an empty vector, and at every loop head both spare buffers are there and
      empty. */
  lemma {:induction false} RecyclingNeverUnderflows(s: State, steps: seq<Step>)
    requires Stocked(s)
    ensures Stocked(Run(s, steps)) && !Run(s, steps).crashed && Run(s, steps).current.Some?
    ensures Run(s, steps).phase.Head? ==> Run(s, steps).new1 == Run(s, steps).new2 == Some("")
    decreases |steps|
  {
    if steps != [] {
      StepStocked(s, steps[0]);
      RecyclingNeverUnderflows(Apply(s, steps[0]), steps[1..]);
    }
  }

  // ---------------------------------------------------------------- the appender

  /** AsyncLogAppender with the locals of its background thread.  A unique_ptr that is moved
      from is None, and the buffer it owned moves as a value. */
  class AsyncLogAppender {
    var m_currentBuffer: Option<Buffer>
    var m_nextBuffer: Option<Buffer>
    var m_buffers: seq<Buffer>
    var newBuffer1: Option<Buffer>
    var newBuffer2: Option<Buffer>
    var buffersToWrite: seq<Buffer>
    var m_file: string
    ghost var phase: Phase
    ghost var lost: string
    ghost var past: seq<Segment>

    ghost function View(): State
      reads this
    {
      State(m_currentBuffer, m_nextBuffer, m_buffers, newBuffer1, newBuffer2, buffersToWrite,
            phase, m_file, lost, past, false)
    }

    ghost predicate Valid()
      reads this
    {
      Stocked(View())
    }

    constructor ()
      ensures Valid() && View() == INITIAL
    {
      m_currentBuffer, m_nextBuffer, m_buffers := Some(""), Some(""), [];
      newBuffer1, newBuffer2, buffersToWrite := Some(""), Some(""), [];
      m_file, phase, lost, past := "", Head, "", [];
    }

    method Log(msg: string)
      requires Valid()
      modifies this
      ensures Valid() && View() == Apply(old(View()), Step.Log(msg))
      ensures |old(m_currentBuffer).value| + |msg| < SIZE ==>
                m_currentBuffer == Some(old(m_currentBuffer).value + msg) && m_buffers == old(m_buffers)
    {
      if SIZE - |m_currentBuffer.value| > Streams.AsInt(|msg|) {
        m_currentBuffer := Some(Append(m_currentBuffer.value, msg));
      } else {
        m_buffers := m_buffers + [m_currentBuffer.value];
        if m_nextBuffer.Some? {
          m_currentBuffer, m_nextBuffer := m_nextBuffer, None;
        } else {
          m_currentBuffer := Some("");
        }
        m_currentBuffer := Some(Append(m_currentBuffer.value, msg));
      }
    }

    /** The critical section of the background thread. */
    method CollectBuffers()
      requires Valid() && phase.Head?
      modifies this
      ensures Valid() && View() == Apply(old(View()), Collect)
    {
      m_buffers := m_buffers + [m_currentBuffer.value];
      m_currentBuffer, newBuffer1 := newBuffer1, None;
      buffersToWrite, m_buffers := m_buffers, buffersToWrite;
      if m_nextBuffer.None? {
        m_nextBuffer, newBuffer2 := newBuffer2, None;
      }
      phase := Collected;
    }

    method TrimFlood()
      requires Valid() && phase.Collected?
      modifies this
      ensures Valid() && View() == Apply(old(View()), Trim)
    {
      if |buffersToWrite| > FLOOD {
        lost := Concat(buffersToWrite[KEPT..]);
        buffersToWrite := buffersToWrite[..KEPT];
      }
      phase := Writing(0);
    }

    /** The write loop; other threads do not touch what it uses. */
    method WriteBuffers()
      requires Valid() && phase == Writing(0)
      modifies this
      ensures Valid() && phase == Writing(|buffersToWrite|)
      ensures View() == Run(old(View()), Writes(|buffersToWrite|))
    {
      ghost var before := View();
      for i := 0 to |buffersToWrite|
        invariant Valid() && phase == Writing(i) && |buffersToWrite| == |before.toWrite|
        invariant Run(View(), Writes(|buffersToWrite| - i)) == Run(before, Writes(|buffersToWrite|))
      {
        ghost var s := View();
        m_file := m_file + buffersToWrite[i];
        past := past + [Segment(true, buffersToWrite[i])];
        phase := Writing(i + 1);
        assert View() == Apply(s, Write);
        assert Writes(|buffersToWrite| - i)[1..] == Writes(|buffersToWrite| - (i + 1));
      }
    }

    method RecycleBuffers()
      requires Valid() && phase == Writing(|buffersToWrite|)
      modifies this
      ensures Valid() && View() == Apply(old(View()), Recycle)
    {
      if |buffersToWrite| > KEPT {
        buffersToWrite := buffersToWrite[..KEPT];
      }
      if newBuffer1.None? {
        buffersToWrite := buffersToWrite[..|buffersToWrite| - 1];
        newBuffer1 := Some("");
      }
      if newBuffer2.None? {
        buffersToWrite := buffersToWrite[..|buffersToWrite| - 1];
        newBuffer2 := Some("");
      }
      buffersToWrite := [];
      past, lost, phase := past + [Segment(false, lost)], "", Head;
    }
  }

  function Writes(n: nat): seq<Step> { seq(n, _ => Write) }

  // ---------------------------------------------------------------- conservation

  function AllText(past: seq<Segment>): string {
    if past == [] then "" else AllText(past[..|past| - 1]) + past[|past| - 1].text
  }

  function KeptText(past: seq<Segment>): string {
    if past == [] then ""
    else KeptText(past[..|past| - 1]) + if past[|past| - 1].kept then past[|past| - 1].text else ""
  }

  /** What the round in hand has still to write. */
  function Round(s: State): string {
    match s.phase
    case Collected => Concat(s.toWrite)
    case Writing(i) => if i <= |s.toWrite| then Concat(s.toWrite[i..]) else ""
    case _ => ""
  }

  function InMemory(s: State): string {
    Concat(s.buffers) + if s.current.Some? then s.current.value else ""
  }

  /** The messages that fit a buffer, in lock order. */
  function Logged(steps: seq<Step>): string {
    if steps == [] then "" else Fitting(steps[0]) + Logged(steps[1..])
  }

  function Fitting(step: Step): string {
    if step.Log? && |step.msg| < SIZE then step.msg else ""
  }

  function Total(s: State): string {
    AllText(s.past) + (Round(s) + (s.lost + InMemory(s)))
  }

  /** Every logged byte is, in order, in the past, in the round in hand, dropped by it, or in
      memory; the file is what of the past was kept. */
  ghost predicate Conserved(s: State, logged: string) {
    && Total(s) == logged
    && s.file == KeptText(s.past)
  }

  lemma {:induction false} ConcatAppend(bs: seq<Buffer>, b: Buffer)
    ensures Concat(bs + [b]) == Concat(bs) + b
  {
    if bs == [] {
      assert Concat([b]) == b + Concat([]);
    } else {
      ConcatAppend(bs[1..], b);
      assert (bs + [b])[1..] == bs[1..] + [b];
    }
  }

  lemma {:induction false} ConcatSplit(bs: seq<Buffer>, k: nat)
    requires k <= |bs|
    ensures Concat(bs) == Concat(bs[..k]) + Concat(bs[k..])
  {
    if k > 0 {
      ConcatSplit(bs[1..], k - 1);
      assert bs[..k][1..] == bs[1..][..k - 1] && bs[k..] == bs[1..][k - 1..];
    }
  }

  lemma PastAppend(past: seq<Segment>, g: Segment)
    ensures AllText(past + [g]) == AllText(past) + g.text
    ensures KeptText(past + [g]) == KeptText(past) + if g.kept then g.text else ""
  {
    assert (past + [g])[..|past|] == past;
  }

  /** The int cast only ever lets a message through that append() then refuses. */
  lemma FitsAsInt(length: nat, avail: nat)
    requires avail > Streams.AsInt(length) && avail <= SIZE
    ensures length < avail || length >= SIZE
  {
  }

  lemma LogConserves(s: State, msg: string)
    requires Stocked(s)
    ensures InMemory(DoLog(s, msg)) == InMemory(s) + Fitting(Log(msg))
  {
    var cur, front := s.current.value, Concat(s.buffers);
    ConcatAppend(s.buffers, cur);
    assert "" + msg == msg;
    assert front + (cur + msg) == front + cur + msg && front + (cur + "") == front + cur + "";
    if SIZE - |cur| > Streams.AsInt(|msg|) {
      FitsAsInt(|msg|, SIZE - |cur|);
    }
  }

  lemma CollectConserves(s: State)
    requires Stocked(s) && s.phase.Head?
    ensures var t := DoCollect(s); Round(t) + InMemory(t) == InMemory(s) && t.lost == s.lost == ""
  {
    ConcatAppend(s.buffers, s.current.value);
  }

  lemma TrimConserves(s: State)
    requires s.phase.Collected? && s.lost == ""
    ensures var t := DoTrim(s); Round(t) + t.lost == Round(s) && InMemory(t) == InMemory(s)
  {
    if |s.toWrite| > FLOOD {
      ConcatSplit(s.toWrite, KEPT);
    }
    var t := DoTrim(s);
    assert t.toWrite[0..] == t.toWrite;
  }

  lemma WriteConserves(s: State)
    requires s.phase.Writing? && s.phase.i < |s.toWrite|
    ensures var t := DoWrite(s);
            AllText(t.past) + Round(t) == AllText(s.past) + Round(s) && InMemory(t) == InMemory(s)
    ensures DoWrite(s).file + Round(DoWrite(s)) == s.file + Round(s)
    ensures s.file == KeptText(s.past) ==> DoWrite(s).file == KeptText(DoWrite(s).past)
  {
    var rest := s.toWrite[s.phase.i..];
    PastAppend(s.past, Segment(true, rest[0]));
    assert s.toWrite[s.phase.i + 1..] == rest[1..];
    assert AllText(s.past) + rest[0] + Concat(rest[1..]) == AllText(s.past) + (rest[0] + Concat(rest[1..]));
    assert s.file + rest[0] + Concat(rest[1..]) == s.file + (rest[0] + Concat(rest[1..]));
  }

  lemma RecycleConserves(s: State)
    requires s.phase.Writing? && s.phase.i == |s.toWrite|
    ensures var t := DoRecycle(s);
            AllText(t.past) == AllText(s.past) + s.lost && KeptText(t.past) == KeptText(s.past)
            && Round(s) == Round(t) == t.lost == "" && InMemory(t) == InMemory(s)
  {
    PastAppend(s.past, Segment(false, s.lost));
  }

  /** The last part may grow, and a boundary between parts may move. */
  lemma Grow(a: string, r: string, l: string, m: string, more: string)
    ensures a + (r + (l + (m + more))) == a + (r + (l + m)) + more
  {
    assert r + (l + (m + more)) == r + (l + m) + more;
  }

  lemma Regroup(a: string, b: string, c: string, d: string, rest: string)
    requires a + b == c + d
    ensures a + (b + rest) == c + (d + rest)
  {
    assert a + (b + rest) == a + b + rest;
    assert c + (d + rest) == c + d + rest;
  }

  lemma CollectTotal(s: State)
    requires Stocked(s) && s.phase.Head?
    ensures Total(DoCollect(s)) == Total(s)
  {
    var t := DoCollect(s);
    CollectConserves(s);
    assert Round(t) + ("" + InMemory(t)) == "" + ("" + InMemory(s));
  }

  lemma TrimTotal(s: State)
    requires s.phase.Collected? && s.lost == ""
    ensures Total(DoTrim(s)) == Total(s)
  {
    var t := DoTrim(s);
    TrimConserves(s);
    Reassociate(Round(t), t.lost, InMemory(t));
    assert Round(s) + ("" + InMemory(s)) == Round(s) + InMemory(s);
  }

  lemma WriteTotal(s: State)
    requires s.phase.Writing? && s.phase.i < |s.toWrite|
    ensures Total(DoWrite(s)) == Total(s)
  {
    var t := DoWrite(s);
    WriteConserves(s);
    Regroup(AllText(s.past), Round(s), AllText(t.past), Round(t), s.lost + InMemory(s));
  }

  lemma RecycleTotal(s: State)
    requires s.phase.Writing? && s.phase.i == |s.toWrite|
    ensures Total(DoRecycle(s)) == Total(s)
  {
    var t := DoRecycle(s);
    RecycleConserves(s);
    Regroup(AllText(s.past), s.lost, AllText(t.past), "", InMemory(s));
    assert "" + (s.lost + InMemory(s)) == s.lost + InMemory(s);
  }

  lemma StepTotal(s: State, step: Step)
    requires Stocked(s) && Enabled(s, step)
    ensures Total(Apply(s, step)) == Total(s) + Fitting(step)
  {
    assert Total(s) + "" == Total(s);
    match step
    case Log(msg) =>
      LogConserves(s, msg);
      Grow(AllText(s.past), Round(s), s.lost, InMemory(s), Fitting(step));
    case Collect => CollectTotal(s);
    case Trim => TrimTotal(s);
    case Write => WriteTotal(s);
    case Recycle => RecycleTotal(s);
    case Stop =>
  }

  lemma StepConserves(s: State, step: Step, logged: string)
    requires Stocked(s) && Conserved(s, logged)
    ensures Conserved(Apply(s, step), logged + Fitting(step))
  {
    if Enabled(s, step) {
      StepTotal(s, step);
      StepFile(s, step);
    } else {
      assert logged + "" == logged;
    }
  }

  lemma StepFile(s: State, step: Step)
    requires Stocked(s) && Enabled(s, step) && s.file == KeptText(s.past)
    ensures Apply(s, step).file == KeptText(Apply(s, step).past)
  {
    match step
    case Log(_) =>
    case Collect =>
    case Trim =>
    case Write => WriteConserves(s);
    case Recycle => RecycleConserves(s);
    case Stop =>
  }

  /** Conservation over whole runs: nothing is duplicated, reordered or lost without being
      counted. */
  lemma {:induction false} LogConservation(s: State, steps: seq<Step>, logged: string)
    requires Stocked(s) && Conserved(s, logged)
    ensures Conserved(Run(s, steps), logged + Logged(steps))
    decreases |steps|
  {
    if steps == [] {
      assert logged + "" == logged;
    } else {
      StepStocked(s, steps[0]);
      StepConserves(s, steps[0], logged);
      LogConservation(Apply(s, steps[0]), steps[1..], logged + Fitting(steps[0]));
      Reassociate(logged, Fitting(steps[0]), Logged(steps[1..]));
    }
  }

  // ---------------------------------------------------------------- without and with a flood

  /** No round collects more than 25 buffers. */
  predicate NoFlood(s: State, steps: seq<Step>)
    decreases |steps|
  {
    steps == [] || ((s.phase.Collected? ==> |s.toWrite| <= FLOOD) && NoFlood(Apply(s, steps[0]), steps[1..]))
  }

  ghost predicate NothingLost(s: State) {
    s.lost == "" && forall i :: 0 <= i < |s.past| ==> s.past[i].kept || s.past[i].text == ""
  }

  lemma {:induction false} KeptIsAll(past: seq<Segment>)
    requires forall i :: 0 <= i < |past| ==> past[i].kept || past[i].text == ""
    ensures KeptText(past) == AllText(past)
  {
    if past != [] {
      KeptIsAll(past[..|past| - 1]);
    }
  }

  lemma {:induction false} NoFloodLosesNothing(s: State, steps: seq<Step>)
    requires NothingLost(s) && NoFlood(s, steps)
    ensures NothingLost(Run(s, steps))
    decreases |steps|
  {
    if steps != [] {
      NoFloodLosesNothing(Apply(s, steps[0]), steps[1..]);
    }
  }

  /** Without a flood: what is in the file, the round being written and the memory is, in lock
      order, every message shorter than a buffer. */
  lemma LosslessWithoutFlood(steps: seq<Step>)
    requires NoFlood(INITIAL, steps)
    ensures var s := Run(INITIAL, steps); s.file + (Round(s) + InMemory(s)) == Logged(steps)
  {
    var s := Run(INITIAL, steps);
    LogConservation(INITIAL, steps, "");
    NoFloodLosesNothing(INITIAL, steps);
    KeptIsAll(s.past);
    assert "" + Logged(steps) == Logged(steps);
    assert "" + InMemory(s) == InMemory(s);
  }

  /** The file as it will be at the end of the round. */
  function FileAfterRound(s: State): string {
    s.file + if s.phase.Collected? && |s.toWrite| > FLOOD then Concat(s.toWrite[..KEPT]) else Round(s)
  }

  /** A round writes exactly its buffers, or its first two when it has more than 25, whatever
      is logged meanwhile. */
  lemma {:induction false} RoundWritesAllOrTwo(s: State, steps: seq<Step>)
    requires Stocked(s) && Collect !in steps
    ensures FileAfterRound(Run(s, steps)) == FileAfterRound(s)
    ensures s.phase.Collected? && Run(s, steps).phase.Head? ==>
              Run(s, steps).file == s.file + Concat(if |s.toWrite| > 25 then s.toWrite[..2] else s.toWrite)
    decreases |steps|
  {
    if steps != [] {
      StepStocked(s, steps[0]);
      StepKeepsFile(s, steps[0]);
      RoundWritesAllOrTwo(Apply(s, steps[0]), steps[1..]);
    }
  }

  lemma StepKeepsFile(s: State, step: Step)
    requires Stocked(s) && !step.Collect?
    ensures FileAfterRound(Apply(s, step)) == FileAfterRound(s)
  {
    if Enabled(s, step) {
      match step
      case Log(_) =>
      case Trim =>
        var t := DoTrim(s);
        assert t.toWrite[0..] == t.toWrite;
      case Write => WriteConserves(s);
      case Recycle => RecycleConserves(s);
      case Stop =>
    }
  }
}

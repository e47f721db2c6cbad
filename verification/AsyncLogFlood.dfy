/** How much text it takes to flood the log thread. */
module AsyncLogFloods {
  import opened AsyncLogs
  import opened Wrappers
  import Streams

  /** A message goes into the current buffer as long as it leaves a byte free there, and only one
      that does not makes log() push that buffer. */
  lemma PushesOnlyWhenFull(s: State, msg: string)
    requires Stocked(s) && |msg| <= Streams.INT_MAX
    ensures var t, cur := DoLog(s, msg), s.current.value;
            if |cur| + |msg| < SIZE then t == s.(current := Some(cur + msg))
            else t.buffers == s.buffers + [cur] && t.current == Some(if |msg| < SIZE then msg else "")
  {
    assert Append("", msg) == if |msg| < SIZE then "" + msg else "";
    assert "" + msg == msg;
  }

  /** The buffers pushed since the last round, and the current one, hold no more than twice the
      `size` characters logged since then: every pushed buffer and the message that followed it
      make up a full one, and a message counts for two buffers at most. */
  ghost predicate Filled(s: State, size: nat) {
    s.current.Some? && |s.buffers| * SIZE + |s.current.value| <= 2 * size
  }

  lemma LogFills(s: State, msg: string, size: nat)
    requires Stocked(s) && Filled(s, size)
    ensures Filled(DoLog(s, msg), size + |msg|)
  {
    assert Streams.AsInt(|msg|) <= |msg|;
  }

  lemma CollectEmpties(s: State)
    requires Stocked(s) && s.phase.Head?
    ensures Filled(DoCollect(s), 0) && |DoCollect(s).toWrite| == |s.buffers| + 1
  {
  }

  /** What has been logged since the last round, after a step. */
  function SizeAfter(s: State, step: Step, size: nat): nat {
    if step.Log? then size + |step.msg| else if step.Collect? && Enabled(s, step) then 0 else size
  }

  /** Between any two rounds less text is logged than fills twelve and a half buffers. */
  predicate LittleText(s: State, steps: seq<Step>, size: nat)
    decreases |steps|
  {
    steps == [] ||
    ((steps[0].Collect? && s.phase.Head? ==> 2 * size < FLOOD * SIZE)
     && LittleText(Apply(s, steps[0]), steps[1..], SizeAfter(s, steps[0], size)))
  }

  lemma StepFills(s: State, step: Step, size: nat)
    requires Stocked(s) && Filled(s, size) && (step.Collect? && s.phase.Head? ==> 2 * size < FLOOD * SIZE)
    requires s.phase.Collected? ==> |s.toWrite| <= FLOOD
    ensures var t := Apply(s, step);
            Filled(t, SizeAfter(s, step, size)) && (t.phase.Collected? ==> |t.toWrite| <= FLOOD)
  {
    match step
    case Log(msg) => LogFills(s, msg, size);
    case Collect => if s.phase.Head? { CollectEmpties(s); }
    case _ =>
  }

  lemma {:induction false} LittleTextNeverFloods(s: State, steps: seq<Step>, size: nat)
    requires Stocked(s) && Filled(s, size) && LittleText(s, steps, size)
    requires s.phase.Collected? ==> |s.toWrite| <= FLOOD
    ensures NoFlood(s, steps)
    decreases |steps|
  {
    if steps != [] {
      StepFills(s, steps[0], size);
      StepStocked(s, steps[0]);
      LittleTextNeverFloods(Apply(s, steps[0]), steps[1..], SizeAfter(s, steps[0], size));
    }
  }

  /** Lossless logging: while less than twelve and a half buffers of text come between rounds,
      file, round and memory hold, in lock order, every message shorter than a buffer. */
  lemma LosslessWithLittleText(steps: seq<Step>)
    requires LittleText(INITIAL, steps, 0)
    ensures var s := Run(INITIAL, steps); s.file + (Round(s) + InMemory(s)) == Logged(steps)
  {
    LittleTextNeverFloods(INITIAL, steps, 0);
    LosslessWithoutFlood(steps);
  }
}

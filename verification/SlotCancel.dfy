/**
 Cancelling: the session sets `exitCode` and waits for its console, which reads
 what the child has already printed and then stops.
 */
module SlotCancel {
  import opened Text
  import opened Wire
  import opened SlotLife
  import opened SlotSafety
  import opened SlotSpeech
  import Pump

  /** The session waits for console c, the one it launched last. */
  predicate Joined(s: Slot, c: nat) {
    && OneConsole(s) && c < |s.consoles| && c == |s.consoles| - 1
    && s.session.Joining? && s.handle == Some(c)
  }

  /** The cancel is pending until the console clears it; then both flags are cleared for good. */
  predicate Cancelling(s: Slot, c: nat) {
    && Joined(s, c)
    && s.entry.exitCode == (if Late(s.consoles[c].pc) then 0 else 1)
    && (s.consoles[c].pc.Exited? ==> !s.entry.pipeActive)
  }

  /** The cancel came after the console had cleared `exitCode`. */
  predicate Missed(s: Slot, c: nat) { Joined(s, c) && Late(s.consoles[c].pc) && s.entry.exitCode == 1 }

  /** A step of the console or the end of its child. */
  predicate Quiet(step: Step, c: nat) {
    (step.Advance? && step.c == c) || (step.ChildEnds? && step.c == c)
  }

  /** While the session waits, nothing but the console and the children can move. */
  lemma NothingInterferes(s: Slot, c: nat, step: Step)
    requires Joined(s, c) && Working(s, c) && Enabled(s, step)
    ensures Quiet(step, c) || step.Emit? || (step.ChildEnds? && step.c != c)
  {
    if step.Advance? {
      assert step.c == |s.consoles| - 1;
    }
  }

  // ---- it stops ----

  function Rank(pc: ConsolePc): nat {
    match pc
    case Announce => 16
    case TakeCommand => 15
    case Forking => 14
    case Forwarding(_) => 13
    case TestNext => 12
    case WriteNext => 11
    case ClearFlag => 10
    case ClearNext => 9
    case Reading => 8
    case TestCancel => 7
    case AnnounceKill => 6
    case SendEnd => 5
    case ClearExit => 4
    case ClearActive => 3
    case Exited => 0
  }

  /** The unread bytes, weighed against one turn of the loop. */
  function Work(s: Slot, c: nat): nat
    requires c < |s.consoles|
  {
    var k := s.consoles[c];
    8 * |k.pending| + Rank(k.pc) + if k.open then 1 else 0
  }

  /** The two flags are cleared one after the other, and nothing else touches them. */
  lemma AdvanceClearsFlags(s: Slot, c: nat, n: nat, pid: int)
    requires CanAdvance(s, c, n)
    ensures var e, pc := Advanced(s, c, n, pid).entry, s.consoles[c].pc;
            && e.exitCode == (if pc.ClearExit? then 0 else s.entry.exitCode)
            && e.pipeActive == (s.entry.pipeActive && !pc.ClearActive?)
  {
  }

  lemma AdvanceGetsLate(s: Slot, c: nat, n: nat, pid: int)
    requires CanAdvance(s, c, n)
    ensures var pc, qc := s.consoles[c].pc, Advanced(s, c, n, pid).consoles[c].pc;
            (qc.ClearActive? <==> pc.ClearExit?) && (qc.Exited? <==> pc.ClearActive?)
  {
    match s.consoles[c].pc {
      case Reading =>
      case TestCancel =>
      case TestNext =>
      case _ =>
    }
  }

  lemma AdvanceKeepsJoined(s: Slot, c: nat, n: nat, pid: int)
    requires Joined(s, c) && CanAdvance(s, c, n)
    ensures Joined(Advanced(s, c, n, pid), c)
  {
    ConsoleKeepsOneConsole(s, c, n, pid);
    AdvanceShape(s, c, n, pid);
  }

  lemma AdvanceDoesWork(s: Slot, c: nat, n: nat, pid: int)
    requires CanAdvance(s, c, n) && (s.consoles[c].pc.TestCancel? ==> s.entry.exitCode == 1)
    ensures c < |Advanced(s, c, n, pid).consoles| && Work(Advanced(s, c, n, pid), c) < Work(s, c)
  {
    match s.consoles[c].pc {
      case Reading =>
      case Forwarding(_) =>
      case TestNext =>
      case Forking =>
      case _ =>
    }
  }

  /** What the child of console c prints in one step. */
  function PrintedBy(step: Step, c: nat): Bytes { if step.Emit? && step.c == c then step.bytes else [] }

  lemma WaitingStep(s: Slot, c: nat, step: Step)
    requires Cancelling(s, c) && Working(s, c) && Enabled(s, step)
    ensures Cancelling(Apply(s, step), c)
    ensures Work(Apply(s, step), c) + (if Quiet(step, c) then 1 else 0) <= Work(s, c) + 8 * |PrintedBy(step, c)|
  {
    NothingInterferes(s, c, step);
    if step.Advance? {
      AdvanceKeepsJoined(s, c, step.n, step.pid);
      AdvanceClearsFlags(s, c, step.n, step.pid);
      AdvanceGetsLate(s, c, step.n, step.pid);
      AdvanceDoesWork(s, c, step.n, step.pid);
    }
  }

  /** All that the child of console c prints in a run. */
  function Printed(steps: seq<Step>, c: nat): Bytes {
    if steps == [] then [] else PrintedBy(steps[0], c) + Printed(steps[1..], c)
  }

  /** The steps of console c, and the end of its child. */
  function Moves(steps: seq<Step>, c: nat): nat {
    if steps == [] then 0 else (if Quiet(steps[0], c) then 1 else 0) + Moves(steps[1..], c)
  }

  /** In every run the console's steps are bounded by the work there is and the bytes still printed. */
  lemma {:induction false} CancelTerminates(s: Slot, c: nat, steps: seq<Step>)
    requires Cancelling(s, c) && WaitingRun(s, c, steps)
    ensures Cancelling(Final(s, steps), c)
    ensures Moves(steps, c) + Work(Final(s, steps), c) <= Work(s, c) + 8 * |Printed(steps, c)|
    decreases |steps|
  {
    if steps != [] {
      WaitingStep(s, c, steps[0]);
      CancelTerminates(Apply(s, steps[0]), c, steps[1..]);
    }
  }

  /** And until it is done it can always take its next statement. */
  lemma CancelProgresses(s: Slot, c: nat) returns (n: nat)
    requires Joined(s, c) && Working(s, c)
    ensures CanAdvance(s, c, n)
  {
    var k := s.consoles[c];
    n := if |k.pending| > Pump.READ_SIZE then Pump.READ_SIZE else |k.pending|;
  }

  // ---- what it sends ----

  /** The pump loop of HandleClientPipe. */
  predicate InLoop(pc: ConsolePc) {
    || pc.Reading? || pc.Forwarding? || pc.TestCancel? || pc.TestNext?
    || pc.WriteNext? || pc.ClearFlag? || pc.ClearNext?
  }

  /** Nothing is left unread once the loop has seen an empty pipe. */
  predicate Drained(k: Console) {
    k.pc.TestCancel? || PastLoop(k.pc) ==> Unsent(k) == []
  }

  /** The console `m` is what `k` becomes. */
  predicate Becomes(k: Console, m: Console) {
    && k.chunks <= m.chunks && k.printed <= m.printed
    && (InLoop(k.pc) || PastLoop(k.pc) ==> m.pid == k.pid && (InLoop(m.pc) || PastLoop(m.pc)))
    && (Drained(k) && m.printed == k.printed ==> Drained(m))
  }

  lemma AdvanceAppends(s: Slot, c: nat, n: nat, pid: int)
    requires CanAdvance(s, c, n)
    ensures var k, m := s.consoles[c], Advanced(s, c, n, pid).consoles[c];
            k.chunks <= m.chunks && k.printed == m.printed
  {
    match s.consoles[c].pc {
      case Forwarding(_) =>
      case Reading =>
      case TestNext =>
      case _ =>
    }
  }

  lemma AdvanceStaysIn(s: Slot, c: nat, n: nat, pid: int)
    requires CanAdvance(s, c, n) && (InLoop(s.consoles[c].pc) || PastLoop(s.consoles[c].pc))
    ensures var k, m := s.consoles[c], Advanced(s, c, n, pid).consoles[c];
            m.pid == k.pid && (InLoop(m.pc) || PastLoop(m.pc))
  {
  }

  lemma AdvanceDrains(s: Slot, c: nat, n: nat, pid: int)
    requires CanAdvance(s, c, n) && Drained(s.consoles[c])
    ensures Drained(Advanced(s, c, n, pid).consoles[c])
  {
    match s.consoles[c].pc {
      case Reading =>
      case TestCancel =>
      case TestNext =>
      case _ =>
    }
  }

  lemma StepBecomes(s: Slot, c: nat, step: Step)
    requires Joined(s, c) && Working(s, c) && Enabled(s, step)
    ensures c < |Apply(s, step).consoles| && Becomes(s.consoles[c], Apply(s, step).consoles[c])
  {
    NothingInterferes(s, c, step);
    if step.Advance? {
      var k := s.consoles[c];
      AdvanceAppends(s, c, step.n, step.pid);
      if InLoop(k.pc) || PastLoop(k.pc) {
        AdvanceStaysIn(s, c, step.n, step.pid);
      }
      if Drained(k) {
        AdvanceDrains(s, c, step.n, step.pid);
      }
      AdvanceShape(s, c, step.n, step.pid);
    } else if step.Emit? && step.c == c {
      EmitBecomes(s.consoles[c], step.bytes);
    }
  }

  lemma EmitBecomes(k: Console, bytes: Bytes)
    ensures Becomes(k, k.(pending := k.pending + bytes, printed := k.printed + bytes))
  {
    if k.printed + bytes == k.printed {
      assert bytes == [];
      assert k.pending + bytes == k.pending;
    }
  }

  lemma BecomesOn(k: Console, l: Console, m: Console)
    requires Becomes(k, l) && Becomes(l, m)
    ensures Becomes(k, m)
  {
    if m.printed == k.printed {
      assert l.printed == k.printed;
    }
  }

  lemma JoiningSaysNothing(s: Slot, step: Step)
    requires s.session.Joining?
    ensures SessionSays(s, step) == []
  {
  }

  /** During the wait the session says nothing, and the console goes on from where it was. */
  lemma {:induction false} RunBecomes(s: Slot, c: nat, steps: seq<Step>)
    requires Cancelling(s, c) && WaitingRun(s, c, steps)
    ensures c < |Final(s, steps).consoles| && Becomes(s.consoles[c], Final(s, steps).consoles[c])
    ensures SessionSaid(s, steps) == []
    decreases |steps|
  {
    if steps != [] {
      var t := Apply(s, steps[0]);
      WaitingStep(s, c, steps[0]);
      StepBecomes(s, c, steps[0]);
      JoiningSaysNothing(s, steps[0]);
      RunBecomes(t, c, steps[1..]);
      BecomesOn(s.consoles[c], t.consoles[c], Final(s, steps).consoles[c]);
    }
  }

  /** What a console in its loop has still to send of its response. */
  lemma RestOfResponse(k: Console, m: Console)
    requires ConsoleOk(k) && ConsoleOk(m) && InLoop(k.pc) && m.pc.Exited?
    requires k.chunks <= m.chunks && m.pid == k.pid && k.out <= m.out
    ensures Added(k.out, m.out)
         == Frames(Pump.TextsOf(m.chunks))[|k.chunks|..] + [Frame(Pump.Killed(k.pid)), End]
  {
    var frames, ending := Frames(Pump.TextsOf(m.chunks)), [Frame(Pump.Killed(k.pid)), End];
    assert m.out == [Frame(m.header)] + (frames + ending);
    assert |k.out| == 1 + |k.chunks|;
    assert m.out[1 + |k.chunks|..] == (frames + ending)[|k.chunks|..];
  }

  /** The join returns once the console has ended. */
  lemma JoinReturns(t: Slot, c: nat, choice: Choice)
    requires Joined(t, c) && t.consoles[c].pc.Exited?
    ensures CanMove(t)
    ensures SessionMoved(t, choice).session == Receiving
    ensures SessionMoved(t, choice).entry == t.entry && SessionMoved(t, choice).consoles == t.consoles
  {
  }

  /**
   The whole of a cancel that comes in time. Whatever the schedule and whatever the
   child still prints, when the console has ended the socket has got exactly the
   rest of its response; for a console that was in its loop that is one frame for
   each further read, one killed notice and one end code. The reads are what the
   child printed, in order, and nothing is left unread if the child had stopped
   printing. The join then returns and finds `exitCode` 0 and `pipeActive` false.
   */
  lemma CancelCompletes(s: Slot, c: nat, steps: seq<Step>, choice: Choice)
    requires Sound(s) && Cancelling(s, c) && WaitingRun(s, c, steps)
    requires c < |Final(s, steps).consoles| && Final(s, steps).consoles[c].pc.Exited?
    ensures Moves(steps, c) <= Work(s, c) + 8 * |Printed(steps, c)|
    ensures var t := Final(s, steps); var k, m := s.consoles[c], t.consoles[c];
            && k.out <= m.out && m.out == Pump.Response(m.header, m.chunks, m.pid)
            && t.history.sent == s.history.sent + Added(k.out, m.out)
            && k.chunks <= m.chunks && Concat(m.chunks) + m.pending == m.printed
            && (Drained(k) && m.printed == k.printed ==> m.pending == [])
            && (InLoop(k.pc) ==>
                  (Added(k.out, m.out)
                   == Frames(Pump.TextsOf(m.chunks))[|k.chunks|..] + [Frame(Pump.Killed(k.pid)), End]))
            && CanMove(t) && SessionMoved(t, choice).session == Receiving
            && SessionMoved(t, choice).entry.exitCode == 0 && !SessionMoved(t, choice).entry.pipeActive
  {
    var t := Final(s, steps);
    CancelTerminates(s, c, steps);
    RunBecomes(s, c, steps);
    RunGrows(s, c, steps);
    ShuffleAlone(Added(s.consoles[c].out, t.consoles[c].out), [], Added(s.history.sent, t.history.sent));
    RunSound(s, steps);
    EndedWithResponse(t, c);
    assert ConsoleOk(s.consoles[c]) && ConsoleOk(t.consoles[c]);
    if InLoop(s.consoles[c].pc) {
      RestOfResponse(s.consoles[c], t.consoles[c]);
    }
    JoinReturns(t, c, choice);
  }

  // ---- when a cancel comes in time ----

  /** A session's own console is the latest one. */
  predicate HandleOk(s: Slot) { s.handle.Some? ==> s.handle.value < |s.consoles| && s.handle.value == |s.consoles| - 1 }

  lemma HandleMoved(s: Slot, choice: Choice)
    requires HandleOk(s) && CanMove(s)
    ensures HandleOk(SessionMoved(s, choice))
  {
    SessionShape(s, choice);
  }

  lemma HandleKept(s: Slot, step: Step)
    requires HandleOk(s) && Enabled(s, step)
    ensures HandleOk(Apply(s, step))
  {
    match step {
      case Session(choice) => HandleMoved(s, choice);
      case Advance(c, n, pid) => AdvanceShape(s, c, n, pid);
      case _ =>
    }
  }

  lemma {:induction false} RunKeepsHandle(s: Slot, steps: seq<Step>)
    requires HandleOk(s) && IsRun(s, steps)
    ensures HandleOk(Final(s, steps))
    decreases |steps|
  {
    if steps != [] {
      HandleKept(s, steps[0]);
      RunKeepsHandle(Apply(s, steps[0]), steps[1..]);
    }
  }

  /** Setting `exitCode` starts a cancel that is seen, or one that is missed. */
  lemma CancelBegins(s: Slot, c: nat, choice: Choice)
    requires OneConsole(s) && s.session.PutExit? && s.handle == Some(c)
    requires c < |s.consoles| && c == |s.consoles| - 1
    ensures Cancelling(SessionMoved(s, choice), c) <==> !Late(s.consoles[c].pc)
    ensures Missed(SessionMoved(s, choice), c) <==> Late(s.consoles[c].pc)
  {
  }

  lemma MissedStep(s: Slot, c: nat, step: Step)
    requires Missed(s, c) && Working(s, c) && Enabled(s, step)
    ensures Missed(Apply(s, step), c)
  {
    NothingInterferes(s, c, step);
    if step.Advance? {
      AdvanceKeepsJoined(s, c, step.n, step.pid);
      AdvanceClearsFlags(s, c, step.n, step.pid);
      AdvanceGetsLate(s, c, step.n, step.pid);
    }
  }

  lemma {:induction false} MissedStaysMissed(s: Slot, c: nat, steps: seq<Step>)
    requires Missed(s, c) && WaitingRun(s, c, steps)
    ensures Missed(Final(s, steps), c)
    decreases |steps|
  {
    if steps != [] {
      MissedStep(s, c, steps[0]);
      MissedStaysMissed(Apply(s, steps[0]), c, steps[1..]);
    }
  }

  lemma CancelOutcome(s: Slot, c: nat, steps: seq<Step>)
    requires OneConsole(s) && s.session.PutExit? && s.handle == Some(c) && c < |s.consoles| && c == |s.consoles| - 1
    requires WaitingRun(s.(session := Joining, entry := s.entry.(exitCode := 1)), c, steps)
    requires var t := Final(s.(session := Joining, entry := s.entry.(exitCode := 1)), steps);
             c < |t.consoles| && t.consoles[c].pc.Exited?
    ensures var t := Final(s.(session := Joining, entry := s.entry.(exitCode := 1)), steps);
            && Joined(t, c)
            && (if Late(s.consoles[c].pc) then t.entry.exitCode == 1
                else t.entry.exitCode == 0 && !t.entry.pipeActive)
  {
    var s1 := s.(session := Joining, entry := s.entry.(exitCode := 1));
    if Late(s.consoles[c].pc) {
      MissedStaysMissed(s1, c, steps);
    } else {
      CancelTerminates(s1, c, steps);
    }
  }

  /** What the session finds when the join returns. */
  lemma JoinFinds(t: Slot, c: nat, choice: Choice)
    requires Joined(t, c) && t.consoles[c].pc.Exited?
    ensures CanMove(t) && SessionMoved(t, choice).session == Receiving
    ensures SessionMoved(t, choice).entry == t.entry
    ensures Deaf(SessionMoved(t, choice)) <==> t.entry.exitCode == 1
  {
    JoinReturns(t, c, choice);
    SessionKeepsOneConsole(t, choice);
  }

  /**
   The outcome of a cancel, wherever a session of a run sets `exitCode` and has a
   console to wait for, and for every schedule of the wait: the session finds both
   flags cleared when the join returns if and only if the console had not yet cleared
   `exitCode` when it was set. Otherwise the slot is deaf.
   */
  lemma CancelIsSeenUnlessLate(s: Slot, c: nat, first: Choice, steps: seq<Step>, choice: Choice)
    requires OneConsole(s) && HandleOk(s) && s.session.PutExit? && s.handle == Some(c)
    requires WaitingRun(SessionMoved(s, first), c, steps)
    requires var t := Final(SessionMoved(s, first), steps); c < |t.consoles| && t.consoles[c].pc.Exited?
    ensures var t := Final(SessionMoved(s, first), steps); var u := SessionMoved(t, choice);
            && CanMove(t) && u.session == Receiving
            && (u.entry.exitCode == 0 && !u.entry.pipeActive <==> !Late(s.consoles[c].pc))
            && (Deaf(u) <==> Late(s.consoles[c].pc))
  {
    assert SessionMoved(s, first) == s.(session := Joining, entry := s.entry.(exitCode := 1));
    CancelOutcome(s, c, steps);
    JoinFinds(Final(SessionMoved(s, first), steps), c, choice);
  }

  /** Every state of every run of a slot is one of those. */
  lemma RunsReachThose(steps: seq<Step>)
    requires IsRun(Init(), steps)
    ensures OneConsole(Final(Init(), steps)) && HandleOk(Final(Init(), steps)) && Sound(Final(Init(), steps))
  {
    InitSound();
    RunSound(Init(), steps);
    RunKeepsHandle(Init(), steps);
  }

  /** With or without a console to wait for: the slot is deaf at once if and only if its console is late. */
  lemma CancelDeafens(s: Slot, choice: Choice)
    requires OneConsole(s) && s.session.PutExit?
    ensures Deaf(SessionMoved(s, choice)) <==> Late(LastPc(s.consoles))
  {
    SessionKeepsOneConsole(s, choice);
  }

  /** Once the console is late, `exitCode` is 0. */
  predicate ClearedWhenLate(s: Slot, c: nat) {
    c < |s.consoles| && (Late(s.consoles[c].pc) ==> s.entry.exitCode == 0)
  }

  lemma StepClears(s: Slot, c: nat, step: Step)
    requires OneConsole(s) && Working(s, c) && ClearedWhenLate(s, c) && Enabled(s, step) && !SetsExit(s, step)
    ensures ClearedWhenLate(Apply(s, step), c)
  {
    match step {
      case Session(choice) => SessionShape(s, choice); SessionLeavesExitCode(s, choice);
      case Advance(d, n, pid) =>
        AdvanceShape(s, d, n, pid);
        AdvanceClearsFlags(s, d, n, pid);
        AdvanceGetsLate(s, d, n, pid);
      case _ =>
    }
  }

  /** In time, `exitCode` is 0 when the console has ended, even if nobody waits for it. */
  lemma {:induction false} InTimeIsCleared(s: Slot, c: nat, steps: seq<Step>)
    requires OneConsole(s) && ClearedWhenLate(s, c)
    requires WaitingRun(s, c, steps) && NoCancel(s, steps)
    ensures ClearedWhenLate(Final(s, steps), c)
    decreases |steps|
  {
    if steps != [] {
      StepClears(s, c, steps[0]);
      OneConsoleKept(s, steps[0]);
      InTimeIsCleared(Apply(s, steps[0]), c, steps[1..]);
    }
  }
}

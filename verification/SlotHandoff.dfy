/**
 The one-line mailbox between a session and a console. The session writes the
 line and then the flag; the console tests the flag, writes the line to the child,
 clears the flag and then the line; nothing locks any of it.
 */
module SlotHandoff {
  import opened Text
  import opened SlotLife
  import opened SlotSafety

  /** The writes that carried something. */
  function NonEmpty(writes: seq<Bytes>): seq<Bytes> {
    if writes == [] then []
    else
      var last := writes[|writes| - 1];
      NonEmpty(writes[..|writes| - 1]) + if last == [] then [] else [last]
  }

  /** What a child can be given of each submitted line: its text up to the first NUL. */
  function Offered(lines: seq<Bytes>): seq<Bytes> {
    if lines == [] then []
    else
      var text := CStr(lines[|lines| - 1]);
      Offered(lines[..|lines| - 1]) + if text == [] then [] else [text]
  }

  function Earlier(lines: seq<Bytes>): seq<Bytes> {
    if lines == [] then [] else lines[..|lines| - 1]
  }

  /** The console has written the line and not yet cleared it. */
  predicate JustWrote(pc: ConsolePc) { pc.ClearFlag? || pc.ClearNext? }

  /** The parts of a slot the mailbox argument looks at. */
  predicate SameMailbox(s: Slot, t: Slot) {
    && t.entry.nextCommand == s.entry.nextCommand && t.entry.hasNextCommand == s.entry.hasNextCommand
    && t.history.mail.submitted == s.history.mail.submitted && t.history.mail.written == s.history.mail.written
  }

  predicate SamePasses(s: Slot, t: Slot) {
    t.history.mail.passBegun == s.history.mail.passBegun && t.history.mail.passDone == s.history.mail.passDone
  }

  lemma SessionMailbox(s: Slot, choice: Choice)
    requires CanMove(s) && !s.session.PutNext? && !s.session.PutFlag?
    ensures SameMailbox(s, SessionMoved(s, choice))
  {
    SessionMailboxEntry(s, choice);
    SessionMailboxHistory(s, choice);
  }

  lemma SessionMailboxEntry(s: Slot, choice: Choice)
    requires CanMove(s) && !s.session.PutNext? && !s.session.PutFlag?
    ensures SessionMoved(s, choice).entry.nextCommand == s.entry.nextCommand
    ensures SessionMoved(s, choice).entry.hasNextCommand == s.entry.hasNextCommand
  {
  }

  lemma SessionMailboxHistory(s: Slot, choice: Choice)
    requires CanMove(s) && !s.session.PutNext? && !s.session.PutFlag?
    ensures SessionMoved(s, choice).history.mail.submitted == s.history.mail.submitted
    ensures SessionMoved(s, choice).history.mail.written == s.history.mail.written
  {
  }

  lemma SessionPasses(s: Slot, choice: Choice)
    requires CanMove(s) && !s.session.PutNext? && !s.session.PutFlag?
    ensures SamePasses(s, SessionMoved(s, choice))
    ensures !SessionMoved(s, choice).session.PutFlag?
  {
  }

  /** The console's part in the mailbox begins and ends inside one pass. */
  predicate InPass(pc: ConsolePc) { pc.WriteNext? || JustWrote(pc) }

  lemma ConsoleMailbox(s: Slot, c: nat, n: nat, pid: int)
    requires CanAdvance(s, c, n) && !InPass(s.consoles[c].pc)
    ensures SameMailbox(s, Advanced(s, c, n, pid))
    ensures !s.consoles[c].pc.TestNext? ==> SamePasses(s, Advanced(s, c, n, pid))
  {
  }

  /** And it begins at the mailbox test. */
  lemma EntersPass(s: Slot, c: nat, n: nat, pid: int)
    requires CanAdvance(s, c, n) && !InPass(s.consoles[c].pc)
    ensures !s.consoles[c].pc.TestNext? ==> !InPass(Advanced(s, c, n, pid).consoles[c].pc)
    ensures !JustWrote(Advanced(s, c, n, pid).consoles[c].pc)
  {
  }

  lemma LastPcAfter(consoles: seq<Console>, k: Console)
    ensures LastPc(consoles + [k]) == k.pc
    ensures consoles != [] ==> LastPc(consoles[|consoles| - 1 := k]) == k.pc
  {
  }

  lemma OfferedOneMore(lines: seq<Bytes>, line: Bytes)
    ensures Offered(lines + [line]) == Offered(lines) + if CStr(line) == [] then [] else [CStr(line)]
    ensures Earlier(lines + [line]) == lines
  {
    assert (lines + [line])[..|lines|] == lines;
  }

  lemma NonEmptyOneMore(writes: seq<Bytes>, x: Bytes)
    ensures NonEmpty(writes + [x]) == NonEmpty(writes) + if x == [] then [] else [x]
  {
    assert (writes + [x])[..|writes|] == writes;
  }

  lemma WritePassShape(s: Slot, c: nat, n: nat, pid: int)
    requires CanAdvance(s, c, n) && s.consoles[c].pc.WriteNext?
    ensures var t := Advanced(s, c, n, pid);
            && t.consoles == s.consoles[c := s.consoles[c].(pc := ClearFlag)]
            && t.history.mail.submitted == s.history.mail.submitted
            && t.history.mail.written == s.history.mail.written + [CStr(s.entry.nextCommand)]
  {
  }

  lemma ChildStepsKeepLastPc(s: Slot, c: nat, k: Console)
    requires c < |s.consoles| && k.pc == s.consoles[c].pc
    ensures LastPc(With(s, c, k).consoles) == LastPc(s.consoles)
  {
  }

  /** The steps of the accept loop and of the children leave the mailbox alone. */
  lemma OtherStepsMailbox(s: Slot, step: Step)
    requires Enabled(s, step) && !step.Session? && !step.Advance?
    ensures SameMailbox(s, Apply(s, step)) && SamePasses(s, Apply(s, step))
    ensures LastPc(Apply(s, step).consoles) == LastPc(s.consoles)
    ensures s.session.PutFlag? <==> Apply(s, step).session.PutFlag?
  {
    match step {
      case Emit(c, bytes) => ChildStepsKeepLastPc(s, c, Apply(s, step).consoles[c]);
      case ChildEnds(c) => ChildStepsKeepLastPc(s, c, s.consoles[c].(open := false));
      case _ =>
    }
  }

  // ---- the mailbox by itself ----

  /** What the mailbox holds, and what has gone through it. */
  datatype Box = Box(next: Bytes, unwritten: bool, submitted: seq<Bytes>, written: seq<Bytes>, clearing: bool)

  function BoxOf(s: Slot): Box {
    var h := s.history.mail;
    Box(s.entry.nextCommand, h.unwritten, h.submitted, h.written, JustWrote(LastPc(s.consoles)))
  }

  /** A line is put in, taken out and written, or the mailbox is cleared. */
  datatype BoxEvent = Put(line: Bytes) | Write | Clear | Leave

  function BoxEventOf(s: Slot, step: Step): BoxEvent
    requires Enabled(s, step)
  {
    if step.Session? && s.session.PutNext? then Put(s.session.command + [NEWLINE])
    else if step.Advance? && s.consoles[step.c].pc.WriteNext? then Write
    else if step.Advance? && s.consoles[step.c].pc.ClearNext? then Clear
    else Leave
  }

  function BoxAfter(b: Box, e: BoxEvent): Box {
    match e
    case Put(line) => b.(next := line, unwritten := true, submitted := b.submitted + [line])
    case Write => b.(unwritten := false, written := b.written + [CStr(b.next)], clearing := true)
    case Clear => b.(next := [], unwritten := false, clearing := false)
    case Leave => b
  }

  lemma SessionBox(s: Slot, choice: Choice)
    requires CanMove(s) && Judged(s, choice) && OneConsole(s)
    ensures BoxOf(SessionMoved(s, choice)) == BoxAfter(BoxOf(s), BoxEventOf(s, Session(choice)))
  {
    SessionShape(s, choice);
    SessionUnwritten(s, choice);
    if Launches(s, choice) {
      LastPcAfter(s.consoles, Launched(s.session.command, s.history.dirWrites));
    }
    if !s.session.PutNext? && !s.session.PutFlag? {
      SessionMailbox(s, choice);
    }
  }

  lemma SessionUnwritten(s: Slot, choice: Choice)
    requires CanMove(s)
    ensures SessionMoved(s, choice).history.mail.unwritten == (s.history.mail.unwritten || s.session.PutNext?)
  {
  }

  lemma AdvanceUnwritten(s: Slot, c: nat, n: nat, pid: int)
    requires CanAdvance(s, c, n)
    ensures Advanced(s, c, n, pid).history.mail.unwritten
         == (s.history.mail.unwritten && !s.consoles[c].pc.WriteNext? && !s.consoles[c].pc.ClearNext?)
  {
  }

  lemma ClearShape(s: Slot, c: nat, n: nat, pid: int)
    requires CanAdvance(s, c, n) && JustWrote(s.consoles[c].pc)
    ensures var t, cleared := Advanced(s, c, n, pid), s.consoles[c].pc.ClearNext?;
            && t.consoles == s.consoles[c := s.consoles[c].(pc := if cleared then Reading else ClearNext)]
            && t.entry.nextCommand == (if cleared then [] else s.entry.nextCommand)
            && t.history.mail.submitted == s.history.mail.submitted && t.history.mail.written == s.history.mail.written
  {
  }

  lemma AdvanceBox(s: Slot, c: nat, n: nat, pid: int)
    requires CanAdvance(s, c, n) && OneConsole(s)
    ensures BoxOf(Advanced(s, c, n, pid)) == BoxAfter(BoxOf(s), BoxEventOf(s, Advance(c, n, pid)))
  {
    assert c == |s.consoles| - 1;
    AdvanceUnwritten(s, c, n, pid);
    var t := Advanced(s, c, n, pid);
    AdvanceShape(s, c, n, pid);
    LastPcAfter(s.consoles, t.consoles[c]);
    if s.consoles[c].pc.WriteNext? {
      WritePassShape(s, c, n, pid);
      WriteLeavesNext(s, c, n, pid);
    } else if JustWrote(s.consoles[c].pc) {
      ClearShape(s, c, n, pid);
    } else {
      ConsoleMailbox(s, c, n, pid);
      EntersPass(s, c, n, pid);
    }
  }

  lemma WriteLeavesNext(s: Slot, c: nat, n: nat, pid: int)
    requires CanAdvance(s, c, n) && s.consoles[c].pc.WriteNext?
    ensures Advanced(s, c, n, pid).entry.nextCommand == s.entry.nextCommand
  {
  }

  lemma OtherBox(s: Slot, step: Step)
    requires Enabled(s, step) && !step.Session? && !step.Advance?
    ensures BoxOf(Apply(s, step)) == BoxOf(s)
  {
    OtherStepsMailbox(s, step);
  }

  /** Every statement of every thread does one of these to the mailbox. */
  lemma StepBox(s: Slot, step: Step)
    requires Enabled(s, step) && OneConsole(s)
    ensures BoxOf(Apply(s, step)) == BoxAfter(BoxOf(s), BoxEventOf(s, step))
    ensures BoxEventOf(s, step) == Write ==> !BoxOf(s).clearing
  {
    match step {
      case Session(choice) => SessionBox(s, choice);
      case Advance(c, n, pid) => AdvanceBox(s, c, n, pid);
      case _ => OtherBox(s, step);
    }
  }

  /**
   What reached the children is a subsequence of what was submitted; and a line
   still unwritten is the latest one submitted and comes after all that was written.
   */
  predicate BoxOk(b: Box) {
    && Subsequence(NonEmpty(b.written), Offered(b.submitted))
    && (b.unwritten ==>
          && b.submitted != [] && b.next == b.submitted[|b.submitted| - 1]
          && Subsequence(NonEmpty(b.written), Offered(Earlier(b.submitted))))
    && (!b.unwritten && !b.clearing ==> b.next == [])
  }

  lemma PutKeepsBox(b: Box, line: Bytes)
    requires BoxOk(b)
    ensures BoxOk(BoxAfter(b, Put(line)))
  {
    OfferedOneMore(b.submitted, line);
    SubsequenceGrows(NonEmpty(b.written), Offered(b.submitted), CStr(line));
    assert Offered(b.submitted) + [] == Offered(b.submitted);
  }

  lemma WriteKeepsBox(b: Box)
    requires BoxOk(b) && !b.clearing
    ensures BoxOk(BoxAfter(b, Write))
  {
    var text := CStr(b.next);
    NonEmptyOneMore(b.written, text);
    if b.unwritten {
      var n := |b.submitted| - 1;
      assert b.submitted == b.submitted[..n] + [b.submitted[n]];
      OfferedOneMore(b.submitted[..n], b.submitted[n]);
      SubsequenceGrows(NonEmpty(b.written), Offered(Earlier(b.submitted)), text);
    }
    assert NonEmpty(b.written) + [] == NonEmpty(b.written);
    assert Offered(Earlier(b.submitted)) + [] == Offered(Earlier(b.submitted));
  }

  lemma EventKeepsBox(b: Box, e: BoxEvent)
    requires BoxOk(b) && (e.Write? ==> !b.clearing)
    ensures BoxOk(BoxAfter(b, e))
  {
    match e {
      case Put(line) => PutKeepsBox(b, line);
      case Write => WriteKeepsBox(b);
      case _ =>
    }
  }

  predicate InOrder(s: Slot) { BoxOk(BoxOf(s)) }

  lemma OrderKept(s: Slot, step: Step)
    requires InOrder(s) && OneConsole(s) && Enabled(s, step)
    ensures InOrder(Apply(s, step))
  {
    StepBox(s, step);
    EventKeepsBox(BoxOf(s), BoxEventOf(s, step));
  }

  lemma {:induction false} RunInOrder(s: Slot, steps: seq<Step>)
    requires InOrder(s) && OneConsole(s) && IsRun(s, steps)
    ensures InOrder(Final(s, steps)) && OneConsole(Final(s, steps))
    decreases |steps|
  {
    if steps != [] {
      OrderKept(s, steps[0]);
      OneConsoleKept(s, steps[0]);
      RunInOrder(Apply(s, steps[0]), steps[1..]);
    }
  }

  /**
   Over a slot's whole life, under every interleaving: the lines that reach a
   child's standard input are submitted lines, in the order of submission, each
   at most once.
   */
  lemma InputIsASubsequence(steps: seq<Step>)
    requires IsRun(Init(), steps)
    ensures var h := Final(Init(), steps).history.mail;
            Subsequence(NonEmpty(h.written), Offered(h.submitted))
  {
    RunInOrder(Init(), steps);
  }

  // ---- exactly what is lost ----

  /** A line is in the mailbox that no child has been given. */
  predicate Waits(b: Box) { b.unwritten && CStr(b.next) != [] }

  /** A new line overwrites one that waits, or the mailbox is cleared with one that came after the write. */
  predicate Loses(b: Box, e: BoxEvent) { Waits(b) && (e.Put? || e.Clear?) }

  /** How many lines are lost in a run. */
  function Losses(s: Slot, steps: seq<Step>): nat
    requires IsRun(s, steps)
    decreases |steps|
  {
    if steps == [] then 0
    else (if Loses(BoxOf(s), BoxEventOf(s, steps[0])) then 1 else 0) + Losses(Apply(s, steps[0]), steps[1..])
  }

  /** How many more lines were submitted than were written or still wait. */
  function Missing(b: Box): int {
    |Offered(b.submitted)| - |NonEmpty(b.written)| - if Waits(b) then 1 else 0
  }

  lemma BoxCounts(b: Box, e: BoxEvent)
    requires BoxOk(b) && (e.Write? ==> !b.clearing)
    ensures Missing(BoxAfter(b, e)) == Missing(b) + if Loses(b, e) then 1 else 0
  {
    match e {
      case Put(line) => OfferedOneMore(b.submitted, line);
      case Write => NonEmptyOneMore(b.written, CStr(b.next));
      case _ =>
    }
  }

  lemma {:induction false} RunCounts(s: Slot, steps: seq<Step>)
    requires InOrder(s) && OneConsole(s) && IsRun(s, steps)
    ensures Missing(BoxOf(Final(s, steps))) == Missing(BoxOf(s)) + Losses(s, steps)
    decreases |steps|
  {
    if steps != [] {
      StepBox(s, steps[0]);
      BoxCounts(BoxOf(s), BoxEventOf(s, steps[0]));
      OrderKept(s, steps[0]);
      OneConsoleKept(s, steps[0]);
      RunCounts(Apply(s, steps[0]), steps[1..]);
    }
  }

  /** The lines written, and the one that waits. */
  function Accepted(b: Box): seq<Bytes> {
    NonEmpty(b.written) + if Waits(b) then [CStr(b.next)] else []
  }

  lemma NothingMissing(b: Box)
    requires BoxOk(b)
    ensures Accepted(b) == Offered(b.submitted) <==> Missing(b) == 0
  {
    if Waits(b) {
      var n := |b.submitted| - 1;
      assert b.submitted == b.submitted[..n] + [b.submitted[n]];
      OfferedOneMore(b.submitted[..n], b.submitted[n]);
      SubsequenceLength(NonEmpty(b.written), Offered(Earlier(b.submitted)));
    } else {
      SubsequenceLength(NonEmpty(b.written), Offered(b.submitted));
    }
  }

  /**
   The condition is exact. In every run of a slot: every line submitted was written
   to a child or waits for one, in order and once each, if and only if no line was
   overwritten while it waited and none was cleared with the one before it. As many
   are missing as were lost that way.
   */
  lemma InputIsCompleteUnlessLost(steps: seq<Step>)
    requires IsRun(Init(), steps)
    ensures var b := BoxOf(Final(Init(), steps));
            && Missing(b) == Losses(Init(), steps)
            && (Accepted(b) == Offered(b.submitted) <==> Losses(Init(), steps) == 0)
  {
    RunInOrder(Init(), steps);
    RunCounts(Init(), steps);
    NothingMissing(BoxOf(Final(Init(), steps)));
  }

  // ---- when the console keeps up ----

  /** The condition on schedules: a line is submitted only after a full pass since the last one. */
  predicate Paced(s: Slot, step: Step) {
    step.Session? && s.session.PutNext? ==> s.history.mail.passDone
  }

  predicate IsPacedRun(s: Slot, steps: seq<Step>)
    decreases |steps|
  {
    steps == [] || (Enabled(s, steps[0]) && Paced(s, steps[0]) && IsPacedRun(Apply(s, steps[0]), steps[1..]))
  }

  function PacedFinal(s: Slot, steps: seq<Step>): Slot
    requires IsPacedRun(s, steps)
    decreases |steps|
  {
    if steps == [] then s else PacedFinal(Apply(s, steps[0]), steps[1..])
  }

  /** The waiting line is the last one submitted, and everything before it has been written. */
  predicate LastIsWaiting(s: Slot) {
    && s.history.mail.submitted != []
    && s.entry.nextCommand == s.history.mail.submitted[|s.history.mail.submitted| - 1]
    && NonEmpty(s.history.mail.written) == Offered(Earlier(s.history.mail.submitted))
  }

  predicate AllWritten(s: Slot) { NonEmpty(s.history.mail.written) == Offered(s.history.mail.submitted) }

  /** Where a paced slot can be: settled, submitting, waiting, writing, or clearing up. */
  predicate KeepsUp(s: Slot) {
    var pc := LastPc(s.consoles);
    if s.session.PutFlag? then
      LastIsWaiting(s) && !s.entry.hasNextCommand && !InPass(pc)
    else if s.history.mail.passDone then
      AllWritten(s) && !s.entry.hasNextCommand && s.entry.nextCommand == [] && !InPass(pc)
    else
      match pc
      case WriteNext => LastIsWaiting(s) && s.entry.hasNextCommand && s.history.mail.passBegun
      case ClearFlag => AllWritten(s) && s.history.mail.passBegun
      case ClearNext => AllWritten(s) && !s.entry.hasNextCommand && s.history.mail.passBegun
      case _ => LastIsWaiting(s) && s.entry.hasNextCommand && !s.history.mail.passBegun
  }

  lemma PutNextShape(s: Slot, choice: Choice)
    requires s.session.PutNext?
    ensures var t := SessionMoved(s, choice); var line := s.session.command + [NEWLINE];
            && t.session.PutFlag? && t.consoles == s.consoles
            && t.entry.nextCommand == line && t.entry.hasNextCommand == s.entry.hasNextCommand
            && t.history.mail == Mail(s.history.mail.submitted + [line], s.history.mail.written, true, false, false)
  {
  }

  lemma PutNextKeepsUp(s: Slot, choice: Choice)
    requires KeepsUp(s) && s.session.PutNext? && s.history.mail.passDone
    ensures KeepsUp(SessionMoved(s, choice))
  {
    PutNextShape(s, choice);
    OfferedOneMore(s.history.mail.submitted, s.session.command + [NEWLINE]);
  }

  lemma PutFlagKeepsUp(s: Slot, choice: Choice)
    requires KeepsUp(s) && s.session.PutFlag?
    ensures KeepsUp(SessionMoved(s, choice))
  {
  }

  /** What `KeepsUp` depends on. */
  lemma KeepsUpCarries(s: Slot, t: Slot)
    requires KeepsUp(s) && SameMailbox(s, t) && SamePasses(s, t)
    requires !s.session.PutFlag? && !t.session.PutFlag?
    requires LastPc(t.consoles) == LastPc(s.consoles)
             || (LastPc(s.consoles).Exited? && !InPass(LastPc(t.consoles)))
    ensures KeepsUp(t)
  {
  }

  lemma SessionKeepsUp(s: Slot, choice: Choice)
    requires KeepsUp(s) && OneConsole(s) && CanMove(s) && Paced(s, Session(choice))
    ensures KeepsUp(SessionMoved(s, choice))
  {
    if s.session.PutNext? {
      PutNextKeepsUp(s, choice);
    } else if s.session.PutFlag? {
      PutFlagKeepsUp(s, choice);
    } else {
      SessionShape(s, choice);
      SessionMailbox(s, choice);
      SessionPasses(s, choice);
      if Launches(s, choice) {
        LastPcAfter(s.consoles, Launched(s.session.command, s.history.dirWrites));
      }
      KeepsUpCarries(s, SessionMoved(s, choice));
    }
  }

  lemma ApproachKeepsUp(s: Slot, c: nat, n: nat, pid: int)
    requires KeepsUp(s) && OneConsole(s) && CanAdvance(s, c, n) && !InPass(s.consoles[c].pc)
    ensures KeepsUp(Advanced(s, c, n, pid))
  {
    var t := Advanced(s, c, n, pid);
    AdvanceShape(s, c, n, pid);
    assert c == |s.consoles| - 1;
    LastPcAfter(s.consoles, t.consoles[c]);
    ConsoleMailbox(s, c, n, pid);
    EntersPass(s, c, n, pid);
  }

  lemma WriteKeepsUp(s: Slot, c: nat, n: nat, pid: int)
    requires KeepsUp(s) && CanAdvance(s, c, n) && c == |s.consoles| - 1 && s.consoles[c].pc.WriteNext?
    ensures KeepsUp(Advanced(s, c, n, pid))
  {
    LastPcAfter(s.consoles, Advanced(s, c, n, pid).consoles[c]);
    WriteCompletes(s);
  }

  lemma ClearFlagKeepsUp(s: Slot, c: nat, n: nat, pid: int)
    requires KeepsUp(s) && CanAdvance(s, c, n) && c == |s.consoles| - 1 && s.consoles[c].pc.ClearFlag?
    ensures KeepsUp(Advanced(s, c, n, pid))
  {
    LastPcAfter(s.consoles, Advanced(s, c, n, pid).consoles[c]);
  }

  lemma ClearNextKeepsUp(s: Slot, c: nat, n: nat, pid: int)
    requires KeepsUp(s) && CanAdvance(s, c, n) && c == |s.consoles| - 1 && s.consoles[c].pc.ClearNext?
    ensures KeepsUp(Advanced(s, c, n, pid))
  {
    LastPcAfter(s.consoles, Advanced(s, c, n, pid).consoles[c]);
  }

  lemma ConsoleKeepsUp(s: Slot, c: nat, n: nat, pid: int)
    requires KeepsUp(s) && OneConsole(s) && CanAdvance(s, c, n)
    ensures KeepsUp(Advanced(s, c, n, pid))
  {
    assert c == |s.consoles| - 1;
    match s.consoles[c].pc {
      case WriteNext => WriteKeepsUp(s, c, n, pid);
      case ClearFlag => ClearFlagKeepsUp(s, c, n, pid);
      case ClearNext => ClearNextKeepsUp(s, c, n, pid);
      case _ => ApproachKeepsUp(s, c, n, pid);
    }
  }

  lemma WriteCompletes(s: Slot)
    requires LastIsWaiting(s)
    ensures NonEmpty(s.history.mail.written + [CStr(s.entry.nextCommand)]) == Offered(s.history.mail.submitted)
  {
    var h, text := s.history.mail, CStr(s.entry.nextCommand);
    assert (h.written + [text])[..|h.written|] == h.written;
  }

  lemma KeepsUpKept(s: Slot, step: Step)
    requires KeepsUp(s) && OneConsole(s) && Enabled(s, step) && Paced(s, step)
    ensures KeepsUp(Apply(s, step))
  {
    match step {
      case Session(choice) => SessionKeepsUp(s, choice);
      case Advance(c, n, pid) => ConsoleKeepsUp(s, c, n, pid);
      case _ => OtherStepsMailbox(s, step);
    }
  }

  lemma {:induction false} PacedRunKeepsUp(s: Slot, steps: seq<Step>)
    requires KeepsUp(s) && OneConsole(s) && IsPacedRun(s, steps)
    ensures KeepsUp(PacedFinal(s, steps)) && OneConsole(PacedFinal(s, steps))
    decreases |steps|
  {
    if steps != [] {
      KeepsUpKept(s, steps[0]);
      OneConsoleKept(s, steps[0]);
      PacedRunKeepsUp(Apply(s, steps[0]), steps[1..]);
    }
  }

  /** With a full pass between submissions nothing is lost: once the last pass is done, every line was written. */
  lemma PacedInputIsComplete(steps: seq<Step>)
    requires IsPacedRun(Init(), steps)
    requires PacedFinal(Init(), steps).history.mail.passDone && !PacedFinal(Init(), steps).session.PutFlag?
    ensures var h := PacedFinal(Init(), steps).history.mail;
            NonEmpty(h.written) == Offered(h.submitted)
  {
    PacedRunKeepsUp(Init(), steps);
  }

}

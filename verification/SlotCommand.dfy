/**
 Which command a console runs. The session puts the command in the shared entry
 and launches the console; the console reads it there twice, for its header and
 for the shell. A directory command that arrives in between overwrites it.
 */
module SlotCommand {
  import opened Text
  import opened SlotLife
  import opened SlotSafety
  import Dispatch

  const CD: Bytes := "cd"
  const SUDO: Bytes := "sudo "

  /**
   A command read from the entry after `at` directory commands, by a console that
   was launched with `launched` after `launchedAt` of them.
   */
  predicate ReadAt(command: Bytes, at: nat, launched: Bytes, launchedAt: nat) {
    launchedAt <= at && if at == launchedAt then command == launched else Contains(command, CD)
  }

  predicate OrdersOk(k: Console, e: Entry, dirWrites: nat) {
    var o := k.orders;
    && !Contains(o.launched, CD)
    && match k.pc
       case Announce => ReadAt(e.command, dirWrites, o.launched, o.launchedAt)
       case TakeCommand =>
         ReadAt(e.command, dirWrites, o.launched, o.launchedAt)
         && ReadAt(o.announced, o.announcedAt, o.launched, o.launchedAt)
       case _ =>
         ReadAt(o.announced, o.announcedAt, o.launched, o.launchedAt)
         && ReadAt(o.ran, o.ranAt, o.launched, o.launchedAt)
  }

  /** A command on its way to the shell does not contain "cd"; one on its way to `chdir` does. */
  predicate SessionOk(s: Slot) {
    match s.session
    case TestActive(command) => !Contains(command, CD)
    case PutCommand(command) => !Contains(command, CD)
    case MakePipes(command) => !Contains(command, CD) && s.entry.command == command
    case PutActive(command) => !Contains(command, CD) && s.entry.command == command
    case Launch(command) => !Contains(command, CD) && s.entry.command == command
    case EnterDirectory(command) => Contains(command, CD)
    case PutDirCommand(command) => Contains(command, CD)
    case _ => true
  }

  predicate ConsoleOrdersOk(s: Slot) {
    forall c :: 0 <= c < |s.consoles| ==> OrdersOk(s.consoles[c], s.entry, s.history.dirWrites)
  }

  predicate CommandsOk(s: Slot) { OneConsole(s) && SessionOk(s) && ConsoleOrdersOk(s) }

  lemma SessionOkMoved(s: Slot, choice: Choice)
    requires SessionOk(s) && CanMove(s) && Judged(s, choice)
    ensures SessionOk(SessionMoved(s, choice))
  {
    if s.session.TestExit? && choice.verdict != Dispatch.Refuse {
      Dispatch.ShellNeverSeesCd(s.session.command, choice.root);
    }
  }

  predicate WritesCommand(pc: SessionPc) { pc.PutCommand? || pc.PutDirCommand? }

  /** What a session statement does to the command field and to the count. */
  lemma CommandShape(s: Slot, choice: Choice)
    requires CanMove(s)
    ensures var t := SessionMoved(s, choice);
            && t.entry.command == (if WritesCommand(s.session) then s.session.command else s.entry.command)
            && t.history.dirWrites == s.history.dirWrites + if s.session.PutDirCommand? then 1 else 0
  {
  }

  /** A console that has read its command twice no longer looks at the entry. */
  predicate StillReads(pc: ConsolePc) { pc.Announce? || pc.TakeCommand? }

  lemma OrdersCarry(k: Console, e: Entry, d: nat, f: Entry, g: nat)
    requires OrdersOk(k, e, d)
    requires StillReads(k.pc) ==> (f.command == e.command && g == d) || (g == d + 1 && Contains(f.command, CD))
    ensures OrdersOk(k, f, g)
  {
  }

  lemma SessionKeepsCommands(s: Slot, choice: Choice)
    requires CommandsOk(s) && CanMove(s) && Judged(s, choice)
    ensures ConsoleOrdersOk(SessionMoved(s, choice))
  {
    var t := SessionMoved(s, choice);
    SessionShape(s, choice);
    CommandShape(s, choice);
    forall c | 0 <= c < |s.consoles|
      ensures OrdersOk(t.consoles[c], t.entry, t.history.dirWrites)
    {
      OrdersCarry(s.consoles[c], s.entry, s.history.dirWrites, t.entry, t.history.dirWrites);
    }
  }

  lemma AdvanceReads(s: Slot, c: nat, n: nat, pid: int)
    requires CanAdvance(s, c, n) && OrdersOk(s.consoles[c], s.entry, s.history.dirWrites)
    ensures OrdersOk(Advanced(s, c, n, pid).consoles[c], s.entry, s.history.dirWrites)
  {
    match s.consoles[c].pc {
      case Announce =>
      case TakeCommand =>
      case Reading =>
      case _ =>
    }
  }

  lemma AdvanceLeavesCommand(s: Slot, c: nat, n: nat, pid: int)
    requires CanAdvance(s, c, n)
    ensures Advanced(s, c, n, pid).entry.command == s.entry.command
    ensures Advanced(s, c, n, pid).history.dirWrites == s.history.dirWrites
  {
  }

  lemma ConsoleKeepsCommands(s: Slot, c: nat, n: nat, pid: int)
    requires CommandsOk(s) && CanAdvance(s, c, n)
    ensures CommandsOk(Advanced(s, c, n, pid))
  {
    var t := Advanced(s, c, n, pid);
    ConsoleKeepsOneConsole(s, c, n, pid);
    AdvanceShape(s, c, n, pid);
    AdvanceReads(s, c, n, pid);
    AdvanceLeavesCommand(s, c, n, pid);
    forall d | 0 <= d < |t.consoles|
      ensures OrdersOk(t.consoles[d], t.entry, t.history.dirWrites)
    {
      OrdersCarry(if d == c then t.consoles[c] else s.consoles[d], s.entry, s.history.dirWrites,
                  t.entry, t.history.dirWrites);
    }
  }

  lemma CommandsKept(s: Slot, step: Step)
    requires CommandsOk(s) && Enabled(s, step)
    ensures CommandsOk(Apply(s, step))
  {
    OneConsoleKept(s, step);
    match step {
      case Session(choice) => SessionOkMoved(s, choice); SessionKeepsCommands(s, choice);
      case Advance(c, n, pid) => ConsoleKeepsCommands(s, c, n, pid);
      case _ =>
    }
  }

  lemma {:induction false} RunKeepsCommands(s: Slot, steps: seq<Step>)
    requires CommandsOk(s) && IsRun(s, steps)
    ensures CommandsOk(Final(s, steps))
    decreases |steps|
  {
    if steps != [] {
      CommandsKept(s, steps[0]);
      RunKeepsCommands(Apply(s, steps[0]), steps[1..]);
    }
  }

  /**
   In every run of a slot: a console is launched with a command without "cd". It
   announces that command if and only if no directory command was put in the entry
   between the launch and the header, and it runs that command if and only if none
   was put there between the launch and the read; otherwise the shell gets a
   directory command.
   */
  lemma RunsWhatWasLaunched(steps: seq<Step>, c: nat)
    requires IsRun(Init(), steps)
    requires c < |Final(Init(), steps).consoles| && !StillReads(Final(Init(), steps).consoles[c].pc)
    ensures var o := Final(Init(), steps).consoles[c].orders;
            && !Contains(o.launched, CD)
            && (o.announced == o.launched <==> o.announcedAt == o.launchedAt)
            && (o.ran == o.launched <==> o.ranAt == o.launchedAt)
            && (Contains(o.ran, CD) <==> o.ranAt != o.launchedAt)
  {
    RunKeepsCommands(Init(), steps);
  }

  /** The steps of a directory command, up to the write of the entry, and one of the console. */
  function DirectorySteps(command: Bytes, choice: Choice, read: Step): seq<Step> {
    [Receive(Dispatch.Message(command)), Session(choice), Session(choice), Session(choice), read]
  }

  /** Up to the write the session only looks at the command and changes directory. */
  lemma DirectoryStates(s: Slot, command: Bytes, choice: Choice)
    requires s.session.Receiving? && s.entry.exitCode == 0
    requires choice.verdict == Dispatch.Decide(command, choice.root) == Dispatch.Directory
    ensures var heard := Received(s, Dispatch.Message(command));
            && Enabled(s, Receive(Dispatch.Message(command))) && Enabled(heard, Session(choice))
            && var entering := SessionMoved(heard, choice);
            && entering.session == EnterDirectory(command) && entering.consoles == s.consoles
            && CanMove(entering) && Judged(entering, choice)
            && CanMove(SessionMoved(entering, choice)) && Judged(SessionMoved(entering, choice), choice)
            && SessionMoved(entering, choice).consoles == s.consoles
            && var written := SessionMoved(SessionMoved(entering, choice), choice);
            && written.entry.command == command && written.consoles == s.consoles
  {
  }

  /**
   The failing family: a directory command that arrives while a console has still
   to read its own. The shell is given the directory command, and the command the
   console was launched with never runs.
   */
  lemma DirectoryCommandIsRun(s: Slot, c: nat, command: Bytes, choice: Choice, n: nat, pid: int)
    requires s.session.Receiving? && s.entry.exitCode == 0
    requires c < |s.consoles| && s.consoles[c].pc.TakeCommand?
    requires choice.verdict == Dispatch.Decide(command, choice.root) == Dispatch.Directory
    ensures IsRun(s, DirectorySteps(command, choice, Advance(c, n, pid)))
    ensures var t := Final(s, DirectorySteps(command, choice, Advance(c, n, pid)));
            && c < |t.consoles| && t.consoles[c].pc.Forking?
            && t.consoles[c].orders.ran == command && t.consoles[c].orders.launched == s.consoles[c].orders.launched
  {
    var receive, step, read := Receive(Dispatch.Message(command)), Session(choice), Advance(c, n, pid);
    DirectoryStates(s, command, choice);
    FiveSteps(s, receive, step, step, step, read);
  }

  lemma FiveSteps(s: Slot, a: Step, b: Step, c: Step, d: Step, e: Step)
    requires Enabled(s, a) && Enabled(Apply(s, a), b) && Enabled(Apply(Apply(s, a), b), c)
    requires Enabled(Apply(Apply(Apply(s, a), b), c), d)
    requires Enabled(Apply(Apply(Apply(Apply(s, a), b), c), d), e)
    ensures IsRun(s, [a, b, c, d, e])
    ensures Final(s, [a, b, c, d, e]) == Apply(Apply(Apply(Apply(Apply(s, a), b), c), d), e)
  {
    var s1 := Apply(s, a);
    var s2 := Apply(s1, b);
    var s3 := Apply(s2, c);
    RunCons(Apply(s3, d), e, []);
    RunCons(s3, d, [e]);
    RunCons(s2, c, [d, e]);
    RunCons(s1, b, [c, d, e]);
    RunCons(s, a, [b, c, d, e]);
    assert [e] + [] == [e] && [d] + [e] == [d, e] && [c] + [d, e] == [c, d, e];
    assert [b] + [c, d, e] == [b, c, d, e] && [a] + [b, c, d, e] == [a, b, c, d, e];
  }

  // ---- which way a command goes ----

  /**
   With `exitCode` 0 a command is refused if and only if it contains "sudo " and the
   server is not root; otherwise it is a directory command if and only if it contains
   "cd", and goes to the shell or to the process at work if it does not. With any other
   `exitCode` it is dropped.
   */
  lemma WhereACommandGoes(s: Slot, command: Bytes, choice: Choice)
    requires s.session == TestExit(command) && Enabled(s, Session(choice))
    ensures var t := Apply(s, Session(choice)); var refused := Contains(command, SUDO) && !choice.root;
            && (s.entry.exitCode != 0 <==> t.session == Receiving)
            && (s.entry.exitCode == 0 ==>
                  && (t.session == RefuseFrame <==> refused)
                  && (t.session == EnterDirectory(command) <==> !refused && Contains(command, CD))
                  && (t.session == TestActive(command) <==> !refused && !Contains(command, CD)))
  {
  }

  /** The command a session is working on. */
  function CommandOf(pc: SessionPc): Option<Bytes> {
    match pc
    case TestExit(command) => Some(command)
    case EnterDirectory(command) => Some(command)
    case PutDirCommand(command) => Some(command)
    case TestActive(command) => Some(command)
    case PutCommand(command) => Some(command)
    case MakePipes(command) => Some(command)
    case PutActive(command) => Some(command)
    case Launch(command) => Some(command)
    case PutNext(command) => Some(command)
    case _ => None
  }

  /** A session works on the command it received until it is done with it: on no other, and unchanged. */
  lemma CommandIsCarried(s: Slot, step: Step)
    requires Enabled(s, step) && CommandOf(Apply(s, step).session).Some?
    ensures var now := CommandOf(Apply(s, step).session);
            if step.Receive? then step.request == Dispatch.Message(now.value) else CommandOf(s.session) == now
  {
    if step.Advance? {
      AdvanceShape(s, step.c, step.n, step.pid);
    }
  }

  /** And what it launches a console with is that command. */
  lemma CommandIsLaunched(s: Slot, step: Step)
    requires Enabled(s, step) && |Apply(s, step).consoles| > |s.consoles|
    ensures CommandOf(s.session).Some? && |Apply(s, step).consoles| == |s.consoles| + 1
    ensures Apply(s, step).consoles[|s.consoles|].orders.launched == CommandOf(s.session).value
  {
    if step.Session? {
      SessionShape(s, step.choice);
    } else if step.Advance? {
      AdvanceShape(s, step.c, step.n, step.pid);
    }
  }

  // ---- no sudo without root ----

  /** The server is not root at any of these steps. */
  predicate NeverRoot(steps: seq<Step>) {
    forall i :: 0 <= i < |steps| && steps[i].Session? ==> !steps[i].choice.root
  }

  /** Past its test, a command is free of sudo. */
  predicate SessionSudoFree(pc: SessionPc) {
    CommandOf(pc).Some? && !pc.TestExit? ==> !Contains(CommandOf(pc).value, SUDO)
  }

  predicate OrdersSudoFree(o: Orders) {
    !Contains(o.launched, SUDO) && !Contains(o.announced, SUDO) && !Contains(o.ran, SUDO)
  }

  predicate SudoFree(s: Slot) {
    && SessionSudoFree(s.session) && !Contains(s.entry.command, SUDO)
    && forall c :: 0 <= c < |s.consoles| ==> OrdersSudoFree(s.consoles[c].orders)
  }

  lemma SessionKeepsSudoFree(s: Slot, choice: Choice)
    requires SudoFree(s) && Enabled(s, Session(choice)) && !choice.root
    ensures SudoFree(SessionMoved(s, choice))
  {
    var t := SessionMoved(s, choice);
    SessionShape(s, choice);
    CommandShape(s, choice);
    if s.session.TestExit? {
      WhereACommandGoes(s, s.session.command, choice);
    } else if CommandOf(t.session).Some? {
      CommandIsCarried(s, Session(choice));
    }
  }

  lemma AdvanceOrders(s: Slot, c: nat, n: nat, pid: int)
    requires CanAdvance(s, c, n) && OrdersSudoFree(s.consoles[c].orders) && !Contains(s.entry.command, SUDO)
    ensures OrdersSudoFree(Advanced(s, c, n, pid).consoles[c].orders)
  {
    match s.consoles[c].pc {
      case Announce =>
      case TakeCommand =>
      case Reading =>
      case _ =>
    }
  }

  lemma StepKeepsSudoFree(s: Slot, step: Step)
    requires SudoFree(s) && Enabled(s, step) && (step.Session? ==> !step.choice.root)
    ensures SudoFree(Apply(s, step))
  {
    match step {
      case Session(choice) => SessionKeepsSudoFree(s, choice);
      case Advance(c, n, pid) =>
        AdvanceShape(s, c, n, pid);
        AdvanceOrders(s, c, n, pid);
        AdvanceLeavesCommand(s, c, n, pid);
      case _ =>
    }
  }

  lemma {:induction false} RunKeepsSudoFree(s: Slot, steps: seq<Step>)
    requires SudoFree(s) && IsRun(s, steps) && NeverRoot(steps)
    ensures SudoFree(Final(s, steps))
    decreases |steps|
  {
    if steps != [] {
      StepKeepsSudoFree(s, steps[0]);
      assert forall i :: 0 <= i < |steps[1..]| ==> steps[1..][i] == steps[i + 1];
      RunKeepsSudoFree(Apply(s, steps[0]), steps[1..]);
    }
  }

  /**
   In every run of a slot of a server that is not root: no console is launched with,
   announces or runs a command with "sudo " in it, and none is ever in the entry.
   */
  lemma NoSudoWithoutRoot(steps: seq<Step>)
    requires IsRun(Init(), steps) && NeverRoot(steps)
    ensures var s := Final(Init(), steps);
            && !Contains(s.entry.command, SUDO)
            && forall c :: 0 <= c < |s.consoles| ==>
                 var o := s.consoles[c].orders;
                 !Contains(o.launched, SUDO) && !Contains(o.announced, SUDO) && !Contains(o.ran, SUDO)
  {
    EmptyHasNoSudo();
    RunKeepsSudoFree(Init(), steps);
  }

  lemma EmptyHasNoSudo()
    ensures !Contains([], SUDO)
  {
  }
}

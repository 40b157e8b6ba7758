/**
 What every statement of every thread of a slot keeps: at most one console at
 work, one end code for every command begun, and consoles that say exactly what
 the pump says.
 */
module SlotSafety {
  import opened Text
  import opened Wire
  import opened SlotLife
  import Dispatch
  import Pump

  // ---- one console per slot ----

  function LastPc(consoles: seq<Console>): ConsolePc {
    if consoles == [] then Exited else consoles[|consoles| - 1].pc
  }

  /** The session has found the slot free and has not yet claimed it. */
  predicate Claiming(pc: SessionPc) { pc.PutCommand? || pc.MakePipes? || pc.PutActive? }

  /** Only the latest console can be at work; while it is, `pipeActive` is set and no launch is under way. */
  predicate OneConsole(s: Slot) {
    && (forall c :: 0 <= c < |s.consoles| - 1 ==> s.consoles[c].pc.Exited?)
    && (!LastPc(s.consoles).Exited? ==> s.entry.pipeActive && !Claiming(s.session) && !s.session.Launch?)
    && (Claiming(s.session) ==> !s.entry.pipeActive)
    && (s.session.Launch? ==> s.entry.pipeActive)
  }

  lemma SessionKeepsOneConsole(s: Slot, choice: Choice)
    requires OneConsole(s) && CanMove(s)
    ensures OneConsole(SessionMoved(s, choice))
  {
  }

  lemma ConsoleKeepsOneConsole(s: Slot, c: nat, n: nat, pid: int)
    requires OneConsole(s) && CanAdvance(s, c, n)
    ensures OneConsole(Advanced(s, c, n, pid))
  {
    assert c == |s.consoles| - 1;
  }

  lemma OneConsoleKept(s: Slot, step: Step)
    requires OneConsole(s) && Enabled(s, step)
    ensures OneConsole(Apply(s, step))
  {
    match step {
      case Session(choice) => SessionKeepsOneConsole(s, choice);
      case Advance(c, n, pid) => ConsoleKeepsOneConsole(s, c, n, pid);
      case _ =>
    }
  }

  // ---- an end code for every command ----

  function EndCount(sent: seq<Token>): nat {
    if sent == [] then 0
    else EndCount(sent[..|sent| - 1]) + if sent[|sent| - 1] == End then 1 else 0
  }

  lemma EndCountOneMore(sent: seq<Token>, t: Token)
    ensures EndCount(sent + [t]) == EndCount(sent) + if t == End then 1 else 0
  {
    assert (sent + [t])[..|sent|] == sent;
  }

  /** A console whose end code is still to come. */
  predicate Owes(pc: ConsolePc) { !pc.ClearExit? && !pc.ClearActive? && !pc.Exited? }

  /** A session in the middle of a command it answers itself. */
  predicate SessionOwes(pc: SessionPc) {
    || pc.RefuseFrame? || pc.RefuseEnd? || pc.EnterDirectory? || pc.PutDirCommand?
    || pc.DirFrame? || pc.DirEnd? || pc.FailFrame? || pc.FailEnd?
  }

  function OwedCount(consoles: seq<Console>): nat {
    if consoles == [] then 0
    else OwedCount(consoles[..|consoles| - 1]) + if Owes(consoles[|consoles| - 1].pc) then 1 else 0
  }

  lemma {:induction false} OwedUpdate(consoles: seq<Console>, c: nat, k: Console)
    requires c < |consoles|
    ensures OwedCount(consoles[c := k]) + (if Owes(consoles[c].pc) then 1 else 0)
         == OwedCount(consoles) + if Owes(k.pc) then 1 else 0
  {
    var n := |consoles| - 1;
    if c < n {
      assert consoles[c := k][..n] == consoles[..n][c := k];
      OwedUpdate(consoles[..n], c, k);
    } else {
      assert consoles[c := k][..n] == consoles[..n];
    }
  }

  function Outstanding(s: Slot): nat {
    (if SessionOwes(s.session) then 1 else 0) + OwedCount(s.consoles)
  }

  /** End codes sent, and those still owed, are the commands begun. */
  predicate Accounted(s: Slot) { EndCount(s.history.sent) + Outstanding(s) == s.history.begun }

  /** What a session statement says, if anything. */
  function SessionUtterance(s: Slot): Option<Token> {
    match s.session
    case RefuseFrame => Some(Frame(REFUSAL))
    case RefuseEnd => Some(End)
    case DirFrame => Some(Frame(Header(s.entry)))
    case DirEnd => Some(End)
    case FailFrame => Some(Frame(FAILURE))
    case FailEnd => Some(End)
    case _ => None
  }

  predicate Launches(s: Slot, choice: Choice) { s.session.Launch? && choice.ok }

  lemma SessionShape(s: Slot, choice: Choice)
    requires CanMove(s)
    ensures var t := SessionMoved(s, choice); var u := SessionUtterance(s);
            && t.history.sent == (if u.Some? then s.history.sent + [u.value] else s.history.sent)
            && t.consoles == (if Launches(s, choice)
                              then s.consoles + [Launched(s.session.command, s.history.dirWrites)] else s.consoles)
  {
  }

  /** A command is begun exactly when a debt is taken on, by the session or by a new console. */
  lemma SessionDebt(s: Slot, choice: Choice)
    requires CanMove(s)
    ensures var t := SessionMoved(s, choice);
            (if SessionUtterance(s) == Some(End) then 1 else 0)
              + (if SessionOwes(t.session) then 1 else 0) + (if Launches(s, choice) then 1 else 0)
            == (if SessionOwes(s.session) then 1 else 0) + t.history.begun - s.history.begun
  {
  }

  lemma SessionAccounted(s: Slot, choice: Choice)
    requires Accounted(s) && CanMove(s)
    ensures Accounted(SessionMoved(s, choice))
  {
    SessionShape(s, choice);
    SessionDebt(s, choice);
    var u := SessionUtterance(s);
    if u.Some? {
      EndCountOneMore(s.history.sent, u.value);
    }
    if Launches(s, choice) {
      assert SessionMoved(s, choice).consoles[..|s.consoles|] == s.consoles;
    }
  }

  /** What a console statement says, if anything. */
  function Utterance(s: Slot, c: nat): Option<Token>
    requires c < |s.consoles|
  {
    var k := s.consoles[c];
    match k.pc
    case Announce => Some(Frame(Header(s.entry)))
    case Forwarding(chunk) => Some(Frame(CStr(chunk)))
    case AnnounceKill => Some(Frame(Pump.Killed(k.pid)))
    case SendEnd => Some(End)
    case _ => None
  }

  /** A console statement changes its own console, and the history by what it says. */
  lemma AdvanceShape(s: Slot, c: nat, n: nat, pid: int)
    requires CanAdvance(s, c, n)
    ensures var t := Advanced(s, c, n, pid); var u := Utterance(s, c);
            && |t.consoles| == |s.consoles|
            && t.consoles == s.consoles[c := t.consoles[c]]
            && t.session == s.session && t.handle == s.handle
            && t.history.begun == s.history.begun
            && t.history.mail.submitted == s.history.mail.submitted
            && t.history.sent == (if u.Some? then s.history.sent + [u.value] else s.history.sent)
            && t.consoles[c].out == (if u.Some? then s.consoles[c].out + [u.value] else s.consoles[c].out)
  {
  }

  lemma AdvancePaysDebt(s: Slot, c: nat, n: nat, pid: int)
    requires CanAdvance(s, c, n)
    ensures Owes(s.consoles[c].pc) == (Owes(Advanced(s, c, n, pid).consoles[c].pc) || Utterance(s, c) == Some(End))
    ensures !(Owes(Advanced(s, c, n, pid).consoles[c].pc) && Utterance(s, c) == Some(End))
  {
  }

  lemma ConsoleAccounted(s: Slot, c: nat, n: nat, pid: int)
    requires Accounted(s) && CanAdvance(s, c, n)
    ensures Accounted(Advanced(s, c, n, pid))
  {
    AdvanceShape(s, c, n, pid);
    AdvancePaysDebt(s, c, n, pid);
    DebtPaid(s, Advanced(s, c, n, pid), c, Utterance(s, c));
  }

  /** A console that says at most one thing, and no longer owes once that is the end code. */
  lemma DebtPaid(s: Slot, t: Slot, c: nat, u: Option<Token>)
    requires Accounted(s) && c < |s.consoles| == |t.consoles|
    requires t.consoles == s.consoles[c := t.consoles[c]]
    requires t.session == s.session && t.history.begun == s.history.begun
    requires t.history.sent == if u.Some? then s.history.sent + [u.value] else s.history.sent
    requires Owes(s.consoles[c].pc) == (Owes(t.consoles[c].pc) || u == Some(End))
    requires !(Owes(t.consoles[c].pc) && u == Some(End))
    ensures Accounted(t)
  {
    OwedUpdate(s.consoles, c, t.consoles[c]);
    if u.Some? {
      EndCountOneMore(s.history.sent, u.value);
    }
  }

  lemma AccountedKept(s: Slot, step: Step)
    requires Accounted(s) && Enabled(s, step)
    ensures Accounted(Apply(s, step))
  {
    match step {
      case Session(choice) => SessionAccounted(s, choice);
      case Advance(c, n, pid) => ConsoleAccounted(s, c, n, pid);
      case Emit(c, _) => OwedUpdate(s.consoles, c, Apply(s, step).consoles[c]);
      case ChildEnds(c) => OwedUpdate(s.consoles, c, Apply(s, step).consoles[c]);
      case _ =>
    }
  }

  // ---- what a console says ----

  /** Everything a console has sent, from where it stands and what it has read. */
  function Spoken(k: Console): seq<Token> {
    match k.pc
    case Announce => []
    case SendEnd => [Frame(k.header)] + Frames(Pump.TextsOf(k.chunks)) + [Frame(Pump.Killed(k.pid))]
    case ClearExit => Pump.Response(k.header, k.chunks, k.pid)
    case ClearActive => Pump.Response(k.header, k.chunks, k.pid)
    case Exited => Pump.Response(k.header, k.chunks, k.pid)
    case _ => [Frame(k.header)] + Frames(Pump.TextsOf(k.chunks))
  }

  predicate ConsoleOk(k: Console) {
    k.out == Spoken(k) && (k.pc.Announce? || k.pc.TakeCommand? || k.pc.Forking? ==> k.chunks == [])
  }

  predicate ConsolesOk(s: Slot) {
    forall c :: 0 <= c < |s.consoles| ==> ConsoleOk(s.consoles[c])
  }

  lemma AdvanceSpeaks(s: Slot, c: nat, n: nat, pid: int)
    requires CanAdvance(s, c, n) && ConsoleOk(s.consoles[c])
    ensures ConsoleOk(Advanced(s, c, n, pid).consoles[c])
  {
    var k := s.consoles[c];
    if Utterance(s, c).None? {
      SilentAdvance(s, c, n, pid);
    } else {
      match k.pc {
        case Announce => NothingForwarded();
        case Forwarding(chunk) => OneMoreForwarded(k.chunks, chunk);
        case SendEnd => ResponseCompleted(k);
        case AnnounceKill =>
      }
    }
  }

  lemma SilentAdvance(s: Slot, c: nat, n: nat, pid: int)
    requires CanAdvance(s, c, n) && ConsoleOk(s.consoles[c]) && Utterance(s, c).None?
    ensures ConsoleOk(Advanced(s, c, n, pid).consoles[c])
  {
    SilentShape(s, c, n, pid);
    SilentPlace(s, c, n, pid);
  }

  /** A statement that sends nothing changes nothing of what has been said ... */
  lemma SilentShape(s: Slot, c: nat, n: nat, pid: int)
    requires CanAdvance(s, c, n) && Utterance(s, c).None?
    ensures var k, m := s.consoles[c], Advanced(s, c, n, pid).consoles[c];
            && m.out == k.out && m.chunks == k.chunks && m.header == k.header
            && (k.pc.ClearExit? || k.pc.ClearActive? ==> m.pid == k.pid)
  {
  }

  /** ... and stays in the same part of the response. */
  lemma SilentPlace(s: Slot, c: nat, n: nat, pid: int)
    requires CanAdvance(s, c, n) && Utterance(s, c).None?
    ensures var pc, qc := s.consoles[c].pc, Advanced(s, c, n, pid).consoles[c].pc;
            && (pc.ClearExit? || pc.ClearActive? <==> qc.ClearActive? || qc.Exited?)
            && !qc.Announce? && !qc.TakeCommand? && !qc.SendEnd? && !qc.ClearExit?
            && (qc.Forking? <==> pc.TakeCommand?)
  {
    match s.consoles[c].pc {
      case Reading =>
      case TestCancel =>
      case TestNext =>
      case ClearExit =>
      case ClearActive =>
      case _ =>
    }
  }

  lemma NothingForwarded()
    ensures Frames(Pump.TextsOf([])) == []
  {
  }

  lemma OneMoreForwarded(chunks: seq<Bytes>, chunk: Bytes)
    ensures Frames(Pump.TextsOf(chunks + [chunk])) == Frames(Pump.TextsOf(chunks)) + [Frame(CStr(chunk))]
  {
  }

  lemma ResponseCompleted(k: Console)
    requires k.pc.SendEnd?
    ensures Spoken(k) + [End] == Pump.Response(k.header, k.chunks, k.pid)
  {
  }

  lemma AdvanceKeepsConsolesOk(s: Slot, c: nat, n: nat, pid: int)
    requires ConsolesOk(s) && CanAdvance(s, c, n)
    ensures ConsolesOk(Advanced(s, c, n, pid))
  {
    AdvanceSpeaks(s, c, n, pid);
    AdvanceShape(s, c, n, pid);
  }

  lemma SessionKeepsConsolesOk(s: Slot, choice: Choice)
    requires ConsolesOk(s) && CanMove(s)
    ensures ConsolesOk(SessionMoved(s, choice))
  {
    SessionShape(s, choice);
  }

  lemma ConsolesOkKept(s: Slot, step: Step)
    requires ConsolesOk(s) && Enabled(s, step)
    ensures ConsolesOk(Apply(s, step))
  {
    match step {
      case Session(choice) => SessionKeepsConsolesOk(s, choice);
      case Advance(c, n, pid) => AdvanceKeepsConsolesOk(s, c, n, pid);
      case _ =>
    }
  }

  // ---- all runs ----

  ghost predicate Safe(s: Slot) { OneConsole(s) && Accounted(s) && ConsolesOk(s) }

  lemma InitSafe()
    ensures Safe(Init())
  {
  }

  lemma StepSafe(s: Slot, step: Step)
    requires Safe(s) && Enabled(s, step)
    ensures Safe(Apply(s, step))
  {
    OneConsoleKept(s, step);
    AccountedKept(s, step);
    ConsolesOkKept(s, step);
  }

  lemma {:induction false} RunSafe(s: Slot, steps: seq<Step>)
    requires Safe(s) && IsRun(s, steps)
    ensures Safe(Final(s, steps))
    decreases |steps|
  {
    if steps != [] {
      StepSafe(s, steps[0]);
      RunSafe(Apply(s, steps[0]), steps[1..]);
    }
  }

  /** A console thread that exists and has not yet cleared `pipeActive`. */
  predicate Working(s: Slot, c: nat) { c < |s.consoles| && !s.consoles[c].pc.Exited? }

  /** In every run of a slot at most one console works at a time, and `pipeActive` says so. */
  lemma AtMostOneConsole(steps: seq<Step>, c: nat, d: nat)
    requires IsRun(Init(), steps)
    requires Working(Final(Init(), steps), c)
    requires Working(Final(Init(), steps), d)
    ensures c == d && Final(Init(), steps).entry.pipeActive
  {
    RunSafe(Init(), steps);
  }

  /** In every run: never an end code too many, and none missing once nothing is under way. */
  lemma EveryCommandGetsOneEnd(steps: seq<Step>)
    requires IsRun(Init(), steps)
    ensures var s := Final(Init(), steps);
            && EndCount(s.history.sent) <= s.history.begun <= EndCount(s.history.sent) + 2
            && (!SessionOwes(s.session) && LastPc(s.consoles).Exited? ==> EndCount(s.history.sent) == s.history.begun)
  {
    InitSafe();
    RunSafe(Init(), steps);
    OnlyLastOwes(Final(Init(), steps).consoles);
  }

  lemma {:induction false} OnlyLastOwes(consoles: seq<Console>)
    requires forall c :: 0 <= c < |consoles| - 1 ==> consoles[c].pc.Exited?
    ensures OwedCount(consoles) == if Owes(LastPc(consoles)) then 1 else 0
  {
    if consoles != [] {
      OnlyLastOwes(consoles[..|consoles| - 1]);
    }
  }

  /** A line handed to a running process begins no command. */
  lemma InputBeginsNothing(s: Slot, choice: Choice)
    requires CanMove(s) && (s.session.PutNext? || s.session.PutFlag?)
    ensures SessionMoved(s, choice).history.begun == s.history.begun
    ensures Outstanding(SessionMoved(s, choice)) == Outstanding(s)
    ensures SessionMoved(s, choice).history.sent == s.history.sent
  {
  }

  /** A console that is done has sent its response: the pump's, whatever ran beside it. */
  lemma FinishedConsoleSaidItsResponse(steps: seq<Step>, c: nat)
    requires IsRun(Init(), steps)
    requires c < |Final(Init(), steps).consoles| && Final(Init(), steps).consoles[c].pc.Exited?
    ensures var k := Final(Init(), steps).consoles[c]; k.out == Pump.Response(k.header, k.chunks, k.pid)
  {
    InitSafe();
    RunSafe(Init(), steps);
  }

  // ---- two ways to wedge a slot ----

  /** The session is not in the part that the test of `exitCode` guards. */
  predicate Outside(pc: SessionPc) {
    || pc.Away? || pc.PutDirectory? || pc.PutNames? || pc.Receiving? || pc.TestExit?
    || pc.PutExit? || pc.Joining? || pc.Closing?
  }

  /** The console has cleared `exitCode`, and looks at it no more. */
  predicate Late(pc: ConsolePc) { pc.ClearActive? || pc.Exited? }

  /** `exitCode` is 1, no console is left to clear it, and the session cannot get past it. */
  predicate Deaf(s: Slot) {
    s.entry.exitCode == 1 && OneConsole(s) && Late(LastPc(s.consoles)) && Outside(s.session)
  }

  /** A cancel with no console at work: the join returns at once and nothing clears `exitCode`. */
  lemma CancelWithNothingRunning(s: Slot, choice: Choice)
    requires OneConsole(s) && LastPc(s.consoles).Exited? && s.session == PutExit
    requires s.handle.Some? ==> s.handle.value < |s.consoles|
    ensures var joining := SessionMoved(s, choice);
            CanMove(joining) && Deaf(joining) && Deaf(SessionMoved(joining, choice))
  {
  }

  lemma DeafMove(s: Slot, choice: Choice)
    requires Deaf(s) && CanMove(s)
    ensures var t := SessionMoved(s, choice);
            && t.entry.exitCode == 1 && t.history.sent == s.history.sent && t.consoles == s.consoles
            && Outside(t.session)
  {
  }

  lemma DeafElsewhere(s: Slot, step: Step)
    requires Deaf(s) && Enabled(s, step) && !step.AcceptClears? && !step.Session? && !step.Advance?
    ensures Deaf(Apply(s, step))
    ensures Apply(s, step).history.sent == s.history.sent && |Apply(s, step).consoles| == |s.consoles|
  {
  }

  lemma DeafAdvance(s: Slot, c: nat, n: nat, pid: int)
    requires Deaf(s) && CanAdvance(s, c, n)
    ensures var t := Advanced(s, c, n, pid);
            && t.entry.exitCode == 1 && t.history.sent == s.history.sent && t.session == s.session
            && |t.consoles| == |s.consoles| && LastPc(t.consoles).Exited?
  {
    assert c == |s.consoles| - 1 && s.consoles[c].pc.ClearActive?;
  }

  lemma DeafStep(s: Slot, step: Step)
    requires Deaf(s) && Enabled(s, step) && !step.AcceptClears?
    ensures Deaf(Apply(s, step))
    ensures Apply(s, step).history.sent == s.history.sent && |Apply(s, step).consoles| == |s.consoles|
  {
    match step {
      case Session(choice) => DeafMove(s, choice); SessionKeepsOneConsole(s, choice);
      case Advance(c, n, pid) => DeafAdvance(s, c, n, pid); ConsoleKeepsOneConsole(s, c, n, pid);
      case _ => DeafElsewhere(s, step);
    }
  }

  /** From then on no command is run and none is answered, until the accept loop gives the slot away again. */
  lemma {:induction false} DeafUntilReassigned(s: Slot, steps: seq<Step>)
    requires Deaf(s) && IsRun(s, steps) && AcceptClears !in steps
    ensures Deaf(Final(s, steps))
    ensures Final(s, steps).history.sent == s.history.sent && |Final(s, steps).consoles| == |s.consoles|
    decreases |steps|
  {
    if steps != [] {
      assert steps[0] in steps;
      DeafStep(s, steps[0]);
      DeafUntilReassigned(Apply(s, steps[0]), steps[1..]);
    }
  }

  /** Nobody is launching, nobody works, and yet the slot is marked busy. */
  predicate Wedged(s: Slot) {
    OneConsole(s) && s.entry.pipeActive && LastPc(s.consoles).Exited? && !s.session.Launch?
  }

  /** A failed thread creation leaves the mark behind ... */
  lemma FailedLaunchWedges(s: Slot, choice: Choice)
    requires OneConsole(s) && s.session.Launch? && !choice.ok
    ensures Wedged(SessionMoved(s, choice))
  {
  }

  lemma WedgedMove(s: Slot, choice: Choice)
    requires Wedged(s) && CanMove(s)
    ensures var t := SessionMoved(s, choice);
            t.entry.pipeActive && t.consoles == s.consoles && !t.session.Launch?
  {
  }

  lemma WedgedElsewhere(s: Slot, step: Step)
    requires Wedged(s) && Enabled(s, step) && !step.Session? && !step.Advance?
    ensures Wedged(Apply(s, step)) && |Apply(s, step).consoles| == |s.consoles|
  {
  }

  lemma WedgedStep(s: Slot, step: Step)
    requires Wedged(s) && Enabled(s, step)
    ensures Wedged(Apply(s, step)) && |Apply(s, step).consoles| == |s.consoles|
  {
    if step.Session? {
      WedgedMove(s, step.choice);
      SessionKeepsOneConsole(s, step.choice);
    } else if !step.Advance? {
      WedgedElsewhere(s, step);
    }
  }

  /** ... and from then on, for this client and every later one, the slot never runs a command again. */
  lemma {:induction false} WedgedForever(s: Slot, steps: seq<Step>)
    requires Wedged(s) && IsRun(s, steps)
    ensures Wedged(Final(s, steps)) && |Final(s, steps).consoles| == |s.consoles|
    decreases |steps|
  {
    if steps != [] {
      WedgedStep(s, steps[0]);
      WedgedForever(Apply(s, steps[0]), steps[1..]);
    }
  }

  // ---- the mark is truthful ----

  /** A slot marked busy has a console at work, or a launch under way. */
  predicate Truthful(s: Slot) {
    s.entry.pipeActive && !s.session.Launch? ==> !LastPc(s.consoles).Exited?
  }

  predicate FailedLaunch(s: Slot, step: Step) { step.Session? && s.session.Launch? && !step.choice.ok }

  /** Some thread creation of the run fails. */
  predicate LaunchFails(s: Slot, steps: seq<Step>)
    requires IsRun(s, steps)
    decreases |steps|
  {
    steps != [] && (FailedLaunch(s, steps[0]) || LaunchFails(Apply(s, steps[0]), steps[1..]))
  }

  lemma TruthfulMove(s: Slot, choice: Choice)
    requires OneConsole(s) && Truthful(s) && CanMove(s) && !FailedLaunch(s, Session(choice))
    ensures Truthful(SessionMoved(s, choice))
  {
    SessionShape(s, choice);
  }

  lemma TruthfulAdvance(s: Slot, c: nat, n: nat, pid: int)
    requires OneConsole(s) && Truthful(s) && CanAdvance(s, c, n)
    ensures Truthful(Advanced(s, c, n, pid))
  {
    assert c == |s.consoles| - 1;
  }

  lemma TruthfulStep(s: Slot, step: Step)
    requires OneConsole(s) && Truthful(s) && Enabled(s, step) && !FailedLaunch(s, step)
    ensures Truthful(Apply(s, step))
  {
    match step {
      case Session(choice) => TruthfulMove(s, choice);
      case Advance(c, n, pid) => TruthfulAdvance(s, c, n, pid);
      case _ =>
    }
  }

  /** `pipeActive` is truthful at the end of a run if and only if no thread creation of the run failed. */
  lemma {:induction false} TruthfulUnlessLaunchFails(s: Slot, steps: seq<Step>)
    requires OneConsole(s) && Truthful(s) && IsRun(s, steps)
    ensures Truthful(Final(s, steps)) <==> !LaunchFails(s, steps)
    decreases |steps|
  {
    if steps != [] {
      var t := Apply(s, steps[0]);
      OneConsoleKept(s, steps[0]);
      if FailedLaunch(s, steps[0]) {
        FailedLaunchWedges(s, steps[0].choice);
        WedgedForever(t, steps[1..]);
      } else {
        TruthfulStep(s, steps[0]);
        TruthfulUnlessLaunchFails(t, steps[1..]);
      }
    }
  }

  /** So in every run of a slot the mark means a console at work, unless a thread creation failed. */
  lemma BusyMeansWorking(steps: seq<Step>)
    requires IsRun(Init(), steps)
    ensures Truthful(Final(Init(), steps)) <==> !LaunchFails(Init(), steps)
  {
    TruthfulUnlessLaunchFails(Init(), steps);
  }
}

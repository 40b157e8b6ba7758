/**
 One slot of the server over its whole life: the session of whichever client
 holds it, and every console thread ever launched from it, interleaved one
 statement at a time over the shared `ClientConsole` entry.
 */
module SlotLife {
  import opened Text
  import opened Wire
  import Dispatch
  import Pump

  /** The session thread (NewClient): the statement about to run, with its line in main.cpp. */
  datatype SessionPc =
    | Away                          // no session holds the slot
    | PutDirectory(who: Bytes, directory: Bytes)  // 164
    | PutNames(who: Bytes)          // 173-174
    | Receiving                     // 178
    | TestExit(command: Bytes)      // 196, and the choice of branch
    | RefuseFrame | RefuseEnd       // 205, 207
    | EnterDirectory(command: Bytes)  // 224-228
    | PutDirCommand(command: Bytes)   // 230
    | DirFrame | DirEnd             // 231, 233
    | TestActive(command: Bytes)    // 238
    | PutCommand(command: Bytes)    // 240
    | MakePipes(command: Bytes)     // 242
    | PutActive(command: Bytes)     // 246
    | Launch(command: Bytes)        // 248
    | FailFrame | FailEnd           // 254, 256
    | PutNext(command: Bytes)       // 263
    | PutFlag                       // 264
    | PutExit | Joining             // 275, 276
    | Closing                       // 306

  /** A console thread (NewConsole and HandleClientPipe). */
  datatype ConsolePc =
    | Announce                      // 343
    | TakeCommand                   // 345
    | Forking                       // 348
    | Reading                       // 406
    | Forwarding(chunk: Bytes)      // 431-438
    | TestCancel                    // 423
    | TestNext                      // 445
    | WriteNext                     // 447
    | ClearFlag                     // 449
    | ClearNext                     // 450
    | AnnounceKill                  // 463-466
    | SendEnd                       // 468
    | ClearExit                     // 470
    | ClearActive                   // 471
    | Exited

  datatype Console = Console(
    pc: ConsolePc,
    pid: int,
    pending: Bytes,       // printed by the child, not yet read
    open: bool,           // the child still holds the pipe
    orders: Orders,
    header: Bytes,        // history: the header sent
    chunks: seq<Bytes>,   // history: the reads forwarded
    out: seq<Token>,      // history: everything this console sent
    printed: Bytes)       // history: everything its child printed

  /**
   The command a console was launched with, the one its header names and the one
   it runs, each with the number of directory commands put in the entry by then.
   All but `ran` is history.
   */
  datatype Orders = Orders(
    launched: Bytes, launchedAt: nat,
    announced: Bytes, announcedAt: nat,
    ran: Bytes, ranAt: nat)

  /** The shared `ClientConsole` entry. */
  datatype Entry = Entry(
    who: Bytes,           // user@host
    directory: Bytes,
    command: Bytes,
    nextCommand: Bytes,
    hasNextCommand: bool,
    exitCode: int,
    pipeActive: bool)

  /** What has happened so far; no statement reads it. */
  datatype History = History(
    sent: seq<Token>,         // every send on the slot's socket
    begun: nat,               // commands that promise an end code
    dirWrites: nat,           // directory commands put in the entry
    asked: seq<Bytes>,        // directories `chdir` was asked for
    mail: Mail)

  /** What has gone through the mailbox for the child's input. */
  datatype Mail = Mail(
    submitted: seq<Bytes>,    // lines put in
    written: seq<Bytes>,      // writes to a child's standard input
    unwritten: bool,          // the line that is in has not been written
    passBegun: bool,          // a console reached its mailbox test since the last submission
    passDone: bool)           // and has finished that pass

  datatype Slot = Slot(
    entry: Entry,
    session: SessionPc,
    handle: Option<nat>,      // the console thread the session can join
    consoles: seq<Console>,
    history: History)

  /** What the system calls of a session statement return, and which way its command test goes. */
  datatype Choice = Choice(ok: bool, root: bool, home: Bytes, entered: Option<Bytes>, verdict: Dispatch.Verdict)

  datatype Step =
    | AcceptClears                      // the accept loop resets exitCode (129)
    | Arrive(who: Bytes, directory: Bytes)  // a session takes the slot
    | Receive(request: Dispatch.Request)
    | Session(choice: Choice)           // its next statement
    | Advance(c: nat, n: nat, pid: int) // console c: its next statement
    | Emit(c: nat, bytes: Bytes)        // console c's child prints
    | ChildEnds(c: nat)                 // console c's child closes the pipe

  const REFUSAL: Bytes := "\nYou must be root to perform this command.\n"
  const FAILURE: Bytes := "\nFailed to generate pthread.\n"

  function Header(e: Entry): Bytes {
    "\n" + e.who + ":" + e.directory + "$ " + e.command + "\n\n"
  }

  /** `pipeActive` and `hasNextCommand` are taken to start false. */
  function Init(): Slot {
    Slot(Entry([], [], [], [], false, 0, false), Away, None, [], History([], 0, 0, [], Mail([], [], false, false, true)))
  }

  /** A console thread just created to run `command`. */
  function Launched(command: Bytes, dirWrites: nat): Console {
    Console(Announce, 0, [], false, Orders(command, dirWrites, [], 0, [], 0), [], [], [], [])
  }

  // ---- steps ----

  predicate CanAdvance(s: Slot, c: nat, n: nat) {
    && c < |s.consoles|
    && !s.consoles[c].pc.Exited?
    && (s.consoles[c].pc.Reading? && s.consoles[c].pending != [] ==>
          1 <= n <= Pump.READ_SIZE && n <= |s.consoles[c].pending|)
  }

  predicate CanMove(s: Slot) {
    && !s.session.Away?
    && !s.session.Receiving?
    && (s.session.Joining? && s.handle.Some? && s.handle.value < |s.consoles| ==>
          s.consoles[s.handle.value].pc.Exited?)
  }

  /** The command test goes the way the command itself says. */
  predicate Judged(s: Slot, choice: Choice) {
    s.session.TestExit? ==> choice.verdict == Dispatch.Decide(s.session.command, choice.root)
  }

  predicate Enabled(s: Slot, step: Step) {
    match step
    case AcceptClears => s.session.Away?
    case Arrive(_, _) => s.session.Away?
    case Receive(_) => s.session.Receiving?
    case Session(choice) => CanMove(s) && Judged(s, choice)
    case Advance(c, n, _) => CanAdvance(s, c, n)
    case Emit(c, _) => c < |s.consoles| && s.consoles[c].open
    case ChildEnds(c) => c < |s.consoles| && s.consoles[c].open
  }

  function Received(s: Slot, request: Dispatch.Request): Slot {
    match request
    case Message(command) => s.(session := TestExit(command))
    case Cancel => s.(session := PutExit)
    case Noted => s
    case Close => s.(session := Closing)
    case Reject => s.(session := Closing)
  }

  function Say(h: History, t: Token): History { h.(sent := h.sent + [t]) }

  function Ask(h: History, directory: Bytes): History { h.(asked := h.asked + [directory]) }

  function Begin(h: History): History { h.(begun := h.begun + 1) }

  /** One statement of the session thread. */
  function SessionMoved(s: Slot, choice: Choice): Slot {
    match s.session
    case Away => s
    case PutDirectory(who, directory) =>
      s.(session := PutNames(who), entry := s.entry.(directory := directory))
    case PutNames(who) => s.(session := Receiving, entry := s.entry.(who := who))
    case Receiving => s
    case TestExit(command) =>
      if s.entry.exitCode != 0 then s.(session := Receiving)
      else (
        match choice.verdict
        case Refuse => s.(session := RefuseFrame, history := Begin(s.history))
        case Directory => s.(session := EnterDirectory(command), history := Begin(s.history))
        case Shell => s.(session := TestActive(command)))
    case RefuseFrame => s.(session := RefuseEnd, history := Say(s.history, Frame(REFUSAL)))
    case RefuseEnd => s.(session := Receiving, history := Say(s.history, End))
    case EnterDirectory(command) =>
      s.(session := PutDirCommand(command),
         entry := if choice.entered.Some? then s.entry.(directory := choice.entered.value) else s.entry,
         history := Ask(s.history, Dispatch.Target(command, s.entry.directory, choice.home, s.entry.directory)))
    case PutDirCommand(command) =>
      s.(session := DirFrame, entry := s.entry.(command := command),
         history := s.history.(dirWrites := s.history.dirWrites + 1))
    case DirFrame => s.(session := DirEnd, history := Say(s.history, Frame(Header(s.entry))))
    case DirEnd => s.(session := Receiving, history := Say(s.history, End))
    case TestActive(command) => s.(session := if s.entry.pipeActive then PutNext(command) else PutCommand(command))
    case PutCommand(command) => s.(session := MakePipes(command), entry := s.entry.(command := command))
    case MakePipes(command) => s.(session := if choice.ok then PutActive(command) else Receiving)
    case PutActive(command) => s.(session := Launch(command), entry := s.entry.(pipeActive := true))
    case Launch(command) =>
      if choice.ok then
        s.(session := Receiving, handle := Some(|s.consoles|), history := Begin(s.history),
           consoles := s.consoles + [Launched(command, s.history.dirWrites)])
      else s.(session := FailFrame, handle := None, history := Begin(s.history))
    case FailFrame => s.(session := FailEnd, history := Say(s.history, Frame(FAILURE)))
    case FailEnd => s.(session := Closing, history := Say(s.history, End))
    case PutNext(command) =>
      var line := command + [NEWLINE];
      var mail := Mail(s.history.mail.submitted + [line], s.history.mail.written, true, false, false);
      s.(session := PutFlag, entry := s.entry.(nextCommand := line), history := s.history.(mail := mail))
    case PutFlag =>
      s.(session := Receiving, entry := s.entry.(hasNextCommand := true),
         history := s.history.(mail := s.history.mail.(passBegun := false, passDone := false)))
    case PutExit => s.(session := Joining, entry := s.entry.(exitCode := 1))
    case Joining => s.(session := Receiving, handle := None)
    case Closing => s.(session := Away)
  }

  function With(s: Slot, c: nat, k: Console): Slot
    requires c < |s.consoles|
  {
    s.(consoles := s.consoles[c := k])
  }

  function Goes(s: Slot, c: nat, pc: ConsolePc): Slot
    requires c < |s.consoles|
  {
    With(s, c, s.consoles[c].(pc := pc))
  }

  function Says(s: Slot, c: nat, k: Console, t: Token): Slot
    requires c < |s.consoles|
  {
    With(s, c, k.(out := k.out + [t])).(history := Say(s.history, t))
  }

  /** One statement of a console thread; `n` is the size of a read, `pid` what fork returns. */
  function Advanced(s: Slot, c: nat, n: nat, pid: int): Slot
    requires CanAdvance(s, c, n)
  {
    var k := s.consoles[c];
    match k.pc
    case Announce =>
      var orders := k.orders.(announced := s.entry.command, announcedAt := s.history.dirWrites);
      Says(s, c, k.(pc := TakeCommand, header := Header(s.entry), orders := orders), Frame(Header(s.entry)))
    case TakeCommand =>
      var orders := k.orders.(ran := s.entry.command, ranAt := s.history.dirWrites);
      With(s, c, k.(pc := Forking, orders := orders))
    case Forking => With(s, c, k.(pc := Reading, pid := pid, open := true))
    case Reading =>
      if k.pending != [] then With(s, c, k.(pc := Forwarding(k.pending[..n]), pending := k.pending[n..]))
      else Goes(s, c, if k.open then TestCancel else AnnounceKill)
    case Forwarding(chunk) => Says(s, c, k.(pc := TestNext, chunks := k.chunks + [chunk]), Frame(CStr(chunk)))
    case TestCancel => Goes(s, c, if s.entry.exitCode == 1 then AnnounceKill else TestNext)
    case TestNext =>
      if s.entry.hasNextCommand then Goes(s, c, WriteNext).(history := s.history.(mail := s.history.mail.(passBegun := true)))
      else Goes(s, c, Reading).(history := s.history.(mail := s.history.mail.(passBegun := true, passDone := true)))
    case WriteNext =>
      Goes(s, c, ClearFlag).(
        history := s.history.(mail := s.history.mail.(
          written := s.history.mail.written + [CStr(s.entry.nextCommand)], unwritten := false)))
    case ClearFlag => Goes(s, c, ClearNext).(entry := s.entry.(hasNextCommand := false))
    case ClearNext =>
      Goes(s, c, Reading).(
        entry := s.entry.(nextCommand := []),
        history := s.history.(mail := s.history.mail.(
          passDone := s.history.mail.passDone || s.history.mail.passBegun, unwritten := false)))
    case AnnounceKill => Says(s, c, k.(pc := SendEnd), Frame(Pump.Killed(k.pid)))
    case SendEnd => Says(s, c, k.(pc := ClearExit), End)
    case ClearExit => Goes(s, c, ClearActive).(entry := s.entry.(exitCode := 0))
    case ClearActive => Goes(s, c, Exited).(entry := s.entry.(pipeActive := false))
    case Exited => s
  }

  function Apply(s: Slot, step: Step): Slot
    requires Enabled(s, step)
  {
    match step
    case AcceptClears => s.(entry := s.entry.(exitCode := 0))
    case Arrive(who, directory) => s.(session := PutDirectory(who, directory), handle := None)
    case Receive(request) => Received(s, request)
    case Session(choice) => SessionMoved(s, choice)
    case Advance(c, n, pid) => Advanced(s, c, n, pid)
    case Emit(c, bytes) =>
      var k := s.consoles[c];
      With(s, c, k.(pending := k.pending + bytes, printed := k.printed + bytes))
    case ChildEnds(c) => With(s, c, s.consoles[c].(open := false))
  }

  predicate IsRun(s: Slot, steps: seq<Step>)
    decreases |steps|
  {
    steps == [] || (Enabled(s, steps[0]) && IsRun(Apply(s, steps[0]), steps[1..]))
  }

  function Final(s: Slot, steps: seq<Step>): Slot
    requires IsRun(s, steps)
    decreases |steps|
  {
    if steps == [] then s else Final(Apply(s, steps[0]), steps[1..])
  }

  lemma RunCons(s: Slot, step: Step, rest: seq<Step>)
    requires Enabled(s, step) && IsRun(Apply(s, step), rest)
    ensures IsRun(s, [step] + rest) && Final(s, [step] + rest) == Final(Apply(s, step), rest)
  {
    assert ([step] + rest)[1..] == rest;
  }

  lemma {:induction false} RunAppend(s: Slot, a: seq<Step>, b: seq<Step>)
    requires IsRun(s, a) && IsRun(Final(s, a), b)
    ensures IsRun(s, a + b) && Final(s, a + b) == Final(Final(s, a), b)
    decreases |a|
  {
    if a == [] {
      assert a + b == b;
    } else {
      RunAppend(Apply(s, a[0]), a[1..], b);
      assert a + b == [a[0]] + (a[1..] + b);
      RunCons(s, a[0], a[1..] + b);
    }
  }
}

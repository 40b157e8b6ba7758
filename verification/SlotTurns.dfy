/**
 What a session does with each thing it receives when nobody interrupts it: the
 requests of the protocol, told by what they leave behind.
 */
module SlotTurns {
  import opened Text
  import opened Wire
  import opened SlotLife
  import opened SlotSafety
  import opened SlotHeader
  import Dispatch

  /** How many statements are before the session until it receives again. */
  function Rank(pc: SessionPc): nat {
    match pc
    case PutDirectory(_, _) => 2
    case PutNames(_) => 1
    case TestExit(_) => 10
    case TestActive(_) => 9
    case PutCommand(_) => 8
    case MakePipes(_) => 7
    case PutActive(_) => 6
    case Launch(_) => 5
    case EnterDirectory(_) => 4
    case PutDirCommand(_) => 3
    case FailFrame => 3
    case FailEnd => 2
    case RefuseFrame => 2
    case RefuseEnd => 1
    case DirFrame => 2
    case DirEnd => 1
    case PutNext(_) => 2
    case PutFlag => 1
    case PutExit => 2
    case Joining => 1
    case Closing => 1
    case _ => 0
  }

  /** The session, not interrupted, until it receives again, is gone, or has to wait. */
  function Turn(s: Slot, choice: Choice): Slot
    decreases Rank(s.session)
  {
    if CanMove(s) then Turn(SessionMoved(s, choice), choice) else s
  }

  lemma {:induction false} TurnIsARun(s: Slot, choice: Choice) returns (steps: seq<Step>)
    requires Judged(s, choice)
    ensures IsRun(s, steps) && Final(s, steps) == Turn(s, choice)
    decreases Rank(s.session)
  {
    if CanMove(s) {
      var rest := TurnIsARun(SessionMoved(s, choice), choice);
      RunCons(s, Session(choice), rest);
      steps := [Session(choice)] + rest;
    } else {
      steps := [];
    }
  }

  lemma TurnMoves(s: Slot, choice: Choice)
    requires CanMove(s)
    ensures Turn(s, choice) == Turn(SessionMoved(s, choice), choice)
  {
  }

  lemma TurnStops(s: Slot, choice: Choice)
    requires s.session.Receiving? || s.session.Away?
    ensures Turn(s, choice) == s
  {
  }

  /** A session that arrives puts its directory and its names in the entry, and nothing else. */
  lemma ArrivalTurn(s: Slot, who: Bytes, directory: Bytes, choice: Choice)
    requires s.session.Away?
    ensures Turn(Apply(s, Arrive(who, directory)), choice)
         == s.(session := Receiving, handle := None, entry := s.entry.(who := who, directory := directory))
  {
    var s1 := Apply(s, Arrive(who, directory));
    var s2 := SessionMoved(s1, choice);
    TurnMoves(s1, choice);
    TurnMoves(s2, choice);
    TurnStops(SessionMoved(s2, choice), choice);
  }

  /** A session that receives this request while `exitCode` is 0, with the server root or not. */
  predicate Hears(s: Slot, command: Bytes, choice: Choice) {
    s.session.Receiving? && s.entry.exitCode == 0 && choice.verdict == Dispatch.Decide(command, choice.root)
  }

  function Heard(s: Slot, command: Bytes): Slot
    requires s.session.Receiving?
  {
    Apply(s, Receive(Dispatch.Message(command)))
  }

  /** `sudo` without root is refused with one frame and one end code, and changes nothing else. */
  lemma RefusedTurn(s: Slot, command: Bytes, choice: Choice)
    requires Hears(s, command, choice) && Contains(command, "sudo ") && !choice.root
    ensures Turn(Heard(s, command), choice)
         == s.(history := s.history.(
                 begun := s.history.begun + 1,
                 sent := s.history.sent + [Frame("\nYou must be root to perform this command.\n"), End]))
  {
    var s1 := Heard(s, command);
    var s2 := SessionMoved(s1, choice);
    var s3 := SessionMoved(s2, choice);
    TurnMoves(s1, choice);
    TurnMoves(s2, choice);
    TurnMoves(s3, choice);
    TurnStops(SessionMoved(s3, choice), choice);
    assert s.history.sent + [Frame(REFUSAL)] + [End] == s.history.sent + [Frame(REFUSAL), End];
  }

  /**
   A directory command is answered with one frame, which names the user, the directory
   the slot is in by then and the command, and one end code. It runs nothing.
   */
  lemma DirectoryTurn(s: Slot, command: Bytes, choice: Choice) returns (header: Bytes)
    requires Hears(s, command, choice) && Contains(command, "cd") && !(Contains(command, "sudo ") && !choice.root)
    ensures var t := Turn(Heard(s, command), choice);
            && t.session == Receiving && t.consoles == s.consoles && t.handle == s.handle
            && t.entry == s.entry.(command := command, directory := t.entry.directory)
            && t.entry.directory == (match choice.entered case Some(d) => d case None => s.entry.directory)
            && t.history.sent == s.history.sent + [Frame(header), End]
            && Names(header, s.entry.who, t.entry.directory, command)
            && t.history.begun == s.history.begun + 1
  {
    var s1 := Heard(s, command);
    var s2 := SessionMoved(s1, choice);
    var s3 := SessionMoved(s2, choice);
    var s4 := SessionMoved(s3, choice);
    var s5 := SessionMoved(s4, choice);
    TurnMoves(s1, choice);
    TurnMoves(s2, choice);
    TurnMoves(s3, choice);
    TurnMoves(s4, choice);
    TurnMoves(s5, choice);
    TurnStops(SessionMoved(s5, choice), choice);
    header := Header(s4.entry);
    HeaderNames(s4.entry);
    assert s.history.sent + [Frame(header)] + [End] == s.history.sent + [Frame(header), End];
  }

  /** Neither of the two. */
  predicate ForShell(command: Bytes, choice: Choice) {
    !Contains(command, "cd") && !(Contains(command, "sudo ") && !choice.root)
  }

  /**
   With no process at work and the pipes made, any other command launches one console,
   which the session can wait for, with that command in the entry; the slot is busy.
   */
  lemma ShellTurn(s: Slot, command: Bytes, choice: Choice)
    requires Hears(s, command, choice) && ForShell(command, choice) && !s.entry.pipeActive && choice.ok
    ensures var t := Turn(Heard(s, command), choice); var n := |s.consoles|;
            && t.session == Receiving && t.handle == Some(n)
            && t.entry == s.entry.(command := command, pipeActive := true)
            && |t.consoles| == n + 1 && t.consoles[..n] == s.consoles
            && t.consoles[n].pc == Announce && t.consoles[n].orders.launched == command
            && t.consoles[n].out == [] && t.consoles[n].pending == [] && !t.consoles[n].open
            && t.history == s.history.(begun := s.history.begun + 1)
  {
    var s1 := Heard(s, command);
    var s2 := SessionMoved(s1, choice);
    var s3 := SessionMoved(s2, choice);
    var s4 := SessionMoved(s3, choice);
    var s5 := SessionMoved(s4, choice);
    var s6 := SessionMoved(s5, choice);
    TurnMoves(s1, choice);
    TurnMoves(s2, choice);
    TurnMoves(s3, choice);
    TurnMoves(s4, choice);
    TurnMoves(s5, choice);
    TurnMoves(s6, choice);
    TurnStops(SessionMoved(s6, choice), choice);
  }

  /** Without pipes it is dropped, and nobody answers it. */
  lemma PipelessTurn(s: Slot, command: Bytes, choice: Choice)
    requires Hears(s, command, choice) && ForShell(command, choice) && !s.entry.pipeActive && !choice.ok
    ensures Turn(Heard(s, command), choice) == s.(entry := s.entry.(command := command))
  {
    var s1 := Heard(s, command);
    var s2 := SessionMoved(s1, choice);
    var s3 := SessionMoved(s2, choice);
    var s4 := SessionMoved(s3, choice);
    TurnMoves(s1, choice);
    TurnMoves(s2, choice);
    TurnMoves(s3, choice);
    TurnMoves(s4, choice);
    TurnStops(SessionMoved(s4, choice), choice);
  }

  /** With a process at work it becomes a line of input: the command and a newline, flagged. */
  lemma InputTurn(s: Slot, command: Bytes, choice: Choice)
    requires Hears(s, command, choice) && ForShell(command, choice) && s.entry.pipeActive
    ensures var t := Turn(Heard(s, command), choice);
            && t.session == Receiving && t.consoles == s.consoles && t.handle == s.handle
            && t.entry == s.entry.(nextCommand := command + "\n", hasNextCommand := true)
            && t.history.sent == s.history.sent && t.history.begun == s.history.begun
            && t.history.mail.submitted == s.history.mail.submitted + [command + "\n"]
            && t.history.mail.written == s.history.mail.written
  {
    var s1 := Heard(s, command);
    var s2 := SessionMoved(s1, choice);
    var s3 := SessionMoved(s2, choice);
    var s4 := SessionMoved(s3, choice);
    TurnMoves(s1, choice);
    TurnMoves(s2, choice);
    TurnMoves(s3, choice);
    TurnMoves(s4, choice);
    TurnStops(SessionMoved(s4, choice), choice);
  }

  /** While `exitCode` is set a command does nothing at all. */
  lemma DroppedTurn(s: Slot, command: Bytes, choice: Choice)
    requires s.session.Receiving? && s.entry.exitCode != 0
    ensures Turn(Heard(s, command), choice) == s
  {
    var s1 := Heard(s, command);
    TurnMoves(s1, choice);
    TurnStops(SessionMoved(s1, choice), choice);
  }

  /** A thread that cannot be created is reported with one frame and one end code, and the session ends. */
  lemma FailedTurn(s: Slot, choice: Choice)
    requires s.session.Launch? && !choice.ok
    ensures var t := Turn(s, choice);
            && t.session == Away && t.consoles == s.consoles && t.entry == s.entry
            && t.history == s.history.(
                 begun := s.history.begun + 1,
                 sent := s.history.sent + [Frame("\nFailed to generate pthread.\n"), End])
  {
    var s2 := SessionMoved(s, choice);
    var s3 := SessionMoved(s2, choice);
    var s4 := SessionMoved(s3, choice);
    TurnMoves(s, choice);
    TurnMoves(s2, choice);
    TurnMoves(s3, choice);
    TurnMoves(s4, choice);
    TurnStops(SessionMoved(s4, choice), choice);
    assert s.history.sent + [Frame(FAILURE)] + [End] == s.history.sent + [Frame(FAILURE), End];
  }

  /**
   A cancel sets `exitCode` and waits for the console the session launched last and has
   not yet waited for, as long as that one is at work; with none to wait for it goes on.
   */
  lemma CancelTurn(s: Slot, choice: Choice)
    requires s.session.Receiving?
    ensures var t := Turn(Apply(s, Receive(Dispatch.Cancel)), choice);
            var waits := s.handle.Some? && Working(s, s.handle.value);
            && t.entry == s.entry.(exitCode := 1) && t.consoles == s.consoles && t.history == s.history
            && (if waits then t.session == Joining && t.handle == s.handle
                else t.session == Receiving && t.handle == None)
  {
    var s1 := Apply(s, Receive(Dispatch.Cancel));
    var s2 := SessionMoved(s1, choice);
    TurnMoves(s1, choice);
    if CanMove(s2) {
      TurnMoves(s2, choice);
      TurnStops(SessionMoved(s2, choice), choice);
    }
  }

  /** A close, and anything that does not decrypt to a known code, ends the session; a close with a tail does nothing. */
  lemma CloseTurn(s: Slot, request: Dispatch.Request, choice: Choice)
    requires s.session.Receiving? && (request.Close? || request.Reject? || request.Noted?)
    ensures Turn(Apply(s, Receive(request)), choice) == if request.Noted? then s else s.(session := Away)
  {
    var s1 := Apply(s, Receive(request));
    if request.Noted? {
      TurnStops(s1, choice);
    } else {
      TurnMoves(s1, choice);
      TurnStops(SessionMoved(s1, choice), choice);
    }
  }

  /** The console a session can wait for changes only by a launch, a wait that is over, and an arrival. */
  lemma HandleChanges(s: Slot, step: Step)
    requires Enabled(s, step) && Apply(s, step).handle != s.handle
    ensures step.Arrive? || (step.Session? && (s.session.Launch? || s.session.Joining?))
  {
    if step.Advance? {
      AdvanceShape(s, step.c, step.n, step.pid);
    }
  }
}

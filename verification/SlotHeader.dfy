/**
 What stands in the headers: whose shell it is, where, and which command; and which
 directories a session asks for.
 */
module SlotHeader {
  import opened Text
  import opened Wire
  import opened SlotLife
  import opened SlotSafety
  import opened SlotSpeech
  import SlotCommand
  import Dispatch

  /** The part of `text` from position `at` on begins with `part`. */
  predicate StandsAt(text: Bytes, part: Bytes, at: nat) {
    at + |part| <= |text| && text[at..at + |part|] == part
  }

  /** Newline, user and host, colon, directory, dollar and blank, command, two newlines; and nothing else. */
  predicate Names(header: Bytes, who: Bytes, directory: Bytes, command: Bytes) {
    && |header| == |who| + |directory| + |command| + 6
    && StandsAt(header, "\n", 0)
    && StandsAt(header, who, 1)
    && StandsAt(header, ":", |who| + 1)
    && StandsAt(header, directory, |who| + 2)
    && StandsAt(header, "$ ", |who| + |directory| + 2)
    && StandsAt(header, command, |who| + |directory| + 4)
    && StandsAt(header, "\n\n", |who| + |directory| + |command| + 4)
  }

  lemma PartStands(before: Bytes, part: Bytes, text: Bytes)
    requires before + part <= text
    ensures StandsAt(text, part, |before|)
  {
    assert text[|before|..|before| + |part|] == (before + part)[|before|..];
  }

  lemma PrefixGrows(a: Bytes, b: Bytes, c: Bytes, text: Bytes)
    requires a + b + c <= text
    ensures a + b <= text
  {
    assert (a + b + c)[..|a + b|] == a + b;
  }

  /** Seven parts one behind the other stand where their lengths say. */
  lemma PartsStand(p: Bytes, who: Bytes, q: Bytes, directory: Bytes, r: Bytes, command: Bytes, t: Bytes, text: Bytes)
    requires text == p + who + q + directory + r + command + t
    ensures StandsAt(text, p, 0) && StandsAt(text, who, |p|) && StandsAt(text, q, |p + who|)
    ensures StandsAt(text, directory, |p + who + q|) && StandsAt(text, r, |p + who + q + directory|)
    ensures StandsAt(text, command, |p + who + q + directory + r|)
    ensures StandsAt(text, t, |p + who + q + directory + r + command|)
  {
    var a, b, c, d, e := p + who, p + who + q, p + who + q + directory, p + who + q + directory + r,
                         p + who + q + directory + r + command;
    PartStands(e, t, text);
    PrefixGrows(d, command, t, text);
    PartStands(d, command, text);
    PrefixGrows(c, r, command, text);
    PartStands(c, r, text);
    PrefixGrows(b, directory, r, text);
    PartStands(b, directory, text);
    PrefixGrows(a, q, directory, text);
    PartStands(a, q, text);
    PrefixGrows(p, who, q, text);
    PartStands(p, who, text);
    assert [] + p + who == p + who;
    PrefixGrows([], p, who, text);
    PartStands([], p, text);
  }

  /** Every header names the user, the directory and the command of the entry, in that order. */
  lemma HeaderNames(e: Entry)
    ensures Names(Header(e), e.who, e.directory, e.command)
  {
    PartsStand("\n", e.who, ":", e.directory, "$ ", e.command, "\n\n", Header(e));
  }

  // ---- the headers of consoles ----

  /** The console's header names some user and directory, and the command it announced. */
  ghost predicate HeaderOk(k: Console) {
    !k.pc.Announce? ==> exists who: Bytes, directory: Bytes :: Names(k.header, who, directory, k.orders.announced)
  }

  ghost predicate HeadersOk(s: Slot) {
    forall c :: 0 <= c < |s.consoles| ==> HeaderOk(s.consoles[c])
  }

  lemma AdvanceHeader(s: Slot, c: nat, n: nat, pid: int)
    requires CanAdvance(s, c, n)
    ensures var k, m := s.consoles[c], Advanced(s, c, n, pid).consoles[c];
            && !m.pc.Announce?
            && (k.pc.Announce? ==> m.header == Header(s.entry) && m.orders.announced == s.entry.command)
            && (!k.pc.Announce? ==> m.header == k.header && m.orders.announced == k.orders.announced)
  {
    match s.consoles[c].pc {
      case Announce =>
      case TakeCommand =>
      case Reading =>
      case _ =>
    }
  }

  lemma AdvanceKeepsHeaders(s: Slot, c: nat, n: nat, pid: int)
    requires HeadersOk(s) && CanAdvance(s, c, n)
    ensures HeadersOk(Advanced(s, c, n, pid))
  {
    AdvanceShape(s, c, n, pid);
    AdvanceHeader(s, c, n, pid);
    HeaderNames(s.entry);
    assert HeaderOk(s.consoles[c]);
    assert HeaderOk(Advanced(s, c, n, pid).consoles[c]);
  }

  lemma StepKeepsHeaders(s: Slot, step: Step)
    requires HeadersOk(s) && Enabled(s, step)
    ensures HeadersOk(Apply(s, step))
  {
    match step {
      case Session(choice) => SessionShape(s, choice);
      case Advance(c, n, pid) => AdvanceKeepsHeaders(s, c, n, pid);
      case Emit(c, _) => assert HeaderOk(s.consoles[c]);
      case ChildEnds(c) => assert HeaderOk(s.consoles[c]);
      case _ =>
    }
  }

  lemma {:induction false} RunKeepsHeaders(s: Slot, steps: seq<Step>)
    requires HeadersOk(s) && IsRun(s, steps)
    ensures HeadersOk(Final(s, steps))
    decreases |steps|
  {
    if steps != [] {
      StepKeepsHeaders(s, steps[0]);
      RunKeepsHeaders(Apply(s, steps[0]), steps[1..]);
    }
  }

  /**
   In every run of a slot the header of a console names the command it announced; that
   is the command it was launched with, unless a directory command was put in the entry
   in between.
   */
  lemma ConsoleHeaderNamesCommand(steps: seq<Step>, c: nat) returns (who: Bytes, directory: Bytes)
    requires IsRun(Init(), steps)
    requires c < |Final(Init(), steps).consoles| && !SlotCommand.StillReads(Final(Init(), steps).consoles[c].pc)
    ensures var k := Final(Init(), steps).consoles[c];
            && Names(k.header, who, directory, k.orders.announced)
            && (k.orders.announcedAt == k.orders.launchedAt ==> Names(k.header, who, directory, k.orders.launched))
  {
    RunKeepsHeaders(Init(), steps);
    SlotCommand.RunsWhatWasLaunched(steps, c);
    var k := Final(Init(), steps).consoles[c];
    assert HeaderOk(k);
    who, directory :| Names(k.header, who, directory, k.orders.announced);
  }

  // ---- directory commands ----

  /** A directory command asks for the directory it names, once, and for no other. */
  lemma DirectoryIsAsked(s: Slot, command: Bytes, choice: Choice)
    requires s.session == EnterDirectory(command) && Contains(command, "cd") && Enabled(s, Session(choice))
    ensures var t := Apply(s, Session(choice));
            && |t.history.asked| == |s.history.asked| + 1 && s.history.asked <= t.history.asked
            && var asked := t.history.asked[|s.history.asked|];
            && (command == "cd .." ==> asked == s.entry.directory + "/..")
            && (command == "cd" ==> asked == choice.home)
            && (command != "cd .." && command != "cd" ==> |command| >= 3 && asked == command[3..])
    ensures var t := Apply(s, Session(choice));
            && t.session == PutDirCommand(command)
            && t.entry == s.entry.(directory := t.entry.directory)
            && t.entry.directory == (match choice.entered case Some(d) => d case None => s.entry.directory)
  {
    Dispatch.EveryDirectoryCommandHasATarget(command, s.entry.directory, choice.home, s.entry.directory);
  }

  /** Nothing else asks for a directory. */
  lemma OnlyDirectoryCommandsAsk(s: Slot, step: Step)
    requires Enabled(s, step) && Apply(s, step).history.asked != s.history.asked
    ensures step.Session? && s.session.EnterDirectory?
  {
    if step.Advance? {
      AdvanceAsksNothing(s, step.c, step.n, step.pid);
    }
  }

  lemma AdvanceAsksNothing(s: Slot, c: nat, n: nat, pid: int)
    requires CanAdvance(s, c, n)
    ensures Advanced(s, c, n, pid).history.asked == s.history.asked
  {
  }

  /** The part of a directory command that no console takes part in. */
  predicate InDirectoryCommand(pc: SessionPc) {
    pc.EnterDirectory? || pc.PutDirCommand? || pc.DirFrame? || pc.DirEnd?
  }

  /** A run of the slot during which the session works on a directory command. */
  predicate DirectoryRun(s: Slot, steps: seq<Step>)
    decreases |steps|
  {
    && IsRun(s, steps)
    && (steps != [] ==> InDirectoryCommand(s.session) && DirectoryRun(Apply(s, steps[0]), steps[1..]))
  }

  /** How far the answer to `command` has come since `sent`. */
  ghost predicate Answered(s: Slot, command: Bytes, sent: seq<Token>) {
    && OneConsole(s) && LastPc(s.consoles).Exited?
    && match s.session
       case EnterDirectory(c) => c == command && s.history.sent == sent
       case PutDirCommand(c) => c == command && s.history.sent == sent
       case DirFrame => s.entry.command == command && s.history.sent == sent
       case DirEnd => s.entry.command == command && s.history.sent == sent + [Frame(Header(s.entry))]
       case Receiving => s.entry.command == command && s.history.sent == sent + [Frame(Header(s.entry)), End]
       case _ => false
  }

  lemma AnswerStep(s: Slot, step: Step, command: Bytes, sent: seq<Token>)
    requires Answered(s, command, sent) && InDirectoryCommand(s.session) && Enabled(s, step)
    ensures Answered(Apply(s, step), command, sent)
  {
    OneConsoleKept(s, step);
    if step.Session? {
      SessionShape(s, step.choice);
    }
  }

  lemma {:induction false} AnswerRun(s: Slot, steps: seq<Step>, command: Bytes, sent: seq<Token>)
    requires Answered(s, command, sent) && DirectoryRun(s, steps)
    ensures Answered(Final(s, steps), command, sent)
    decreases |steps|
  {
    if steps != [] {
      AnswerStep(s, steps[0], command, sent);
      AnswerRun(Apply(s, steps[0]), steps[1..], command, sent);
    }
  }

  /**
   The answer to a directory command, with no console at work: one frame and one end
   code. The frame names the user, the directory the slot is in by then, and the very
   command that was received.
   */
  lemma DirectoryAnswerNamesCommand(s: Slot, command: Bytes, steps: seq<Step>) returns (header: Bytes)
    requires OneConsole(s) && LastPc(s.consoles).Exited? && s.session == EnterDirectory(command)
    requires DirectoryRun(s, steps) && Final(s, steps).session.Receiving?
    ensures Final(s, steps).history.sent == s.history.sent + [Frame(header), End]
    ensures Names(header, Final(s, steps).entry.who, Final(s, steps).entry.directory, command)
  {
    AnswerRun(s, steps, command, s.history.sent);
    header := Header(Final(s, steps).entry);
    HeaderNames(Final(s, steps).entry);
  }
}

/**
 What reaches a slot's socket over a stretch of a run: the responses of its
 consoles and the answers its session gives by itself.
 */
module SlotSpeech {
  import opened Text
  import opened Wire
  import opened SlotLife
  import opened SlotSafety
  import Pump

  /** A run, of any thread and any child, in which console c is at work until the end. */
  predicate WaitingRun(s: Slot, c: nat, steps: seq<Step>)
    decreases |steps|
  {
    IsRun(s, steps) && (steps != [] ==> Working(s, c) && WaitingRun(Apply(s, steps[0]), c, steps[1..]))
  }

  /** What the session says in one step, and in a run. */
  function SessionSays(s: Slot, step: Step): seq<Token> {
    if step.Session? && SessionUtterance(s).Some? then [SessionUtterance(s).value] else []
  }

  function SessionSaid(s: Slot, steps: seq<Step>): seq<Token>
    requires IsRun(s, steps)
    decreases |steps|
  {
    if steps == [] then [] else SessionSays(s, steps[0]) + SessionSaid(Apply(s, steps[0]), steps[1..])
  }

  /** What one step sends on the slot's socket, and what a run does. */
  function StepSays(s: Slot, step: Step): seq<Token>
    requires Enabled(s, step)
  {
    match step
    case Session(_) => SessionSays(s, step)
    case Advance(c, _, _) => if Utterance(s, c).Some? then [Utterance(s, c).value] else []
    case _ => []
  }

  function Said(s: Slot, steps: seq<Step>): seq<Token>
    requires IsRun(s, steps)
    decreases |steps|
  {
    if steps == [] then [] else StepSays(s, steps[0]) + Said(Apply(s, steps[0]), steps[1..])
  }

  lemma StepIsSaid(s: Slot, step: Step)
    requires Enabled(s, step)
    ensures Apply(s, step).history.sent == s.history.sent + StepSays(s, step)
  {
    match step {
      case Session(choice) => SessionShape(s, choice);
      case Advance(c, n, pid) => AdvanceShape(s, c, n, pid);
      case _ =>
    }
  }

  lemma {:induction false} RunIsSaid(s: Slot, steps: seq<Step>)
    requires IsRun(s, steps)
    ensures Final(s, steps).history.sent == s.history.sent + Said(s, steps)
    decreases |steps|
  {
    if steps != [] {
      StepIsSaid(s, steps[0]);
      RunIsSaid(Apply(s, steps[0]), steps[1..]);
    }
  }

  lemma {:induction false} SaidAppend(s: Slot, a: seq<Step>, b: seq<Step>)
    requires IsRun(s, a) && IsRun(Final(s, a), b) && IsRun(s, a + b)
    ensures Said(s, a + b) == Said(s, a) + Said(Final(s, a), b)
    decreases |a|
  {
    if a == [] {
      assert a + b == b;
    } else {
      assert (a + b)[1..] == a[1..] + b;
      SaidAppend(Apply(s, a[0]), a[1..], b);
    }
  }

  /** What has been added to `from` to make `to`. */
  function Added<T(==)>(from: seq<T>, to: seq<T>): seq<T>
    requires from <= to
  {
    to[|from|..]
  }

  /** `c` is `a` and `b` interleaved, each in its order. */
  predicate Shuffle<T(==)>(a: seq<T>, b: seq<T>, c: seq<T>) {
    if c == [] then a == [] && b == []
    else
      var n := |c| - 1;
      || (a != [] && a[|a| - 1] == c[n] && Shuffle(a[..|a| - 1], b, c[..n]))
      || (b != [] && b[|b| - 1] == c[n] && Shuffle(a, b[..|b| - 1], c[..n]))
  }

  lemma {:induction false} ShuffleAppend<T>(a: seq<T>, b: seq<T>, c: seq<T>, x: seq<T>, y: seq<T>, z: seq<T>)
    requires Shuffle(a, b, c) && Shuffle(x, y, z)
    ensures Shuffle(a + x, b + y, c + z)
    decreases |z|
  {
    if z == [] {
      assert a + x == a && b + y == b && c + z == c;
    } else {
      var n := |z| - 1;
      assert (c + z)[..|c + z| - 1] == c + z[..n];
      if x != [] && x[|x| - 1] == z[n] && Shuffle(x[..|x| - 1], y, z[..n]) {
        ShuffleAppend(a, b, c, x[..|x| - 1], y, z[..n]);
        assert (a + x)[..|a + x| - 1] == a + x[..|x| - 1];
      } else {
        ShuffleAppend(a, b, c, x, y[..|y| - 1], z[..n]);
        assert (b + y)[..|b + y| - 1] == b + y[..|y| - 1];
      }
    }
  }

  /** Only with nothing mixed in is the mixture the other part itself. */
  lemma {:induction false} ShuffleAlone<T>(a: seq<T>, b: seq<T>, c: seq<T>)
    requires Shuffle(a, b, c)
    ensures |c| == |a| + |b|
    ensures c == a <==> b == []
    decreases |c|
  {
    if c != [] {
      var n := |c| - 1;
      if a != [] && a[|a| - 1] == c[n] && Shuffle(a[..|a| - 1], b, c[..n]) {
        ShuffleAlone(a[..|a| - 1], b, c[..n]);
        if b == [] {
          assert a == a[..|a| - 1] + [c[n]] && c == c[..n] + [c[n]];
        }
      } else {
        ShuffleAlone(a, b[..|b| - 1], c[..n]);
      }
    }
  }

  /**
   Between `s` and `t` the socket got what console c said and `said`, what the
   session said, interleaved, and nothing else.
   */
  predicate Grew(s: Slot, t: Slot, c: nat, said: seq<Token>) {
    && c < |s.consoles| && c < |t.consoles|
    && s.consoles[c].out <= t.consoles[c].out && s.history.sent <= t.history.sent
    && Shuffle(Added(s.consoles[c].out, t.consoles[c].out), said, Added(s.history.sent, t.history.sent))
  }

  lemma GrewThenGrew(s: Slot, t: Slot, u: Slot, c: nat, a: seq<Token>, b: seq<Token>)
    requires Grew(s, t, c, a) && Grew(t, u, c, b)
    ensures Grew(s, u, c, a + b)
  {
    var k, l, m := s.consoles[c].out, t.consoles[c].out, u.consoles[c].out;
    AddedThenAdded(s.history.sent, t.history.sent, u.history.sent);
    AddedThenAdded(k, l, m);
    ShuffleAppend(Added(k, l), a, Added(s.history.sent, t.history.sent),
                  Added(l, m), b, Added(t.history.sent, u.history.sent));
  }

  lemma AddedThenAdded<T>(a: seq<T>, b: seq<T>, c: seq<T>)
    requires a <= b && b <= c
    ensures a <= c && Added(a, c) == Added(a, b) + Added(b, c)
  {
  }

  lemma AddedOne<T>(a: seq<T>, u: seq<T>)
    ensures Added(a, a) == [] && Added(a, a + u) == u
  {
  }

  lemma ShuffleOne<T>(u: seq<T>)
    requires |u| <= 1
    ensures Shuffle(u, [], u) && Shuffle([], u, u)
  {
  }

  lemma SessionGrows(s: Slot, c: nat, choice: Choice)
    requires OneConsole(s) && Working(s, c) && CanMove(s)
    ensures Grew(s, SessionMoved(s, choice), c, SessionSays(s, Session(choice)))
  {
    var t, u := SessionMoved(s, choice), SessionSays(s, Session(choice));
    SessionShape(s, choice);
    AddedOne(s.history.sent, u);
    AddedOne(s.consoles[c].out, []);
    ShuffleOne(u);
    assert t.history.sent == s.history.sent + u;
  }

  lemma AdvanceGrows(s: Slot, c: nat, d: nat, n: nat, pid: int)
    requires OneConsole(s) && Working(s, c) && CanAdvance(s, d, n)
    ensures Grew(s, Advanced(s, d, n, pid), c, [])
  {
    var t := Advanced(s, d, n, pid);
    AdvanceShape(s, d, n, pid);
    assert c == d == |s.consoles| - 1;
    var u := if Utterance(s, c).Some? then [Utterance(s, c).value] else [];
    AddedOne(s.history.sent, u);
    AddedOne(s.consoles[c].out, u);
    ShuffleOne(u);
    assert t.history.sent == s.history.sent + u && t.consoles[c].out == s.consoles[c].out + u;
  }

  lemma StepGrows(s: Slot, c: nat, step: Step)
    requires OneConsole(s) && Working(s, c) && Enabled(s, step)
    ensures Grew(s, Apply(s, step), c, SessionSays(s, step))
  {
    match step {
      case Session(choice) => SessionGrows(s, c, choice);
      case Advance(d, n, pid) => AdvanceGrows(s, c, d, n, pid);
      case _ => AddedOne(s.history.sent, []); AddedOne(s.consoles[c].out, []);
    }
  }

  /** While a console is at work, the socket gets what it says and what the session says, interleaved. */
  lemma {:induction false} RunGrows(s: Slot, c: nat, steps: seq<Step>)
    requires OneConsole(s) && WaitingRun(s, c, steps) && c < |s.consoles|
    ensures Grew(s, Final(s, steps), c, SessionSaid(s, steps))
    decreases |steps|
  {
    if steps == [] {
      AddedOne(s.history.sent, []);
      AddedOne(s.consoles[c].out, []);
    } else {
      var t := Apply(s, steps[0]);
      OneConsoleKept(s, steps[0]);
      StepGrows(s, c, steps[0]);
      RunGrows(t, c, steps[1..]);
      GrewThenGrew(s, t, Final(s, steps), c, SessionSays(s, steps[0]), SessionSaid(t, steps[1..]));
    }
  }

  // ---- the bytes a child prints ----

  /** What the console still has to forward: the read in its hands, then what is unread. */
  function Unsent(k: Console): Bytes {
    (if k.pc.Forwarding? then k.pc.chunk else []) + k.pending
  }

  /** Every byte the child printed was forwarded, in order, or is still to be. */
  predicate BytesOk(k: Console) { Concat(k.chunks) + Unsent(k) == k.printed }

  predicate AllBytesOk(s: Slot) {
    forall c :: 0 <= c < |s.consoles| ==> BytesOk(s.consoles[c])
  }

  lemma AdvanceConserves(s: Slot, c: nat, n: nat, pid: int)
    requires CanAdvance(s, c, n) && BytesOk(s.consoles[c])
    ensures BytesOk(Advanced(s, c, n, pid).consoles[c])
  {
    match s.consoles[c].pc {
      case Forwarding(_) => ForwardingConserves(s.consoles[c]);
      case Reading =>
        if s.consoles[c].pending != [] {
          ReadingConserves(s.consoles[c], n);
        }
      case TestNext =>
      case _ =>
    }
  }

  lemma ForwardingConserves(k: Console)
    requires BytesOk(k) && k.pc.Forwarding?
    ensures Concat(k.chunks + [k.pc.chunk]) + k.pending == k.printed
  {
    ConcatLast(k.chunks, k.pc.chunk);
    assert Concat(k.chunks) + (k.pc.chunk + k.pending) == Concat(k.chunks) + k.pc.chunk + k.pending;
  }

  lemma ReadingConserves(k: Console, n: nat)
    requires BytesOk(k) && k.pc.Reading? && n <= |k.pending|
    ensures Concat(k.chunks) + (k.pending[..n] + k.pending[n..]) == k.printed
  {
    assert k.pending[..n] + k.pending[n..] == k.pending;
  }

  lemma EmitConserves(k: Console, bytes: Bytes)
    requires BytesOk(k)
    ensures BytesOk(k.(pending := k.pending + bytes, printed := k.printed + bytes))
  {
    var m := k.(pending := k.pending + bytes, printed := k.printed + bytes);
    assert Unsent(m) == Unsent(k) + bytes;
    assert Concat(k.chunks) + (Unsent(k) + bytes) == Concat(k.chunks) + Unsent(k) + bytes;
  }

  lemma AllBytesOkKept(s: Slot, step: Step)
    requires AllBytesOk(s) && Enabled(s, step)
    ensures AllBytesOk(Apply(s, step))
  {
    match step {
      case Session(choice) => SessionShape(s, choice);
      case Advance(c, n, pid) => AdvanceConserves(s, c, n, pid); AdvanceShape(s, c, n, pid);
      case Emit(c, bytes) => EmitConserves(s.consoles[c], bytes);
      case _ =>
    }
  }

  ghost predicate Sound(s: Slot) { Safe(s) && AllBytesOk(s) }

  lemma {:induction false} RunSound(s: Slot, steps: seq<Step>)
    requires Sound(s) && IsRun(s, steps)
    ensures Sound(Final(s, steps))
    decreases |steps|
  {
    if steps != [] {
      StepSafe(s, steps[0]);
      AllBytesOkKept(s, steps[0]);
      RunSound(Apply(s, steps[0]), steps[1..]);
    }
  }

  lemma InitSound()
    ensures Sound(Init())
  {
    InitSafe();
  }

  // ---- one response ----

  /**
   From the moment a console starts until it has ended: the socket gets its
   response, that is header, one frame a read, killed notice and end code,
   interleaved with what the session says; and exactly the response if and only if
   the session says nothing. The reads are what the child printed, in order, up to
   what is left unread.
   */
  lemma ConsoleResponds(s: Slot, c: nat, steps: seq<Step>)
    requires Sound(s) && c < |s.consoles| && s.consoles[c].pc.Announce?
    requires WaitingRun(s, c, steps) && LastPc(Final(s, steps).consoles).Exited?
    ensures c < |Final(s, steps).consoles| && s.history.sent <= Final(s, steps).history.sent
    ensures var t := Final(s, steps); var k := t.consoles[c]; var response := Pump.Response(k.header, k.chunks, k.pid);
            && Shuffle(response, SessionSaid(s, steps), Added(s.history.sent, t.history.sent))
            && (t.history.sent == s.history.sent + response <==> SessionSaid(s, steps) == [])
            && Concat(k.chunks) + k.pending == k.printed
  {
    var t := Final(s, steps);
    RunGrows(s, c, steps);
    RunSound(s, steps);
    OnlyThatConsole(t, c);
    StartedSilent(s, c);
    EndedWithResponse(t, c);
    GrewByAll(s, t, c, SessionSaid(s, steps));
  }

  lemma StartedSilent(s: Slot, c: nat)
    requires ConsolesOk(s) && c < |s.consoles| && s.consoles[c].pc.Announce?
    ensures s.consoles[c].out == []
  {
    assert ConsoleOk(s.consoles[c]);
  }

  lemma EndedWithResponse(t: Slot, c: nat)
    requires ConsolesOk(t) && AllBytesOk(t) && c < |t.consoles| && t.consoles[c].pc.Exited?
    ensures var k := t.consoles[c];
            k.out == Pump.Response(k.header, k.chunks, k.pid) && Concat(k.chunks) + k.pending == k.printed
  {
    assert ConsoleOk(t.consoles[c]) && BytesOk(t.consoles[c]);
  }

  lemma GrewByAll(s: Slot, t: Slot, c: nat, said: seq<Token>)
    requires Grew(s, t, c, said) && s.consoles[c].out == []
    ensures Shuffle(t.consoles[c].out, said, Added(s.history.sent, t.history.sent))
    ensures t.history.sent == s.history.sent + t.consoles[c].out <==> said == []
  {
    var added := Added(s.history.sent, t.history.sent);
    assert Added([], t.consoles[c].out) == t.consoles[c].out;
    ShuffleAlone(t.consoles[c].out, said, added);
    assert t.history.sent == s.history.sent + added;
  }

  lemma OnlyThatConsole(s: Slot, c: nat)
    requires OneConsole(s) && LastPc(s.consoles).Exited? && c < |s.consoles|
    ensures s.consoles[c].pc.Exited?
  {
  }

  // ---- nothing is left unread without a cancel ----

  predicate SetsExit(s: Slot, step: Step) { step.Session? && s.session.PutExit? }

  /** No cancel takes effect in the run. */
  predicate NoCancel(s: Slot, steps: seq<Step>)
    requires IsRun(s, steps)
    decreases |steps|
  {
    steps != [] ==> !SetsExit(s, steps[0]) && NoCancel(Apply(s, steps[0]), steps[1..])
  }

  predicate PastLoop(pc: ConsolePc) {
    pc.AnnounceKill? || pc.SendEnd? || pc.ClearExit? || pc.ClearActive? || pc.Exited?
  }

  /** The console only leaves its loop when the pipe is closed and read to its end. */
  predicate ReadsToEnd(s: Slot, c: nat) {
    && c < |s.consoles| && s.entry.exitCode != 1
    && (PastLoop(s.consoles[c].pc) ==> !s.consoles[c].open && s.consoles[c].pending == [])
  }

  lemma SessionReadsToEnd(s: Slot, c: nat, choice: Choice)
    requires ReadsToEnd(s, c) && CanMove(s) && !s.session.PutExit?
    ensures ReadsToEnd(SessionMoved(s, choice), c)
  {
    SessionShape(s, choice);
    SessionLeavesExitCode(s, choice);
  }

  lemma SessionLeavesExitCode(s: Slot, choice: Choice)
    requires CanMove(s) && !s.session.PutExit?
    ensures SessionMoved(s, choice).entry.exitCode == s.entry.exitCode
  {
  }

  lemma AdvanceReadsToEnd(s: Slot, c: nat, d: nat, n: nat, pid: int)
    requires ReadsToEnd(s, c) && CanAdvance(s, d, n)
    ensures ReadsToEnd(Advanced(s, d, n, pid), c)
  {
    match s.consoles[d].pc {
      case Reading =>
      case TestCancel =>
      case Forking =>
      case ClearExit =>
      case _ =>
    }
  }

  lemma StepReadsToEnd(s: Slot, c: nat, step: Step)
    requires ReadsToEnd(s, c) && Enabled(s, step) && !SetsExit(s, step)
    ensures ReadsToEnd(Apply(s, step), c)
  {
    match step {
      case Session(choice) => SessionReadsToEnd(s, c, choice);
      case Advance(d, n, pid) => AdvanceReadsToEnd(s, c, d, n, pid);
      case _ =>
    }
  }

  lemma {:induction false} UncancelledReadsToEnd(s: Slot, c: nat, steps: seq<Step>)
    requires ReadsToEnd(s, c) && IsRun(s, steps) && NoCancel(s, steps)
    ensures ReadsToEnd(Final(s, steps), c)
    decreases |steps|
  {
    if steps != [] {
      StepReadsToEnd(s, c, steps[0]);
      UncancelledReadsToEnd(Apply(s, steps[0]), c, steps[1..]);
    }
  }

  /** Without a cancel, a console that has ended has read everything its child ever printed. */
  lemma UncancelledIsComplete(s: Slot, c: nat, steps: seq<Step>)
    requires Sound(s) && c < |s.consoles| && s.consoles[c].pc.Announce? && s.entry.exitCode != 1
    requires IsRun(s, steps) && NoCancel(s, steps)
    requires c < |Final(s, steps).consoles| && Final(s, steps).consoles[c].pc.Exited?
    ensures var k := Final(s, steps).consoles[c]; !k.open && Concat(k.chunks) == k.printed
  {
    UncancelledReadsToEnd(s, c, steps);
    RunSound(s, steps);
    assert BytesOk(Final(s, steps).consoles[c]);
  }

  // ---- what the session answers by itself ----

  /** The session is about to answer, and no console is at work. */
  predicate Answering(s: Slot) {
    && OneConsole(s) && LastPc(s.consoles).Exited?
    && (s.session.RefuseFrame? || s.session.RefuseEnd? || s.session.DirFrame? || s.session.DirEnd?)
  }

  /** What is left of the answer. */
  function Due(s: Slot): seq<Token> {
    match s.session
    case RefuseFrame => [Frame(REFUSAL), End]
    case DirFrame => [Frame(Header(s.entry)), End]
    case RefuseEnd => [End]
    case DirEnd => [End]
    case _ => []
  }

  lemma AnswerMoves(s: Slot, choice: Choice)
    requires Answering(s) && CanMove(s)
    ensures var t := SessionMoved(s, choice);
            && t.history.sent + Due(t) == s.history.sent + Due(s)
            && t.consoles == s.consoles && (Answering(t) || t.session.Receiving?)
  {
  }

  lemma AnswerWaits(s: Slot, step: Step)
    requires Answering(s) && Enabled(s, step) && !step.Session?
    ensures var t := Apply(s, step);
            Answering(t) && t.session == s.session && t.entry == s.entry && t.history.sent == s.history.sent
  {
  }

  /** A run of the slot during which the session answers. */
  predicate AnsweringRun(s: Slot, steps: seq<Step>)
    decreases |steps|
  {
    IsRun(s, steps) && (steps != [] ==> Answering(s) && AnsweringRun(Apply(s, steps[0]), steps[1..]))
  }

  /** With no console at work, the answer to a refused or a directory command is all that the socket gets. */
  lemma {:induction false} AnswerIsGiven(s: Slot, steps: seq<Step>)
    requires AnsweringRun(s, steps)
    requires Final(s, steps).session.Receiving?
    ensures Final(s, steps).history.sent == s.history.sent + Due(s)
    decreases |steps|
  {
    if steps != [] {
      var t := Apply(s, steps[0]);
      if steps[0].Session? {
        AnswerMoves(s, steps[0].choice);
      } else {
        AnswerWaits(s, steps[0]);
      }
      AnswerIsGiven(t, steps[1..]);
      assert t.history.sent + Due(t) == s.history.sent + Due(s);
    } else {
      assert s.history.sent + [] == s.history.sent;
    }
  }
}

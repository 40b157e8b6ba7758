/**
 The client statement by statement: any number of receive threads and the form's
 thread over the shared connection record, which nothing locks. Client.dfy takes each
 turn of a receive thread and each action of the form in one piece.
 */
module ClientThreads {
  import opened Text
  import opened Wire
  import opened Buffers
  import opened Sealing
  import C = Client

  /** A receive thread (client.cpp): the statement about to run. */
  datatype ThreadPc =
    | Receiving                     // 115
    | Testing(text: Bytes)          // 117-121, with what was received
    | Appending(text: Bytes)        // 123
    | Latching(text: Bytes)         // 124
    | Closing                       // 139
    | Releasing                     // 140
    | Ended

  /** The form's thread (frmmain.cpp, and client.cpp for its disconnect). */
  datatype FormPc =
    | Idle
    | PollTest(copy: Bytes)         // 356, with the buffer as it was at 343
    | PollClear(copy: Bytes)        // 361
    | PollClearLatched(copy: Bytes) // 372
    | PollRelease                   // 373
    | SendClear                     // 387
    | SendMessage                   // 396
    | LeaveClear                    // 314
    | LeaveTest                     // 316
    | LeaveClose                    // 139
    | LeaveRelease                  // 140
    | LeaveStop                     // 333

  datatype State = State(
    output: Bytes,
    ended: bool,
    connected: bool,
    polling: bool,
    threads: seq<ThreadPc>,
    form: FormPc)

  datatype Step =
    | Packet(t: nat, text: Bytes)   // recv returns; the packet as a C string
    | Nothing(t: nat)               // recv returns nothing
    | Thread(t: nat)                // the next statement of thread t
    | Poll                          // the message timer: 338-343
    | Send                          // 385
    | Leave                         // the disconnect button, or a cancel that cannot be sent
    | Connect
    | Form(ok: bool)                // the next statement of the form; whether a send succeeds

  predicate Enabled(s: State, step: Step) {
    match step
    case Packet(t, _) => t < |s.threads| && s.threads[t].Receiving?
    case Nothing(t) => t < |s.threads| && s.threads[t].Receiving?
    case Thread(t) => t < |s.threads| && !s.threads[t].Receiving? && !s.threads[t].Ended?
    case Poll => s.form.Idle? && s.polling
    case Send => s.form.Idle? && s.connected && !s.ended
    case Leave => s.form.Idle? && s.connected
    case Connect => s.form.Idle? && !s.connected
    case Form(_) => !s.form.Idle?
  }

  function Goes(s: State, t: nat, pc: ThreadPc): State
    requires t < |s.threads|
  {
    s.(threads := s.threads[t := pc])
  }

  function ThreadMoved(s: State, t: nat): State
    requires t < |s.threads|
  {
    match s.threads[t]
    case Testing(text) => Goes(s, t, if s.ended || text == [] then Receiving else Appending(text))
    case Appending(text) => Goes(s, t, Latching(text)).(output := s.output + text)
    case Latching(text) => Goes(s, t, Receiving).(ended := Contains(text, END_CODE))
    case Closing => Goes(s, t, Releasing).(connected := false)
    case Releasing => Goes(s, t, Ended).(ended := false)
    case _ => s
  }

  function FormMoved(s: State, ok: bool): State {
    match s.form
    case Idle => s
    case PollTest(copy) => s.(form := if s.ended then PollClearLatched(copy) else PollClear(copy))
    case PollClear(_) => s.(output := [], form := Idle)
    case PollClearLatched(_) => s.(output := [], form := PollRelease)
    case PollRelease => s.(ended := false, form := Idle)
    case SendClear => s.(output := [], form := SendMessage)
    case SendMessage => s.(form := if ok then Idle else LeaveClear)
    case LeaveClear => s.(output := [], form := LeaveTest)
    case LeaveTest => s.(form := if s.connected then LeaveClose else LeaveStop)
    case LeaveClose => s.(connected := false, form := LeaveRelease)
    case LeaveRelease => s.(ended := false, form := LeaveStop)
    case LeaveStop => s.(polling := false, form := Idle)
  }

  function Apply(s: State, step: Step): State
    requires Enabled(s, step)
  {
    match step
    case Packet(t, text) => Goes(s, t, Testing(text))
    case Nothing(t) => Goes(s, t, Closing)
    case Thread(t) => ThreadMoved(s, t)
    case Poll =>
      if !s.connected then s.(form := LeaveClear)
      else if s.output == [] then s
      else s.(form := PollTest(s.output))
    case Send => s.(form := SendClear)
    case Leave => s.(form := LeaveClear)
    case Connect => s.(connected := true, polling := true, threads := s.threads + [Receiving])
    case Form(ok) => FormMoved(s, ok)
  }

  // ---- the latch ----

  /** Thread t has appended an end code and not yet set the latch. */
  predicate Latches(s: State, t: nat) {
    t < |s.threads| && s.threads[t].Latching? && Contains(s.threads[t].text, END_CODE)
  }

  predicate Pending(s: State) { exists t: nat {:trigger Latches(s, t)} :: t < |s.threads| && Latches(s, t) }

  predicate HoldsEnd(s: State) { Contains(s.output, END_CODE) }

  /**
   The condition on runs. The buffer of a live connection is not emptied while a latch
   is being set for what is in it, nor, except by the poll that is about to release it,
   while it is set; and no connection is made on a latch that nothing in the buffer
   explains.
   */
  predicate Safe(s: State, step: Step) {
    match step
    case Form(_) =>
      (match s.form
       case PollClear(_) => !(s.connected && (s.ended || Pending(s)))
       case SendClear => !(s.connected && (s.ended || Pending(s)))
       case PollClearLatched(_) => !(s.connected && Pending(s))
       case _ => true)
    case Connect => s.ended || Pending(s) ==> HoldsEnd(s)
    case _ => true
  }

  predicate IsRun(s: State, steps: seq<Step>)
    decreases |steps|
  {
    steps == [] || (Enabled(s, steps[0]) && Safe(s, steps[0]) && IsRun(Apply(s, steps[0]), steps[1..]))
  }

  function Final(s: State, steps: seq<Step>): State
    requires IsRun(s, steps)
    decreases |steps|
  {
    if steps == [] then s else Final(Apply(s, steps[0]), steps[1..])
  }

  /** On a live connection, a latch that is set or being set has an end code in the buffer. */
  predicate LatchOk(s: State) {
    s.connected && !s.form.LeaveTest? && !s.form.LeaveClose? ==>
      && (Pending(s) ==> HoldsEnd(s))
      && (s.ended && !s.form.PollRelease? ==> HoldsEnd(s))
  }

  /** The latch is set, nothing in the buffer says why, and the form is not about to release it. */
  predicate Unexplained(s: State) { s.connected && s.form.Idle? && s.ended && !HoldsEnd(s) }

  /** No poll looks at the latch, no packet is taken, no command is sent. */
  predicate Stuck(s: State) { s.connected && s.form.Idle? && s.ended && s.output == [] }

  lemma EmptyHoldsNothing(s: State)
    requires s.output == []
    ensures !HoldsEnd(s)
  {
  }

  /** A thread's step other than its append leaves the other threads' pending latches alone. */
  lemma PendingFrom(s: State, t: State, i: nat)
    requires |t.threads| >= |s.threads| && forall j :: 0 <= j < |s.threads| && j != i ==> t.threads[j] == s.threads[j]
    requires forall j :: |s.threads| <= j < |t.threads| ==> !t.threads[j].Latching?
    requires i < |s.threads| ==> !Latches(t, i)
    ensures Pending(t) ==> Pending(s)
  {
    if j: nat :| j < |t.threads| && Latches(t, j) {
      assert Latches(s, j);
    }
  }

  lemma SamePending(s: State, t: State)
    requires t.threads == s.threads
    ensures Pending(t) == Pending(s)
  {
    if j: nat :| j < |t.threads| && Latches(t, j) {
      assert Latches(s, j);
    }
    if j: nat :| j < |s.threads| && Latches(s, j) {
      assert Latches(t, j);
    }
  }

  lemma AppendKeeps(s: State, i: nat)
    requires LatchOk(s) && i < |s.threads| && s.threads[i].Appending?
    ensures LatchOk(ThreadMoved(s, i))
  {
    var t, text := ThreadMoved(s, i), s.threads[i].text;
    if HoldsEnd(s) {
      C.ContainsInPrefix(s.output, text, END_CODE);
    }
    if Contains(text, END_CODE) {
      C.ContainsInSuffix(s.output, text, END_CODE);
    } else {
      PendingFrom(s, t, i);
    }
  }

  lemma ThreadKeeps(s: State, i: nat)
    requires LatchOk(s) && Enabled(s, Thread(i))
    ensures LatchOk(ThreadMoved(s, i))
  {
    if s.threads[i].Appending? {
      AppendKeeps(s, i);
    } else {
      PendingFrom(s, ThreadMoved(s, i), i);
      if s.threads[i].Latching? && Contains(s.threads[i].text, END_CODE) {
        assert Latches(s, i);
      }
    }
  }

  lemma FormKeeps(s: State, ok: bool)
    requires LatchOk(s) && Enabled(s, Form(ok)) && Safe(s, Form(ok))
    ensures LatchOk(FormMoved(s, ok))
  {
    SamePending(s, FormMoved(s, ok));
  }

  /** Every safe step of every thread keeps it. */
  lemma StepKeepsLatch(s: State, step: Step)
    requires LatchOk(s) && Enabled(s, step) && Safe(s, step)
    ensures LatchOk(Apply(s, step))
  {
    var t := Apply(s, step);
    match step {
      case Thread(i) => ThreadKeeps(s, i);
      case Form(ok) => FormKeeps(s, ok);
      case Packet(i, _) => PendingFrom(s, t, i);
      case Nothing(i) => PendingFrom(s, t, i);
      case Connect => PendingFrom(s, t, |s.threads|);
      case _ => SamePending(s, t);
    }
  }

  lemma {:induction false} RunKeepsLatch(s: State, steps: seq<Step>)
    requires LatchOk(s) && IsRun(s, steps)
    ensures LatchOk(Final(s, steps)) && !Unexplained(Final(s, steps))
    decreases |steps|
  {
    if steps != [] {
      StepKeepsLatch(s, steps[0]);
      RunKeepsLatch(Apply(s, steps[0]), steps[1..]);
    }
  }

  /** Some run of safe steps leads to a latch that nothing explains. */
  ghost predicate CanGoWrong(s: State) {
    exists steps: seq<Step> :: IsRun(s, steps) && Unexplained(Final(s, steps))
  }

  lemma RunCons(s: State, step: Step, rest: seq<Step>)
    requires Enabled(s, step) && Safe(s, step) && IsRun(Apply(s, step), rest)
    ensures IsRun(s, [step] + rest) && Final(s, [step] + rest) == Final(Apply(s, step), rest)
  {
    assert ([step] + rest)[1..] == rest;
  }

  /** With the form at rest, a latch set or about to be set over an unexplaining buffer is all it takes. */
  lemma LatchIsSet(s: State) returns (steps: seq<Step>)
    requires s.connected && s.form.Idle? && (s.ended || Pending(s))
    ensures IsRun(s, steps)
    ensures var t := Final(s, steps); t.ended && t.output == s.output && t.connected && t.form.Idle?
  {
    if s.ended {
      steps := [];
    } else {
      var i: nat :| i < |s.threads| && Latches(s, i);
      RunCons(s, Thread(i), []);
      steps := [Thread(i)] + [];
    }
  }

  /** The statements of the form that finish what it is doing after a clear. */
  lemma FormFinishes(s: State) returns (steps: seq<Step>)
    requires s.connected && (s.form.Idle? || s.form.SendMessage? || s.form.PollRelease?)
    requires s.form.PollRelease? ==> Pending(s)
    requires !s.form.PollRelease? ==> s.ended || Pending(s)
    ensures IsRun(s, steps)
    ensures var t := Final(s, steps); t.ended && t.output == s.output && t.connected && t.form.Idle?
  {
    if s.form.Idle? {
      steps := LatchIsSet(s);
    } else {
      var t := Apply(s, Form(true));
      SamePending(s, t);
      var rest := LatchIsSet(t);
      RunCons(s, Form(true), rest);
      steps := [Form(true)] + rest;
    }
  }

  /** A step that clears the buffer. */
  predicate Clears(s: State, step: Step) {
    step.Form? && (s.form.PollClear? || s.form.PollClearLatched? || s.form.SendClear?)
  }

  /** An unsafe clear leads to a connection that is stuck. */
  lemma UnsafeClearSticks(s: State, step: Step) returns (steps: seq<Step>)
    requires Enabled(s, step) && !Safe(s, step) && Clears(s, step)
    ensures IsRun(Apply(s, step), steps) && Stuck(Final(Apply(s, step), steps))
  {
    SamePending(s, Apply(s, step));
    steps := FormFinishes(Apply(s, step));
  }

  /** An unsafe connection leads to a latch that nothing explains. */
  lemma UnsafeConnectGoesWrong(s: State) returns (steps: seq<Step>)
    requires Enabled(s, Connect) && !Safe(s, Connect)
    ensures IsRun(Apply(s, Connect), steps) && Unexplained(Final(Apply(s, Connect), steps))
  {
    var t := Apply(s, Connect);
    if i: nat :| i < |s.threads| && Latches(s, i) {
      assert Latches(t, i);
    }
    steps := LatchIsSet(t);
  }

  /**
   The condition is exact, for any number of threads and connections and every
   interleaving of their statements. From every state of a run that met it, a step can
   lead to a latch that no end code in the buffer explains if and only if the step does
   not meet it.
   */
  lemma LatchGoesWrongIffUnsafe(s: State, step: Step)
    requires LatchOk(s) && Enabled(s, step)
    ensures CanGoWrong(Apply(s, step)) <==> !Safe(s, step)
  {
    var t := Apply(s, step);
    if Safe(s, step) {
      StepKeepsLatch(s, step);
      forall steps: seq<Step> | IsRun(t, steps)
        ensures !Unexplained(Final(t, steps))
      {
        RunKeepsLatch(t, steps);
      }
    } else if step.Connect? {
      var steps := UnsafeConnectGoesWrong(s);
    } else {
      var steps := UnsafeClearSticks(s, step);
      EmptyHoldsNothing(Final(t, steps));
    }
  }

  /** In such a run every poll of a live connection that gets to its end leaves the latch released. */
  lemma FinishedPollReleases(s: State, ok: bool)
    requires s.connected && (s.form.PollClear? || s.form.PollRelease?) && Safe(s, Form(ok))
    ensures Enabled(s, Form(ok)) && !Apply(s, Form(ok)).ended && Apply(s, Form(ok)).form.Idle?
  {
  }

  /**
   One thread and one connection suffice: a packet with an end code is appended, a poll
   empties the buffer, and only then the latch is set.
   */
  function PollInBetween(text: Bytes): seq<Step> {
    [Packet(0, text), Thread(0), Thread(0), Poll, Form(true)]
  }

  lemma OneThreadSuffices(text: Bytes)
    requires Contains(text, END_CODE)
    ensures var s := State([], false, true, true, [Receiving], Idle);
            && IsRun(s, PollInBetween(text))
            && Final(s, PollInBetween(text)) == State(text, false, true, true, [Latching(text)], PollClear(text))
            && !Safe(Final(s, PollInBetween(text)), Form(true))
  {
    var s := State([], false, true, true, [Receiving], Idle);
    assert text != [];
    var s1 := State([], false, true, true, [Testing(text)], Idle);
    var s2 := State([], false, true, true, [Appending(text)], Idle);
    var s3 := State(text, false, true, true, [Latching(text)], Idle);
    var s4 := State(text, false, true, true, [Latching(text)], PollTest(text));
    var s5 := State(text, false, true, true, [Latching(text)], PollClear(text));
    assert [] + text == text;
    assert Latches(s5, 0);
    RunCons(s4, Form(true), []);
    RunCons(s3, Poll, [Form(true)]);
    RunCons(s2, Thread(0), [Poll, Form(true)]);
    RunCons(s1, Thread(0), [Thread(0), Poll, Form(true)]);
    RunCons(s, Packet(0, text), [Thread(0), Thread(0), Poll, Form(true)]);
    assert [Form(true)] + [] == [Form(true)] && [Poll] + [Form(true)] == [Poll, Form(true)];
    assert [Thread(0)] + [Poll, Form(true)] == [Thread(0), Poll, Form(true)];
    assert [Thread(0)] + [Thread(0), Poll, Form(true)] == [Thread(0), Thread(0), Poll, Form(true)];
    assert PollInBetween(text) == [Packet(0, text)] + [Thread(0), Thread(0), Poll, Form(true)];
  }

  // ---- what a poll misses ----

  /** The form has copied the buffer and not yet emptied it. */
  predicate Copied(pc: FormPc) { pc.PollTest? || pc.PollClear? || pc.PollClearLatched? }

  /** A stretch of a run during which it stays so. */
  predicate Copying(s: State, steps: seq<Step>)
    decreases |steps|
  {
    Copied(s.form) && (steps != [] ==> Enabled(s, steps[0]) && Copying(Apply(s, steps[0]), steps[1..]))
  }

  function After(s: State, steps: seq<Step>): State
    requires Copying(s, steps)
    decreases |steps|
  {
    if steps == [] then s else After(Apply(s, steps[0]), steps[1..])
  }

  /** What a thread appends in one step, and what threads append in such a stretch. */
  function AppendedBy(s: State, step: Step): Bytes
    requires Enabled(s, step)
  {
    if step.Thread? && s.threads[step.t].Appending? then s.threads[step.t].text else []
  }

  function Appended(s: State, steps: seq<Step>): Bytes
    requires Copying(s, steps)
    decreases |steps|
  {
    if steps == [] then [] else AppendedBy(s, steps[0]) + Appended(Apply(s, steps[0]), steps[1..])
  }

  lemma StepMisses(s: State, step: Step)
    requires Copied(s.form) && Enabled(s, step) && Copied(Apply(s, step).form)
    ensures Apply(s, step).form.copy == s.form.copy
    ensures Apply(s, step).output == s.output + AppendedBy(s, step)
  {
    assert s.output + [] == s.output;
  }

  /**
   A poll shows the buffer as it was when copied and then empties it: what is emptied
   unseen is exactly what was appended between the two, so a poll misses nothing if and
   only if nothing was.
   */
  lemma {:induction false} PollMissesWhatIsAppended(s: State, steps: seq<Step>)
    requires Copying(s, steps)
    ensures Copied(After(s, steps).form) && After(s, steps).form.copy == s.form.copy
    ensures After(s, steps).output == s.output + Appended(s, steps)
    decreases |steps|
  {
    if steps == [] {
      assert s.output + [] == s.output;
    } else {
      var t := Apply(s, steps[0]);
      StepMisses(s, steps[0]);
      PollMissesWhatIsAppended(t, steps[1..]);
      var now, later := AppendedBy(s, steps[0]), Appended(t, steps[1..]);
      assert s.output + now + later == s.output + (now + later);
    }
  }

  // ---- turns and actions in one piece ----

  /** How many receive threads are alive. */
  function Alive(threads: seq<ThreadPc>): nat {
    if threads == [] then 0
    else Alive(threads[..|threads| - 1]) + if threads[|threads| - 1].Ended? then 0 else 1
  }

  lemma {:induction false} AliveUpdate(threads: seq<ThreadPc>, i: nat, pc: ThreadPc)
    requires i < |threads|
    ensures Alive(threads[i := pc]) + (if threads[i].Ended? then 0 else 1)
         == Alive(threads) + if pc.Ended? then 0 else 1
  {
    var n := |threads| - 1;
    if i < n {
      assert threads[i := pc][..n] == threads[..n][i := pc];
      AliveUpdate(threads[..n], i, pc);
    } else {
      assert threads[i := pc][..n] == threads[..n];
    }
  }

  lemma {:induction false} SomeThreadReceives(threads: seq<ThreadPc>) returns (i: nat)
    requires Alive(threads) > 0 && AllAtRest(threads)
    ensures i < |threads| && threads[i].Receiving?
  {
    var n := |threads| - 1;
    if threads[n].Ended? {
      i := SomeThreadReceives(threads[..n]);
    } else {
      i := n;
    }
  }

  predicate AllAtRest(threads: seq<ThreadPc>) {
    forall i :: 0 <= i < |threads| ==> threads[i].Receiving? || threads[i].Ended?
  }

  /** Between two events of Client.dfy: nobody is in the middle of anything. */
  predicate AtRest(s: State, f: C.Form) {
    && s.output == f.conn.output && s.ended == f.conn.ended && s.connected == f.conn.connected
    && s.polling == f.polling && s.form.Idle?
    && AllAtRest(s.threads) && Alive(s.threads) == f.conn.threads
    && (f.conn.threads > 0 || f.conn.connected ==> f.conn.socket != 0)
  }

  predicate CanStep(s: State, steps: seq<Step>)
    decreases |steps|
  {
    steps == [] || (Enabled(s, steps[0]) && CanStep(Apply(s, steps[0]), steps[1..]))
  }

  function Ends(s: State, steps: seq<Step>): State
    requires CanStep(s, steps)
    decreases |steps|
  {
    if steps == [] then s else Ends(Apply(s, steps[0]), steps[1..])
  }

  lemma StepCons(s: State, step: Step, rest: seq<Step>)
    requires Enabled(s, step) && CanStep(Apply(s, step), rest)
    ensures CanStep(s, [step] + rest) && Ends(s, [step] + rest) == Ends(Apply(s, step), rest)
  {
    assert ([step] + rest)[1..] == rest;
  }

  /** A thread that is not interrupted goes through its turn. */
  lemma {:induction false} TurnRuns(s: State, i: nat) returns (steps: seq<Step>)
    requires i < |s.threads| && (s.threads[i].Testing? || s.threads[i].Appending? || s.threads[i].Latching?)
    ensures CanStep(s, steps)
    ensures var pc := s.threads[i]; var taken := !pc.Testing? || !(s.ended || pc.text == []);
            Ends(s, steps)
            == s.(threads := s.threads[i := Receiving],
                  output := if taken && !pc.Latching? then s.output + pc.text else s.output,
                  ended := if taken then Contains(pc.text, END_CODE) else s.ended)
    decreases if s.threads[i].Testing? then 2 else if s.threads[i].Appending? then 1 else 0
  {
    var t := Apply(s, Thread(i));
    var rest: seq<Step> := [];
    if t.threads[i].Receiving? {
      assert t == Ends(t, rest);
    } else {
      rest := TurnRuns(t, i);
    }
    assert t.threads[i := Receiving] == s.threads[i := Receiving];
    StepCons(s, Thread(i), rest);
    steps := [Thread(i)] + rest;
  }

  lemma HangUpRuns(s: State, i: nat) returns (steps: seq<Step>)
    requires i < |s.threads| && s.threads[i].Receiving?
    ensures CanStep(s, steps)
    ensures Ends(s, steps) == s.(threads := s.threads[i := Ended], connected := false, ended := false)
  {
    var s1 := Apply(s, Nothing(i));
    var s2 := Apply(s1, Thread(i));
    var s3 := Apply(s2, Thread(i));
    StepCons(s2, Thread(i), []);
    StepCons(s1, Thread(i), [Thread(i)] + []);
    StepCons(s, Nothing(i), [Thread(i)] + ([Thread(i)] + []));
    assert s3.threads == s.threads[i := Ended];
    steps := [Nothing(i)] + ([Thread(i)] + ([Thread(i)] + []));
  }

  /** How many statements the form still has before it. */
  function FormRank(pc: FormPc): nat {
    match pc
    case Idle => 0
    case PollTest(_) => 3
    case PollClear(_) => 1
    case PollClearLatched(_) => 2
    case PollRelease => 1
    case SendClear => 7
    case SendMessage => 6
    case LeaveClear => 5
    case LeaveTest => 4
    case LeaveClose => 3
    case LeaveRelease => 2
    case LeaveStop => 1
  }

  /** The form's thread, not interrupted, from where it is to its rest. */
  function FormDone(s: State, ok: bool): State
    decreases FormRank(s.form)
  {
    if s.form.Idle? then s else FormDone(FormMoved(s, ok), ok)
  }

  lemma {:induction false} FormRuns(s: State, ok: bool) returns (steps: seq<Step>)
    ensures CanStep(s, steps) && Ends(s, steps) == FormDone(s, ok)
    decreases FormRank(s.form)
  {
    if s.form.Idle? {
      steps := [];
    } else {
      var rest := FormRuns(Apply(s, Form(ok)), ok);
      StepCons(s, Form(ok), rest);
      steps := [Form(ok)] + rest;
    }
  }

  lemma FormStepRuns(s: State, step: Step, ok: bool) returns (steps: seq<Step>)
    requires Enabled(s, step)
    ensures CanStep(s, steps) && Ends(s, steps) == FormDone(Apply(s, step), ok)
  {
    var rest := FormRuns(Apply(s, step), ok);
    StepCons(s, step, rest);
    steps := [step] + rest;
  }

  lemma ArrivalIsARun(k: Aead, s: State, f: C.Form, e: C.Event) returns (steps: seq<Step>)
    requires C.HistoryInRange(f) && AtRest(s, f) && e.Arrives? && C.Possible(f, e)
    ensures CanStep(s, steps) && AtRest(Ends(s, steps), C.After(k, f, e))
  {
    var i := SomeThreadReceives(s.threads);
    var text := CStr(Memory(C.PACKET_SIZE, e.data, e.beyond));
    var t := Apply(s, Packet(i, text));
    var rest := TurnRuns(t, i);
    assert t.threads[i := Receiving] == s.threads;
    StepCons(s, Packet(i, text), rest);
    steps := [Packet(i, text)] + rest;
  }

  lemma LossIsARun(k: Aead, s: State, f: C.Form, e: C.Event) returns (steps: seq<Step>)
    requires C.HistoryInRange(f) && AtRest(s, f) && e.Lost? && C.Possible(f, e)
    ensures CanStep(s, steps) && AtRest(Ends(s, steps), C.After(k, f, e))
  {
    var i := SomeThreadReceives(s.threads);
    steps := HangUpRuns(s, i);
    AliveUpdate(s.threads, i, Ended);
  }

  lemma OneMoreThread(threads: seq<ThreadPc>)
    requires AllAtRest(threads)
    ensures AllAtRest(threads + [Receiving]) && Alive(threads + [Receiving]) == Alive(threads) + 1
  {
    assert (threads + [Receiving])[..|threads|] == threads;
  }

  lemma ConnectedIsAtRest(k: Aead, s: State, f: C.Form, socket: C.Descriptor)
    requires C.HistoryInRange(f) && AtRest(s, f) && !s.connected
    ensures AtRest(Apply(s, Connect), C.After(k, f, C.Connect(C.Reached(socket))))
  {
    OneMoreThread(s.threads);
  }

  /** A failed attempt changes the socket and nothing else. */
  lemma RefusedIsAtRest(k: Aead, s: State, f: C.Form, attempt: C.Attempt)
    requires C.HistoryInRange(f) && AtRest(s, f) && (s.connected || !attempt.Reached?)
    ensures AtRest(s, C.After(k, f, C.Connect(attempt)))
  {
  }

  lemma ConnectIsARun(k: Aead, s: State, f: C.Form, attempt: C.Attempt) returns (steps: seq<Step>)
    requires C.HistoryInRange(f) && AtRest(s, f)
    ensures CanStep(s, steps) && AtRest(Ends(s, steps), C.After(k, f, C.Connect(attempt)))
  {
    if !s.connected && attempt.Reached? {
      StepCons(s, Connect, []);
      steps := [Connect] + [];
      ConnectedIsAtRest(k, s, f, attempt.socket);
    } else {
      steps := [];
      RefusedIsAtRest(k, s, f, attempt);
    }
  }

  lemma PollIsARun(k: Aead, s: State, f: C.Form) returns (steps: seq<Step>)
    requires C.HistoryInRange(f) && AtRest(s, f) && C.Possible(f, C.Poll)
    ensures CanStep(s, steps) && AtRest(Ends(s, steps), C.Polled(k, f))
  {
    steps := FormStepRuns(s, Poll, true);
    FormLeaves(Apply(s, Poll), true);
  }

  /** What is left of a connection the form has left. */
  function Hushed(s: State): State {
    s.(output := [], connected := false, ended := if s.connected then false else s.ended, polling := false, form := Idle)
  }

  lemma FormLeaves(s: State, ok: bool)
    ensures s.form.LeaveClear? ==> FormDone(s, ok) == Hushed(s)
    ensures s.form.PollTest? ==> FormDone(s, ok) == s.(output := [], ended := false, form := Idle)
  {
    if s.form.LeaveClear? {
      var s2 := FormMoved(FormMoved(s, ok), ok);
      assert FormDone(s, ok) == FormDone(FormMoved(s, ok), ok) == FormDone(s2, ok);
      if s.connected {
        var s4 := FormMoved(FormMoved(s2, ok), ok);
        assert FormDone(s2, ok) == FormDone(FormMoved(s2, ok), ok) == FormDone(s4, ok);
        FormStops(s4, ok);
      } else {
        FormStops(s2, ok);
      }
    }
    if s.form.PollTest? {
      var s2 := FormMoved(FormMoved(s, ok), ok);
      assert FormDone(s, ok) == FormDone(FormMoved(s, ok), ok) == FormDone(s2, ok);
      if s.ended {
        FormStops(s2, ok);
      } else {
        assert FormDone(s2, ok) == s2;
      }
    }
  }

  lemma FormStops(s: State, ok: bool)
    requires s.form.LeaveStop? || s.form.PollRelease?
    ensures FormDone(s, ok) == FormMoved(s, ok)
  {
    assert FormMoved(s, ok).form.Idle?;
  }

  lemma SendIsARun(k: Aead, s: State, f: C.Form, accepted: bool) returns (steps: seq<Step>)
    requires C.HistoryInRange(f) && AtRest(s, f)
    ensures CanStep(s, steps) && AtRest(Ends(s, steps), C.Sent(k, f, accepted))
  {
    if s.connected && !s.ended {
      steps := FormStepRuns(s, Send, accepted);
      var s1 := FormMoved(Apply(s, Send), accepted);
      var s2 := FormMoved(s1, accepted);
      FormLeaves(s2, accepted);
      assert FormDone(Apply(s, Send), accepted) == FormDone(s1, accepted) == FormDone(s2, accepted);
    } else {
      steps := [];
    }
  }

  lemma LeaveIsARun(k: Aead, s: State, f: C.Form) returns (steps: seq<Step>)
    requires C.HistoryInRange(f) && AtRest(s, f) && s.connected
    ensures CanStep(s, steps) && AtRest(Ends(s, steps), C.Disconnected(k, f))
  {
    steps := FormStepRuns(s, Leave, true);
    FormLeaves(Apply(s, Leave), true);
  }

  /**
   Every event of Client.dfy is a run of these statements in which nobody is
   interrupted.
   */
  lemma EventIsARun(k: Aead, s: State, f: C.Form, e: C.Event) returns (steps: seq<Step>)
    requires C.HistoryInRange(f) && AtRest(s, f) && C.Possible(f, e)
    ensures CanStep(s, steps) && AtRest(Ends(s, steps), C.After(k, f, e))
  {
    match e {
      case Arrives(_, _) => steps := ArrivalIsARun(k, s, f, e);
      case Lost => steps := LossIsARun(k, s, f, e);
      case Poll => steps := PollIsARun(k, s, f);
      case Send(accepted) => steps := SendIsARun(k, s, f, accepted);
      case Cancel(accepted) =>
        if s.connected && !s.ended && !accepted {
          steps := LeaveIsARun(k, s, f.(conn := f.conn.(sent := f.conn.sent + [Encrypt(k, C.CANCEL_CODE)])));
        } else {
          steps := [];
        }
      case Disconnect =>
        if s.connected {
          steps := LeaveIsARun(k, s, f);
        } else {
          steps := [];
        }
      case Connect(attempt) => steps := ConnectIsARun(k, s, f, attempt);
      case _ => steps := [];
    }
  }
}

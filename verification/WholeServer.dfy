/**
 The whole server: the accept loop, every session and every console at once. As
 long as slot numbers are handed over, each slot behaves as if it were alone: what
 happens to it is a run of SlotLife, with at most one tenant at a time.
 */
module WholeServer {
  import opened Text
  import opened ServerTable
  import A = AcceptLoop
  import S = SlotLife
  import opened SlotSafety
  import opened SlotHandoff

  datatype World = World(table: A.State, slots: seq<S.Slot>)

  datatype Step =
    | Accepting(statement: A.Step)      // a statement of the accept loop
    | Read(k: nat, who: Bytes, directory: Bytes)  // session k learns its slot and starts to work it
    | Work(k: nat, step: S.Step)        // session k: a request, or its next statement
    | Console(i: nat, step: S.Step)     // a console of slot i, or its child
    | CountOut(k: nat)

  function Slots(n: nat): (r: seq<S.Slot>)
    ensures |r| == n && forall i :: 0 <= i < n ==> r[i] == S.Init()
  {
    seq(n, _ => S.Init())
  }

  function Init(maxClients: nat): World {
    World(A.Init(maxClients), Slots(maxClients + 1))
  }

  /** The slot session k works, once it has read its number. */
  predicate Bound(w: World, k: nat) {
    k < |w.table.sessions| && w.table.sessions[k].Live? && w.table.sessions[k].slot < |w.slots|
  }

  predicate Enabled(w: World, step: Step) {
    match step
    case Accepting(a) => (a.Skip? || a.Accept? || a.AcceptMove?) && A.Enabled(w.table, a)
    case Read(k, _, _) => A.Enabled(w.table, A.Read(k)) && w.table.current < |w.slots|
    case Work(k, s) =>
      && Bound(w, k) && (s.Receive? || s.Session?)
      && S.Enabled(w.slots[w.table.sessions[k].slot], s)
      && (Closes(w.slots[w.table.sessions[k].slot], s) ==> A.Enabled(w.table, A.Close(k)))
    case Console(i, s) =>
      i < |w.slots| && (s.Advance? || s.Emit? || s.ChildEnds?) && S.Enabled(w.slots[i], s)
    case CountOut(k) => A.Enabled(w.table, A.CountOut(k))
  }

  /** The statement that closes the session's socket. */
  predicate Closes(s: S.Slot, step: S.Step) { step.Session? && s.session.Closing? }

  /** The accept loop's reset of `exitCode`; nobody else's state changes. */
  function Cleared(w: World): seq<S.Slot> {
    var i := w.table.accept.i;
    if w.table.accept.ClearExit? && i < |w.slots| then
      w.slots[i := w.slots[i].(entry := w.slots[i].entry.(exitCode := 0))]
    else w.slots
  }

  /**
   A session that reads its number takes the slot. A slot has room for one session;
   that it is always free at this point is part of what is proved below.
   */
  function Taken(s: S.Slot, arrive: S.Step): S.Slot {
    if S.Enabled(s, arrive) then S.Apply(s, arrive) else s
  }

  function Apply(w: World, step: Step): World
    requires Enabled(w, step)
  {
    match step
    case Accepting(a) =>
      World(A.Apply(w.table, a), if a.AcceptMove? then Cleared(w) else w.slots)
    case Read(k, who, directory) =>
      World(A.Apply(w.table, A.Read(k)),
            w.slots[w.table.current := Taken(w.slots[w.table.current], S.Arrive(who, directory))])
    case Work(k, s) =>
      var i := w.table.sessions[k].slot;
      World(if Closes(w.slots[i], s) then A.Apply(w.table, A.Close(k)) else w.table,
            w.slots[i := S.Apply(w.slots[i], s)])
    case Console(i, s) => w.(slots := w.slots[i := S.Apply(w.slots[i], s)])
    case CountOut(k) => w.(table := A.Apply(w.table, A.CountOut(k)))
  }

  predicate HandedOff(w: World, step: Step) {
    step.Accepting? ==> A.HandedOff(w.table, step.statement)
  }

  predicate IsRun(w: World, steps: seq<Step>)
    decreases |steps|
  {
    steps == [] || (Enabled(w, steps[0]) && HandedOff(w, steps[0]) && IsRun(Apply(w, steps[0]), steps[1..]))
  }

  function Final(w: World, steps: seq<Step>): World
    requires IsRun(w, steps)
    decreases |steps|
  {
    if steps == [] then w else Final(Apply(w, steps[0]), steps[1..])
  }

  // ---- each slot on its own ----

  /** What a step of the server is to slot i. */
  function OwnStep(w: World, step: Step, i: nat): seq<S.Step>
    requires Enabled(w, step)
  {
    match step
    case Accepting(a) =>
      if a.AcceptMove? && w.table.accept.ClearExit? && w.table.accept.i == i then [S.AcceptClears] else []
    case Read(_, who, directory) => if w.table.current == i then [S.Arrive(who, directory)] else []
    case Work(k, s) => if w.table.sessions[k].slot == i then [s] else []
    case Console(j, s) => if j == i then [s] else []
    case CountOut(_) => []
  }

  /** What a run of the server is to slot i. */
  function Own(w: World, steps: seq<Step>, i: nat): seq<S.Step>
    requires IsRun(w, steps)
    decreases |steps|
  {
    if steps == [] then [] else OwnStep(w, steps[0], i) + Own(Apply(w, steps[0]), steps[1..], i)
  }

  /** Only the closing statement ends a tenancy. */
  lemma TenancyEndsOnlyByClosing(s: S.Slot, step: S.Step)
    requires S.Enabled(s, step) && !s.session.Away? && (step.Receive? || step.Session?)
    ensures S.Apply(s, step).session.Away? <==> Closes(s, step)
  {
  }

  lemma ConsoleKeepsSession(s: S.Slot, step: S.Step)
    requires S.Enabled(s, step) && (step.Advance? || step.Emit? || step.ChildEnds?)
    ensures S.Apply(s, step).session == s.session
  {
    if step.Advance? {
      AdvanceShape(s, step.c, step.n, step.pid);
    }
  }

  ghost predicate HasTenant(t: A.State, i: nat) {
    exists k: nat :: A.LiveOn(t, k, i)
  }

  /** A slot is in a session's hands exactly when a live session of the table is bound to it. */
  ghost predicate Tenancies(w: World) {
    forall i: nat :: i < |w.slots| ==> (!w.slots[i].session.Away? <==> HasTenant(w.table, i))
  }

  ghost predicate Matched(w: World) {
    && |w.slots| == |w.table.clients|
    && A.Inv(w.table)
    && Tenancies(w)
  }

  /** A session about to read its number finds the slot free. */
  lemma NumberReadIsFree(w: World, k: nat)
    requires Matched(w) && A.Enabled(w.table, A.Read(k)) && w.table.current < |w.slots|
    ensures w.slots[w.table.current].session.Away?
  {
    var i := w.table.current;
    assert A.Owns(w.table, k, i);
    if HasTenant(w.table, i) {
      var m: nat :| A.LiveOn(w.table, m, i);
      assert A.Owns(w.table, m, i);
    }
  }

  lemma ReadMatched(w: World, k: nat, who: Bytes, directory: Bytes)
    requires Matched(w) && Enabled(w, Read(k, who, directory))
    ensures Matched(Apply(w, Read(k, who, directory)))
  {
    var v, i := Apply(w, Read(k, who, directory)), w.table.current;
    NumberReadIsFree(w, k);
    A.StepKeepsInv(w.table, A.Read(k));
    assert A.LiveOn(v.table, k, i);
    forall j: nat | j < |w.slots|
      ensures !v.slots[j].session.Away? <==> HasTenant(v.table, j)
    {
      if j != i {
        SameTenants(w.table, v.table, k, j);
      }
    }
  }

  /** Changing one session leaves the tenants of every slot it was not and is not bound to. */
  lemma SameTenants(s: A.State, t: A.State, k: nat, j: nat)
    requires |t.sessions| == |s.sessions|
    requires forall m :: 0 <= m < |s.sessions| && m != k ==> t.sessions[m] == s.sessions[m]
    requires !A.LiveOn(s, k, j) && !A.LiveOn(t, k, j)
    ensures HasTenant(s, j) <==> HasTenant(t, j)
  {
    if HasTenant(s, j) {
      var m: nat :| A.LiveOn(s, m, j);
      assert A.LiveOn(t, m, j);
    }
    if HasTenant(t, j) {
      var m: nat :| A.LiveOn(t, m, j);
      assert A.LiveOn(s, m, j);
    }
  }

  lemma WorkMatched(w: World, k: nat, step: S.Step)
    requires Matched(w) && Enabled(w, Work(k, step))
    ensures Matched(Apply(w, Work(k, step)))
  {
    var v := Apply(w, Work(k, step));
    var i := w.table.sessions[k].slot;
    assert A.LiveOn(w.table, k, i);
    TenancyEndsOnlyByClosing(w.slots[i], step);
    if Closes(w.slots[i], step) {
      A.StepKeepsInv(w.table, A.Close(k));
      forall j: nat | j < |w.slots|
        ensures !v.slots[j].session.Away? <==> HasTenant(v.table, j)
      {
        if j != i {
          SameTenants(w.table, v.table, k, j);
        } else {
          ClosedHasNoTenant(w.table, k, i);
        }
      }
    }
  }

  lemma ClosedHasNoTenant(s: A.State, k: nat, i: nat)
    requires A.Inv(s) && A.LiveOn(s, k, i) && A.Enabled(s, A.Close(k))
    ensures !HasTenant(A.Apply(s, A.Close(k)), i)
  {
    var t := A.Apply(s, A.Close(k));
    if HasTenant(t, i) {
      var m: nat :| A.LiveOn(t, m, i);
      assert A.Owns(s, m, i) && A.Owns(s, k, i);
    }
  }

  lemma AcceptingMatched(w: World, a: A.Step)
    requires Matched(w) && Enabled(w, Accepting(a)) && HandedOff(w, Accepting(a))
    ensures Matched(Apply(w, Accepting(a)))
  {
    var v := Apply(w, Accepting(a));
    A.StepKeepsInv(w.table, a);
    if a.AcceptMove? && w.table.accept.ClearExit? {
      ClearFindsSlotFree(w.table, w.table.accept.i);
    }
    forall j: nat | j < |w.slots|
      ensures HasTenant(v.table, j) <==> HasTenant(w.table, j)
    {
      AcceptingKeepsTenants(w.table, a, j);
    }
  }

  lemma ClearFindsSlotFree(s: A.State, i: nat)
    requires A.Inv(s) && A.Holds(s.accept, i)
    ensures !HasTenant(s, i)
  {
    if HasTenant(s, i) {
      var m: nat :| A.LiveOn(s, m, i);
      assert A.Owns(s, m, i);
    }
  }

  lemma AcceptingKeepsTenants(s: A.State, a: A.Step, j: nat)
    requires A.Enabled(s, a) && (a.Skip? || a.Accept? || a.AcceptMove?)
    ensures HasTenant(A.Apply(s, a), j) <==> HasTenant(s, j)
  {
    var t := A.Apply(s, a);
    if HasTenant(s, j) {
      var m: nat :| A.LiveOn(s, m, j);
      assert A.LiveOn(t, m, j);
    }
    if HasTenant(t, j) {
      var m: nat :| A.LiveOn(t, m, j);
      assert A.LiveOn(s, m, j);
    }
  }

  lemma ConsoleMatched(w: World, i: nat, step: S.Step)
    requires Matched(w) && Enabled(w, Console(i, step))
    ensures Matched(Apply(w, Console(i, step)))
  {
    ConsoleKeepsSession(w.slots[i], step);
  }

  lemma CountOutMatched(w: World, k: nat)
    requires Matched(w) && Enabled(w, CountOut(k))
    ensures Matched(Apply(w, CountOut(k)))
  {
    var v := Apply(w, CountOut(k));
    A.StepKeepsInv(w.table, A.CountOut(k));
    forall j: nat | j < |w.slots|
      ensures HasTenant(v.table, j) <==> HasTenant(w.table, j)
    {
      SameTenants(w.table, v.table, k, j);
    }
  }

  lemma StepMatched(w: World, step: Step)
    requires Matched(w) && Enabled(w, step) && HandedOff(w, step)
    ensures Matched(Apply(w, step))
  {
    match step {
      case Accepting(a) => AcceptingMatched(w, a);
      case Read(k, who, directory) => ReadMatched(w, k, who, directory);
      case Work(k, s) => WorkMatched(w, k, s);
      case Console(i, s) => ConsoleMatched(w, i, s);
      case CountOut(k) => CountOutMatched(w, k);
    }
  }

  lemma InitMatched(maxClients: nat)
    ensures Matched(Init(maxClients))
  {
    A.InitHolds(maxClients);
  }

  lemma {:induction false} RunMatched(w: World, steps: seq<Step>)
    requires Matched(w) && IsRun(w, steps)
    ensures Matched(Final(w, steps))
    decreases |steps|
  {
    if steps != [] {
      StepMatched(w, steps[0]);
      RunMatched(Apply(w, steps[0]), steps[1..]);
    }
  }

  /** To each slot a step of the server is one step of its own, or none. */
  lemma StepIsOwn(w: World, step: Step, i: nat)
    requires Matched(w) && Enabled(w, step) && i < |w.slots| == |Apply(w, step).slots|
    ensures S.IsRun(w.slots[i], OwnStep(w, step, i))
    ensures S.Final(w.slots[i], OwnStep(w, step, i)) == Apply(w, step).slots[i]
  {
    var own := OwnStep(w, step, i);
    if step.Accepting? && own != [] {
      ClearFindsSlotFree(w.table, i);
    }
    if step.Read? && own != [] {
      NumberReadIsFree(w, step.k);
    }
    if own != [] {
      S.RunCons(w.slots[i], own[0], []);
      assert own == [own[0]] + [];
    }
  }

  /**
   Every run of the whole server in which slot numbers are handed over takes each
   slot through its own part of that run, which is a run of the slot alone: the other
   slots, the accept loop and the order in which clients come and go cannot be seen
   from inside it.
   */
  lemma {:induction false} EverySlotRunsAlone(w: World, steps: seq<Step>, i: nat)
    requires Matched(w) && IsRun(w, steps) && i < |w.slots|
    ensures |Final(w, steps).slots| == |w.slots|
    ensures S.IsRun(w.slots[i], Own(w, steps, i))
    ensures S.Final(w.slots[i], Own(w, steps, i)) == Final(w, steps).slots[i]
    decreases |steps|
  {
    if steps != [] {
      var v := Apply(w, steps[0]);
      StepMatched(w, steps[0]);
      StepIsOwn(w, steps[0], i);
      EverySlotRunsAlone(v, steps[1..], i);
      S.RunAppend(w.slots[i], OwnStep(w, steps[0], i), Own(v, steps[1..], i));
    }
  }

  /** The slot i of a run from the start. */
  function SlotAfter(maxClients: nat, steps: seq<Step>, i: nat): S.Slot
    requires IsRun(Init(maxClients), steps) && i <= maxClients
  {
    InitMatched(maxClients);
    EverySlotRunsAlone(Init(maxClients), steps, i);
    Final(Init(maxClients), steps).slots[i]
  }

  /** So the guarantees for one slot hold for every slot of the running server. */
  lemma EverySlotIsSafe(maxClients: nat, steps: seq<Step>, i: nat)
    requires IsRun(Init(maxClients), steps) && i <= maxClients
    ensures var s := SlotAfter(maxClients, steps, i);
            && (forall c, d :: Working(s, c) && Working(s, d) ==> c == d)
            && ((exists c :: Working(s, c)) ==> s.entry.pipeActive)
            && EndCount(s.history.sent) <= s.history.begun
            && Subsequence(NonEmpty(s.history.mail.written), Offered(s.history.mail.submitted))
  {
    InitMatched(maxClients);
    EverySlotRunsAlone(Init(maxClients), steps, i);
    var own := Own(Init(maxClients), steps, i);
    InputIsASubsequence(own);
    EveryCommandGetsOneEnd(own);
    var s := SlotAfter(maxClients, steps, i);
    forall c: nat, d: nat | Working(s, c) && Working(s, d)
      ensures c == d && s.entry.pipeActive
    {
      AtMostOneConsole(own, c, d);
    }
    if c :| Working(s, c) {
      AtMostOneConsole(own, c, c);
    }
  }
}

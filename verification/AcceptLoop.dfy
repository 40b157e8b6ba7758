/**
 The accept loop and the sessions it starts, as far as they share the descriptor
 table, the client count and the one variable through which a new session learns
 its slot. Any number of sessions, any interleaving of their statements.
 */
module AcceptLoop {
  import opened ServerTable

  /** The statement the accept loop is at (main.cpp:115-135); `i` is its loop counter. */
  datatype AcceptPc =
    | Scan(i: nat)          // test the entry, or go round
    | Undo(i: nat)          // accept failed: free the entry and start over
    | ClearExit(i: nat)     // exitCode = 0
    | CountIn(i: nat)       // numClients + 1
    | Publish(i: nat)       // currentClientSocket = i
    | Spawn(i: nat)         // pthread_create

  /** A session thread: created, bound to the slot it read, socket closed, counted out. */
  datatype SessionPc = Unread | Live(slot: nat) | Closed(slot: nat) | Gone

  datatype State = State(
    clients: seq<int>,
    numClients: ushort,
    current: nat,
    accept: AcceptPc,
    sessions: seq<SessionPc>)

  datatype Step =
    | Skip                  // the accept loop moves past an entry in use, or to the next sweep
    | Accept(fd: int)       // `accept` returns a descriptor that is not in use, or -1
    | AcceptMove            // any later statement of the accept loop
    | Read(k: nat)          // session k reads currentClientSocket
    | Close(k: nat)         // session k: CloseSocket
    | CountOut(k: nat)      // session k: numClients - 1

  function Init(maxClients: nat): State {
    State(AllFree(maxClients + 1), 0, 0, Scan(0), [])
  }

  predicate Enabled(s: State, step: Step) {
    match step
    case Skip => s.accept.Scan? && (s.accept.i < |s.clients| ==> Occupied(s.clients[s.accept.i]))
    case Accept(fd) =>
      && s.accept.Scan? && s.accept.i < |s.clients| && !Occupied(s.clients[s.accept.i])
      && (fd == -1 || (fd > 0 && fd !in s.clients))
    case AcceptMove => !s.accept.Scan? && s.accept.i < |s.clients|
    case Read(k) => k < |s.sessions| && s.sessions[k] == Unread
    case Close(k) => k < |s.sessions| && s.sessions[k].Live? && s.sessions[k].slot < |s.clients|
    case CountOut(k) => k < |s.sessions| && s.sessions[k].Closed?
  }

  function Apply(s: State, step: Step): State
    requires Enabled(s, step)
  {
    match step
    case Skip => s.(accept := Scan(if s.accept.i < |s.clients| then s.accept.i + 1 else 0))
    case Accept(fd) =>
      var i := s.accept.i;
      s.(clients := s.clients[i := fd], accept := if fd == -1 then Undo(i) else ClearExit(i))
    case AcceptMove => AcceptMoved(s)
    case Read(k) => s.(sessions := s.sessions[k := Live(s.current)])
    case Close(k) =>
      s.(clients := s.clients[s.sessions[k].slot := 0], sessions := s.sessions[k := Closed(s.sessions[k].slot)])
    case CountOut(k) =>
      s.(numClients := Down(s.numClients), sessions := s.sessions[k := Gone])
  }

  function AcceptMoved(s: State): State
    requires Enabled(s, AcceptMove)
  {
    match s.accept
    case Undo(i) => s.(clients := s.clients[i := 0], accept := Scan(0))
    case ClearExit(i) => s.(accept := CountIn(i))
    case CountIn(i) => s.(numClients := Up(s.numClients), accept := Publish(i))
    case Publish(i) => s.(current := i, accept := Spawn(i))
    case Spawn(i) => s.(sessions := s.sessions + [Unread], accept := Scan(i + 1))
    case Scan(_) => s
  }

  /** The condition on schedules: a slot number is only overwritten once it has been read. */
  predicate HandedOff(s: State, step: Step) {
    step == AcceptMove && s.accept.Publish? ==> Unread !in s.sessions
  }

  /** A run: every step is possible where it is taken and, if `handedOff`, obeys the condition. */
  predicate IsRun(s: State, steps: seq<Step>, handedOff: bool)
    decreases |steps|
  {
    || steps == []
    || (&& Enabled(s, steps[0])
        && (handedOff ==> HandedOff(s, steps[0]))
        && IsRun(Apply(s, steps[0]), steps[1..], handedOff))
  }

  function Final(s: State, steps: seq<Step>, handedOff: bool): State
    requires IsRun(s, steps, handedOff)
    decreases |steps|
  {
    if steps == [] then s else Final(Apply(s, steps[0]), steps[1..], handedOff)
  }

  // ---- the invariant ----

  /** The accept loop holds entry `i`: filled, and its session not yet created. */
  predicate Holds(a: AcceptPc, i: nat) { !a.Scan? && a.i == i }

  predicate AcceptLoopOk(s: State) {
    && (s.accept.Scan? ==> s.accept.i <= |s.clients|)
    && (!s.accept.Scan? ==> s.accept.i < |s.clients|)
    && (s.accept.Undo? ==> s.clients[s.accept.i] == -1)
    && (!s.accept.Scan? && !s.accept.Undo? ==> s.clients[s.accept.i] > 0)
    && (s.accept.Spawn? ==> s.current == s.accept.i && Unread !in s.sessions)
    && forall i :: 0 <= i < |s.clients| ==>
         s.clients[i] >= 0 || (s.accept == Undo(i) && s.clients[i] == -1)
  }

  /** A session, live or about to read, owns the slot `i`. */
  predicate Owns(s: State, k: nat, i: nat)
    requires k < |s.sessions|
  {
    s.sessions[k] == Live(i) || (s.sessions[k] == Unread && s.current == i)
  }

  /** Owners own slots that are occupied and that the accept loop has let go. */
  ghost predicate OwnersOk(s: State) {
    forall k, i: nat {:trigger Owns(s, k, i)} :: 0 <= k < |s.sessions| && Owns(s, k, i) ==>
      i < |s.clients| && s.clients[i] > 0 && !Holds(s.accept, i)
  }

  /** No two sessions own the same slot. */
  ghost predicate Exclusive(s: State) {
    forall k, m, i: nat {:trigger Owns(s, k, i), Owns(s, m, i)} ::
      0 <= k < |s.sessions| && 0 <= m < |s.sessions| && Owns(s, k, i) && Owns(s, m, i) ==> k == m
  }

  predicate HasOwner(s: State, i: nat) {
    exists k :: 0 <= k < |s.sessions| && Owns(s, k, i)
  }

  /** Every occupied slot is in the hands of the accept loop or of a session. */
  ghost predicate Accounted(s: State) {
    forall i: nat :: i < |s.clients| && Occupied(s.clients[i]) ==> Holds(s.accept, i) || HasOwner(s, i)
  }

  function ClosingCount(sessions: seq<SessionPc>): nat {
    if sessions == [] then 0
    else ClosingCount(sessions[..|sessions| - 1]) + if sessions[|sessions| - 1].Closed? then 1 else 0
  }

  function Uncounted(a: AcceptPc): nat { if a.Undo? || a.ClearExit? || a.CountIn? then 1 else 0 }

  /** The count: occupied slots, less the one not yet counted in, plus those not yet counted out. */
  predicate CountOk(s: State) {
    && Uncounted(s.accept) <= OccupiedCount(s.clients)
    && s.numClients == Wrap(OccupiedCount(s.clients) - Uncounted(s.accept) + ClosingCount(s.sessions))
  }

  ghost predicate Inv(s: State) {
    AcceptLoopOk(s) && OwnersOk(s) && Exclusive(s) && Accounted(s) && CountOk(s)
  }

  lemma {:induction false} ClosingUpdate(sessions: seq<SessionPc>, k: nat, pc: SessionPc)
    requires k < |sessions|
    ensures ClosingCount(sessions[k := pc]) + (if sessions[k].Closed? then 1 else 0)
         == ClosingCount(sessions) + if pc.Closed? then 1 else 0
  {
    var n := |sessions| - 1;
    if k < n {
      assert sessions[k := pc][..n] == sessions[..n][k := pc];
      ClosingUpdate(sessions[..n], k, pc);
    } else {
      assert sessions[k := pc][..n] == sessions[..n];
    }
  }

  lemma EmptyTableHolds(clients: seq<int>)
    requires OccupiedCount(clients) == 0 && forall i :: 0 <= i < |clients| ==> clients[i] == 0
    ensures Inv(State(clients, 0, 0, Scan(0), []))
  {
  }

  lemma InitHolds(maxClients: nat)
    ensures Inv(Init(maxClients))
  {
    EmptyTableHolds(AllFree(maxClients + 1));
  }

  /** With the same sessions and the same published number, ownership is the same. */
  lemma SameOwners(s: State, t: State)
    requires t.sessions == s.sessions && (t.current == s.current || Unread !in s.sessions)
    ensures forall k, i: nat {:trigger Owns(t, k, i)} {:trigger Owns(s, k, i)} ::
              0 <= k < |s.sessions| ==> (Owns(t, k, i) <==> Owns(s, k, i))
    ensures forall i: nat {:trigger HasOwner(t, i)} {:trigger HasOwner(s, i)} :: HasOwner(s, i) <==> HasOwner(t, i)
  {
    forall k, i: nat | 0 <= k < |s.sessions|
      ensures Owns(t, k, i) <==> Owns(s, k, i)
    {
      assert s.sessions[k] in s.sessions;
    }
    forall i: nat
      ensures HasOwner(s, i) <==> HasOwner(t, i)
    {
      if k :| 0 <= k < |s.sessions| && Owns(s, k, i) {
        assert Owns(t, k, i);
      }
      if k :| 0 <= k < |s.sessions| && Owns(t, k, i) {
        assert Owns(s, k, i);
      }
    }
  }

  lemma SkipKeeps(s: State)
    requires Inv(s) && Enabled(s, Skip)
    ensures Inv(Apply(s, Skip))
  {
    SameOwners(s, Apply(s, Skip));
  }

  lemma AcceptKeeps(s: State, fd: int)
    requires Inv(s) && Enabled(s, Accept(fd))
    ensures Inv(Apply(s, Accept(fd)))
  {
    CountUpdate(s.clients, s.accept.i, fd);
    SameOwners(s, Apply(s, Accept(fd)));
  }

  /** The new session owns the slot just published; the others own what they owned. */
  lemma SpawnOwners(s: State)
    requires s.accept.Spawn? && s.current == s.accept.i < |s.clients|
    ensures var t := AcceptMoved(s);
            && (forall k, j: nat {:trigger Owns(t, k, j)} :: 0 <= k < |s.sessions| ==> (Owns(t, k, j) <==> Owns(s, k, j)))
            && (forall j: nat {:trigger Owns(t, |s.sessions|, j)} :: Owns(t, |s.sessions|, j) <==> j == s.accept.i)
            && (forall j: nat {:trigger HasOwner(t, j)} :: HasOwner(s, j) || j == s.accept.i ==> HasOwner(t, j))
  {
    var t, n := AcceptMoved(s), |s.sessions|;
    forall j: nat | HasOwner(s, j) || j == s.accept.i
      ensures HasOwner(t, j)
    {
      if j == s.accept.i {
        assert Owns(t, n, j);
      } else {
        var k :| 0 <= k < n && Owns(s, k, j);
        assert Owns(t, k, j);
      }
    }
  }

  lemma ClosingAppend(sessions: seq<SessionPc>)
    ensures ClosingCount(sessions + [Unread]) == ClosingCount(sessions)
  {
    assert (sessions + [Unread])[..|sessions|] == sessions;
  }

  /** What the count depends on. */
  lemma CountCarries(s: State, t: State)
    requires CountOk(s) && t.clients == s.clients && t.numClients == s.numClients
    requires Uncounted(t.accept) == Uncounted(s.accept)
    requires ClosingCount(t.sessions) == ClosingCount(s.sessions)
    ensures CountOk(t)
  {
  }

  lemma SpawnExclusive(s: State)
    requires AcceptLoopOk(s) && OwnersOk(s) && Exclusive(s) && s.accept.Spawn?
    ensures Exclusive(AcceptMoved(s)) && OwnersOk(AcceptMoved(s))
  {
    SpawnOwners(s);
    var t, n := AcceptMoved(s), |s.sessions|;
    assert forall k :: 0 <= k < n ==> !Owns(s, k, s.accept.i);
    assert OwnersOk(t);
    assert Exclusive(t);
  }

  lemma SpawnAccounted(s: State)
    requires AcceptLoopOk(s) && Accounted(s) && s.accept.Spawn?
    ensures Accounted(AcceptMoved(s))
  {
    SpawnOwners(s);
  }

  lemma SpawnAcceptOk(s: State)
    requires AcceptLoopOk(s) && s.accept.Spawn?
    ensures AcceptLoopOk(AcceptMoved(s))
  {
  }

  lemma SpawnCounts(s: State)
    requires CountOk(s) && s.accept.Spawn? && s.accept.i < |s.clients|
    ensures CountOk(AcceptMoved(s))
  {
    ClosingAppend(s.sessions);
    CountCarries(s, AcceptMoved(s));
  }

  lemma InvHolds(s: State)
    requires AcceptLoopOk(s) && OwnersOk(s) && Exclusive(s) && Accounted(s) && CountOk(s)
    ensures Inv(s)
  {
  }

  lemma SpawnKeeps(s: State)
    requires Inv(s) && s.accept.Spawn?
    ensures Inv(AcceptMoved(s))
  {
    SpawnExclusive(s);
    SpawnAccounted(s);
    SpawnAcceptOk(s);
    SpawnCounts(s);
    InvHolds(AcceptMoved(s));
  }

  lemma UndoKeeps(s: State)
    requires Inv(s) && s.accept.Undo?
    ensures Inv(AcceptMoved(s))
  {
    SameOwners(s, AcceptMoved(s));
    CountUpdate(s.clients, s.accept.i, 0);
  }

  lemma CountInKeeps(s: State)
    requires Inv(s) && s.accept.CountIn?
    ensures Inv(AcceptMoved(s))
  {
    SameOwners(s, AcceptMoved(s));
    UpWraps(OccupiedCount(s.clients) - 1 + ClosingCount(s.sessions));
  }

  lemma PublishKeeps(s: State)
    requires Inv(s) && s.accept.Publish? && Unread !in s.sessions
    ensures Inv(AcceptMoved(s))
  {
    SameOwners(s, AcceptMoved(s));
  }

  lemma ClearExitKeeps(s: State)
    requires Inv(s) && s.accept.ClearExit?
    ensures Inv(AcceptMoved(s))
  {
    SameOwners(s, AcceptMoved(s));
  }

  lemma AcceptMoveKeeps(s: State)
    requires Inv(s) && Enabled(s, AcceptMove) && HandedOff(s, AcceptMove)
    ensures Inv(AcceptMoved(s))
  {
    match s.accept {
      case Undo(_) => UndoKeeps(s);
      case ClearExit(_) => ClearExitKeeps(s);
      case CountIn(_) => CountInKeeps(s);
      case Publish(_) => PublishKeeps(s);
      case Spawn(_) => SpawnKeeps(s);
    }
  }

  lemma ReadKeeps(s: State, k: nat)
    requires Inv(s) && Enabled(s, Read(k))
    ensures Inv(Apply(s, Read(k)))
  {
    var t := Apply(s, Read(k));
    ClosingUpdate(s.sessions, k, Live(s.current));
    assert Owns(s, k, s.current);
    assert forall m, j: nat :: 0 <= m < |s.sessions| ==> (Owns(t, m, j) <==> Owns(s, m, j));
    assert forall j: nat :: HasOwner(s, j) ==> HasOwner(t, j);
  }

  lemma CloseCounts(s: State, k: nat)
    requires Inv(s) && Enabled(s, Close(k))
    ensures CountOk(Apply(s, Close(k)))
  {
    var slot := s.sessions[k].slot;
    ClosingUpdate(s.sessions, k, Closed(slot));
    CountUpdate(s.clients, slot, 0);
    CountBound(s.clients[slot := 0]);
    assert Owns(s, k, slot);
    if !s.accept.Scan? {
      assert Occupied(s.clients[slot := 0][s.accept.i]);
    }
  }

  lemma CloseKeeps(s: State, k: nat)
    requires Inv(s) && Enabled(s, Close(k))
    ensures Inv(Apply(s, Close(k)))
  {
    var t := Apply(s, Close(k));
    var slot := s.sessions[k].slot;
    CloseCounts(s, k);
    assert Owns(s, k, slot);
    assert forall m, j: nat :: 0 <= m < |s.sessions| && m != k ==> (Owns(t, m, j) <==> Owns(s, m, j));
    assert forall j: nat :: !Owns(t, k, j);
    forall j: nat | HasOwner(s, j) && j != slot
      ensures HasOwner(t, j)
    {
      var m :| 0 <= m < |s.sessions| && Owns(s, m, j);
      assert Owns(t, m, j);
    }
  }

  lemma ClosingPositive(sessions: seq<SessionPc>, k: nat)
    requires k < |sessions| && sessions[k].Closed?
    ensures ClosingCount(sessions) > 0
  {
    ClosingUpdate(sessions, k, Gone);
  }

  lemma CountOutCounts(s: State, k: nat)
    requires CountOk(s) && Enabled(s, CountOut(k))
    ensures CountOk(Apply(s, CountOut(k)))
  {
    ClosingUpdate(s.sessions, k, Gone);
    ClosingPositive(s.sessions, k);
    UpWraps(OccupiedCount(s.clients) - Uncounted(s.accept) + ClosingCount(s.sessions) - 1);
  }

  lemma CountOutKeeps(s: State, k: nat)
    requires Inv(s) && Enabled(s, CountOut(k))
    ensures Inv(Apply(s, CountOut(k)))
  {
    var t := Apply(s, CountOut(k));
    CountOutCounts(s, k);
    assert forall m, j: nat :: 0 <= m < |s.sessions| ==> (Owns(t, m, j) <==> Owns(s, m, j));
    forall j: nat | HasOwner(s, j)
      ensures HasOwner(t, j)
    {
      var m :| 0 <= m < |s.sessions| && Owns(s, m, j);
      assert Owns(t, m, j);
    }
    assert AcceptLoopOk(t);
  }

  lemma StepKeepsInv(s: State, step: Step)
    requires Inv(s) && Enabled(s, step) && HandedOff(s, step)
    ensures Inv(Apply(s, step))
  {
    match step {
      case Skip => SkipKeeps(s);
      case Accept(fd) => AcceptKeeps(s, fd);
      case AcceptMove => AcceptMoveKeeps(s);
      case Read(k) => ReadKeeps(s, k);
      case Close(k) => CloseKeeps(s, k);
      case CountOut(k) => CountOutKeeps(s, k);
    }
  }

  lemma {:induction false} RunKeepsInv(s: State, steps: seq<Step>)
    requires Inv(s) && IsRun(s, steps, true)
    ensures Inv(Final(s, steps, true))
    decreases |steps|
  {
    if steps != [] {
      StepKeepsInv(s, steps[0]);
      RunKeepsInv(Apply(s, steps[0]), steps[1..]);
    }
  }

  // ---- what the invariant says ----

  /** The session `k` is live and holds slot `i`. */
  predicate LiveOn(s: State, k: nat, i: nat) { k < |s.sessions| && s.sessions[k] == Live(i) }

  /** In every run in which slot numbers are handed over, no two live sessions share a slot. */
  lemma NoSharedSlot(maxClients: nat, steps: seq<Step>, k: nat, m: nat, i: nat)
    requires IsRun(Init(maxClients), steps, true)
    requires LiveOn(Final(Init(maxClients), steps, true), k, i)
    requires LiveOn(Final(Init(maxClients), steps, true), m, i)
    ensures k == m
  {
    InitHolds(maxClients);
    RunKeepsInv(Init(maxClients), steps);
    var s := Final(Init(maxClients), steps, true);
    assert Owns(s, k, i) && Owns(s, m, i);
  }

  /** Every occupied slot that the accept loop has let go has exactly one session. */
  lemma OccupiedHasOneSession(maxClients: nat, steps: seq<Step>, i: nat) returns (k: nat)
    requires IsRun(Init(maxClients), steps, true)
    requires var s := Final(Init(maxClients), steps, true);
             i < |s.clients| && Occupied(s.clients[i]) && !Holds(s.accept, i)
    ensures var s := Final(Init(maxClients), steps, true);
            && k < |s.sessions| && Owns(s, k, i)
            && forall m :: 0 <= m < |s.sessions| && Owns(s, m, i) ==> m == k
  {
    InitHolds(maxClients);
    RunKeepsInv(Init(maxClients), steps);
    var s := Final(Init(maxClients), steps, true);
    assert HasOwner(s, i);
    k :| 0 <= k < |s.sessions| && Owns(s, k, i);
  }

  /** A live session keeps its slot and its descriptor through every step but its own close. */
  lemma DescriptorUnchanged(s: State, step: Step, k: nat, i: nat)
    requires Inv(s) && Enabled(s, step) && HandedOff(s, step)
    requires LiveOn(s, k, i) && step != Close(k)
    ensures LiveOn(Apply(s, step), k, i)
    ensures i < |s.clients| && Apply(s, step).clients[i] == s.clients[i] > 0
  {
    assert Owns(s, k, i);
    if step.Close? {
      assert Owns(s, step.k, s.sessions[step.k].slot);
    }
  }

  /** Over any such run in which a live session does not close it, slot and descriptor stay the session's. */
  lemma {:induction false} DescriptorKept(s: State, steps: seq<Step>, k: nat, i: nat)
    requires Inv(s) && IsRun(s, steps, true)
    requires LiveOn(s, k, i) && Close(k) !in steps
    ensures LiveOn(Final(s, steps, true), k, i)
    ensures i < |s.clients| && i < |Final(s, steps, true).clients|
    ensures Final(s, steps, true).clients[i] == s.clients[i]
    decreases |steps|
  {
    assert Owns(s, k, i);
    if steps != [] {
      StepKeepsInv(s, steps[0]);
      DescriptorUnchanged(s, steps[0], k, i);
      DescriptorKept(Apply(s, steps[0]), steps[1..], k, i);
    }
  }

  /** No two slots hold the same descriptor. */
  predicate Unshared(clients: seq<int>) {
    forall i, j :: 0 <= i < |clients| && 0 <= j < |clients| && clients[i] == clients[j] > 0 ==> i == j
  }

  lemma UnsharedKept(s: State, step: Step)
    requires Unshared(s.clients) && Enabled(s, step)
    ensures Unshared(Apply(s, step).clients)
  {
    if step.Accept? && step.fd > 0 {
      forall i | 0 <= i < |s.clients|
        ensures s.clients[i] != step.fd
      {
        assert s.clients[i] in s.clients;
      }
    }
  }

  /** The client count, at every moment of every such run. */
  lemma CountAtAllTimes(maxClients: nat, steps: seq<Step>)
    requires IsRun(Init(maxClients), steps, true)
    ensures CountOk(Final(Init(maxClients), steps, true))
  {
    InitHolds(maxClients);
    RunKeepsInv(Init(maxClients), steps);
  }

  lemma {:induction false} SizeIsConstant(s: State, steps: seq<Step>, handedOff: bool)
    requires IsRun(s, steps, handedOff)
    ensures |Final(s, steps, handedOff).clients| == |s.clients|
    decreases |steps|
  {
    if steps != [] {
      SizeIsConstant(Apply(s, steps[0]), steps[1..], handedOff);
    }
  }

  /** When nobody is between two statements, the count is the number of occupied slots. */
  lemma CountWhenQuiet(maxClients: nat, steps: seq<Step>)
    requires maxClients < 0xFFFF
    requires IsRun(Init(maxClients), steps, true)
    requires Uncounted(Final(Init(maxClients), steps, true).accept) == 0
    requires ClosingCount(Final(Init(maxClients), steps, true).sessions) == 0
    ensures var s := Final(Init(maxClients), steps, true);
            s.numClients == OccupiedCount(s.clients) <= maxClients + 1
  {
    CountAtAllTimes(maxClients, steps);
    SizeIsConstant(Init(maxClients), steps, true);
    CountBound(Final(Init(maxClients), steps, true).clients);
  }

  // ---- which slot a client gets ----

  function Skips(n: nat): seq<Step> { seq(n, _ => Skip) }

  /**
   A sweep of the accept loop passes every slot in use and no other: it stops at the
   first free one, having changed nothing, and there it accepts.
   */
  lemma {:induction false} SweepFindsFirstFree(s: State, i: nat, fd: int)
    requires s.accept == Scan(0) && i < |s.clients| && !Occupied(s.clients[i])
    requires forall j :: 0 <= j < i ==> Occupied(s.clients[j])
    requires fd > 0 && fd !in s.clients
    ensures SkipsTo(s, i)
    ensures var t := Final(s, Skips(i), true);
            && t == s.(accept := Scan(i)) && !Enabled(t, Skip) && Enabled(t, Accept(fd))
            && Apply(t, Accept(fd)).clients == s.clients[i := fd]
  {
    SkipsThrough(s, i);
  }

  predicate SkipsTo(s: State, n: nat) { IsRun(s, Skips(n), true) }

  lemma {:induction false} SkipsThrough(s: State, i: nat)
    requires s.accept == Scan(0) && i <= |s.clients| && forall j :: 0 <= j < i ==> Occupied(s.clients[j])
    ensures IsRun(s, Skips(i), true) && Final(s, Skips(i), true) == s.(accept := Scan(i))
  {
    if i > 0 {
      SkipsThrough(s, i - 1);
      assert Skips(i) == Skips(i - 1) + [Skip];
      OneStep(s.(accept := Scan(i - 1)), Skip, [], true);
      assert [Skip] + [] == [Skip];
      RunAppend(s, Skips(i - 1), [Skip], true);
    }
  }

  /** Behind the last slot the sweep starts over. */
  lemma SweepStartsOver(s: State)
    requires s.accept == Scan(|s.clients|)
    ensures Enabled(s, Skip) && Apply(s, Skip) == s.(accept := Scan(0))
  {
  }

  /** A failed accept leaves its slot free and starts the sweep over. */
  lemma FailedAcceptIsUndone(s: State)
    requires Enabled(s, Accept(-1)) && s.clients[s.accept.i] == 0
    ensures var t := Apply(s, Accept(-1));
            Enabled(t, AcceptMove) && Apply(t, AcceptMove) == s.(accept := Scan(0))
  {
    assert s.clients[s.accept.i := -1][s.accept.i := 0] == s.clients;
  }

  // ---- and without the hand-over ----

  /** Two sessions are live on one slot. */
  predicate Shared(s: State, k: nat, m: nat, i: nat) { k != m && LiveOn(s, k, i) && LiveOn(s, m, i) }

  /** Some run with slot numbers handed over leads from `s` to two sessions on one slot. */
  ghost predicate CanShare(s: State) {
    exists steps: seq<Step>, k: nat, m: nat, i: nat ::
      IsRun(s, steps, true) && Shared(Final(s, steps, true), k, m, i)
  }

  /** The new session is created, and then both read their number. */
  function BothReadSteps(k: nat, m: nat): seq<Step> { [AcceptMove, Read(k), Read(m)] }

  lemma OverwrittenNumberIsShared(s: State, k: nat)
    requires s.accept.Spawn? && s.accept.i < |s.clients|
    requires k < |s.sessions| && s.sessions[k] == Unread
    ensures IsRun(s, BothReadSteps(k, |s.sessions|), true)
    ensures Shared(Final(s, BothReadSteps(k, |s.sessions|), true), k, |s.sessions|, s.current)
  {
    var m := |s.sessions|;
    var s1 := Apply(s, AcceptMove);
    assert s1.sessions[k] == Unread && s1.sessions[m] == Unread;
    var s2 := Apply(s1, Read(k));
    var s3 := Apply(s2, Read(m));
    OneStep(s2, Read(m), [], true);
    OneStep(s1, Read(k), [Read(m)], true);
    OneStep(s, AcceptMove, [Read(k), Read(m)], true);
    assert [Read(m)] + [] == [Read(m)] && [Read(k)] + [Read(m)] == [Read(k), Read(m)];
    assert BothReadSteps(k, m) == [AcceptMove] + [Read(k), Read(m)];
  }

  lemma HandedOverNeverShares(s: State, steps: seq<Step>, k: nat, m: nat, i: nat)
    requires Inv(s) && IsRun(s, steps, true)
    ensures !Shared(Final(s, steps, true), k, m, i)
  {
    RunKeepsInv(s, steps);
    var t := Final(s, steps, true);
    if LiveOn(t, k, i) && LiveOn(t, m, i) {
      assert Owns(t, k, i) && Owns(t, m, i);
    }
  }

  /**
   The condition is exact. From every state reached under it, publishing a slot
   number can lead to two sessions on one slot if and only if some session has not
   read its own yet.
   */
  lemma PublishSharesUnlessRead(s: State)
    requires Inv(s) && s.accept.Publish?
    ensures CanShare(Apply(s, AcceptMove)) <==> Unread in s.sessions
  {
    var t := Apply(s, AcceptMove);
    if Unread in s.sessions {
      var k: nat :| k < |s.sessions| && s.sessions[k] == Unread;
      OverwrittenNumberIsShared(t, k);
    } else {
      StepKeepsInv(s, AcceptMove);
      forall steps: seq<Step>, k: nat, m: nat, i: nat | IsRun(t, steps, true)
        ensures !Shared(Final(t, steps, true), k, m, i)
      {
        HandedOverNeverShares(t, steps, k, m, i);
      }
    }
  }

  /** The run with two clients and nobody else: both sessions take slot 1, and slot 0 has none. */
  lemma LateReadSharesASlot(s: State)
    requires s == State([5, 6], 2, 0, Publish(1), [Unread])
    ensures IsRun(Apply(s, AcceptMove), BothReadSteps(0, 1), true)
    ensures Shared(Final(Apply(s, AcceptMove), BothReadSteps(0, 1), true), 0, 1, 1)
  {
    OverwrittenNumberIsShared(Apply(s, AcceptMove), 0);
  }

  /** Two accepts in a row get there. */
  lemma TwoAcceptsInARow()
    ensures IsRun(Init(1), FillSteps(5) + [AcceptMove, AcceptMove] + FillSteps(6), true)
    ensures Final(Init(1), FillSteps(5) + [AcceptMove, AcceptMove] + FillSteps(6), true)
         == State([5, 6], 2, 0, Publish(1), [Unread])
  {
    var s0, published := Init(1), State([5, 0], 1, 0, Publish(0), []);
    assert s0.clients == [0, 0] && s0.clients[0 := 5] == [5, 0];
    Filled(s0, 5, 0);
    var s5 := State([5, 0], 1, 0, Scan(1), [Unread]);
    PublishAndSpawn(published);
    assert published.sessions + [Unread] == [Unread];
    RunAppend(s0, FillSteps(5), [AcceptMove, AcceptMove], true);
    assert s5.clients[1 := 6] == [5, 6];
    Filled(s5, 6, 1);
    RunAppend(s0, FillSteps(5) + [AcceptMove, AcceptMove], FillSteps(6), true);
  }

  /** Fill an entry and count it: the statements before the slot number is published. */
  function FillSteps(fd: int): seq<Step> { [Accept(fd), AcceptMove, AcceptMove] }

  lemma Filled(s: State, fd: int, i: nat)
    requires s.accept == Scan(i) && i < |s.clients| && s.clients[i] == 0 && fd > 0 && fd !in s.clients
    ensures IsRun(s, FillSteps(fd), true)
    ensures Final(s, FillSteps(fd), true) == State(s.clients[i := fd], Up(s.numClients), s.current, Publish(i), s.sessions)
  {
    var s1 := Apply(s, Accept(fd));
    var s2 := Apply(s1, AcceptMove);
    OneStep(s2, AcceptMove, [], true);
    OneStep(s1, AcceptMove, [AcceptMove], true);
    OneStep(s, Accept(fd), [AcceptMove, AcceptMove], true);
    assert [AcceptMove] + [] == [AcceptMove] && [AcceptMove] + [AcceptMove] == [AcceptMove, AcceptMove];
    assert FillSteps(fd) == [Accept(fd)] + [AcceptMove, AcceptMove];
  }

  lemma PublishAndSpawn(s: State)
    requires s.accept.Publish? && s.accept.i < |s.clients| && Unread !in s.sessions
    ensures IsRun(s, [AcceptMove, AcceptMove], true)
    ensures Final(s, [AcceptMove, AcceptMove], true)
         == State(s.clients, s.numClients, s.accept.i, Scan(s.accept.i + 1), s.sessions + [Unread])
  {
    var s1 := Apply(s, AcceptMove);
    OneStep(s1, AcceptMove, [], true);
    OneStep(s, AcceptMove, [AcceptMove], true);
    assert [AcceptMove] + [] == [AcceptMove] && [AcceptMove] + [AcceptMove] == [AcceptMove, AcceptMove];
  }

  lemma OneStep(s: State, step: Step, rest: seq<Step>, handedOff: bool)
    requires Enabled(s, step) && (handedOff ==> HandedOff(s, step))
    requires IsRun(Apply(s, step), rest, handedOff)
    ensures IsRun(s, [step] + rest, handedOff)
    ensures Final(s, [step] + rest, handedOff) == Final(Apply(s, step), rest, handedOff)
  {
    assert ([step] + rest)[1..] == rest;
  }

  lemma {:induction false} RunAppend(s: State, a: seq<Step>, b: seq<Step>, handedOff: bool)
    requires IsRun(s, a, handedOff) && IsRun(Final(s, a, handedOff), b, handedOff)
    ensures IsRun(s, a + b, handedOff)
    ensures Final(s, a + b, handedOff) == Final(Final(s, a, handedOff), b, handedOff)
    decreases |a|
  {
    if a == [] {
      assert a + b == b;
    } else {
      RunAppend(Apply(s, a[0]), a[1..], b, handedOff);
      assert a + b == [a[0]] + (a[1..] + b);
      OneStep(s, a[0], a[1..] + b, handedOff);
    }
  }
}

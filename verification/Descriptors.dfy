/**
 Which client is sent what. A send goes to the descriptor its slot holds at that
 moment, whoever makes it; here the sends of a run of the server are sorted by
 descriptor.
 */
module Descriptors {
  import opened Text
  import opened Wire
  import A = AcceptLoop
  import S = SlotLife
  import opened SlotSpeech
  import SlotTenant
  import opened WholeServer

  /** The slot a step of the server works in, if any, and what it is to that slot. */
  datatype SlotStep = InSlot(i: nat, step: S.Step) | Outside

  function SlotStepOf(w: World, step: Step): SlotStep
    requires Enabled(w, step)
  {
    match step
    case Work(k, s) => InSlot(w.table.sessions[k].slot, s)
    case Console(i, s) => InSlot(i, s)
    case _ => Outside
  }

  /** What a step sends on a descriptor. */
  function StepSendsTo(w: World, step: Step, fd: int): seq<Token>
    requires Enabled(w, step)
  {
    match SlotStepOf(w, step)
    case InSlot(i, s) => if i < |w.table.clients| && w.table.clients[i] == fd then StepSays(w.slots[i], s) else []
    case Outside => []
  }

  /** What a run sends on a descriptor. */
  function SentTo(w: World, steps: seq<Step>, fd: int): seq<Token>
    requires IsRun(w, steps)
    decreases |steps|
  {
    if steps == [] then [] else StepSendsTo(w, steps[0], fd) + SentTo(Apply(w, steps[0]), steps[1..], fd)
  }

  /** A run during which session k holds slot i. */
  predicate Holding(w: World, steps: seq<Step>, k: nat, i: nat)
    decreases |steps|
  {
    && IsRun(w, steps) && A.LiveOn(w.table, k, i)
    && (steps != [] ==> Holding(Apply(w, steps[0]), steps[1..], k, i))
  }

  /** The server's state as runs leave it, descriptors included. */
  ghost predicate WellSorted(w: World) { Matched(w) && A.Unshared(w.table.clients) }

  /** The step of the accept loop and the sessions that a step of the server contains. */
  lemma TableStep(w: World, step: Step)
    requires Matched(w) && Enabled(w, step) && A.Unshared(w.table.clients)
    ensures A.Unshared(Apply(w, step).table.clients)
  {
    match step {
      case Accepting(a) => A.UnsharedKept(w.table, a);
      case Read(k, _, _) => A.UnsharedKept(w.table, A.Read(k));
      case Work(k, s) =>
        if Closes(w.slots[w.table.sessions[k].slot], s) {
          A.UnsharedKept(w.table, A.Close(k));
        }
      case Console(_, _) =>
      case CountOut(k) => A.UnsharedKept(w.table, A.CountOut(k));
    }
  }

  lemma {:induction false} RunWellSorted(w: World, steps: seq<Step>)
    requires WellSorted(w) && IsRun(w, steps)
    ensures WellSorted(Final(w, steps))
    decreases |steps|
  {
    if steps != [] {
      StepMatched(w, steps[0]);
      TableStep(w, steps[0]);
      RunWellSorted(Apply(w, steps[0]), steps[1..]);
    }
  }

  lemma InitWellSorted(maxClients: nat)
    ensures WellSorted(Init(maxClients))
  {
    InitMatched(maxClients);
  }

  /** A session that stays keeps its descriptor. */
  lemma DescriptorStays(w: World, step: Step, k: nat, i: nat)
    requires WellSorted(w) && Enabled(w, step) && HandedOff(w, step)
    requires A.LiveOn(w.table, k, i) && A.LiveOn(Apply(w, step).table, k, i)
    ensures i < |w.table.clients| && i < |Apply(w, step).table.clients|
    ensures Apply(w, step).table.clients[i] == w.table.clients[i] > 0
  {
    assert A.Owns(w.table, k, i);
    match step {
      case Accepting(a) => A.DescriptorUnchanged(w.table, a, k, i);
      case Read(m, _, _) => A.DescriptorUnchanged(w.table, A.Read(m), k, i);
      case Work(m, s) =>
        if Closes(w.slots[w.table.sessions[m].slot], s) {
          A.DescriptorUnchanged(w.table, A.Close(m), k, i);
        }
      case Console(_, _) =>
      case CountOut(m) => A.DescriptorUnchanged(w.table, A.CountOut(m), k, i);
    }
  }

  /** What a step sends on the descriptor of a slot is what the slot's own part of it says. */
  lemma StepIsSentTo(w: World, step: Step, k: nat, i: nat)
    requires WellSorted(w) && Enabled(w, step) && A.LiveOn(w.table, k, i) && i < |Apply(w, step).slots|
    ensures i < |w.table.clients| == |w.slots|
    ensures S.IsRun(w.slots[i], OwnStep(w, step, i))
    ensures StepSendsTo(w, step, w.table.clients[i]) == Said(w.slots[i], OwnStep(w, step, i))
  {
    assert A.Owns(w.table, k, i);
    StepIsOwn(w, step, i);
    var own := OwnStep(w, step, i);
    if own != [] {
      assert own == [own[0]];
      assert Said(w.slots[i], own) == StepSays(w.slots[i], own[0]) + Said(S.Apply(w.slots[i], own[0]), own[1..]);
      assert own[1..] == [];
    }
  }

  /**
   As long as a session holds its slot, what is sent on its descriptor is exactly what
   is said in its slot: by itself, by its consoles, and by those of earlier clients.
   */
  lemma {:induction false} HolderIsSent(w: World, steps: seq<Step>, k: nat, i: nat)
    requires WellSorted(w) && Holding(w, steps, k, i)
    ensures i < |w.table.clients| == |w.slots| && S.IsRun(w.slots[i], Own(w, steps, i))
    ensures SentTo(w, steps, w.table.clients[i]) == Said(w.slots[i], Own(w, steps, i))
    decreases |steps|
  {
    assert A.Owns(w.table, k, i);
    EverySlotRunsAlone(w, steps, i);
    if steps != [] {
      var v := Apply(w, steps[0]);
      StepMatched(w, steps[0]);
      TableStep(w, steps[0]);
      DescriptorStays(w, steps[0], k, i);
      StepIsSentTo(w, steps[0], k, i);
      StepIsOwn(w, steps[0], i);
      HolderIsSent(v, steps[1..], k, i);
      SaidAppend(w.slots[i], OwnStep(w, steps[0], i), Own(v, steps[1..], i));
    }
  }
}

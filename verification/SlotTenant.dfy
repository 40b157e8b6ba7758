/**
 What a client that takes over a slot may still hear of the ones before it: sends
 go to whoever holds the slot, and a console outlives its client.
 */
module SlotTenant {
  import opened Text
  import opened Wire
  import opened SlotLife
  import opened SlotSafety

  /** A stretch of a run in which the slot is never given up. */
  predicate Tenancy(s: Slot, steps: seq<Step>)
    decreases |steps|
  {
    && IsRun(s, steps) && !s.session.Away?
    && (steps != [] ==> Tenancy(Apply(s, steps[0]), steps[1..]))
  }

  /** What the first n consoles of the slot say in one step, and in a run. */
  function OthersSay(s: Slot, step: Step, n: nat): seq<Token>
    requires Enabled(s, step)
  {
    if step.Advance? && step.c < n && Utterance(s, step.c).Some? then [Utterance(s, step.c).value] else []
  }

  function OthersSaid(s: Slot, steps: seq<Step>, n: nat): seq<Token>
    requires IsRun(s, steps)
    decreases |steps|
  {
    if steps == [] then [] else OthersSay(s, steps[0], n) + OthersSaid(Apply(s, steps[0]), steps[1..], n)
  }

  /** Some tenancy from here on is sent something by one of the first n consoles. */
  ghost predicate CanHearOthers(s: Slot, n: nat) {
    exists steps: seq<Step> :: Tenancy(s, steps) && OthersSaid(s, steps, n) != []
  }

  // ---- a console that has sent its end code is silent ----

  predicate OthersDone(s: Slot, n: nat) {
    n <= |s.consoles| && forall c :: 0 <= c < n ==> !Owes(s.consoles[c].pc)
  }

  lemma DoneKept(s: Slot, step: Step, n: nat)
    requires OthersDone(s, n) && Enabled(s, step)
    ensures OthersDone(Apply(s, step), n) && OthersSay(s, step, n) == []
  {
    match step {
      case Session(choice) => SessionShape(s, choice);
      case Advance(c, m, pid) =>
        AdvanceShape(s, c, m, pid);
        AdvancePaysDebt(s, c, m, pid);
      case _ =>
    }
  }

  lemma {:induction false} DoneIsSilent(s: Slot, steps: seq<Step>, n: nat)
    requires OthersDone(s, n) && IsRun(s, steps)
    ensures OthersSaid(s, steps, n) == []
    decreases |steps|
  {
    if steps != [] {
      DoneKept(s, steps[0], n);
      DoneIsSilent(Apply(s, steps[0]), steps[1..], n);
    }
  }

  // ---- any other will speak ----

  /** How far a console is from its next send. */
  function Distance(k: Console): nat {
    match k.pc
    case TakeCommand => 10
    case Forking => 9
    case TestCancel => 8
    case TestNext => 7
    case WriteNext => 6
    case ClearFlag => 5
    case ClearNext => 4
    case Reading => if k.open then 3 else 2
    case _ => 1
  }

  /** A step that brings it closer: the child stops printing, and the console goes on. */
  function Nearer(s: Slot, c: nat): Step
    requires c < |s.consoles|
  {
    var k := s.consoles[c];
    if k.pc.Reading? && k.pending == [] && k.open then ChildEnds(c) else Advance(c, 1, 0)
  }

  lemma NearerIsNearer(s: Slot, c: nat)
    requires c < |s.consoles| && Owes(s.consoles[c].pc) && Utterance(s, c).None?
    ensures Enabled(s, Nearer(s, c))
    ensures var t := Apply(s, Nearer(s, c));
            && |t.consoles| == |s.consoles| && t.session == s.session
            && Owes(t.consoles[c].pc) && Distance(t.consoles[c]) < Distance(s.consoles[c])
  {
    if Nearer(s, c).Advance? {
      AdvanceShape(s, c, 1, 0);
      AdvancePaysDebt(s, c, 1, 0);
      match s.consoles[c].pc {
        case Reading =>
        case TestCancel =>
        case TestNext =>
        case _ =>
      }
    }
  }

  lemma {:induction false} OwingWillSpeak(s: Slot, c: nat) returns (steps: seq<Step>)
    requires c < |s.consoles| && Owes(s.consoles[c].pc) && !s.session.Away?
    ensures Tenancy(s, steps) && OthersSaid(s, steps, |s.consoles|) != []
    decreases Distance(s.consoles[c])
  {
    if Utterance(s, c).Some? {
      var step := Advance(c, 1, 0);
      AdvanceShape(s, c, 1, 0);
      RunCons(s, step, []);
      steps := [step] + [];
      assert steps[1..] == [];
    } else {
      var step := Nearer(s, c);
      NearerIsNearer(s, c);
      var rest := OwingWillSpeak(Apply(s, step), c);
      RunCons(s, step, rest);
      steps := [step] + rest;
      assert steps[1..] == rest;
    }
  }

  /**
   A client that has just taken the slot can be sent something by an earlier client's
   console if and only if such a console has not yet sent its end code. Otherwise
   nothing it is sent, for as long as it stays and beyond, is of theirs.
   */
  lemma TenantHearsOthersIffOwed(s: Slot)
    requires OneConsole(s) && !s.session.Away?
    ensures CanHearOthers(s, |s.consoles|) <==> Owes(LastPc(s.consoles))
  {
    var n := |s.consoles|;
    if Owes(LastPc(s.consoles)) {
      var steps := OwingWillSpeak(s, n - 1);
    } else {
      forall steps: seq<Step> | Tenancy(s, steps)
        ensures OthersSaid(s, steps, n) == []
      {
        DoneIsSilent(s, steps, n);
      }
    }
  }
}

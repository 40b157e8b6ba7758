/**
 The running server joined to the client: what the threads of the server send
 over a stretch of a run is what the client shows.
 */
module EndToEnd {
  import opened Text
  import opened Sealing
  import opened Wire
  import opened Delivery
  import Client
  import Pump
  import S = SlotLife
  import SlotSafety
  import opened SlotSpeech
  import SlotTenant
  import SlotHeader
  import W = WholeServer
  import opened Descriptors

  /** The bytes received, cut and polled in these rounds, are the bytes of these sends. */
  predicate Receives(k: Aead, rounds: seq<Round>, sent: seq<Token>) {
    Concat(AllImages(k, rounds)) == Stream(k, sent)
  }

  /** Then the client shows their text. */
  lemma SentIsShown(k: Aead, f: Client.Form, rounds: seq<Round>, sent: seq<Token>)
    requires Idle(f) && AllOrderly(k, rounds) && Receives(k, rounds, sent)
    ensures Client.IsRun(k, f, Schedule(rounds))
    ensures Showed(f, Client.Run(k, f, Schedule(rounds)), sent)
  {
    ImagesAreStream(k, rounds);
    StreamIsUnambiguous(k, AllTokens(rounds), sent);
    ScheduleIsARun(k, f, rounds);
    StreamIsDelivered(k, f, rounds);
  }

  // ---- one slot ----

  /** A console of the slot `s` that has just started works through `steps` and has then ended. */
  predicate Responds(s: S.Slot, c: nat, steps: seq<S.Step>) {
    && c < |s.consoles| && s.consoles[c].pc.Announce?
    && WaitingRun(s, c, steps) && SlotSafety.LastPc(S.Final(s, steps).consoles).Exited?
  }

  /** The text of a response: header, reads, notice. */
  function ResponseText(k: S.Console): Bytes {
    k.header + Concat(Pump.TextsOf(k.chunks)) + Pump.Killed(k.pid)
  }

  /** What a client shows of a stretch in which one console responds. */
  ghost predicate ResponseShown(k: Aead, f: Client.Form, rounds: seq<Round>, s: S.Slot, c: nat, steps: seq<S.Step>)
    requires Idle(f) && Responds(s, c, steps)
  {
    var t := S.Final(s, steps);
    var g := Client.Run(k, f, Schedule(rounds));
    && c < |t.consoles|
    && var m := t.consoles[c];
    && Showed(f, g, Said(s, steps))
    && Shuffle(Pump.Response(m.header, m.chunks, m.pid), SessionSaid(s, steps), Said(s, steps))
    && (SessionSaid(s, steps) == [] ==> Concat(g.shown) == Concat(f.shown) + ResponseText(m))
    && (SessionSaid(s, steps) == [] && s.entry.exitCode != 1 && NoCancel(s, steps) && NUL !in m.printed ==>
          Concat(g.shown) == Concat(f.shown) + (m.header + m.printed + Pump.Killed(m.pid)))
  }

  /** A response shown alone is its text; with all of the child's NUL-free output read, that is every byte of it. */
  lemma ResponseReads(f: Client.Form, g: Client.Form, m: S.Console)
    requires Showed(f, g, Pump.Response(m.header, m.chunks, m.pid))
    ensures Concat(g.shown) == Concat(f.shown) + ResponseText(m)
    ensures Concat(m.chunks) == m.printed && NUL !in m.printed ==>
              Concat(g.shown) == Concat(f.shown) + (m.header + m.printed + Pump.Killed(m.pid))
  {
    Pump.ResponseCarries(m.header, m.chunks, m.pid);
    Pump.PumpConservesBytes(m.chunks);
  }

  lemma SaidIsAdded(s: S.Slot, steps: seq<S.Step>)
    requires S.IsRun(s, steps)
    ensures s.history.sent <= S.Final(s, steps).history.sent
    ensures Added(s.history.sent, S.Final(s, steps).history.sent) == Said(s, steps)
  {
    RunIsSaid(s, steps);
  }

  /** What a console that responds alone adds, in the terms of the slot. */
  lemma Alone(s: S.Slot, c: nat, steps: seq<S.Step>)
    requires Sound(s) && Responds(s, c, steps) && SessionSaid(s, steps) == []
    ensures var t := S.Final(s, steps);
            && c < |t.consoles|
            && var m := t.consoles[c];
            && Said(s, steps) == Pump.Response(m.header, m.chunks, m.pid)
            && (s.entry.exitCode != 1 && NoCancel(s, steps) ==> Concat(m.chunks) == m.printed)
  {
    ConsoleResponds(s, c, steps);
    RunIsSaid(s, steps);
    SaidIsAdded(s, steps);
    if s.entry.exitCode != 1 && NoCancel(s, steps) {
      RunSound(s, steps);
      OnlyThatConsole(S.Final(s, steps), c);
      UncancelledIsComplete(s, c, steps);
    }
  }

  lemma SlotResponseIsShown(k: Aead, f: Client.Form, rounds: seq<Round>, s: S.Slot, c: nat, steps: seq<S.Step>)
    requires Idle(f) && AllOrderly(k, rounds)
    requires Sound(s) && Responds(s, c, steps) && Receives(k, rounds, Said(s, steps))
    ensures ResponseShown(k, f, rounds, s, c, steps)
  {
    var t, g := S.Final(s, steps), Client.Run(k, f, Schedule(rounds));
    ConsoleResponds(s, c, steps);
    SaidIsAdded(s, steps);
    SentIsShown(k, f, rounds, Said(s, steps));
    if SessionSaid(s, steps) == [] {
      Alone(s, c, steps);
      ResponseReads(f, g, t.consoles[c]);
    }
  }

  // ---- the whole server ----

  /** Where the server is after a run from the start. */
  function Reached(maxClients: nat, pre: seq<W.Step>): W.World
    requires W.IsRun(W.Init(maxClients), pre)
  {
    W.Final(W.Init(maxClients), pre)
  }

  lemma ReachedIsSound(steps: seq<S.Step>)
    requires S.IsRun(S.Init(), steps)
    ensures Sound(S.Final(S.Init(), steps))
  {
    InitSound();
    RunSound(S.Init(), steps);
  }

  /** Every run leaves the server well sorted and every slot sound. */
  lemma ServerIsSound(maxClients: nat, pre: seq<W.Step>, i: nat)
    requires W.IsRun(W.Init(maxClients), pre) && i <= maxClients
    ensures WellSorted(Reached(maxClients, pre)) && |Reached(maxClients, pre).slots| == maxClients + 1
    ensures Sound(Reached(maxClients, pre).slots[i])
  {
    InitWellSorted(maxClients);
    RunWellSorted(W.Init(maxClients), pre);
    W.EverySlotRunsAlone(W.Init(maxClients), pre, i);
    ReachedIsSound(W.Own(W.Init(maxClients), pre, i));
  }

  /** The header of the console names a user and a directory, and the command the console announced. */
  ghost predicate HeaderIsNamed(s: S.Slot, c: nat) {
    c < |s.consoles| && exists who: Bytes, directory: Bytes ::
      SlotHeader.Names(s.consoles[c].header, who, directory, s.consoles[c].orders.announced)
  }

  lemma ResponderHasEnded(s: S.Slot, c: nat, steps: seq<S.Step>)
    requires Sound(s) && Responds(s, c, steps)
    ensures c < |S.Final(s, steps).consoles| && S.Final(s, steps).consoles[c].pc.Exited?
  {
    ConsoleResponds(s, c, steps);
    RunSound(s, steps);
    OnlyThatConsole(S.Final(s, steps), c);
  }

  lemma HeadersAreNamed(maxClients: nat, pre: seq<W.Step>, steps: seq<W.Step>, i: nat, c: nat)
    requires W.IsRun(W.Init(maxClients), pre) && i <= maxClients && W.IsRun(Reached(maxClients, pre), steps)
    requires i < |W.Final(Reached(maxClients, pre), steps).slots|
    requires var t := W.Final(Reached(maxClients, pre), steps).slots[i];
             c < |t.consoles| && !t.consoles[c].pc.Announce?
    ensures HeaderIsNamed(W.Final(Reached(maxClients, pre), steps).slots[i], c)
  {
    var w := Reached(maxClients, pre);
    ServerIsSound(maxClients, pre, i);
    W.InitMatched(maxClients);
    W.EverySlotRunsAlone(W.Init(maxClients), pre, i);
    W.EverySlotRunsAlone(w, steps, i);
    SlotHeader.RunKeepsHeaders(S.Init(), W.Own(W.Init(maxClients), pre, i));
    SlotHeader.RunKeepsHeaders(w.slots[i], W.Own(w, steps, i));
    assert SlotHeader.HeaderOk(W.Final(w, steps).slots[i].consoles[c]);
  }

  /**
   A console of slot i starts after `pre` and has ended after `steps` more steps of
   the whole server, any of them of other slots, while session j holds the slot. The
   session's client, that is whoever receives what is sent on its descriptor meanwhile,
   cut into packets and polled at whole frames in any way, shows the text of the
   console's response interleaved with what the session said. If the session said
   nothing that is the header, the text of every read and the killed notice; and if
   nobody cancelled and the child printed no NUL, every byte the child ever printed
   stands between the two. The header names the command the console announced.
   */
  lemma ConsoleOutputIsShown(
    k: Aead, f: Client.Form, rounds: seq<Round>,
    maxClients: nat, pre: seq<W.Step>, steps: seq<W.Step>, j: nat, i: nat, c: nat)
    requires Idle(f) && AllOrderly(k, rounds)
    requires W.IsRun(W.Init(maxClients), pre) && i <= maxClients
    requires var w := Reached(maxClients, pre);
             && Holding(w, steps, j, i) && i < |w.slots| && i < |w.table.clients|
             && Responds(w.slots[i], c, W.Own(w, steps, i))
             && Receives(k, rounds, SentTo(w, steps, w.table.clients[i]))
    ensures var w := Reached(maxClients, pre);
            && i < |W.Final(w, steps).slots|
            && S.Final(w.slots[i], W.Own(w, steps, i)) == W.Final(w, steps).slots[i]
            && ResponseShown(k, f, rounds, w.slots[i], c, W.Own(w, steps, i))
            && HeaderIsNamed(W.Final(w, steps).slots[i], c)
  {
    var w := Reached(maxClients, pre);
    ServerIsSound(maxClients, pre, i);
    W.EverySlotRunsAlone(w, steps, i);
    HolderIsSent(w, steps, j, i);
    ResponderHasEnded(w.slots[i], c, W.Own(w, steps, i));
    HeadersAreNamed(maxClients, pre, steps, i, c);
    SlotResponseIsShown(k, f, rounds, w.slots[i], c, W.Own(w, steps, i));
  }

  /**
   The same for a command the session answers itself, a refused one or a change of
   directory, with no console at work: its client shows the refusal, or the header
   with the directory and the command.
   */
  lemma SessionAnswerIsShown(
    k: Aead, f: Client.Form, rounds: seq<Round>,
    maxClients: nat, pre: seq<W.Step>, steps: seq<W.Step>, j: nat, i: nat)
    requires Idle(f) && AllOrderly(k, rounds)
    requires W.IsRun(W.Init(maxClients), pre) && i <= maxClients
    requires var w := Reached(maxClients, pre);
             && Holding(w, steps, j, i) && i < |w.slots| && i < |w.table.clients|
             && AnsweringRun(w.slots[i], W.Own(w, steps, i))
             && S.Final(w.slots[i], W.Own(w, steps, i)).session.Receiving?
             && Receives(k, rounds, SentTo(w, steps, w.table.clients[i]))
    ensures Showed(f, Client.Run(k, f, Schedule(rounds)), Due(Reached(maxClients, pre).slots[i]))
  {
    var w := Reached(maxClients, pre);
    ServerIsSound(maxClients, pre, i);
    HolderIsSent(w, steps, j, i);
    AnswerIsSaid(w.slots[i], W.Own(w, steps, i));
    SentIsShown(k, f, rounds, Due(w.slots[i]));
  }

  lemma AnswerIsSaid(s: S.Slot, steps: seq<S.Step>)
    requires AnsweringRun(s, steps) && S.Final(s, steps).session.Receiving?
    ensures Said(s, steps) == Due(s)
  {
    AnswerIsGiven(s, steps);
    RunIsSaid(s, steps);
    assert (s.history.sent + Said(s, steps))[|s.history.sent|..] == Said(s, steps);
    assert (s.history.sent + Due(s))[|s.history.sent|..] == Due(s);
  }

  /**
   And for a change of directory, from the moment its command was told from the others:
   the client shows one header, with the directory the slot is in by then and the very
   command that was received.
   */
  lemma DirectoryAnswerIsShown(
    k: Aead, f: Client.Form, rounds: seq<Round>,
    maxClients: nat, pre: seq<W.Step>, steps: seq<W.Step>, j: nat, i: nat, command: Bytes) returns (header: Bytes)
    requires Idle(f) && AllOrderly(k, rounds)
    requires W.IsRun(W.Init(maxClients), pre) && i <= maxClients
    requires var w := Reached(maxClients, pre);
             && Holding(w, steps, j, i) && i < |w.slots| && i < |w.table.clients|
             && SlotSafety.LastPc(w.slots[i].consoles).Exited? && w.slots[i].session == S.EnterDirectory(command)
             && SlotHeader.DirectoryRun(w.slots[i], W.Own(w, steps, i))
             && S.Final(w.slots[i], W.Own(w, steps, i)).session.Receiving?
             && Receives(k, rounds, SentTo(w, steps, w.table.clients[i]))
    ensures var w := Reached(maxClients, pre); var t := S.Final(w.slots[i], W.Own(w, steps, i));
            && SlotHeader.Names(header, t.entry.who, t.entry.directory, command)
            && Concat(Client.Run(k, f, Schedule(rounds)).shown) == Concat(f.shown) + header
  {
    var w := Reached(maxClients, pre);
    var own := W.Own(w, steps, i);
    ServerIsSound(maxClients, pre, i);
    HolderIsSent(w, steps, j, i);
    header := SlotHeader.DirectoryAnswerNamesCommand(w.slots[i], command, own);
    RunIsSaid(w.slots[i], own);
    SameTail(w.slots[i].history.sent, Said(w.slots[i], own), [Frame(header), End]);
    SentIsShown(k, f, rounds, [Frame(header), End]);
    AnswerCarries(header);
  }

  lemma SameTail(a: seq<Token>, b: seq<Token>, c: seq<Token>)
    requires a + b == a + c
    ensures b == c
  {
    assert (a + b)[|a|..] == b && (a + c)[|a|..] == c;
  }

  lemma AnswerCarries(header: Bytes)
    ensures Carried([Frame(header), End]) == header
  {
    assert [Frame(header), End][1..] == [End];
    assert Carried([End]) == Carried([]);
  }

  /**
   A client that takes a slot in which no console owes an end code is sent nothing of
   an earlier client's for as long as it holds the slot: all that goes to its
   descriptor is said by its session and by consoles started since.
   */
  lemma ClientIsSentItsOwn(maxClients: nat, pre: seq<W.Step>, steps: seq<W.Step>, j: nat, i: nat)
    requires W.IsRun(W.Init(maxClients), pre) && i <= maxClients
    requires Holding(Reached(maxClients, pre), steps, j, i)
    requires i < |Reached(maxClients, pre).slots|
    requires !SlotSafety.Owes(SlotSafety.LastPc(Reached(maxClients, pre).slots[i].consoles))
    ensures var w := Reached(maxClients, pre);
            && i < |w.table.clients| && S.IsRun(w.slots[i], W.Own(w, steps, i))
            && SentTo(w, steps, w.table.clients[i]) == Said(w.slots[i], W.Own(w, steps, i))
            && SlotTenant.OthersSaid(w.slots[i], W.Own(w, steps, i), |w.slots[i].consoles|) == []
  {
    var w := Reached(maxClients, pre);
    ServerIsSound(maxClients, pre, i);
    HolderIsSent(w, steps, j, i);
    SlotTenant.DoneIsSilent(w.slots[i], W.Own(w, steps, i), |w.slots[i].consoles|);
  }
}

/**
 The client: the receive thread's buffer and end-of-transmission latch, and the
 main form that polls, sends, cancels and walks its command history. `Form` and
 `After` give the meaning of every event on values; the two classes are the
 source's objects and are proved to do the same in place.
 */
module Client {
  import opened Text
  import opened Sealing
  import opened Wire
  import opened Buffers

  const PACKET_SIZE := 512

  const MESSAGE_CODE: Bytes := "M"
  const CANCEL_CODE: Bytes := "X"
  const DISCONNECT_CODE: Bytes := "C"

  /** What one `recv` can return when it returns data. */
  type Packet = b: Bytes | 1 <= |b| <= PACKET_SIZE witness ['a']

  /** The static connection record, and how many receive threads are alive. */
  datatype Conn = Conn(
    output: Bytes, connected: bool, ended: bool, socket: int, threads: nat, sent: seq<Bytes>)

  /** What `socket` returns when it succeeds. */
  type Descriptor = n: int | n > 0 witness 3

  /** How far an attempt to connect gets. */
  datatype Attempt = NoHost | NoSocket | Refused(socket: Descriptor) | Reached(socket: Descriptor)

  datatype Form = Form(
    conn: Conn,
    commands: seq<Bytes>,
    commandIndex: int,
    command: Bytes,           // the command line being edited
    shown: seq<Bytes>,        // every text appended to the terminal view
    cancelEnabled: bool,
    polling: bool)            // the message timer runs

  /** One turn of the receive loop. */
  function Received(c: Conn, data: Packet, beyond: Bytes): Conn {
    var text := CStr(Memory(PACKET_SIZE, data, beyond));
    if c.ended || text == [] then c
    else c.(output := c.output + text, ended := Contains(text, END_CODE))
  }

  /** `TCPClient::Disconnect`. */
  function HungUp(c: Conn): Conn {
    if c.socket != 0 then c.(connected := false, ended := false) else c
  }

  /** A receive thread that gets nothing hangs up and ends. */
  function ThreadEnded(c: Conn): Conn { HungUp(c).(threads := if c.threads == 0 then 0 else c.threads - 1) }

  /** `TCPClient::Connect`: the socket is stored before the attempt succeeds. */
  function Dialled(c: Conn, a: Attempt): Conn {
    match a
    case NoHost => c.(connected := false)
    case NoSocket => c.(connected := false, socket := -1)
    case Refused(socket) => c.(connected := false, socket := socket)
    case Reached(socket) => c.(connected := true, socket := socket, threads := c.threads + 1)
  }

  /** A turn of a receive thread, an expiry of the message timer, or something the user does. */
  datatype Event =
    | Arrives(data: Packet, beyond: Bytes)
    | Lost                          // recv returned nothing
    | Poll
    | Send(accepted: bool)          // did the socket take the message?
    | Cancel(accepted: bool)
    | Disconnect
    | Connect(attempt: Attempt)
    | Type(text: Bytes)
    | Up
    | Down

  /** `frmMain::Disconnect`. */
  function Disconnected(k: Aead, f: Form): Form {
    var cleared := f.conn.(output := []);
    f.(conn := if cleared.connected
               then HungUp(cleared.(sent := cleared.sent + [Encrypt(k, DISCONNECT_CODE)]))
               else cleared,
       polling := false)
  }

  /** The disconnect button and the exit menu only disconnect what is connected. */
  function Left(k: Aead, f: Form): Form { if f.conn.connected then Disconnected(k, f) else f }

  function Polled(k: Aead, f: Form): Form {
    if !f.conn.connected then Disconnected(k, f)
    else if f.conn.output == [] then f
    else
      var text := BufferText(k, f.conn.output);
      f.(conn := f.conn.(output := [], ended := false),
         shown := if text == [] then f.shown else f.shown + [text],
         cancelEnabled := f.cancelEnabled && !f.conn.ended)
  }

  function Sent(k: Aead, f: Form, accepted: bool): Form {
    if !f.conn.connected || f.conn.ended then f
    else
      var g := f.(conn := f.conn.(output := [], sent := f.conn.sent + [Encrypt(k, MESSAGE_CODE + f.command)]),
                  commands := f.commands + [f.command],
                  commandIndex := |f.commands|,
                  command := [],
                  cancelEnabled := true);
      if accepted then g else Disconnected(k, g)
  }

  function AfterConnect(f: Form, a: Attempt): Form {
    if f.conn.connected then f
    else if a.Reached? then f.(conn := Dialled(f.conn, a), commands := [], commandIndex := -1, polling := true)
    else f.(conn := Dialled(f.conn, a))
  }

  function Cancelled(k: Aead, f: Form, accepted: bool): Form {
    if !f.conn.connected || f.conn.ended then f
    else
      var g := f.(conn := f.conn.(sent := f.conn.sent + [Encrypt(k, CANCEL_CODE)]));
      if accepted then g else Disconnected(k, g)
  }

  function WentUp(f: Form): Form {
    if 0 <= f.commandIndex < |f.commands|
    then f.(command := f.commands[f.commandIndex], commandIndex := f.commandIndex - 1)
    else f.(commandIndex := 0)
  }

  /** The entry Down asks for, if it asks for one, exists. */
  predicate DownIsInRange(commands: seq<Bytes>, commandIndex: int) {
    |commands| > commandIndex + 1 ==> 0 <= commandIndex + 1
  }

  /** That is so exactly for an index that is not below the one a connection sets. */
  lemma DownIsInRangeFromMinusOne(commands: seq<Bytes>, commandIndex: int)
    ensures DownIsInRange(commands, commandIndex) <==> -1 <= commandIndex
  {
  }

  function WentDown(f: Form): Form
    requires -1 <= f.commandIndex
  {
    var next := f.commandIndex + 1;
    if next < |f.commands| then f.(command := f.commands[next], commandIndex := next)
    else f.(commandIndex := |f.commands| - 1)
  }

  /** The history index the form keeps once it has connected. */
  predicate HistoryInRange(f: Form) {
    -1 <= f.commandIndex <= if f.commands == [] then 0 else |f.commands| - 1
  }

  function After(k: Aead, f: Form, e: Event): (g: Form)
    requires HistoryInRange(f)
    ensures HistoryInRange(g)
  {
    match e
    case Arrives(data, beyond) => f.(conn := Received(f.conn, data, beyond))
    case Lost => f.(conn := ThreadEnded(f.conn))
    case Poll => Polled(k, f)
    case Send(accepted) => Sent(k, f, accepted)
    case Cancel(accepted) => Cancelled(k, f, accepted)
    case Disconnect => Left(k, f)
    case Connect(a) => AfterConnect(f, a)
    case Type(text) => f.(command := text)
    case Up => WentUp(f)
    case Down => WentDown(f)
  }

  function Run(k: Aead, f: Form, events: seq<Event>): (g: Form)
    requires HistoryInRange(f)
    ensures HistoryInRange(g)
    decreases |events|
  {
    if events == [] then f else Run(k, After(k, f, events[0]), events[1..])
  }

  lemma {:induction false} RunAppend(k: Aead, f: Form, a: seq<Event>, b: seq<Event>)
    requires HistoryInRange(f)
    ensures Run(k, f, a + b) == Run(k, Run(k, f, a), b)
    decreases |a|
  {
    if a == [] {
      assert a + b == b;
    } else {
      assert (a + b)[1..] == a[1..] + b;
      RunAppend(k, After(k, f, a[0]), a[1..], b);
    }
  }

  // ---- runs ----

  /** Packets and hang-ups need a live receive thread, polls a running timer. */
  predicate Possible(f: Form, e: Event) {
    match e
    case Arrives(_, _) => f.conn.threads > 0
    case Lost => f.conn.threads > 0
    case Poll => f.polling
    case _ => true
  }

  /** The condition on runs: a connection is only made once the last one's receive thread has ended. */
  predicate OneThread(f: Form, e: Event) {
    e.Connect? && e.attempt.Reached? && !f.conn.connected ==> f.conn.threads == 0
  }

  predicate IsRun(k: Aead, f: Form, events: seq<Event>)
    requires HistoryInRange(f)
    decreases |events|
  {
    events == [] ||
    (Possible(f, events[0]) && OneThread(f, events[0]) && IsRun(k, After(k, f, events[0]), events[1..]))
  }

  // ---- the latch ----

  /** A set latch means the buffer holds an end code. */
  predicate LatchExplained(f: Form) { f.conn.ended ==> Contains(f.conn.output, END_CODE) }

  /** One connection at a time: its thread, its socket and its timer. */
  predicate OneConnection(f: Form) {
    && f.conn.threads <= 1
    && (f.conn.connected ==> f.conn.threads == 1 && f.conn.socket != 0 && f.polling)
    && (f.conn.threads == 1 ==> f.conn.socket != 0)
    && (f.conn.threads == 0 || (f.polling && !f.conn.connected) ==> !f.conn.ended)
    && (f.polling && !f.conn.connected ==> f.conn.threads == 0)
  }

  predicate LatchOk(f: Form) { HistoryInRange(f) && LatchExplained(f) && OneConnection(f) }

  lemma ContainsInSuffix(a: Bytes, b: Bytes, t: Bytes)
    requires Contains(b, t)
    ensures Contains(a + b, t)
  {
    var i :| 0 <= i <= |b| && OccursAt(b, t, i);
    assert (a + b)[|a| + i..|a| + i + |t|] == b[i..i + |t|];
    assert OccursAt(a + b, t, |a| + i);
  }

  lemma ContainsInPrefix(a: Bytes, b: Bytes, t: Bytes)
    requires Contains(a, t)
    ensures Contains(a + b, t)
  {
    var i :| 0 <= i <= |a| && OccursAt(a, t, i);
    assert (a + b)[i..i + |t|] == a[i..i + |t|];
    assert OccursAt(a + b, t, i);
  }

  lemma ReceivingExplained(c: Conn, data: Packet, beyond: Bytes)
    requires c.ended ==> Contains(c.output, END_CODE)
    ensures Received(c, data, beyond).ended ==> Contains(Received(c, data, beyond).output, END_CODE)
  {
    var text := CStr(Memory(PACKET_SIZE, data, beyond));
    if Contains(text, END_CODE) {
      ContainsInSuffix(c.output, text, END_CODE);
    }
  }

  lemma EventKeepsLatch(k: Aead, f: Form, e: Event)
    requires LatchOk(f) && Possible(f, e) && OneThread(f, e)
    ensures LatchOk(After(k, f, e))
  {
    if e.Arrives? {
      ReceivingExplained(f.conn, e.data, e.beyond);
    }
  }

  /**
   With turns and actions in one piece, over any number of connections, each made after the
   last one's thread has ended: the latch is explained.
   */
  lemma {:induction false} LatchStaysExplained(k: Aead, f: Form, events: seq<Event>)
    requires LatchOk(f) && IsRun(k, f, events)
    ensures LatchOk(Run(k, f, events))
    decreases |events|
  {
    if events != [] {
      EventKeepsLatch(k, f, events[0]);
      LatchStaysExplained(k, After(k, f, events[0]), events[1..]);
    }
  }

  predicate LeavesLatchedBuffer(e: Event) { !e.Poll? && !e.Disconnect? && !e.Lost? }

  /** While the latch is set, no run without a poll or a hang-up changes the connection at all. */
  lemma {:induction false} LatchFreezesBuffer(k: Aead, f: Form, events: seq<Event>)
    requires HistoryInRange(f) && f.conn.connected && f.conn.ended
    requires forall e :: e in events ==> LeavesLatchedBuffer(e)
    ensures Run(k, f, events).conn == f.conn
    decreases |events|
  {
    if events != [] {
      assert LeavesLatchedBuffer(events[0]);
      LatchFreezesBuffer(k, After(k, f, events[0]), events[1..]);
    }
  }

  /** At the end of any such run, the next poll releases the latch and empties the buffer. */
  lemma PollReleasesLatch(k: Aead, f: Form, events: seq<Event>)
    requires LatchOk(f) && IsRun(k, f, events)
    requires Possible(Run(k, f, events), Poll)
    ensures var g := Polled(k, Run(k, f, events)); !g.conn.ended && g.conn.output == []
  {
    LatchStaysExplained(k, f, events);
  }

  // ---- two receive threads ----

  /** A hang-up, a packet that another thread still appends, and a poll before the next connection. */
  function LatePacket(): seq<Event> { [Lost, Arrives(END_CODE, []), Poll] }

  lemma LatePacketRuns(k: Aead, f: Form)
    requires HistoryInRange(f) && f.conn.connected && f.conn.socket != 0 && f.conn.threads >= 2 && f.polling
    ensures IsRun(k, f, LatePacket())
    ensures var g := Run(k, f, LatePacket());
            !g.conn.connected && g.conn.ended && g.conn.output == [] && g.conn.threads == f.conn.threads - 1
  {
    ReadsWhole(PACKET_SIZE, END_CODE, []);
    assert OccursAt(END_CODE, END_CODE, 0);
    var f1 := After(k, f, Lost);
    var f2 := After(k, f1, Arrives(END_CODE, []));
    assert f2.conn.ended && !f2.conn.connected && f2.polling;
    assert LatePacket()[1..] == [Arrives(END_CODE, []), Poll];
    assert LatePacket()[1..][1..] == [Poll];
    var f3 := After(k, f2, Poll);
    assert Run(k, f2, [Poll]) == Run(k, f3, []);
    assert Run(k, f1, [Arrives(END_CODE, []), Poll]) == Run(k, f2, [Poll]);
    assert IsRun(k, f2, [Poll]) && IsRun(k, f1, [Arrives(END_CODE, []), Poll]);
  }

  /** Some run with no further overlap ends with the latch set and no end code in the buffer. */
  ghost predicate LatchCanStick(k: Aead, f: Form)
    requires HistoryInRange(f)
  {
    exists events: seq<Event> :: IsRun(k, f, events) && !LatchExplained(Run(k, f, events))
  }

  /**
   With every turn of a receive thread and every action of the form in one piece, the
   condition is exact. From every state reached under it, making a connection can lead
   to a latch that nothing explains if and only if a receive thread of an earlier
   connection is still alive. ClientThreads.dfy has the condition for turns and actions
   that interrupt each other.
   */
  lemma LatchSticksOnlyWithTwoThreads(k: Aead, f: Form, socket: Descriptor)
    requires LatchOk(f) && !f.conn.connected
    ensures LatchCanStick(k, After(k, f, Connect(Reached(socket)))) <==> f.conn.threads != 0
  {
    var g := After(k, f, Connect(Reached(socket)));
    if f.conn.threads != 0 {
      LatePacketRuns(k, g);
    } else {
      EventKeepsLatch(k, f, Connect(Reached(socket)));
      forall events: seq<Event> | IsRun(k, g, events)
        ensures LatchExplained(Run(k, g, events))
      {
        LatchStaysExplained(k, g, events);
      }
    }
  }

  /** The latch is set and the buffer is empty: no poll looks at it, and no command is sent. */
  predicate Stuck(f: Form) { f.conn.connected && f.conn.ended && f.conn.output == [] }

  predicate EndsConnection(e: Event) { e.Disconnect? || e.Lost? }

  /** A connection made on such a latch receives nothing, shows nothing and sends nothing until it ends. */
  lemma {:induction false} StuckUntilHangUp(k: Aead, f: Form, events: seq<Event>)
    requires HistoryInRange(f) && Stuck(f)
    requires forall e :: e in events ==> !EndsConnection(e)
    ensures Run(k, f, events).conn == f.conn && Run(k, f, events).shown == f.shown
    decreases |events|
  {
    if events != [] {
      assert !EndsConnection(events[0]);
      StuckUntilHangUp(k, After(k, f, events[0]), events[1..]);
    }
  }

  /** Such a connection comes about: two connections, made while the first one's thread lives on. */
  lemma LatchSticksAfterLatePacket(k: Aead, f: Form, first: Descriptor, second: Descriptor)
    requires LatchOk(f) && !f.conn.connected && f.conn.threads == 1
    ensures Stuck(After(k, Run(k, After(k, f, Connect(Reached(first))), LatePacket()), Connect(Reached(second))))
  {
    LatePacketRuns(k, After(k, f, Connect(Reached(first))));
  }

  // ---- the command history ----

  function Presses(e: Event, n: nat): seq<Event> { seq(n, _ => e) }

  /** Right after a send that leaves n commands, k presses of Up have shown n-1, ..., n-k. */
  lemma {:induction false} UpWalksBack(k: Aead, f: Form, presses: nat)
    requires f.commandIndex == |f.commands| - 1
    requires 1 <= presses <= |f.commands|
    ensures Run(k, f, Presses(Up, presses)).command == f.commands[|f.commands| - presses]
    ensures Run(k, f, Presses(Up, presses)).commandIndex == |f.commands| - presses - 1
    ensures Run(k, f, Presses(Up, presses)).commands == f.commands
  {
    assert Presses(Up, presses) == Presses(Up, presses - 1) + [Up];
    RunAppend(k, f, Presses(Up, presses - 1), [Up]);
    var g := Run(k, f, Presses(Up, presses - 1));
    assert Run(k, g, [Up]) == After(k, g, Up);
    if presses > 1 {
      UpWalksBack(k, f, presses - 1);
    } else {
      assert g == f;
    }
  }

  /** The same, said of the send itself. */
  lemma UpAfterSend(k: Aead, f: Form, presses: nat)
    requires HistoryInRange(f) && f.conn.connected && !f.conn.ended
    requires 1 <= presses <= |f.commands| + 1
    ensures var g := Sent(k, f, true);
            && g.commands == f.commands + [f.command]
            && Run(k, g, Presses(Up, presses)).command == g.commands[|g.commands| - presses]
  {
    UpWalksBack(k, Sent(k, f, true), presses);
  }

  /** Behind the oldest entry, and with nothing in the history, Up shows nothing new and starts over at the first entry. */
  lemma UpStartsOver(k: Aead, f: Form)
    requires HistoryInRange(f) && !(0 <= f.commandIndex < |f.commands|)
    ensures var g := After(k, f, Up);
            && g.command == f.command && g.commandIndex == 0 && g.commands == f.commands
            && (f.commands != [] ==> After(k, g, Up).command == f.commands[0])
  {
  }

  /** Presses of Down show the entries behind the index one by one, and then stay on the last. */
  lemma {:induction false} DownWalksForward(k: Aead, f: Form, presses: nat)
    requires HistoryInRange(f) && 1 <= presses <= |f.commands| - 1 - f.commandIndex
    ensures var g := Run(k, f, Presses(Down, presses));
            && g.command == f.commands[f.commandIndex + presses] && g.commandIndex == f.commandIndex + presses
            && g.commands == f.commands
            && (g.commandIndex == |f.commands| - 1 ==> After(k, g, Down) == g)
  {
    assert Presses(Down, presses) == Presses(Down, presses - 1) + [Down];
    RunAppend(k, f, Presses(Down, presses - 1), [Down]);
    var g := Run(k, f, Presses(Down, presses - 1));
    assert Run(k, g, [Down]) == After(k, g, Down);
    if presses > 1 {
      DownWalksForward(k, f, presses - 1);
    } else {
      assert g == f;
    }
  }

  /** A new connection forgets the commands of the one before; a failed attempt, or one while connected, does not. */
  lemma ConnectForgets(k: Aead, f: Form, attempt: Attempt)
    requires HistoryInRange(f)
    ensures var g := After(k, f, Connect(attempt));
            && (if !f.conn.connected && attempt.Reached?
                then g.commands == [] && g.commandIndex == -1 && g.conn.connected && g.polling
                else g.commands == f.commands && g.commandIndex == f.commandIndex
                     && g.conn.connected == f.conn.connected && g.polling == f.polling)
            && g.conn.output == f.conn.output && g.conn.ended == f.conn.ended && g.conn.sent == f.conn.sent
            && g.shown == f.shown && g.command == f.command
    ensures var c := After(k, f, Connect(attempt)).conn;
            && c.threads == f.conn.threads + (if !f.conn.connected && attempt.Reached? then 1 else 0)
            && (f.conn.connected || attempt.NoHost? ==> c.socket == f.conn.socket)
            && (!f.conn.connected && attempt.NoSocket? ==> c.socket == -1)
            && (!f.conn.connected && (attempt.Refused? || attempt.Reached?) ==> c.socket == attempt.socket)
  {
  }

  /** A command that is sent leaves the line empty, joins the history, drops the buffer and allows a cancel. */
  lemma SendTakesTheLine(k: Aead, f: Form)
    requires HistoryInRange(f) && f.conn.connected && !f.conn.ended
    ensures var g := After(k, f, Send(true));
            && g.command == [] && g.commands == f.commands + [f.command] && g.commandIndex == |g.commands| - 1
            && g.conn.output == [] && g.conn.connected && !g.conn.ended && g.cancelEnabled && g.shown == f.shown
  {
  }

  /** A poll shows the text of the buffer once, if there is any; it forbids a cancel exactly after an end code. */
  lemma PollShowsBuffer(k: Aead, f: Form)
    requires HistoryInRange(f) && f.conn.connected && f.conn.output != []
    ensures var g := After(k, f, Poll);
            && Concat(g.shown) == Concat(f.shown) + BufferText(k, f.conn.output) && f.shown <= g.shown
            && g.conn.output == [] && !g.conn.ended && g.conn.connected && g.conn.sent == f.conn.sent
            && g.cancelEnabled == (f.cancelEnabled && !f.conn.ended)
            && g.commands == f.commands && g.command == f.command && g.polling == f.polling
  {
    ConcatLast(f.shown, BufferText(k, f.conn.output));
    assert Concat(f.shown) + [] == Concat(f.shown);
  }

  /** The first poll after the connection is lost leaves the form disconnected, with no timer, and says nothing. */
  lemma PollNoticesLoss(k: Aead, f: Form)
    requires HistoryInRange(f) && !f.conn.connected
    ensures var g := After(k, f, Poll);
            !g.polling && g.conn == f.conn.(output := []) && g.shown == f.shown && g.commands == f.commands
  {
  }

  /** A send or a cancel the socket does not take disconnects. */
  lemma RefusedSendDisconnects(k: Aead, f: Form)
    requires HistoryInRange(f) && f.conn.connected && !f.conn.ended && f.conn.socket != 0
    ensures forall e :: e in [Send(false), Cancel(false), Disconnect] ==>
              var g := After(k, f, e);
              !g.conn.connected && !g.conn.ended && g.conn.output == [] && !g.polling && g.shown == f.shown
  {
  }

  // ---- the objects ----

  /** Reading one piece moves its text from what is left to what has been read. */
  lemma PieceRead(k: Aead, text: Bytes, pieces: seq<Bytes>, i: nat)
    requires i < |pieces|
    ensures text + PiecesText(k, pieces[i..]) == text + PieceText(k, pieces[i]) + PiecesText(k, pieces[i + 1..])
  {
    assert pieces[i..][1..] == pieces[i + 1..];
  }

  class TCPClient {
    var serverOutput: Bytes
    var isConnected: bool
    var transmissionEnd: bool
    var currentSocket: int
    var receiveThreads: nat
    var sent: seq<Bytes>

    function View(): Conn
      reads this
    {
      Conn(serverOutput, isConnected, transmissionEnd, currentSocket, receiveThreads, sent)
    }

    constructor ()
      ensures View() == Conn([], false, false, 0, 0, [])
    {
      serverOutput, isConnected, transmissionEnd, currentSocket := [], false, false, 0;
      receiveThreads, sent := 0, [];
    }

    method ClearServerOutput()
      modifies this
      ensures View() == old(View()).(output := [])
    {
      serverOutput := "";
    }

    method SetTransmissionEnd(end: bool)
      modifies this
      ensures View() == old(View()).(ended := end)
    {
      transmissionEnd := end;
    }

    method SendMessage(message: Bytes, accepted: bool) returns (ok: bool)
      modifies this
      ensures ok == accepted && View() == old(View()).(sent := old(sent) + [message])
    {
      sent := sent + [message];
      ok := accepted;
    }

    method Connect(attempt: Attempt) returns (ok: bool)
      modifies this
      ensures ok == attempt.Reached? && View() == Dialled(old(View()), attempt)
    {
      isConnected := false;
      if !attempt.NoHost? {
        currentSocket := if attempt.NoSocket? then -1 else attempt.socket;
        if currentSocket != -1 && attempt.Reached? {
          isConnected := true;
          receiveThreads := receiveThreads + 1;
        }
      }
      ok := isConnected;
    }

    method Disconnect()
      modifies this
      ensures View() == HungUp(old(View()))
    {
      if currentSocket != 0 {
        isConnected := false;
        transmissionEnd := false;
      }
    }

    /** `recv` into the zeroed buffer, read back as a C string: lines 115 and 119. */
    method ReadPacket(packet: array<byte>, data: Packet, beyond: Bytes) returns (text: Bytes)
      requires packet[..] == Zeros(PACKET_SIZE)
      modifies packet
      ensures text == CStr(Memory(PACKET_SIZE, data, beyond))
    {
      Fill(packet, data);
      assert Zeros(PACKET_SIZE)[|data|..] == Zeros(PACKET_SIZE - |data|);
      text := CStr(packet[..] + beyond);
    }

    /** The receive thread: every packet until `recv` returns nothing, then the hang-up. */
    method ReceiveLoop(arrivals: seq<(Packet, Bytes)>)
      requires receiveThreads > 0
      modifies this
      ensures View() == ThreadEnded(ReceivedAll(old(View()), arrivals))
    {
      var packet := new byte[PACKET_SIZE](_ => NUL);
      var i := 0;
      while i < |arrivals|
        invariant 0 <= i <= |arrivals|
        invariant fresh(packet) && packet[..] == Zeros(PACKET_SIZE)
        invariant ReceivedAll(View(), arrivals[i..]) == ReceivedAll(old(View()), arrivals)
        invariant receiveThreads > 0
      {
        var sPacket := ReadPacket(packet, arrivals[i].0, arrivals[i].1);
        if !transmissionEnd {
          if |sPacket| > 0 {
            serverOutput := serverOutput + sPacket;
            transmissionEnd := Contains(sPacket, END_CODE);
          }
        }
        Clear(packet);
        assert arrivals[i..][1..] == arrivals[i + 1..];
        i := i + 1;
      }
      Disconnect();
      receiveThreads := receiveThreads - 1;
    }
  }

  function ReceivedAll(c: Conn, arrivals: seq<(Packet, Bytes)>): Conn
    decreases |arrivals|
  {
    if arrivals == [] then c
    else ReceivedAll(Received(c, arrivals[0].0, arrivals[0].1), arrivals[1..])
  }

  class MainForm {
    const conn: TCPClient
    const crypto: Crypto
    var commands: seq<Bytes>
    var commandIndex: int
    var command: Bytes
    var shown: seq<Bytes>
    var cancelEnabled: bool
    var messageTimer: bool

    function View(): Form
      reads this, conn
    {
      Form(conn.View(), commands, commandIndex, command, shown, cancelEnabled, messageTimer)
    }

    /** The index is whatever the memory held until the first connection sets it. */
    constructor (conn: TCPClient, crypto: Crypto, commandIndex: int)
      ensures this.conn == conn && this.crypto == crypto
      ensures View() == Form(conn.View(), [], commandIndex, [], [], false, false)
    {
      this.conn, this.crypto, this.commandIndex := conn, crypto, commandIndex;
      commands, command, shown, cancelEnabled, messageTimer := [], [], [], false, false;
    }

    method Disconnect()
      modifies this, conn
      ensures View() == Disconnected(crypto.key, old(View()))
    {
      conn.ClearServerOutput();
      if conn.isConnected {
        var code := crypto.EncryptString(DISCONNECT_CODE);
        var ok := conn.SendMessage(code, true);
        conn.Disconnect();
      }
      messageTimer := false;
    }

    /** The disconnect button and the exit menu: lines 162-165 and 128-129. */
    method Leave()
      modifies this, conn
      ensures View() == Left(crypto.key, old(View()))
    {
      if conn.isConnected {
        Disconnect();
      }
    }

    /** Decrypt the pieces of the buffer one by one: lines 347-353. */
    method ReadPieces(serverOutputList: seq<Bytes>) returns (serverOutput: Bytes)
      modifies crypto
      ensures serverOutput == PiecesText(crypto.key, serverOutputList)
    {
      serverOutput := "";
      var i := 0;
      while i < |serverOutputList|
        invariant 0 <= i <= |serverOutputList|
        invariant serverOutput + PiecesText(crypto.key, serverOutputList[i..])
               == PiecesText(crypto.key, serverOutputList)
      {
        PieceRead(crypto.key, serverOutput, serverOutputList, i);
        var text := ReadPiece(serverOutputList[i]);
        serverOutput := serverOutput + text;
        i := i + 1;
      }
      assert serverOutput + PiecesText(crypto.key, []) == serverOutput;
    }

    method ReadPiece(outputLine: Bytes) returns (text: Bytes)
      modifies crypto
      ensures text == PieceText(crypto.key, outputLine)
    {
      text := "";
      if |outputLine| > 0 && outputLine != END_CODE {
        text := crypto.DecryptString(outputLine);
      }
    }

    /** The one-second timer: split the buffer on bars, decrypt, show, release the latch. */
    method CheckMessages()
      modifies this, conn, crypto
      ensures View() == Polled(crypto.key, old(View()))
    {
      if conn.isConnected {
        if |conn.serverOutput| > 0 {
          var serverOutput := ReadPieces(Split(conn.serverOutput));
          if |serverOutput| > 0 {
            shown := shown + [serverOutput];
          }
          if !conn.transmissionEnd {
            conn.ClearServerOutput();
          } else {
            cancelEnabled := false;
            conn.ClearServerOutput();
            conn.SetTransmissionEnd(false);
          }
        }
      } else {
        Disconnect();
      }
    }

    /** A connection attempt. */
    method Connect(attempt: Attempt)
      modifies this, conn
      ensures View() == AfterConnect(old(View()), attempt)
    {
      if !conn.isConnected {
        var ok := conn.Connect(attempt);
        if ok {
          commandIndex := -1;
          commands := [];
          messageTimer := true;
        }
      }
    }

    method SendCommand(accepted: bool)
      modifies this, conn
      ensures View() == Sent(crypto.key, old(View()), accepted)
    {
      if conn.isConnected && !conn.transmissionEnd {
        conn.ClearServerOutput();
        var message := MESSAGE_CODE + command;
        commands := commands + [command];
        commandIndex := |commands| - 1;
        command := "";
        cancelEnabled := true;
        var sealed := crypto.EncryptString(message);
        var ok := conn.SendMessage(sealed, accepted);
        if !ok {
          Disconnect();
        }
      }
    }

    method CancelCommand(accepted: bool)
      modifies this, conn
      ensures View() == Cancelled(crypto.key, old(View()), accepted)
    {
      if conn.isConnected && !conn.transmissionEnd {
        var sealed := crypto.EncryptString(CANCEL_CODE);
        var ok := conn.SendMessage(sealed, accepted);
        if !ok {
          Disconnect();
        }
      }
    }

    method KeyUp()
      modifies this
      ensures View() == WentUp(old(View()))
    {
      if commandIndex >= 0 && |commands| > commandIndex {
        command := commands[commandIndex];
        commandIndex := commandIndex - 1;
      } else {
        commandIndex := 0;
      }
    }

    method KeyDown()
      requires DownIsInRange(commands, commandIndex)
      modifies this
      ensures View() == WentDown(old(View()))
    {
      commandIndex := commandIndex + 1;
      if |commands| > commandIndex {
        command := commands[commandIndex];
      } else {
        commandIndex := |commands| - 1;
      }
    }
  }
}

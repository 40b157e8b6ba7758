/**
 End to end: what the server sends for one command, cut into packets in any way
 and polled at any whole-frame moments, is what the client shows.
 */
module Delivery {
  import opened Text
  import opened Sealing
  import opened Wire
  import opened Client
  import opened Buffers
  import Hex
  import Pump

  /** The packets that arrive between two polls, and the sends they make up. */
  datatype Round = Round(tokens: seq<Token>, packets: seq<(Packet, Bytes)>)

  function Datas(ps: seq<(Packet, Bytes)>): (r: seq<Bytes>)
    ensures |r| == |ps| && forall i :: 0 <= i < |ps| ==> r[i] == ps[i].0
  {
    seq(|ps|, i requires 0 <= i < |ps| => ps[i].0)
  }

  predicate EndsWithEnd(ts: seq<Token>) { ts != [] && ts[|ts| - 1] == End }

  /** An end token is never followed by anything in the same buffer. */
  predicate EndOnlyLast(ts: seq<Token>) {
    forall i :: 0 <= i < |ts| - 1 ==> ts[i].Frame?
  }

  /** The packet is followed by a NUL, in its buffer or right behind it. */
  predicate Terminated(p: (Packet, Bytes)) { |p.0| < PACKET_SIZE || CStr(p.1) == [] }

  /** The poll that closes the round sees whole frames, in packets that a NUL follows. */
  predicate Orderly(k: Aead, r: Round) {
    && Concat(Datas(r.packets)) == Stream(k, r.tokens)
    && EndOnlyLast(r.tokens)
    && forall i :: 0 <= i < |r.packets| ==> Terminated(r.packets[i])
  }

  predicate AllOrderly(k: Aead, rounds: seq<Round>) {
    rounds == [] || (Orderly(k, rounds[0]) && AllOrderly(k, rounds[1..]))
  }

  function Arrivals(ps: seq<(Packet, Bytes)>): (r: seq<Event>)
    ensures |r| == |ps| && forall i :: 0 <= i < |ps| ==> r[i] == Arrives(ps[i].0, ps[i].1)
  {
    seq(|ps|, i requires 0 <= i < |ps| => Arrives(ps[i].0, ps[i].1))
  }

  function RoundEvents(r: Round): seq<Event> { Arrivals(r.packets) + [Poll] }

  /** The client's events: the packets of each round, then its poll. */
  function Schedule(rounds: seq<Round>): seq<Event> {
    if rounds == [] then []
    else RoundEvents(rounds[0]) + Schedule(rounds[1..])
  }

  function AllTokens(rounds: seq<Round>): seq<Token> {
    if rounds == [] then [] else rounds[0].tokens + AllTokens(rounds[1..])
  }

  /** Connected, nothing buffered, not latched: how a connection begins and how every poll leaves it. */
  predicate Idle(f: Form) {
    && HistoryInRange(f) && f.conn.connected && !f.conn.ended && f.conn.output == []
    && f.conn.threads > 0 && f.polling
  }

  lemma {:induction false} StreamHasNoNul(k: Aead, ts: seq<Token>)
    ensures NUL !in Stream(k, ts)
  {
    if ts != [] {
      StreamHasNoNul(k, ts[1..]);
      if ts[0].Frame? {
        FrameShape(k, ts[0].text);
      }
    }
  }

  lemma LastTokenOffset(k: Aead, ts: seq<Token>)
    requires ts != []
    ensures Offset(k, ts, |ts| - 1) + |Image(k, ts[|ts| - 1])| == |Stream(k, ts)|
  {
    assert ts == ts[..|ts| - 1] + [ts[|ts| - 1]];
    StreamAppend(k, ts[..|ts| - 1], [ts[|ts| - 1]]);
    assert Stream(k, [ts[|ts| - 1]]) == Image(k, ts[|ts| - 1]) + Stream(k, []);
  }

  /** With the end code only at the end, a piece of the stream holds it exactly when it reaches the end. */
  lemma EndWithinTail(k: Aead, ts: seq<Token>, a: nat, b: nat)
    requires a <= b <= |Stream(k, ts)| && EndOnlyLast(ts)
    ensures EndWithin(k, ts, a, b) <==> EndsWithEnd(ts) && b == |Stream(k, ts)| && a + 3 <= b
  {
    if ts != [] {
      LastTokenOffset(k, ts);
    }
    if EndWithin(k, ts, a, b) {
      var j: nat, i: nat :| EndStartsAt(k, ts, j, i) && a <= i && i + 3 <= b;
      assert j == |ts| - 1;
    }
    if EndsWithEnd(ts) && b == |Stream(k, ts)| && a + 3 <= b {
      assert EndStartsAt(k, ts, |ts| - 1, b - 3);
    }
  }

  /** Where packet `m` lies in the stream of its round. */
  lemma PacketPosition(ds: seq<Bytes>, m: nat)
    requires m < |ds| && forall i :: 0 <= i < |ds| ==> ds[i] != []
    ensures var a := |Concat(ds[..m])|; var b := a + |ds[m]|;
            && b <= |Concat(ds)| && Concat(ds)[a..b] == ds[m]
            && (b == |Concat(ds)| <==> m == |ds| - 1)
  {
    ConcatSlice(ds, m);
    if m < |ds| - 1 {
      ConcatSlice(ds, m + 1);
      assert ds[..m + 1] == ds[..m] + [ds[m]];
      ConcatLast(ds[..m], ds[m]);
    } else {
      assert ds == ds[..m] + [ds[m]];
      ConcatLast(ds[..m], ds[m]);
    }
  }

  /** A packet of the round holds the end code exactly when it is the last, long enough, and an end token is due. */
  lemma PacketHoldsEnd(k: Aead, r: Round, m: nat)
    requires Orderly(k, r) && m < |r.packets|
    ensures Contains(r.packets[m].0, END_CODE) <==>
            m == |r.packets| - 1 && EndsWithEnd(r.tokens) && |r.packets[m].0| >= 3
  {
    var a, b := PacketSlice(k, r, m);
    SearchFindsOnlyEnds(k, r.tokens, a, b);
    EndWithinTail(k, r.tokens, a, b);
  }

  lemma PacketSlice(k: Aead, r: Round, m: nat) returns (a: nat, b: nat)
    requires Orderly(k, r) && m < |r.packets|
    ensures a + |r.packets[m].0| == b <= |Stream(k, r.tokens)|
    ensures Stream(k, r.tokens)[a..b] == r.packets[m].0
    ensures b == |Stream(k, r.tokens)| <==> m == |r.packets| - 1
  {
    var ds := Datas(r.packets);
    a := |Concat(ds[..m])|;
    b := a + |ds[m]|;
    PacketPosition(ds, m);
  }

  /** The connection after `m` packets of a round. */
  function Buffered(f: Form, ps: seq<(Packet, Bytes)>, m: nat): Form
    requires m <= |ps|
  {
    f.(conn := f.conn.(output := Concat(Datas(ps[..m])), ended := m > 0 && Contains(ps[m - 1].0, END_CODE)))
  }

  lemma ReadsTerminated(p: (Packet, Bytes))
    requires Terminated(p) && NUL !in p.0
    ensures CStr(Memory(PACKET_SIZE, p.0, p.1)) == p.0
  {
    if |p.0| < PACKET_SIZE {
      ReadsWhole(PACKET_SIZE, p.0, p.1);
    } else {
      ReadsOn(p.0, p.1);
      assert p.0 + [] == p.0;
    }
  }

  lemma OneMorePacket(k: Aead, f: Form, r: Round, m: nat)
    requires Idle(f) && Orderly(k, r) && m < |r.packets|
    ensures After(k, Buffered(f, r.packets, m), Arrives(r.packets[m].0, r.packets[m].1))
         == Buffered(f, r.packets, m + 1)
  {
    var ps := r.packets;
    if m > 0 {
      PacketHoldsEnd(k, r, m - 1);
    }
    PacketHasNoNul(k, r, m);
    ReadsTerminated(ps[m]);
    assert Datas(ps[..m + 1]) == Datas(ps[..m]) + [ps[m].0];
    ConcatLast(Datas(ps[..m]), ps[m].0);
  }

  lemma RunOne(k: Aead, f: Form, es: seq<Event>, e: Event)
    requires HistoryInRange(f)
    ensures Run(k, f, es + [e]) == After(k, Run(k, f, es), e)
  {
    RunAppend(k, f, es, [e]);
    assert Run(k, Run(k, f, es), [e]) == Run(k, After(k, Run(k, f, es), e), []);
  }

  /** The buffer after the first m packets of a round. */
  lemma {:induction false} PacketsAccumulate(k: Aead, f: Form, r: Round, m: nat)
    requires Idle(f) && Orderly(k, r) && m <= |r.packets|
    ensures Run(k, f, Arrivals(r.packets[..m])) == Buffered(f, r.packets, m)
  {
    if m > 0 {
      var last := r.packets[m - 1];
      PacketsAccumulate(k, f, r, m - 1);
      assert Arrivals(r.packets[..m]) == Arrivals(r.packets[..m - 1]) + [Arrives(last.0, last.1)];
      RunOne(k, f, Arrivals(r.packets[..m - 1]), Arrives(last.0, last.1));
      OneMorePacket(k, f, r, m - 1);
    }
  }

  lemma PacketHasNoNul(k: Aead, r: Round, m: nat)
    requires Orderly(k, r) && m < |r.packets|
    ensures NUL !in r.packets[m].0
  {
    ConcatSlice(Datas(r.packets), m);
    StreamHasNoNul(k, r.tokens);
  }

  /** The client latches in a round exactly when the round's end code arrived in one packet. */
  lemma LatchIffEndUnsplit(k: Aead, f: Form, r: Round)
    requires Idle(f) && Orderly(k, r)
    ensures Run(k, f, Arrivals(r.packets)).conn.ended <==>
            EndsWithEnd(r.tokens) && |r.packets[|r.packets| - 1].0| >= 3
  {
    var n := |r.packets|;
    assert r.packets[..n] == r.packets;
    PacketsAccumulate(k, f, r, n);
    if n > 0 {
      PacketHoldsEnd(k, r, n - 1);
    }
  }

  /** Sends with the end code only at the end are frames, and then perhaps that code. */
  lemma TokensAreFrames(k: Aead, ts: seq<Token>) returns (texts: seq<Bytes>)
    requires EndOnlyLast(ts)
    ensures ts == Frames(texts) + if EndsWithEnd(ts) then [End] else []
    ensures Stream(k, ts) == Stream(k, Frames(texts)) + if EndsWithEnd(ts) then END_CODE else []
    ensures Carried(ts) == Concat(texts)
  {
    var n := if EndsWithEnd(ts) then |ts| - 1 else |ts|;
    texts := seq(n, i requires 0 <= i < n => ts[i].text);
    assert ts == Frames(texts) + ts[n..];
    StreamAppend(k, Frames(texts), ts[n..]);
    CarriedAppend(Frames(texts), ts[n..]);
    CarriedFrames(texts);
    assert EndsWithEnd(ts) ==> Stream(k, ts[n..]) == END_CODE + Stream(k, []);
  }

  /** Between the two idle forms `f` and `g` the client has shown exactly what `ts` carries. */
  ghost predicate Showed(f: Form, g: Form, ts: seq<Token>) {
    Idle(g) && Concat(g.shown) == Concat(f.shown) + Carried(ts)
  }

  lemma ShowedThenShowed(f: Form, g: Form, h: Form, a: seq<Token>, b: seq<Token>)
    requires Showed(f, g, a) && Showed(g, h, b)
    ensures Showed(f, h, a + b)
  {
    CarriedAppend(a, b);
  }

  /** One round: the poll shows what the round carried and leaves the connection idle. */
  lemma RoundDelivers(k: Aead, f: Form, r: Round)
    requires Idle(f) && Orderly(k, r)
    ensures Showed(f, Run(k, f, RoundEvents(r)), r.tokens)
  {
    var n := |r.packets|;
    assert r.packets[..n] == r.packets;
    PacketsAccumulate(k, f, r, n);
    RunOne(k, f, Arrivals(r.packets), Poll);
    var h := Run(k, f, Arrivals(r.packets));
    var texts := TokensAreFrames(k, r.tokens);
    BufferTextOfFrames(k, texts, EndsWithEnd(r.tokens));
    assert BufferText(k, h.conn.output) == Carried(r.tokens);
    ConcatLast(f.shown, Carried(r.tokens));
    if h.conn.output == [] {
      assert Split([]) == [[]];
      assert BufferText(k, []) == PieceText(k, []) + PiecesText(k, []);
    }
  }

  /** Packets and polls of a connection whose thread and timer are alive can happen in any order. */
  lemma {:induction false} PacketsAreARun(k: Aead, f: Form, events: seq<Event>)
    requires HistoryInRange(f) && f.conn.connected && f.conn.threads > 0 && f.polling
    requires forall e :: e in events ==> e.Arrives? || e.Poll?
    ensures IsRun(k, f, events)
    decreases |events|
  {
    if events != [] {
      assert events[0] in events;
      PacketsAreARun(k, After(k, f, events[0]), events[1..]);
    }
  }

  lemma {:induction false} ScheduleIsPacketsAndPolls(rounds: seq<Round>, e: Event)
    requires e in Schedule(rounds)
    ensures e.Arrives? || e.Poll?
  {
    if e !in RoundEvents(rounds[0]) {
      ScheduleIsPacketsAndPolls(rounds[1..], e);
    }
  }

  /** Every schedule is one the client can go through. */
  lemma ScheduleIsARun(k: Aead, f: Form, rounds: seq<Round>)
    requires Idle(f)
    ensures IsRun(k, f, Schedule(rounds))
  {
    forall e | e in Schedule(rounds)
      ensures e.Arrives? || e.Poll?
    {
      ScheduleIsPacketsAndPolls(rounds, e);
    }
    PacketsAreARun(k, f, Schedule(rounds));
  }

  lemma ScheduleSteps(k: Aead, f: Form, rounds: seq<Round>)
    requires HistoryInRange(f) && rounds != []
    ensures Run(k, f, Schedule(rounds)) == Run(k, Run(k, f, RoundEvents(rounds[0])), Schedule(rounds[1..]))
  {
    RunAppend(k, f, RoundEvents(rounds[0]), Schedule(rounds[1..]));
  }

  /**
   Any number of rounds: however the stream was cut into packets and whenever it
   was polled, the client has shown exactly the text the sends carried.
   */
  lemma {:induction false} StreamIsDelivered(k: Aead, f: Form, rounds: seq<Round>)
    requires Idle(f)
    requires AllOrderly(k, rounds)
    ensures Showed(f, Run(k, f, Schedule(rounds)), AllTokens(rounds))
    decreases |rounds|
  {
    if rounds == [] {
      assert Run(k, f, Schedule(rounds)) == f;
    } else {
      var g := Run(k, f, RoundEvents(rounds[0]));
      RoundDelivers(k, f, rounds[0]);
      StreamIsDelivered(k, g, rounds[1..]);
      ScheduleSteps(k, f, rounds);
      ShowedThenShowed(f, g, Run(k, g, Schedule(rounds[1..])), rounds[0].tokens, AllTokens(rounds[1..]));
    }
  }

  /**
   The whole path of one command: pipe reads without NULs, pumped into frames,
   cut into packets, polled, split, decrypted. The client shows the header, every
   byte the child printed in order, and the killed notice.
   */
  lemma CommandOutputIsDelivered(
    k: Aead, f: Form, rounds: seq<Round>, header: Bytes, chunks: seq<Bytes>, pid: int)
    requires Idle(f) && f.shown == []
    requires AllOrderly(k, rounds)
    requires AllTokens(rounds) == Pump.Response(header, chunks, pid)
    requires NUL !in Concat(chunks)
    ensures Concat(Run(k, f, Schedule(rounds)).shown) == header + Concat(chunks) + Pump.Killed(pid)
  {
    StreamIsDelivered(k, f, rounds);
    Pump.ResponseCarries(header, chunks, pid);
    Pump.PumpConservesBytes(chunks);
  }

  /** Two ways of cutting and polling the same sends show the same text. */
  lemma ChunkingDoesNotMatter(k: Aead, f: Form, rounds: seq<Round>, others: seq<Round>)
    requires Idle(f)
    requires AllOrderly(k, rounds)
    requires AllOrderly(k, others)
    requires Concat(AllImages(k, rounds)) == Concat(AllImages(k, others))
    ensures Concat(Run(k, f, Schedule(rounds)).shown) == Concat(Run(k, f, Schedule(others)).shown)
  {
    StreamIsDelivered(k, f, rounds);
    StreamIsDelivered(k, f, others);
    ImagesAreStream(k, rounds);
    ImagesAreStream(k, others);
    StreamIsUnambiguous(k, AllTokens(rounds), AllTokens(others));
  }

  /** The bytes received, round by round. */
  function AllImages(k: Aead, rounds: seq<Round>): seq<Bytes> {
    if rounds == [] then [] else [Stream(k, rounds[0].tokens)] + AllImages(k, rounds[1..])
  }

  lemma {:induction false} ImagesAreStream(k: Aead, rounds: seq<Round>)
    ensures Concat(AllImages(k, rounds)) == Stream(k, AllTokens(rounds))
  {
    if rounds != [] {
      StreamAppend(k, rounds[0].tokens, AllTokens(rounds[1..]));
      ImagesAreStream(k, rounds[1..]);
      assert AllImages(k, rounds)[1..] == AllImages(k, rounds[1..]);
    }
  }
}

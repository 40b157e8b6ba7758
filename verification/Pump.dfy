/**
 `HandleClientPipe`: the loop that turns what a child process prints into frames,
 here run without interference. SlotLife.dfy interleaves the same loop with the
 session thread, one statement at a time.
 */
module Pump {
  import opened Text
  import opened Sealing
  import opened Wire
  import opened Buffers
  import Decimal

  const READ_SIZE := 512

  type Chunk = b: Bytes | 1 <= |b| <= READ_SIZE witness ['a']

  /** One `read` of the pipe; `cancelled` is what the test of `exitCode` then sees. */
  datatype Outcome = Data(bytes: Chunk) | WouldBlock(cancelled: bool) | Closed

  /** Does the loop go round again after this read? */
  predicate Continues(o: Outcome) { o.Data? || (o.WouldBlock? && !o.cancelled) }

  /** The reads the loop performs. A script that runs out is a closed pipe. */
  function Performed(script: seq<Outcome>): seq<Outcome> {
    if script == [] || !Continues(script[0]) then [] else [script[0]] + Performed(script[1..])
  }

  /** The bytes each read returned. */
  function Reads(performed: seq<Outcome>): seq<Bytes> {
    if performed == [] then []
    else (if performed[0].Data? then [performed[0].bytes] else []) + Reads(performed[1..])
  }

  /** The text of one data frame: the read up to its first NUL. */
  function TextsOf(chunks: seq<Bytes>): (r: seq<Bytes>)
    ensures |r| == |chunks| && forall i :: 0 <= i < |r| ==> r[i] == CStr(chunks[i])
  {
    seq(|chunks|, i requires 0 <= i < |chunks| => CStr(chunks[i]))
  }

  function Killed(pid: int): Bytes {
    "\n[Process " + Decimal.Print(pid) + " killed]"
  }

  /** What follows the header: the data frames, the killed notice, the end code. */
  function Body(chunks: seq<Bytes>, pid: int): seq<Token> {
    Frames(TextsOf(chunks)) + [Frame(Killed(pid)), End]
  }

  /** Everything one console sends for one command. */
  function Response(header: Bytes, chunks: seq<Bytes>, pid: int): seq<Token> {
    [Frame(header)] + Body(chunks, pid)
  }

  /** Signed 32-bit addition that wraps. */
  function Wrap32(n: int): Decimal.int32 {
    (n + 0x8000_0000) % 0x1_0000_0000 - 0x8000_0000
  }

  lemma WrapAdds(a: int, b: int)
    ensures Wrap32(Wrap32(a) + b) == Wrap32(a + b)
  {
  }

  lemma {:induction false} ReadsAppend(a: seq<Outcome>, b: seq<Outcome>)
    ensures Reads(a + b) == Reads(a) + Reads(b)
  {
    if a == [] {
      assert a + b == b;
    } else {
      assert (a + b)[1..] == a[1..] + b;
      ReadsAppend(a[1..], b);
    }
  }

  /** The shared fields of one `ClientConsole` entry that the loop touches. */
  class Console {
    const key: Aead
    var sends: seq<Bytes>        // every `send` on the client's socket, in order
    var childInput: seq<Bytes>   // every `write` to the child's standard input
    var nextCommand: Bytes
    var hasNextCommand: bool
    var exitCode: int
    var pipeActive: bool

    constructor (key: Aead)
      ensures this.key == key && sends == [] && childInput == []
      ensures nextCommand == [] && !hasNextCommand && exitCode == 0 && !pipeActive
    {
      this.key := key;
      sends, childInput := [], [];
      nextCommand, hasNextCommand, exitCode, pipeActive := [], false, 0, false;
    }

    method SendFrame(text: Bytes)
      modifies `sends
      ensures sends == old(sends) + [Image(key, Frame(text))]
    {
      var serverOutput := Encrypt(key, text);
      serverOutput := serverOutput + [BAR];
      sends := sends + [serverOutput];
    }

    /** The branch that forwards a read: lines 431-438. */
    method Forward(buffer: array<byte>, bytes: Chunk, total: Decimal.int32) returns (newTotal: Decimal.int32)
      requires buffer.Length == READ_SIZE + 1 && buffer[..] == Zeros(buffer.Length)
      modifies buffer, `sends
      ensures sends == old(sends) + [Image(key, Frame(CStr(bytes)))]
      ensures newTotal == Wrap32(total + |CStr(bytes)|)
    {
      Fill(buffer, bytes);
      var serverOutput := CStr(buffer[..]);
      assert old(buffer[|bytes|..]) == Zeros(READ_SIZE + 1)[|bytes|..];
      CStrOfPadded(bytes, READ_SIZE + 1);
      newTotal := Wrap32(total + |serverOutput|);
      SendFrame(serverOutput);
    }

    /** The hand-over of a waiting line to the child: lines 445-451. */
    method PassInput()
      modifies `childInput, `hasNextCommand, `nextCommand
      ensures childInput == old(childInput) + if old(hasNextCommand) then [CStr(old(nextCommand))] else []
      ensures !hasNextCommand
      ensures nextCommand == if old(hasNextCommand) then [] else old(nextCommand)
    {
      if hasNextCommand {
        childInput := childInput + [CStr(nextCommand)];
        hasNextCommand := false;
        nextCommand := [];
      }
    }

    /** One turn of the loop that goes on: lines 406-454. */
    method Turn(buffer: array<byte>, o: Outcome, total: Decimal.int32, ghost before: seq<Bytes>, ghost performed: seq<Outcome>)
      returns (newTotal: Decimal.int32)
      requires Continues(o)
      requires buffer.Length == READ_SIZE + 1 && buffer[..] == Zeros(buffer.Length)
      requires sends == before + DataFrames(key, performed) && total == TextLength(performed)
      modifies buffer, `sends, `childInput, `hasNextCommand, `nextCommand
      ensures buffer[..] == Zeros(buffer.Length)
      ensures sends == before + DataFrames(key, performed + [o])
      ensures newTotal == TextLength(performed + [o])
      ensures childInput == old(childInput) + if old(hasNextCommand) then [CStr(old(nextCommand))] else []
      ensures !hasNextCommand
      ensures nextCommand == if old(hasNextCommand) then [] else old(nextCommand)
    {
      newTotal := total;
      OneMoreRead(key, performed, o);
      if o.Data? {
        newTotal := Forward(buffer, o.bytes, total);
      }
      PassInput();
      Clear(buffer);
    }

    /** After the loop: the killed notice, the end code, and the two flags; lines 463-471. */
    method Finish(pid: int, ghost before: seq<Bytes>, ghost performed: seq<Outcome>)
      requires sends == before + DataFrames(key, performed)
      modifies `sends, `exitCode, `pipeActive
      ensures sends == before + Images(key, Body(Reads(performed), pid))
      ensures exitCode == 0 && !pipeActive
    {
      SendFrame(Killed(pid));
      sends := sends + [END_CODE];
      BodyImages(key, performed, pid);
      exitCode := 0;
      pipeActive := false;
    }

    /** The whole of `HandleClientPipe`, for every script of reads. */
    method HandleClientPipe(script: seq<Outcome>, pid: int) returns (totalPipeBytes: Decimal.int32)
      modifies this
      ensures sends == old(sends) + Images(key, Body(Reads(Performed(script)), pid))
      ensures totalPipeBytes == Wrap32(|Concat(TextsOf(Reads(Performed(script))))|)
      ensures exitCode == 0 && !pipeActive
      ensures childInput == old(childInput)
                + if old(hasNextCommand) && Performed(script) != [] then [CStr(old(nextCommand))] else []
      ensures hasNextCommand == (old(hasNextCommand) && Performed(script) == [])
      ensures nextCommand == if old(hasNextCommand) && Performed(script) != [] then [] else old(nextCommand)
    {
      totalPipeBytes := 0;
      var readPipeBuffer := new byte[READ_SIZE + 1](_ => NUL);
      var i := 0;
      assert script[0..] == script;
      while i < |script| && Continues(script[i])
        invariant 0 <= i <= |script|
        invariant readPipeBuffer[..] == Zeros(READ_SIZE + 1)
        invariant fresh(readPipeBuffer)
        invariant Done(script, i)
        invariant sends == old(sends) + DataFrames(key, script[..i])
        invariant totalPipeBytes == TextLength(script[..i])
        invariant childInput == old(childInput)
                    + if old(hasNextCommand) && i > 0 then [CStr(old(nextCommand))] else []
        invariant hasNextCommand == (old(hasNextCommand) && i == 0)
        invariant nextCommand == if old(hasNextCommand) && i > 0 then [] else old(nextCommand)
      {
        AnotherRound(script, i);
        totalPipeBytes := Turn(readPipeBuffer, script[i], totalPipeBytes, old(sends), script[..i]);
        i := i + 1;
      }
      LastRound(script, i);
      assert i > 0 <==> Performed(script) != [];
      TextLengthIsTotal(Performed(script));
      Finish(pid, old(sends), Performed(script));
    }
  }

  /** The bytes of the data frames for some reads. */
  function DataFrames(k: Aead, performed: seq<Outcome>): seq<Bytes> {
    if performed == [] then []
    else
      var o := performed[|performed| - 1];
      DataFrames(k, performed[..|performed| - 1]) + if o.Data? then [Image(k, Frame(CStr(o.bytes)))] else []
  }

  /** What `totalPipeBytes` holds after some reads. */
  function TextLength(performed: seq<Outcome>): Decimal.int32 {
    if performed == [] then 0
    else
      var o := performed[|performed| - 1];
      var before := TextLength(performed[..|performed| - 1]);
      if o.Data? then Wrap32(before + |CStr(o.bytes)|) else before
  }

  lemma TextsAppend(a: seq<Bytes>, b: seq<Bytes>)
    ensures TextsOf(a + b) == TextsOf(a) + TextsOf(b)
  {
  }

  lemma TextsOneMore(front: seq<Outcome>, o: Outcome)
    ensures o.Data? ==> TextsOf(Reads(front + [o])) == TextsOf(Reads(front)) + [CStr(o.bytes)]
    ensures !o.Data? ==> TextsOf(Reads(front + [o])) == TextsOf(Reads(front))
  {
    ReadsAppend(front, [o]);
    TextsAppend(Reads(front), Reads([o]));
    if o.Data? {
      assert Reads([o]) == [o.bytes];
    } else {
      assert Reads([o]) == [];
    }
  }

  lemma ImagesOneMore(k: Aead, texts: seq<Bytes>, x: Bytes)
    ensures Images(k, Frames(texts + [x])) == Images(k, Frames(texts)) + [Image(k, Frame(x))]
  {
  }

  lemma {:induction false} DataFramesAreImages(k: Aead, performed: seq<Outcome>)
    ensures DataFrames(k, performed) == Images(k, Frames(TextsOf(Reads(performed))))
  {
    if performed != [] {
      var front, o := performed[..|performed| - 1], performed[|performed| - 1];
      DataFramesAreImages(k, front);
      assert performed == front + [o];
      TextsOneMore(front, o);
      if o.Data? {
        ImagesOneMore(k, TextsOf(Reads(front)), CStr(o.bytes));
      }
    }
  }

  /** The length of some texts together, as an `int` holds it. */
  function Total(texts: seq<Bytes>): Decimal.int32 { Wrap32(|Concat(texts)|) }

  lemma TotalOneMore(texts: seq<Bytes>, x: Bytes)
    ensures Wrap32(Total(texts) + |x|) == Total(texts + [x])
  {
    ConcatLast(texts, x);
    WrapAdds(|Concat(texts)|, |x|);
  }

  lemma TextLengthOneMore(front: seq<Outcome>, o: Outcome)
    requires TextLength(front) == Total(TextsOf(Reads(front)))
    ensures TextLength(front + [o]) == Total(TextsOf(Reads(front + [o])))
  {
    assert (front + [o])[..|front|] == front;
    TextsOneMore(front, o);
    if o.Data? {
      TotalOneMore(TextsOf(Reads(front)), CStr(o.bytes));
    }
  }

  lemma {:induction false} TextLengthIsTotal(performed: seq<Outcome>)
    ensures TextLength(performed) == Total(TextsOf(Reads(performed)))
  {
    if performed != [] {
      var front, o := performed[..|performed| - 1], performed[|performed| - 1];
      TextLengthIsTotal(front);
      assert performed == front + [o];
      TextLengthOneMore(front, o);
    }
  }

  /** The first `i` reads have been performed and the loop goes on from there. */
  ghost predicate Done(script: seq<Outcome>, i: nat)
    requires i <= |script|
  {
    script[..i] + Performed(script[i..]) == Performed(script)
  }

  lemma AnotherRound(script: seq<Outcome>, i: nat)
    requires i < |script| && Done(script, i) && Continues(script[i])
    ensures Done(script, i + 1)
    ensures script[..i + 1] == script[..i] + [script[i]]
  {
    assert script[i..][1..] == script[i + 1..];
    assert script[..i + 1] == script[..i] + [script[i]];
    assert Performed(script[i..]) == [script[i]] + Performed(script[i + 1..]);
  }

  lemma LastRound(script: seq<Outcome>, i: nat)
    requires i <= |script| && Done(script, i)
    requires i < |script| ==> !Continues(script[i])
    ensures script[..i] == Performed(script)
  {
    assert Performed(script[i..]) == [];
  }

  lemma BodyImages(k: Aead, performed: seq<Outcome>, pid: int)
    ensures Images(k, Body(Reads(performed), pid))
         == DataFrames(k, performed) + [Image(k, Frame(Killed(pid)))] + [END_CODE]
  {
    DataFramesAreImages(k, performed);
  }

  /** What one more read adds: one frame and its length, or nothing. */
  lemma OneMoreRead(k: Aead, performed: seq<Outcome>, o: Outcome)
    ensures DataFrames(k, performed + [o])
         == DataFrames(k, performed) + if o.Data? then [Image(k, Frame(CStr(o.bytes)))] else []
    ensures TextLength(performed + [o])
         == if o.Data? then Wrap32(TextLength(performed) + |CStr(o.bytes)|) else TextLength(performed)
  {
    assert (performed + [o])[..|performed|] == performed;
  }

  // ---- conservation ----

  /** The frames carry exactly the bytes that were read, if and only if no NUL was among them. */
  lemma {:induction false} PumpConservesBytes(chunks: seq<Bytes>)
    ensures |Concat(TextsOf(chunks))| <= |Concat(chunks)|
    ensures Concat(TextsOf(chunks)) == Concat(chunks) <==> NUL !in Concat(chunks)
  {
    if chunks != [] {
      PumpConservesBytes(chunks[1..]);
      var texts := TextsOf(chunks);
      assert texts[1..] == TextsOf(chunks[1..]);
      if NUL !in chunks[0] {
        CStrStopsAtNul(chunks[0], []);
        assert Concat(texts) == chunks[0] + Concat(texts[1..]);
        if Concat(texts) == Concat(chunks) {
          assert Concat(texts)[|chunks[0]|..] == Concat(texts[1..]);
          assert Concat(chunks)[|chunks[0]|..] == Concat(chunks[1..]);
        }
      } else {
        assert texts[0] != chunks[0];
        assert |texts[0]| < |chunks[0]|;
        assert |Concat(texts)| < |Concat(chunks)|;
      }
    }
  }

  /** Within `int` range the counter is the number of bytes read, when none was NUL. */
  lemma TotalCountsBytesRead(script: seq<Outcome>)
    requires NUL !in Concat(Reads(Performed(script)))
    requires |Concat(Reads(Performed(script)))| < 0x8000_0000
    ensures Wrap32(|Concat(TextsOf(Reads(Performed(script))))|) == |Concat(Reads(Performed(script)))|
  {
    PumpConservesBytes(Reads(Performed(script)));
  }

  /** The frame of a full read is longer than two client packets of 512 bytes. */
  lemma FullReadFrame(k: Aead, bytes: Chunk)
    requires NUL !in bytes
    ensures |Image(k, Frame(CStr(bytes)))| == 2 * |bytes| + 33
    ensures |bytes| == READ_SIZE ==> |Image(k, Frame(CStr(bytes)))| == 1057 > 2 * 512
  {
    CStrStopsAtNul(bytes, []);
  }

  lemma NoticeCarries(pid: int)
    ensures Carried([Frame(Killed(pid)), End]) == Killed(pid)
  {
    assert [Frame(Killed(pid)), End][1..] == [End];
    assert Carried([End]) == Carried([]);
  }

  /** The text a whole response carries. */
  lemma ResponseCarries(header: Bytes, chunks: seq<Bytes>, pid: int)
    ensures Carried(Response(header, chunks, pid)) == header + Concat(TextsOf(chunks)) + Killed(pid)
  {
    var texts := TextsOf(chunks);
    assert Response(header, chunks, pid)[1..] == Frames(texts) + [Frame(Killed(pid)), End];
    CarriedAppend(Frames(texts), [Frame(Killed(pid)), End]);
    CarriedFrames(texts);
    NoticeCarries(pid);
  }

  /**
   The loop performs the reads up to the first that finds the pipe closed, or finds it
   empty with a cancel pending: it performs none of those, and it stops at no other.
   */
  lemma {:induction false} PerformedStops(script: seq<Outcome>)
    ensures Performed(script) <= script
    ensures Closed !in Performed(script) && WouldBlock(true) !in Performed(script)
    ensures |Performed(script)| < |script| ==> script[|Performed(script)|] in {Closed, WouldBlock(true)}
  {
    if script != [] && Continues(script[0]) {
      PerformedStops(script[1..]);
      assert script == [script[0]] + script[1..];
    }
  }

  /** What the loop reads is what the data outcomes before that point hold, in order. */
  lemma {:induction false} ReadsAreData(performed: seq<Outcome>)
    ensures |Reads(performed)| == |performed| - CountNoData(performed)
    ensures forall b :: b in Reads(performed) <==> exists o :: o in performed && o.Data? && o.bytes == b
  {
    if performed != [] {
      ReadsAreData(performed[1..]);
      assert performed == [performed[0]] + performed[1..];
    }
  }

  function CountNoData(performed: seq<Outcome>): nat {
    if performed == [] then 0 else (if performed[0].Data? then 0 else 1) + CountNoData(performed[1..])
  }

  /** The notice names the process. */
  lemma KilledNamesProcess(pid: Decimal.int32)
    ensures var text := Killed(pid); var n := |text|;
            && n > 18 && text[..10] == "\n[Process " && text[n - 8..] == " killed]"
            && Decimal.ToInt(text[10..n - 8]) == pid
  {
    Decimal.ToIntOfPrint(pid);
    assert Killed(pid)[10..|Killed(pid)| - 8] == Decimal.Print(pid);
  }

  /** A response is the header, a frame for each read, the notice and one end code, which comes last. */
  lemma ResponseShape(header: Bytes, chunks: seq<Bytes>, pid: int)
    ensures var r := Response(header, chunks, pid); var n := |chunks|;
            && |r| == n + 3 && r[0] == Frame(header) && r[n + 1] == Frame(Killed(pid)) && r[n + 2] == End
            && forall i :: 0 <= i < n ==> r[i + 1] == Frame(CStr(chunks[i]))
  {
  }
}

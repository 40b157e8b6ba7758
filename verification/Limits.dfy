/**
 What lies just outside the conditions of Delivery.dfy: what the client does when
 one of them does not hold, and for each a run that goes wrong.
 */
module Limits {
  import opened Text
  import opened Sealing
  import opened Wire
  import opened Client
  import opened Buffers
  import opened Delivery
  import Hex
  import Dispatch

  /** The end code split over two packets: everything has arrived, and the client still waits. */
  lemma SplitEndIsMissed(k: Aead, f: Form)
    requires Idle(f)
    ensures var g := Run(k, f, Arrivals([("EO", []), ("T", [])]));
            g.conn.output == END_CODE && !g.conn.ended
  {
    var ps: seq<(Packet, Bytes)> := [("EO", []), ("T", [])];
    var r := Round([End], ps);
    assert Stream(k, [End]) == END_CODE + Stream(k, []);
    assert Datas(ps)[1..] == ["T"] && Datas(ps)[1..][1..] == [];
    assert Concat(Datas(ps)[1..]) == "T" + Concat([]);
    assert Concat(Datas(ps)) == END_CODE;
    LatchIffEndUnsplit(k, f, r);
    assert ps[..2] == ps;
    PacketsAccumulate(k, f, r, 2);
  }

  /** A frame right behind an end code in one buffer is decrypted together with that code. */
  lemma FrameBehindEnd(k: Aead, text: Bytes)
    requires text != []
    ensures BufferText(k, END_CODE + Image(k, Frame(text))) == Decrypt(k, END_CODE + Encrypt(k, text)).text
  {
    var piece := END_CODE + Encrypt(k, text);
    EncryptedHasNoBar(k, text);
    assert END_CODE + Image(k, Frame(text)) == piece + [BAR] + [];
    SplitAtBar(piece, []);
    assert Split([]) == [[]];
    assert PiecesText(k, [[]]) == [];
    assert ([piece] + [[]])[1..] == [[]];
    assert PiecesText(k, [piece] + [[]]) == PieceText(k, piece) + PiecesText(k, [[]]);
    assert |piece| > |END_CODE|;
  }

  lemma PaddingSeals(plain: Bytes)
    ensures Padding().seal(plain) == plain + Zeros(TAG_SIZE)
  {
  }

  lemma HexOfPaddedA() returns (rest: Bytes)
    ensures Hex.Encode("A" + Zeros(TAG_SIZE)) == ['4', '1', '0', '0'] + rest
    ensures |Hex.Nibbles(rest)| == 30
  {
    rest := Hex.Encode(Zeros(TAG_SIZE - 1));
    var s: Bytes := "A" + Zeros(TAG_SIZE);
    assert s[1..] == Zeros(TAG_SIZE);
    assert Zeros(TAG_SIZE)[1..] == Zeros(TAG_SIZE - 1);
    assert Hex.Encode(s) == ['4', '1'] + Hex.Encode(Zeros(TAG_SIZE));
    assert Hex.Encode(Zeros(TAG_SIZE)) == ['0', '0'] + rest;
    Hex.DecodeEncode(Zeros(TAG_SIZE - 1));
  }

  lemma ShiftedDigits(rest: Bytes)
    requires |Hex.Nibbles(rest)| == 30
    ensures var d := Hex.Decode(['E', 'O', 'T', '4', '1', '0', '0'] + rest);
            |d| == 17 && d[1] != NUL
  {
    NibblesSkip(rest);
    var ns := Hex.Nibbles(rest);
    var all: seq<Hex.nibble> := [14, 4, 1, 0, 0] + ns;
    assert all[2..] == [1, 0, 0] + ns;
    assert Hex.Pack(all) == [Hex.Join(14, 4)] + Hex.Pack(all[2..]);
    assert Hex.Pack(all[2..])[0] == Hex.Join(1, 0);
  }

  lemma PaddingRefuses(s: Bytes)
    requires |s| == 17 && s[1] != NUL
    ensures Padding().open(s).text == []
  {
    assert s[1..][0] != Zeros(TAG_SIZE)[0];
  }

  lemma EndThenFrame(k: Aead, text: Bytes)
    ensures Stream(k, [End, Frame(text)]) == END_CODE + Image(k, Frame(text))
    ensures Carried([End, Frame(text)]) == text
  {
    assert [End, Frame(text)][1..] == [Frame(text)];
    assert Stream(k, [Frame(text)]) == Image(k, Frame(text)) + Stream(k, []);
    assert Carried([Frame(text)]) == text + Carried([]);
  }

  /** And that can lose the frame: the E of the code shifts every digit behind it. */
  lemma BytesAfterEndAreLost()
    ensures BufferText(Padding(), Stream(Padding(), [End, Frame("A")])) == []
    ensures Carried([End, Frame("A")]) == "A"
  {
    var k: Aead := Padding();
    EndThenFrame(k, "A");
    FrameBehindEnd(k, "A");
    PaddingSeals("A");
    var rest := HexOfPaddedA();
    assert END_CODE + Encrypt(k, "A") == ['E', 'O', 'T', '4', '1', '0', '0'] + rest;
    ShiftedDigits(rest);
    PaddingRefuses(Hex.Decode(END_CODE + Encrypt(k, "A")));
  }

  lemma NibblesOfDigit(c: byte, rest: Bytes)
    ensures Hex.Nibbles([c] + rest)
         == (if Hex.Value(c).Some? then [Hex.Value(c).value] else []) + Hex.Nibbles(rest)
  {
    assert ([c] + rest)[1..] == rest;
  }

  lemma NibblesOfEnd(rest: Bytes)
    ensures Hex.Nibbles(['E', 'O', 'T'] + rest) == [14] + Hex.Nibbles(rest)
  {
    var s2: Bytes := ['T'] + rest;
    var s1: Bytes := ['O'] + s2;
    NibblesOfDigit('T', rest);
    NibblesOfDigit('O', s2);
    NibblesOfDigit('E', s1);
    assert ['E', 'O', 'T'] + rest == ['E'] + s1;
  }

  lemma NibblesSkip(rest: Bytes)
    ensures Hex.Nibbles(['E', 'O', 'T', '4', '1', '0', '0'] + rest) == [14, 4, 1, 0, 0] + Hex.Nibbles(rest)
  {
    var s6: Bytes := ['0'] + rest;
    var s5: Bytes := ['0'] + s6;
    var s4: Bytes := ['1'] + s5;
    var s3: Bytes := ['4'] + s4;
    NibblesOfEnd(s3);
    NibblesOfDigit('4', s4);
    NibblesOfDigit('1', s5);
    NibblesOfDigit('0', s6);
    NibblesOfDigit('0', rest);
    assert ['E', 'O', 'T', '4', '1', '0', '0'] + rest == ['E', 'O', 'T'] + s3;
  }

  /** Hex digits alone, or closed by a bar, are decrypted as they are. */
  lemma HexPiece(k: Aead, piece: Bytes)
    requires forall i :: 0 <= i < |piece| ==> Hex.IsUpperHex(piece[i])
    ensures BufferText(k, piece) == Decrypt(k, piece).text
    ensures BufferText(k, piece + [BAR]) == Decrypt(k, piece).text
  {
    assert BAR !in piece;
    if |piece| == |END_CODE| {
      assert Hex.IsUpperHex(piece[1]) && END_CODE[1] == 'O';
    }
    assert PieceText(k, piece) == Decrypt(k, piece).text;
    SplitWithoutBar(piece);
    assert PiecesText(k, [piece]) == PieceText(k, piece) + PiecesText(k, []);
    SplitAtBar(piece, []);
    assert piece + [BAR] == piece + [BAR] + [];
    assert Split([]) == [[]] && PiecesText(k, [[]]) == [];
    assert ([piece] + [[]])[1..] == [[]];
    assert PiecesText(k, [piece] + [[]]) == PieceText(k, piece) + PiecesText(k, [[]]);
  }

  lemma {:induction false} DecodePrefix(s: Bytes, j: nat)
    requires j <= 2 * |s|
    ensures Hex.Decode(Hex.Encode(s)[..j]) == s[..j / 2]
  {
    var n := j / 2;
    assert s == s[..n] + s[n..];
    Hex.EncodeAppend(s[..n], s[n..]);
    assert Hex.Encode(s)[..2 * n] == Hex.Encode(s[..n]);
    Hex.DecodeEncode(s[..n]);
    if j > 2 * n {
      assert Hex.Encode(s)[..j] == Hex.Encode(s[..n]) + [Hex.Encode(s)[2 * n]];
      OddDigitIsDropped(Hex.Encode(s[..n]), Hex.Encode(s)[2 * n]);
    } else {
      assert Hex.Encode(s)[..j] == Hex.Encode(s[..n]);
    }
  }

  lemma {:induction false} NibblesAppend(a: Bytes, b: Bytes)
    ensures Hex.Nibbles(a + b) == Hex.Nibbles(a) + Hex.Nibbles(b)
  {
    if a == [] {
      assert a + b == b;
    } else {
      assert (a + b)[1..] == a[1..] + b;
      NibblesAppend(a[1..], b);
    }
  }

  lemma {:induction false} PackDropsOdd(ns: seq<Hex.nibble>, n: Hex.nibble)
    requires exists h: nat :: |ns| == 2 * h
    ensures Hex.Pack(ns + [n]) == Hex.Pack(ns)
    decreases |ns|
  {
    if ns != [] {
      var h: nat :| |ns| == 2 * h;
      assert |ns[2..]| == 2 * (h - 1);
      assert (ns + [n])[2..] == ns[2..] + [n];
      PackDropsOdd(ns[2..], n);
    }
  }

  lemma OddDigitIsDropped(a: Bytes, c: byte)
    requires Hex.IsUpperHex(c) && exists h: nat :: |Hex.Nibbles(a)| == 2 * h
    ensures Hex.Decode(a + [c]) == Hex.Decode(a)
  {
    NibblesAppend(a, [c]);
    NibblesOfDigit(c, []);
    assert [c] + [] == [c];
    var v: Hex.nibble := Hex.Value(c).value;
    assert Hex.Nibbles([c]) == [v];
    assert Hex.Nibbles(a + [c]) == Hex.Nibbles(a) + [v];
    PackDropsOdd(Hex.Nibbles(a), v);
  }

  /**
   A poll inside a frame, for every cipher, text and cut. The first poll shows what
   opening the sealed text cut short gives, the second what opening the rest gives;
   only a cut right before the bar leaves the text whole.
   */
  lemma PollInsideFrame(k: Aead, text: Bytes, j: nat)
    requires text != [] && 0 < j < |Image(k, Frame(text))|
    ensures var image, sealed := Image(k, Frame(text)), k.seal(text);
            && BufferText(k, image[..j]) == k.open(sealed[..j / 2]).text
            && BufferText(k, image[j..]) == Decrypt(k, Encrypt(k, text)[j..]).text
            && (j == |image| - 1 ==> BufferText(k, image[..j]) == text && BufferText(k, image[j..]) == [])
            && (j < |image| - 1 ==> |sealed[..j / 2]| < |sealed| && |Hex.Decode(Encrypt(k, text)[j..])| < |sealed|)
  {
    var image, cipher := Image(k, Frame(text)), Encrypt(k, text);
    assert image[..j] == cipher[..j];
    HexPiece(k, cipher[..j]);
    DecodePrefix(k.seal(text), j);
    assert image[j..] == cipher[j..] + [BAR];
    HexPiece(k, cipher[j..]);
    NibblesAtMost(cipher[j..]);
    if j == |image| - 1 {
      assert k.seal(text)[..j / 2] == k.seal(text);
    }
  }

  lemma {:induction false} NibblesAtMost(s: Bytes)
    ensures |Hex.Nibbles(s)| <= |s|
  {
    if s != [] {
      NibblesAtMost(s[1..]);
    }
  }

  /** And that can lose the text: here neither half opens to anything. */
  lemma PollInsideFrameLosesIt()
    ensures Stream(Padding(), [Frame("A")]) == Hex.Encode("A") + Hex.Encode(Zeros(TAG_SIZE)) + [BAR]
    ensures BufferText(Padding(), Hex.Encode("A")) == []
    ensures BufferText(Padding(), Hex.Encode(Zeros(TAG_SIZE)) + [BAR]) == []
  {
    Hex.EncodeAppend("A", Zeros(TAG_SIZE));
    PaddingSeals("A");
    OneFrame(Padding(), "A");
    FirstHalf();
    SecondHalf();
  }

  lemma FirstHalf()
    ensures BufferText(Padding(), Hex.Encode("A")) == []
  {
    HexPiece(Padding(), Hex.Encode("A"));
    Hex.DecodeEncode("A");
  }

  lemma SecondHalf()
    ensures BufferText(Padding(), Hex.Encode(Zeros(TAG_SIZE)) + [BAR]) == []
  {
    var zeros := Zeros(TAG_SIZE);
    HexPiece(Padding(), Hex.Encode(zeros));
    Hex.DecodeEncode(zeros);
    assert zeros[0..] == zeros && zeros[..0] == [];
  }

  lemma OneFrame(k: Aead, text: Bytes)
    requires text != []
    ensures Stream(k, [Frame(text)]) == Hex.Encode(k.seal(text)) + [BAR]
  {
    assert Stream(k, [Frame(text)]) == Image(k, Frame(text)) + Stream(k, []);
  }

  lemma PaddingStretches(plain: Bytes)
    ensures Padding().seal(plain) + [NUL] == Padding().seal(plain + [NUL])
  {
    var z := Zeros(TAG_SIZE);
    assert z + [NUL] == [NUL] + z;
    assert (plain + z) + [NUL] == plain + (z + [NUL]);
    assert plain + ([NUL] + z) == (plain + [NUL]) + z;
  }

  /** A packet that fills the buffer arrives unspoiled exactly when a NUL happens to follow it in memory. */
  lemma FullPacketNeedsLuck(c: Conn, data: Packet, beyond: Bytes)
    requires |data| == Client.PACKET_SIZE && NUL !in data && !c.ended
    ensures Received(c, data, beyond).output == c.output + data <==> CStr(beyond) == []
  {
    ReadsOn(data, beyond);
    var out := c.output + (data + CStr(beyond));
    assert |out| == |c.output + data| + |CStr(beyond)|;
    if CStr(beyond) == [] {
      assert data + CStr(beyond) == data;
    }
  }

  /** The server's packet has the same edge: a command of 239 bytes can turn into another one. */
  lemma LongCommandCanBeMisheard(command: Bytes)
    requires |command| == 239 && NEWLINE !in command && RETURN !in command
    ensures Dispatch.Heard(Padding(), Dispatch.Sealed(Padding(), command), "00") == Dispatch.Message(command + [NUL])
  {
    var plain: Bytes := MESSAGE_CODE + command;
    Dispatch.FullPacketIsReadOn(Padding(), command, "00");
    CStrStopsAtNul("00", []);
    StretchedHex(plain);
    DecryptEncrypt(Padding(), plain + [NUL]);
    assert (plain + [NUL])[1..] == command + [NUL];
    RemoveNothing(command + [NUL], NEWLINE);
    RemoveNothing(command + [NUL], RETURN);
  }

  lemma StretchedHex(plain: Bytes)
    requires plain != []
    ensures Encrypt(Padding(), plain) + "00" == Encrypt(Padding(), plain + [NUL])
  {
    PaddingStretches(plain);
    Hex.EncodeAppend(Padding().seal(plain), [NUL]);
    assert Hex.Encode([NUL]) == "00";
  }
}

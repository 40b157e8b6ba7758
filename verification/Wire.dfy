/**
 The stream from server to client: frames (upper-case hex closed by `|`) and the
 three letters `EOT`, with no separator after them.
 */
module Wire {
  import opened Text
  import opened Sealing
  import Hex

  const END_CODE: Bytes := "EOT"

  /** One `send` of the server. A frame is named by the text it carries. */
  datatype Token = Frame(text: Bytes) | End

  function Image(k: Aead, t: Token): (r: Bytes)
    ensures |r| >= 1
  {
    match t
    case Frame(text) => Encrypt(k, text) + [BAR]
    case End => END_CODE
  }

  function Images(k: Aead, ts: seq<Token>): (r: seq<Bytes>)
    ensures |r| == |ts| && forall i :: 0 <= i < |ts| ==> r[i] == Image(k, ts[i])
  {
    seq(|ts|, i requires 0 <= i < |ts| => Image(k, ts[i]))
  }

  /** The bytes of a whole sequence of sends. */
  function Stream(k: Aead, ts: seq<Token>): Bytes {
    if ts == [] then [] else Image(k, ts[0]) + Stream(k, ts[1..])
  }

  function Frames(texts: seq<Bytes>): (r: seq<Token>)
    ensures |r| == |texts| && forall i :: 0 <= i < |r| ==> r[i] == Frame(texts[i])
  {
    seq(|texts|, i requires 0 <= i < |texts| => Frame(texts[i]))
  }

  /** The text a token sequence carries. */
  function Carried(ts: seq<Token>): Bytes {
    if ts == [] then []
    else (if ts[0].Frame? then ts[0].text else []) + Carried(ts[1..])
  }

  lemma {:induction false} StreamAppend(k: Aead, a: seq<Token>, b: seq<Token>)
    ensures Stream(k, a + b) == Stream(k, a) + Stream(k, b)
  {
    if a == [] {
      assert a + b == b;
    } else {
      assert (a + b)[1..] == a[1..] + b;
      StreamAppend(k, a[1..], b);
    }
  }

  lemma {:induction false} CarriedAppend(a: seq<Token>, b: seq<Token>)
    ensures Carried(a + b) == Carried(a) + Carried(b)
  {
    if a == [] {
      assert a + b == b;
    } else {
      assert (a + b)[1..] == a[1..] + b;
      CarriedAppend(a[1..], b);
    }
  }

  lemma {:induction false} CarriedFrames(texts: seq<Bytes>)
    ensures Carried(Frames(texts)) == Concat(texts)
  {
    if texts != [] {
      assert Frames(texts)[1..] == Frames(texts[1..]);
      CarriedFrames(texts[1..]);
    }
  }

  // ---- unambiguous grammar ----

  /** A frame is hex digits up to its only bar. */
  lemma FrameShape(k: Aead, text: Bytes)
    ensures var r := Image(k, Frame(text));
            && r[|r| - 1] == BAR
            && forall i :: 0 <= i < |r| - 1 ==> Hex.IsUpperHex(r[i])
  {
  }

  /** The first token of a stream is determined by its bytes. */
  lemma FirstToken(k: Aead, t: Token, u: Token, a: Bytes, b: Bytes)
    requires Image(k, t) + a == Image(k, u) + b
    ensures t == u && a == b
  {
    var w := Image(k, t) + a;
    var p, q := Image(k, t), Image(k, u);
    assert w[..|p|] == p && w[..|q|] == q;
    if t.Frame? && u.Frame? {
      FrameShape(k, t.text);
      FrameShape(k, u.text);
      assert p[|p| - 1] == w[|p| - 1] && q[|q| - 1] == w[|q| - 1];
      assert forall i :: 0 <= i < |p| - 1 ==> w[i] == p[i];
      assert forall i :: 0 <= i < |q| - 1 ==> w[i] == q[i];
      assert p[..|p| - 1] == Encrypt(k, t.text) && q[..|q| - 1] == Encrypt(k, u.text);
      EncryptIsInjective(k, t.text, u.text);
    } else if t.Frame? {
      FrameIsNotEnd(k, t.text, a, b);
    } else if u.Frame? {
      FrameIsNotEnd(k, u.text, b, a);
    }
    assert a == w[|p|..] && b == w[|q|..];
  }

  lemma FrameIsNotEnd(k: Aead, text: Bytes, a: Bytes, b: Bytes)
    ensures Image(k, Frame(text)) + a != END_CODE + b
  {
    var p := Image(k, Frame(text));
    FrameShape(k, text);
    if |p| == 1 {
      assert (p + a)[0] == BAR;
    } else {
      assert (p + a)[1] == p[1];
      assert (END_CODE + b)[1] == 'O';
    }
  }

  /** Two runs of sends that put the same bytes on the wire are the same sends. */
  lemma {:induction false} StreamIsUnambiguous(k: Aead, a: seq<Token>, b: seq<Token>)
    requires Stream(k, a) == Stream(k, b)
    ensures a == b
  {
    if a != [] && b != [] {
      FirstToken(k, a[0], b[0], Stream(k, a[1..]), Stream(k, b[1..]));
      StreamIsUnambiguous(k, a[1..], b[1..]);
      assert a == [a[0]] + a[1..] && b == [b[0]] + b[1..];
    }
  }

  // ---- where EOT can be found ----

  /** Where token `j` starts in the stream. */
  function Offset(k: Aead, ts: seq<Token>, j: nat): nat
    requires j <= |ts|
  {
    |Stream(k, ts[..j])|
  }

  predicate EndStartsAt(k: Aead, ts: seq<Token>, j: nat, i: nat) {
    j < |ts| && ts[j] == End && Offset(k, ts, j) == i
  }

  /** The same by recursion from the front of the stream. */
  predicate EndAt(k: Aead, ts: seq<Token>, i: nat) {
    && ts != []
    && var p := Image(k, ts[0]);
       if i < |p| then ts[0] == End && i == 0 else EndAt(k, ts[1..], i - |p|)
  }

  lemma OffsetOfTail(k: Aead, ts: seq<Token>, j: nat)
    requires 1 <= j <= |ts|
    ensures Offset(k, ts, j) == |Image(k, ts[0])| + Offset(k, ts[1..], j - 1)
  {
    assert ts[..j][1..] == ts[1..][..j - 1];
  }

  lemma {:induction false} EndAtNamesToken(k: Aead, ts: seq<Token>, i: nat) returns (j: nat)
    requires EndAt(k, ts, i)
    ensures EndStartsAt(k, ts, j, i)
  {
    var p := Image(k, ts[0]);
    if i < |p| {
      j := 0;
    } else {
      j := EndAtNamesToken(k, ts[1..], i - |p|);
      j := j + 1;
      OffsetOfTail(k, ts, j);
    }
  }

  lemma {:induction false} TokenIsEndAt(k: Aead, ts: seq<Token>, j: nat, i: nat)
    requires EndStartsAt(k, ts, j, i)
    ensures EndAt(k, ts, i)
  {
    if j > 0 {
      OffsetOfTail(k, ts, j);
      TokenIsEndAt(k, ts[1..], j - 1, i - |Image(k, ts[0])|);
    }
  }

  lemma OccursInFirst(k: Aead, t: Token, rest: Bytes, i: nat)
    requires i < |Image(k, t)|
    ensures OccursAt(Image(k, t) + rest, END_CODE, i) <==> t == End && i == 0
  {
    var p := Image(k, t);
    var w := p + rest;
    assert w[i] == p[i];
    if i + 3 <= |w| {
      var s := w[i..i + 3];
      assert s[0] == w[i] && s[1] == w[i + 1];
      assert i + 1 < |p| ==> w[i + 1] == p[i + 1];
    }
    match t {
      case Frame(text) => FrameShape(k, text);
      case End =>
        if i == 0 {
          assert w[0..3] == END_CODE;
        }
    }
  }

  lemma OccursInRest(p: Bytes, rest: Bytes, t: Bytes, i: nat)
    requires |p| <= i
    ensures OccursAt(p + rest, t, i) <==> OccursAt(rest, t, i - |p|)
  {
    if i + |t| <= |p + rest| {
      assert (p + rest)[i..i + |t|] == rest[i - |p|..i - |p| + |t|];
    }
  }

  /** The letters EOT stand at a position of the stream exactly where an end token starts. */
  lemma {:induction false} EndCodeOnlyAtEnd(k: Aead, ts: seq<Token>, i: nat)
    ensures OccursAt(Stream(k, ts), END_CODE, i) <==> EndAt(k, ts, i)
  {
    if ts != [] {
      var p, rest := Image(k, ts[0]), Stream(k, ts[1..]);
      if i < |p| {
        OccursInFirst(k, ts[0], rest, i);
      } else {
        OccursInRest(p, rest, END_CODE, i);
        EndCodeOnlyAtEnd(k, ts[1..], i - |p|);
      }
    }
  }

  lemma OccursInSlice(w: Bytes, t: Bytes, a: nat, b: nat, i: int)
    requires a <= b <= |w| && t != []
    ensures OccursAt(w[a..b], t, i) <==> 0 <= i && a + i + |t| <= b && OccursAt(w, t, a + i)
  {
    if 0 <= i && a + i + |t| <= b {
      var x, y := w[a..b][i..i + |t|], w[a + i..a + i + |t|];
      assert forall n :: 0 <= n < |t| ==> x[n] == y[n];
      assert x == y;
    }
  }

  /** An end token that starts at `i` and lies wholly between `a` and `b`. */
  ghost predicate EndWithin(k: Aead, ts: seq<Token>, a: nat, b: nat) {
    exists j: nat, i: nat :: EndStartsAt(k, ts, j, i) && a <= i && i + 3 <= b
  }

  lemma FoundEndIsWithin(k: Aead, ts: seq<Token>, a: nat, b: nat, i: nat)
    requires a <= b <= |Stream(k, ts)|
    requires OccursAt(Stream(k, ts)[a..b], END_CODE, i)
    ensures EndWithin(k, ts, a, b)
  {
    OccursInSlice(Stream(k, ts), END_CODE, a, b, i);
    EndCodeOnlyAtEnd(k, ts, a + i);
    var j := EndAtNamesToken(k, ts, a + i);
    assert EndStartsAt(k, ts, j, a + i) && a <= a + i && a + i + 3 <= b;
  }

  lemma EndWithinIsFound(k: Aead, ts: seq<Token>, a: nat, b: nat, j: nat, i: nat)
    requires a <= b <= |Stream(k, ts)|
    requires EndStartsAt(k, ts, j, i) && a <= i && i + 3 <= b
    ensures OccursAt(Stream(k, ts)[a..b], END_CODE, i - a)
  {
    TokenIsEndAt(k, ts, j, i);
    EndCodeOnlyAtEnd(k, ts, i);
    OccursInSlice(Stream(k, ts), END_CODE, a, b, i - a);
  }

  /** Searching any piece of the stream for EOT finds exactly the end tokens that lie wholly in it. */
  lemma SearchFindsOnlyEnds(k: Aead, ts: seq<Token>, a: nat, b: nat)
    requires a <= b <= |Stream(k, ts)|
    ensures Contains(Stream(k, ts)[a..b], END_CODE) <==> EndWithin(k, ts, a, b)
  {
    var s := Stream(k, ts)[a..b];
    if Contains(s, END_CODE) {
      var i :| 0 <= i <= |s| && OccursAt(s, END_CODE, i);
      FoundEndIsWithin(k, ts, a, b, i);
    }
    if EndWithin(k, ts, a, b) {
      var j: nat, i: nat :| EndStartsAt(k, ts, j, i) && a <= i && i + 3 <= b;
      EndWithinIsFound(k, ts, a, b, j, i);
    }
  }

  // ---- what one poll of the client reads out of its buffer ----

  /** `QString::split("|")`. */
  function Split(s: Bytes): (r: seq<Bytes>)
    ensures r != []
  {
    if s == [] then [[]]
    else if s[0] == BAR then [[]] + Split(s[1..])
    else
      var rest := Split(s[1..]);
      [[s[0]] + rest[0]] + rest[1..]
  }

  /** The text of one piece: empty pieces and the end code are skipped. */
  function PieceText(k: Aead, piece: Bytes): Bytes {
    if piece == [] || piece == END_CODE then [] else Decrypt(k, piece).text
  }

  function PiecesText(k: Aead, pieces: seq<Bytes>): Bytes {
    if pieces == [] then [] else PieceText(k, pieces[0]) + PiecesText(k, pieces[1..])
  }

  /** All the text `CheckMessages` reads out of the buffer `s`. */
  function BufferText(k: Aead, s: Bytes): Bytes { PiecesText(k, Split(s)) }

  lemma {:induction false} SplitAtBar(s: Bytes, rest: Bytes)
    requires BAR !in s
    ensures Split(s + [BAR] + rest) == [s] + Split(rest)
  {
    var w := s + [BAR] + rest;
    if s == [] {
      assert w == [BAR] + rest;
      assert w[1..] == rest;
    } else {
      assert w[0] == s[0] && s[0] in s;
      assert w[1..] == s[1..] + [BAR] + rest;
      SplitAtBar(s[1..], rest);
      assert [s[0]] + s[1..] == s;
      assert ([s[1..]] + Split(rest))[1..] == Split(rest);
    }
  }

  lemma {:induction false} SplitWithoutBar(s: Bytes)
    requires BAR !in s
    ensures Split(s) == [s]
  {
    if s != [] {
      assert s[0] in s;
      SplitWithoutBar(s[1..]);
      assert [s[0]] + s[1..] == s;
    }
  }

  lemma EncryptedHasNoBar(k: Aead, text: Bytes)
    ensures BAR !in Encrypt(k, text)
    ensures Encrypt(k, text) != END_CODE
  {
    assert END_CODE[1] == 'O';
  }

  /** Whole frames, with at most an end code behind them, read back as what they carry. */
  lemma {:induction false} BufferTextOfFrames(k: Aead, texts: seq<Bytes>, ended: bool)
    ensures BufferText(k, Stream(k, Frames(texts)) + if ended then END_CODE else []) == Concat(texts)
  {
    var tail := if ended then END_CODE else [];
    if texts == [] {
      assert Stream(k, Frames(texts)) + tail == tail;
      SplitWithoutBar(tail);
      assert PiecesText(k, [tail]) == PieceText(k, tail) + PiecesText(k, []);
    } else {
      var h := Encrypt(k, texts[0]);
      var rest := Stream(k, Frames(texts[1..])) + tail;
      assert Frames(texts)[1..] == Frames(texts[1..]);
      assert Stream(k, Frames(texts)) + tail == h + [BAR] + rest;
      EncryptedHasNoBar(k, texts[0]);
      SplitAtBar(h, rest);
      DecryptEncrypt(k, texts[0]);
      assert ([h] + Split(rest))[1..] == Split(rest);
      BufferTextOfFrames(k, texts[1..], ended);
    }
  }
}

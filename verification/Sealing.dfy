/**
 The `Crypto` wrapper shared by client and server: an authenticated cipher under
 a hex layer. The cipher is any pair of functions that obeys the two laws the
 programs rely on; what a failed decryption emits is left open.
 */
module Sealing {
  import opened Text
  import Hex

  /** The outcome of an authenticated decryption: did the tag verify, and what came out. */
  datatype Opened = Opened(ok: bool, text: Bytes)

  datatype Cipher = Cipher(seal: Bytes -> Bytes, open: Bytes -> Opened)

  const TAG_SIZE := 16

  ghost predicate Lawful(c: Cipher) {
    && (forall p: Bytes :: |c.seal(p)| == |p| + TAG_SIZE)
    && (forall p: Bytes :: c.open(c.seal(p)) == Opened(true, p))
  }

  /** AES-GCM under the shared key, for all these proofs need to know of it. */
  type Aead = c: Cipher | Lawful(c) ghost witness Padding()

  /** The simplest lawful cipher: sixteen NULs as the tag. It backs the counterexamples. */
  function Padding(): (c: Cipher)
    ensures Lawful(c)
  {
    var seal := (p: Bytes) => p + Zeros(TAG_SIZE);
    var open := (s: Bytes) =>
      if |s| >= TAG_SIZE && s[|s| - TAG_SIZE..] == Zeros(TAG_SIZE) then Opened(true, s[..|s| - TAG_SIZE])
      else Opened(false, []);
    assert forall p: Bytes :: seal(p)[|p|..] == Zeros(TAG_SIZE) && seal(p)[..|p|] == p;
    Cipher(seal, open)
  }

  /** `EncryptString`: the empty string maps to itself. */
  function Encrypt(k: Aead, plain: Bytes): (r: Bytes)
    ensures forall i :: 0 <= i < |r| ==> Hex.IsUpperHex(r[i])
    ensures |r| == if plain == [] then 0 else 2 * (|plain| + TAG_SIZE)
  {
    if plain == [] then [] else Hex.Encode(k.seal(plain))
  }

  /** `DecryptString`: the text it returns, and whether it left `invalidKey` alone. */
  function Decrypt(k: Aead, text: Bytes): Opened {
    if text == [] then Opened(true, []) else k.open(Hex.Decode(text))
  }

  lemma DecryptEncrypt(k: Aead, plain: Bytes)
    ensures Decrypt(k, Encrypt(k, plain)) == Opened(true, plain)
  {
    if plain != [] {
      Hex.DecodeEncode(k.seal(plain));
      assert |Encrypt(k, plain)| > 0;
    }
  }

  /** What is sent is the sealed text, tag and all, in digits. */
  lemma EncryptedIsSealed(k: Aead, plain: Bytes)
    requires plain != []
    ensures Hex.Decode(Encrypt(k, plain)) == k.seal(plain)
  {
    Hex.DecodeEncode(k.seal(plain));
  }

  lemma EncryptIsInjective(k: Aead, p: Bytes, q: Bytes)
    requires Encrypt(k, p) == Encrypt(k, q)
    ensures p == q
  {
    DecryptEncrypt(k, p);
    DecryptEncrypt(k, q);
  }

  /** `QTextStream::readLine` until the end, joined: every newline disappears. */
  function JoinLines(content: Bytes): Bytes { Remove(content, NEWLINE) }

  /** A settings file, `None` if it does not exist, and whether it can be opened for writing and removed. */
  datatype File = File(content: Option<Bytes>, writable: bool, removable: bool)

  /** The client's `Crypto` object with its sticky flag. */
  class Crypto {
    const key: Aead
    var invalidKey: bool

    constructor (key: Aead)
      ensures this.key == key && !invalidKey
    {
      this.key := key;
      invalidKey := false;
    }

    method EncryptString(plain: Bytes) returns (r: Bytes)
      ensures r == Encrypt(key, plain)
    {
      if |plain| == 0 {
        return "";
      }
      r := Hex.Encode(key.seal(plain));
    }

    method DecryptString(text: Bytes) returns (r: Bytes)
      modifies this
      ensures r == Decrypt(key, text).text
      ensures invalidKey == (old(invalidKey) || !Decrypt(key, text).ok)
    {
      if |text| == 0 {
        return "";
      }
      var outcome := key.open(Hex.Decode(text));
      if !outcome.ok {
        invalidKey := true;
      }
      r := outcome.text;
    }

    /** The file's lines, read one by one and joined: lines 107-110. */
    method ReadLines(content: Bytes) returns (r: Bytes)
      ensures r == JoinLines(content)
    {
      r := "";
      var rest := content;
      while rest != []
        invariant r + JoinLines(rest) == JoinLines(content)
        decreases |rest|
      {
        var line := ReadLine(rest);
        ReadLineSplits(rest);
        r := r + line;
        rest := AfterLine(rest);
      }
      assert r + JoinLines([]) == r;
    }

    /** The joined lines are decrypted as one text. */
    method DecryptSettingsFile(file: File) returns (r: Bytes)
      modifies this
      ensures file.content.None? ==> r == [] && invalidKey == old(invalidKey)
      ensures file.content.Some? ==>
                var outcome := Decrypt(key, JoinLines(file.content.value));
                r == outcome.text && invalidKey == (old(invalidKey) || !outcome.ok)
    {
      r := "";
      if file.content.Some? {
        r := ReadLines(file.content.value);
        r := DecryptString(r);
      }
    }

    /** The old file is removed first, so a failed open leaves none behind if it could be removed. */
    method EncryptSettingsFile(file: File, content: Bytes) returns (r: File, ok: bool)
      ensures ok == file.writable && r.writable == file.writable && r.removable == file.removable
      ensures ok ==> r.content == Some(Encrypt(key, content))
      ensures !ok ==> r.content == if file.removable then None else file.content
    {
      r := file;
      if file.content.Some? && file.removable {
        r := file.(content := None);
      }
      if file.writable {
        var text := EncryptString(content);
        return r.(content := Some(text)), true;
      }
      ok := false;
    }
  }

  /** One line: everything before the first newline. */
  function ReadLine(s: Bytes): (r: Bytes)
    ensures r <= s && NEWLINE !in r && (|r| < |s| ==> s[|r|] == NEWLINE)
  {
    if s == [] || s[0] == NEWLINE then [] else [s[0]] + ReadLine(s[1..])
  }

  /** What follows the first line and its newline. */
  function AfterLine(s: Bytes): (r: Bytes)
    ensures s != [] ==> |r| < |s|
  {
    var n := |ReadLine(s)|;
    if n < |s| then s[n + 1..] else []
  }

  lemma {:induction false} ReadLineSplits(s: Bytes)
    ensures JoinLines(s) == ReadLine(s) + JoinLines(AfterLine(s))
  {
    if s != [] && s[0] != NEWLINE {
      ReadLineSplits(s[1..]);
      assert AfterLine(s) == AfterLine(s[1..]);
    }
  }

  /** What is written to a settings file holds no newline, so it reads back whole. */
  lemma FileRoundTrip(k: Aead, content: Bytes)
    ensures Decrypt(k, JoinLines(Encrypt(k, content))) == Opened(true, content)
  {
    forall i | 0 <= i < |Encrypt(k, content)|
      ensures Encrypt(k, content)[i] != NEWLINE
    {
      assert Hex.IsUpperHex(Encrypt(k, content)[i]);
    }
    RemoveNothing(Encrypt(k, content), NEWLINE);
    DecryptEncrypt(k, content);
  }
}

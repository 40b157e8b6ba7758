/**
 The server's side of one command: how a received packet becomes a request, and
 what the session does with a command line.
 */
module Dispatch {
  import opened Text
  import opened Sealing
  import opened Buffers
  import Hex
  import Client

  const PACKET_SIZE := 512

  datatype Request =
    | Message(command: Bytes)
    | Cancel
    | Close
    | Noted      // a close code with anything behind it: the session goes on
    | Reject     // nothing arrived, or it did not decrypt to a known code

  /** `erase(remove('\n'))` and then `erase(remove('\r'))`. */
  function Clean(s: Bytes): Bytes { Remove(Remove(s, NEWLINE), RETURN) }

  /** The dispatch on the first letter of the decrypted text. */
  function Classify(plain: Bytes): Request {
    if plain == [] then Reject
    else if plain[0] == 'M' then Message(Clean(plain[1..]))
    else if plain[0] == 'X' then Cancel
    else if plain[0] == 'C' then (if |Clean(plain)| == 1 then Close else Noted)
    else Reject
  }

  /** One `recv` of the session, and whatever lies behind its packet buffer. */
  function Heard(k: Aead, data: Bytes, beyond: Bytes): Request
    requires |data| <= PACKET_SIZE
  {
    if data == [] then Reject else Classify(Decrypt(k, CStr(Memory(PACKET_SIZE, data, beyond))).text)
  }

  // ---- directory commands ----

  /** `s.find(t, 0, n)`: only the first n characters of t are searched for. */
  predicate FindFirst(s: Bytes, t: Bytes, n: nat)
    requires n <= |t|
  {
    Contains(s, t[..n])
  }

  datatype Verdict = Refuse | Directory | Shell

  /** Which of the three branches a command takes. */
  function Decide(command: Bytes, root: bool): Verdict {
    if Contains(command, "sudo ") && !root then Refuse
    else if Contains(command, "cd") then Directory
    else Shell
  }

  /** The directory the command asks for; `current` is what the variable held before. */
  function Target(command: Bytes, directory: Bytes, home: Bytes, current: Bytes): Bytes {
    if Contains(command, "cd ..") && |command| == 5 then directory + "/.."
    else if FindFirst(command, "cd ", 2) && |command| > 2 then command[3..]
    else if FindFirst(command, "cd", 1) && |command| == 2 then home
    else current
  }

  lemma ContainsWhole(s: Bytes, t: Bytes)
    requires |s| == |t|
    ensures Contains(s, t) <==> s == t
  {
    if Contains(s, t) {
      var i :| 0 <= i <= |s| && OccursAt(s, t, i);
      assert s[0..|t|] == s;
    }
    if s == t {
      assert OccursAt(s, t, 0);
    }
  }

  lemma ContainsStart(s: Bytes, t: Bytes, n: nat)
    requires n <= |t| && Contains(s, t)
    ensures Contains(s, t[..n])
    ensures |s| >= |t|
  {
    var i :| 0 <= i <= |s| && OccursAt(s, t, i);
    assert s[i..i + n] == t[..n];
    assert OccursAt(s, t[..n], i);
  }

  /**
   A command with "cd" in it always gets exactly one target, and the old value of
   the variable never shows: the parent for exactly `cd ..`, home for exactly
   `cd`, and otherwise the text from position 3, which exists.
   */
  lemma EveryDirectoryCommandHasATarget(command: Bytes, directory: Bytes, home: Bytes, current: Bytes)
    requires Contains(command, "cd")
    ensures command == "cd .." ==> Target(command, directory, home, current) == directory + "/.."
    ensures command == "cd" ==> Target(command, directory, home, current) == home
    ensures command != "cd .." && command != "cd" ==>
              |command| >= 3 && Target(command, directory, home, current) == command[3..]
  {
    ContainsStart(command, "cd", 1);
    assert "cd "[..2] == "cd" && "cd"[..1] == "c";
    if |command| == 5 {
      ContainsWhole(command, "cd ..");
    }
    if |command| == 2 {
      ContainsWhole(command, "cd");
    }
    if command == "cd .." {
      ContainsWhole(command, "cd ..");
    }
  }

  /** Past the sudo check, a command reaches the shell exactly when it does not contain "cd". */
  lemma ShellNeverSeesCd(command: Bytes, root: bool)
    requires Decide(command, root) != Refuse
    ensures Decide(command, root) == Shell <==> !Contains(command, "cd")
    ensures Decide(command, root) == Directory <==> Contains(command, "cd")
  {
  }

  /** `cd name` goes to `name`, unless that name is `..`. */
  lemma NamedDirectory(name: Bytes, directory: Bytes, home: Bytes, current: Bytes)
    ensures Contains("cd " + name, "cd")
    ensures Target("cd " + name, directory, home, current) == if name == ".." then directory + "/.." else name
  {
    var command: Bytes := "cd " + name;
    assert command[0..2] == "cd";
    assert OccursAt(command, "cd", 0);
    EveryDirectoryCommandHasATarget(command, directory, home, current);
    assert command[3..] == name;
    if name == ".." {
      assert command == "cd ..";
    }
  }

  /**
   The built-in is meant for `cd`, `cd ..` and `cd name`. Any other command that
   merely contains the two letters is taken for it as well: `ls abcd` tries to
   enter the directory `abcd`, and nothing is listed.
   */
  lemma CdInsideAWord(root: bool, directory: Bytes, home: Bytes, current: Bytes)
    ensures Decide("ls abcd", root) == Directory
    ensures Contains("ls abcd", "cd") && Target("ls abcd", directory, home, current) == "abcd"
  {
    var command: Bytes := "ls abcd";
    assert command[5..7] == "cd";
    assert OccursAt(command, "cd", 5);
    NoSudo(command);
    EveryDirectoryCommandHasATarget(command, directory, home, current);
    assert command[3..] == "abcd";
  }

  lemma NoSudo(s: Bytes)
    requires 'u' !in s
    ensures !Contains(s, "sudo ")
  {
    forall i | 0 <= i <= |s|
      ensures !OccursAt(s, "sudo ", i)
    {
      if i + 5 <= |s| {
        assert s[i..i + 5][1] == s[i + 1];
        assert s[i + 1] in s;
        assert "sudo "[1] == 'u';
      }
    }
  }

  /** Every text is one request, told by its first letter; only a lone C, but for line ends, closes. */
  lemma HeardByLetter(plain: Bytes)
    ensures Classify(plain).Message? <==> OccursAt(plain, "M", 0)
    ensures Classify(plain) == Cancel <==> OccursAt(plain, "X", 0)
    ensures Classify(plain) == Close || Classify(plain) == Noted <==> OccursAt(plain, "C", 0)
    ensures Classify(plain) == Close <==> Clean(plain) == "C" && OccursAt(plain, "C", 0)
    ensures Classify(plain).Message? ==> Classify(plain).command == Clean(plain[1..])
  {
    if plain != [] {
      assert plain[0..1] == [plain[0]];
      if plain[0] == 'C' {
        CleanKeepsFirst(plain);
      }
    }
  }

  lemma CleanKeepsFirst(plain: Bytes)
    requires plain != [] && plain[0] != NEWLINE && plain[0] != RETURN
    ensures Clean(plain) != [] && Clean(plain)[0] == plain[0]
  {
  }

  // ---- from the client's command line to the server's ----

  /** The client's message for a command. */
  function Sealed(k: Aead, command: Bytes): Bytes { Encrypt(k, Client.MESSAGE_CODE + command) }

  /** A command fits in one packet with room for a terminator exactly when it has at most 238 bytes. */
  lemma CommandFits(k: Aead, command: Bytes)
    ensures |Sealed(k, command)| < PACKET_SIZE <==> |command| <= 238
    ensures |Sealed(k, command)| == PACKET_SIZE <==> |command| == 239
  {
  }

  /** Such a command, received at once, reaches the server with its CRs and LFs removed and nothing else changed. */
  lemma CommandIsHeard(k: Aead, command: Bytes, beyond: Bytes)
    requires |command| <= 238
    ensures Heard(k, Sealed(k, command), beyond) == Message(Clean(command))
  {
    var data := Sealed(k, command);
    EncryptedHasNoNul(k, Client.MESSAGE_CODE + command);
    ReadsWhole(PACKET_SIZE, data, beyond);
    DecryptEncrypt(k, Client.MESSAGE_CODE + command);
    assert (Client.MESSAGE_CODE + command)[1..] == command;
  }

  lemma EncryptedHasNoNul(k: Aead, plain: Bytes)
    ensures NUL !in Encrypt(k, plain)
  {
    forall i | 0 <= i < |Encrypt(k, plain)|
      ensures Encrypt(k, plain)[i] != NUL
    {
      assert Hex.IsUpperHex(Encrypt(k, plain)[i]);
    }
  }

  /** What `Clean` does: no CR, no LF, every other character in its order and number. */
  lemma CleanOnlyRemovesLineEnds(s: Bytes)
    ensures NEWLINE !in Clean(s) && RETURN !in Clean(s)
    ensures multiset(Clean(s)) == multiset(s)[NEWLINE := 0][RETURN := 0]
    ensures Subsequence(Clean(s), s)
  {
    var t := Remove(s, NEWLINE);
    RemoveOnlyRemoves(s, NEWLINE);
    RemoveOnlyRemoves(t, RETURN);
    assert multiset(Clean(s)) == multiset(s)[NEWLINE := 0][RETURN := 0];
    assert multiset(Clean(s))[NEWLINE] == 0;
    EmbedsThrough(Clean(s), t, s);
    SubsequenceMeansPlaces(Clean(s), s);
  }

  /** A short message of the client, received at once, is classified by its own text. */
  lemma MessageIsHeard(k: Aead, text: Bytes, beyond: Bytes)
    requires 1 <= |text| <= 239
    ensures |Encrypt(k, text)| < PACKET_SIZE
    ensures Heard(k, Encrypt(k, text), beyond) == Classify(text)
  {
    EncryptedHasNoNul(k, text);
    ReadsWhole(PACKET_SIZE, Encrypt(k, text), beyond);
    DecryptEncrypt(k, text);
  }

  /** Since `f` the form `g` has sent the server one message more, heard as `request` whatever lies behind the buffer. */
  ghost predicate SentOne(k: Aead, f: Client.Form, g: Client.Form, request: Request) {
    && |g.conn.sent| == |f.conn.sent| + 1 && f.conn.sent <= g.conn.sent
    && |g.conn.sent[|f.conn.sent|]| < PACKET_SIZE
    && forall beyond: Bytes {:trigger Heard(k, g.conn.sent[|f.conn.sent|], beyond)} ::
         Heard(k, g.conn.sent[|f.conn.sent|], beyond) == request
  }

  lemma OneMoreSent(k: Aead, f: Client.Form, g: Client.Form, text: Bytes)
    requires 1 <= |text| <= 239
    requires g.conn.sent == f.conn.sent + [Encrypt(k, text)]
    ensures SentOne(k, f, g, Classify(text))
  {
    forall beyond: Bytes
      ensures Heard(k, Encrypt(k, text), beyond) == Classify(text)
    {
      MessageIsHeard(k, text, beyond);
    }
    MessageIsHeard(k, text, []);
  }

  /**
   What the form sends is what the server hears. A command of at most 238 bytes is
   heard as that command without its line ends, a cancel as a cancel, a disconnect as
   a close; one message each.
   */
  lemma FormIsHeard(k: Aead, f: Client.Form)
    requires Client.HistoryInRange(f) && f.conn.connected
    ensures !f.conn.ended && |f.command| <= 238 ==>
              SentOne(k, f, Client.After(k, f, Client.Send(true)), Message(Clean(f.command)))
    ensures !f.conn.ended ==> SentOne(k, f, Client.After(k, f, Client.Event.Cancel(true)), Request.Cancel)
    ensures SentOne(k, f, Client.After(k, f, Client.Disconnect), Close)
  {
    if !f.conn.ended && |f.command| <= 238 {
      HeardByLetter("M" + f.command);
      assert ("M" + f.command)[1..] == f.command;
      OneMoreSent(k, f, Client.After(k, f, Client.Send(true)), "M" + f.command);
    }
    if !f.conn.ended {
      OneMoreSent(k, f, Client.After(k, f, Client.Event.Cancel(true)), "X");
    }
    RemoveNothing("C", NEWLINE);
    RemoveNothing("C", RETURN);
    HeardByLetter("C");
    OneMoreSent(k, f, Client.After(k, f, Client.Disconnect), "C");
  }

  /** Latched or not connected, no command and no cancel is sent, and nothing else changes. */
  lemma SilentForm(k: Aead, f: Client.Form, accepted: bool)
    requires Client.HistoryInRange(f) && (!f.conn.connected || f.conn.ended)
    ensures Client.After(k, f, Client.Send(accepted)) == f == Client.After(k, f, Client.Event.Cancel(accepted))
  {
  }

  /** One byte more fills the packet, and the server decrypts what lies behind its buffer too. */
  lemma FullPacketIsReadOn(k: Aead, command: Bytes, beyond: Bytes)
    requires |command| == 239
    ensures Heard(k, Sealed(k, command), beyond) == Classify(Decrypt(k, Sealed(k, command) + CStr(beyond)).text)
  {
    EncryptedHasNoNul(k, Client.MESSAGE_CODE + command);
    ReadsOn(Sealed(k, command), beyond);
  }

  /** The session's packet buffer and directory variable. */
  class Session {
    const key: Aead
    const packet: array<byte>
    var currentDirectory: Bytes

    ghost predicate Ready()
      reads this, packet
    {
      packet[..] == Zeros(PACKET_SIZE)
    }

    constructor (key: Aead)
      ensures Ready() && fresh(packet) && this.key == key
    {
      this.key := key;
      packet := new byte[PACKET_SIZE](_ => NUL);
      currentDirectory := [];
    }

    /** Receive, decrypt, dispatch, wipe the buffer: lines 178-194, 270-302. */
    method ReceiveRequest(data: Bytes, beyond: Bytes) returns (request: Request)
      requires Ready() && |data| <= PACKET_SIZE
      modifies packet
      ensures Ready()
      ensures request == Heard(key, data, beyond)
    {
      request := Reject;
      if |data| != 0 {
        Fill(packet, data);
        assert Zeros(PACKET_SIZE)[|data|..] == Zeros(PACKET_SIZE - |data|);
        var sPacket := CStr(packet[..] + beyond);
        sPacket := Decrypt(key, sPacket).text;
        if |sPacket| > 0 {
          request := Classify(sPacket);
        }
      }
      Clear(packet);
    }

    /** The chain of tests that picks the directory: lines 211-222. */
    method ResolveDirectory(command: Bytes, directory: Bytes, home: Bytes)
      requires Contains(command, "cd")
      modifies `currentDirectory
      ensures command == "cd .." ==> currentDirectory == directory + "/.."
      ensures command == "cd" ==> currentDirectory == home
      ensures command != "cd .." && command != "cd" ==> |command| >= 3 && currentDirectory == command[3..]
    {
      EveryDirectoryCommandHasATarget(command, directory, home, currentDirectory);
      if Contains(command, "cd ..") && |command| == 5 {
        currentDirectory := directory + "/..";
      } else if FindFirst(command, "cd ", 2) && |command| > 2 {
        currentDirectory := command[3..];
      } else if FindFirst(command, "cd", 1) && |command| == 2 {
        currentDirectory := home;
      }
    }
  }
}

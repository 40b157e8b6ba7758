# Remote Terminal, modelled in Dafny

Remote Terminal is a client and a server. The server runs shell commands for its clients and streams what
they print; the client shows it. This project models the three parts of the program that hold state across
calls, and proves what they keep.

**The protocol, from the child process to the screen.** The server turns every read of a child's output into
a frame (AES-GCM, then upper-case base16 as in section 8 of RFC 4648, then a bar) and ends a response with
the three bytes `EOT`. The client appends packets to a buffer, latches when a packet holds `EOT`, and on a
one-second timer splits the buffer on bars, decrypts the pieces and shows them. `Wire` gives the two kinds
of send and shows that the byte stream determines them and that `EOT` can be found nowhere else. `Pump` is
the loop over the child's pipe, `Client` the receive thread and the main form, and `Delivery` puts them
together: for every way of cutting the stream into packets and every schedule of polls at whole frames, the
client shows exactly the text that was sent. `ClientThreads` takes `Client` apart into the statements of its
threads. `EndToEnd` joins it to runs of the multi-threaded server: what a client shows of a command is what
the child printed. `Limits` tells what the client does when a condition does not hold, with a run that goes
wrong. `Dispatch` covers the way back: the client's command, as the server hears it, and the choice between
refusal, directory change and shell.

**The server's threads.** `AcceptLoop` interleaves the accept loop and any number of sessions over the
descriptor table, the client count and the one variable through which a session learns its slot. `SlotLife`
interleaves a slot's session and all consoles ever launched from it, statement by statement, over one
`ClientConsole` entry; a step is one read or write of shared state, or one system call. `SlotSafety`,
`SlotSpeech`, `SlotCommand`, `SlotHeader`, `SlotTurns`, `SlotHandoff` and `SlotCancel` prove what every run
of a slot keeps. `WholeServer` composes all of it and shows that, as long as each session reads its slot
number before the next one is published, every slot goes through a run of its own; `Descriptors` and
`SlotTenant` tell which client is sent what. `ServerTable` holds the table's operations on the array itself.

**The profile store and its forms.** `Profiles` is the store: two layers of encryption around a document, a
printer, the nested reader loops, and the objects they make. `Editor` is the profile manager form and
`ProfileList` the list on the main form with its "None" entry. `PlainXml` shows that what is asked of the
XML library can be met.

Encryption is any pair of functions with `open(seal(p)) = p` and a 16-byte tag; what a failed decryption
returns is left open. Where the source changes fields or arrays in place the model has classes with the same
fields, and each method's postcondition gives its new state as a function of the old one; the for-all
statements are about those functions. Threads are modelled as step relations on values, because a run of
statements from several threads is not a call of any one method.

## Where the code does not do what its documentation or its comments say

These are proved of the code as it stands; the member that states each is named.

- Any command that contains the letters "cd", unless it is refused for its `sudo`, is taken for a change of
  directory (`Dispatch.ShellNeverSeesCd`): `ls abcd` tries to enter `abcd` and is never run
  (`Dispatch.CdInsideAWord`).
- A directory command that arrives between the launch of a console and its read of the command is given to
  the shell in place of the command launched (`SlotCommand.RunsWhatWasLaunched`,
  `SlotCommand.DirectoryCommandIsRun`).
- A cancel sets `exitCode` with nobody left to clear it if no console runs, and also if the console has just
  cleared it: the client's later commands are dropped without an answer until the slot is given away again.
  In every other case the cancel works (`SlotCancel.CancelIsSeenUnlessLate`, `SlotCancel.CancelDeafens`,
  `SlotSafety.DeafUntilReassigned`).
- When `pthread_create` fails for a console, `pipeActive` stays set and the slot never runs a command again,
  for this client or any later one (`SlotSafety.FailedLaunchWedges`, `SlotSafety.WedgedForever`). Nothing else
  makes the mark untrue (`SlotSafety.BusyMeansWorking`).
- The latch can stick, so that no poll releases it and no command is sent. It happens when the buffer is
  emptied, by a poll or by a send, between the append of an `EOT` and the setting of the latch or once the latch
  is set, and when a connection is made on a latch that a thread of an earlier connection has left behind; and
  in no other way (`ClientThreads.LatchGoesWrongIffUnsafe`). One receive thread is enough
  (`ClientThreads.OneThreadSuffices`). If nobody is interrupted within a turn or an action it takes two
  (`Client.LatchSticksOnlyWithTwoThreads`, `Client.LatchSticksAfterLatePacket`).
- A poll loses what arrives between its copy of the buffer and its clear
  (`ClientThreads.PollMissesWhatIsAppended`).
- A client that takes a slot while an earlier client's console still works is sent that console's frames
  (`SlotTenant.TenantHearsOthersIffOwed`).
- Of two lines typed for a running process in quick succession one can be lost
  (`SlotHandoff.InputIsCompleteUnlessLost`).
- When saving the profiles removes the file and cannot write it again, the profile manager asks for a row that
  is gone (`Editor.InRangeIffStoreAllows`).
- `EOT` split over two packets is missed; bytes behind an `EOT` in one buffer, and a poll inside a frame, lose
  text; a packet of exactly 512 bytes is read on past its end to the next NUL (`Limits`).
- Two sessions can take the same slot when a second client is accepted before the first session has read
  its number, and in no other way (`AcceptLoop.PublishSharesUnlessRead`).
- When no profile is the default and the remembered index no longer exists, the main form shows the first
  stored profile although no entry is chosen, because filling the list selects its first entry for a moment
  (`ProfileList.ProfileChooser.LoadStoredProfiles`).

## Model

| member | source | states |
|---|---|---|
| `EndToEnd.ConsoleOutputIsShown` | remote-terminal-server/src/main.cpp:336-475 | in every run of the whole server with slot numbers handed over, over any stretch from the start of a console to its end during which one session holds the slot: the client that receives what is sent on that session's descriptor, cut into packets and polled at whole frames in any way, shows the text of the console's response interleaved with what the session said; if the session said nothing, exactly header, reads and killed notice; and if nobody cancelled and the child printed no NUL, every byte the child ever printed |
| `EndToEnd.SessionAnswerIsShown` | remote-terminal-server/src/main.cpp:198-234 | the same for a refused command or a change of directory with no console at work: the client shows the refusal, or the header with directory and command |
| `EndToEnd.DirectoryAnswerIsShown` | remote-terminal-server/src/main.cpp:209-234 | over the whole of a directory command with no console at work: the client shows one header, with the directory the slot is in by then and the very command received |
| `EndToEnd.HeadersAreNamed` | remote-terminal-server/src/main.cpp:315-345 | in every run of the server the header of every console that has sent one names a user and a directory, and the command the console announced |
| `EndToEnd.ClientIsSentItsOwn` | remote-terminal-server/src/main.cpp:115-313 | a client that takes a slot in which no console owes an end code is sent, for as long as its session holds the slot, nothing of an earlier client's console |
| `Descriptors.HolderIsSent` | remote-terminal-server/src/main.cpp:205-466 | as long as a session holds its slot, what all threads of the server send on its descriptor is exactly what is said in its slot |
| `Descriptors.DescriptorStays` | remote-terminal-server/src/main.cpp:118-306 | no step of the server takes the descriptor of a session that stays |
| `SlotTenant.TenantHearsOthersIffOwed` | remote-terminal-server/src/main.cpp:178-468 | a client that has just taken a slot can be sent something by an earlier client's console if and only if such a console has not yet sent its end code |
| `EndToEnd.SlotResponseIsShown` | remote-terminal-client/src/frmmain.cpp:336-381 | the same as the first, for any sound state of one slot and a client that receives all that is said in it |
| `Delivery.CommandOutputIsDelivered` | remote-terminal-server/src/main.cpp:403-468 | for NUL-free reads, any packets and any whole-frame polls, the shown text is the header, all bytes read in order, and the killed notice |
| `Delivery.StreamIsDelivered` | remote-terminal-client/src/client.cpp:110-129 | any number of rounds of packets and polls shows exactly what the sends carry, and leaves the connection idle |
| `Delivery.RoundDelivers` | remote-terminal-client/src/frmmain.cpp:336-381 | one poll after whole frames shows their text and leaves the buffer empty and the latch clear |
| `Delivery.ChunkingDoesNotMatter` | remote-terminal-client/src/client.cpp:110-129 | two ways of cutting and polling the same bytes show the same text |
| `Delivery.ScheduleIsARun` | remote-terminal-client/src/frmmain.cpp:336-381 | every such schedule of packets and polls is one a connected client can go through |
| `Delivery.LatchIffEndUnsplit` | remote-terminal-client/src/client.cpp:117-126 | the client latches in a round exactly when the round ends with `EOT` and the last packet holds all three of its bytes |
| `Delivery.PacketHoldsEnd` | remote-terminal-client/src/client.cpp:124 | a packet contains the text `EOT` exactly when it is the last of its round, an end token is due, and it has at least three bytes |
| `Wire.StreamIsUnambiguous` | remote-terminal-server/src/main.cpp:323-333 | two token sequences with the same bytes are equal |
| `Wire.EndCodeOnlyAtEnd` | remote-terminal-server/src/main.cpp:323-333 | `EOT` occurs in the stream exactly where an end token starts |
| `Wire.SearchFindsOnlyEnds` | remote-terminal-client/src/client.cpp:119-124 | searching any substring of the stream finds `EOT` exactly when an end token lies wholly inside it |
| `Wire.FrameShape` | remote-terminal-server/src/main.cpp:436-438 | a frame is upper-case hex digits and then one bar |
| `Wire.SplitAtBar` | remote-terminal-client/src/frmmain.cpp:343 | splitting gives the part before the first bar and the split of the rest |
| `Wire.BufferTextOfFrames` | remote-terminal-client/src/frmmain.cpp:343-354 | splitting a buffer of frames, with or without `EOT` behind them, and decrypting the pieces gives the frames' texts |
| `Hex.DecodeEncode` | remote-terminal-client/src/crypto.cpp:35-36 | base16 decoding undoes encoding |
| `Hex.EncodedDigits` | remote-terminal-client/src/crypto.cpp:65-66 | each byte is two digits at twice its place, the high one first |
| `Sealing.Encrypt` | remote-terminal-client/src/crypto.cpp:46-74 | empty stays empty; otherwise twice the length of the text and its tag, in upper-case hex digits |
| `Sealing.DecryptEncrypt` | remote-terminal-client/src/crypto.cpp:15-74 | decryption undoes encryption for every text, the empty one included |
| `Sealing.EncryptedIsSealed` | remote-terminal-client/src/crypto.cpp:63-66 | what is sent decodes to the sealed text |
| `Sealing.EncryptIsInjective` | remote-terminal-client/src/crypto.cpp:46-74 | different texts have different encryptions |
| `Sealing.FileRoundTrip` | remote-terminal-client/src/crypto.cpp:96-138 | an encrypted file read line by line decrypts to what was written |
| `Sealing.Crypto.EncryptString` | remote-terminal-client/src/crypto.cpp:46-74 | the result is the encryption of the text, and nothing changes |
| `Sealing.Crypto.DecryptString` | remote-terminal-client/src/crypto.cpp:15-44 | the decrypted text; the invalid-key flag is set by a failure and never cleared |
| `Sealing.Crypto.ReadLines` | remote-terminal-client/src/crypto.cpp:107-110 | the line-reading loop removes exactly the newlines |
| `Sealing.Crypto.DecryptSettingsFile` | remote-terminal-client/src/crypto.cpp:96-117 | a missing file gives the empty text and leaves the flag alone; otherwise the joined lines are decrypted |
| `Sealing.Crypto.EncryptSettingsFile` | remote-terminal-client/src/crypto.cpp:119-138 | success means the file holds the encrypted text; a failure leaves the old file, or none if it could be removed |
| `Text.CStr` | remote-terminal-server/src/main.cpp:432-434 | the prefix up to the first NUL |
| `Buffers.ReadsWhole` | remote-terminal-client/src/client.cpp:103-119 | a packet shorter than its zeroed buffer and free of NULs is read back whole |
| `Buffers.CStrOfPadded` | remote-terminal-server/src/main.cpp:389-432 | a read into the zeroed pipe buffer is taken up to its first NUL, with no bytes left over from an earlier read |
| `Pump.Console.HandleClientPipe` | remote-terminal-server/src/main.cpp:383-475 | for every script of reads the sends are one frame per read, the killed notice and `EOT`; the counter is the length of all frame texts modulo 2^32; a waiting line is written once, on the first turn that goes on; both flags end cleared |
| `Pump.PerformedStops` | remote-terminal-server/src/main.cpp:406-443 | the reads performed are those up to the first that finds the pipe closed, or empty with a cancel pending, and no other stops the loop |
| `Pump.ReadsAreData` | remote-terminal-server/src/main.cpp:429-438 | the bytes of the data reads among them, one for each |
| `Pump.ResponseShape` | remote-terminal-server/src/main.cpp:343-468 | header, one frame a read in order, notice, and one end code, which comes last |
| `Pump.KilledNamesProcess` | remote-terminal-server/src/main.cpp:463 | the notice reads back as the process number |
| `Pump.Console.Turn` | remote-terminal-server/src/main.cpp:405-456 | one turn adds exactly this read's frame and leaves the buffer zeroed |
| `Pump.Console.Forward` | remote-terminal-server/src/main.cpp:429-439 | the frame's plaintext is this read up to its first NUL, and the counter grows by its length |
| `Pump.Console.PassInput` | remote-terminal-server/src/main.cpp:445-451 | a flagged line is written to the child once, and line and flag are cleared |
| `Pump.Console.Finish` | remote-terminal-server/src/main.cpp:463-471 | killed notice, `EOT`, then both flags cleared |
| `Pump.PumpConservesBytes` | remote-terminal-server/src/main.cpp:429-438 | the frame texts together are the bytes read if and only if no NUL was read, and never longer |
| `Pump.TotalCountsBytesRead` | remote-terminal-server/src/main.cpp:387-434 | for NUL-free output within `int` range the counter is the number of bytes read |
| `Pump.TextLengthIsTotal` | remote-terminal-server/src/main.cpp:434 | the wrapping running sum is the wrapped total length of the frame texts |
| `Pump.DataFramesAreImages` | remote-terminal-server/src/main.cpp:403-458 | the sends of the loop are the images of one frame per successful read, in order |
| `Pump.ResponseCarries` | remote-terminal-server/src/main.cpp:343-468 | a response carries its header, the texts and the killed notice |
| `Pump.FullReadFrame` | remote-terminal-server/src/main.cpp:406-438 | a NUL-free read of n bytes gives a frame of 2n + 33 characters; 512 bytes give 1057, more than two client packets |
| `Client.After` | remote-terminal-client/src/frmmain.cpp:66-97 | every event keeps the history index between -1 and the last entry, or 0 for an empty history |
| `Client.Run` | remote-terminal-client/src/frmmain.cpp:66-97 | so does every sequence of events |
| `Client.LatchStaysExplained` | remote-terminal-client/src/client.cpp:99-145 | with each turn of a receive thread and each action of the form in one piece, over any number of connections, each made after the receive thread of the last one has ended: a set latch means the buffer contains `EOT`, and a connection has its one thread, its socket and its timer |
| `Client.EventKeepsLatch` | remote-terminal-client/src/frmmain.cpp:277-416 | in such pieces every packet, hang-up, poll and action of the user keeps that |
| `Client.LatchFreezesBuffer` | remote-terminal-client/src/client.cpp:117 | while the latch is set, packets, commands, cancels and keys leave the connection unchanged |
| `Client.PollReleasesLatch` | remote-terminal-client/src/frmmain.cpp:336-375 | at the end of any such run the next expiry of the message timer, in one piece, releases the latch and empties the buffer |
| `ClientThreads.LatchGoesWrongIffUnsafe` | remote-terminal-client/src/client.cpp:54-145 | statement by statement, for any number of receive threads and connections and every interleaving with the form: from every state of a run that met the condition `Safe`, a step can lead to a latch that no `EOT` in the buffer explains if and only if the step does not meet it; the condition: the buffer of a live connection is not emptied while a latch is set or being set, except by the poll that releases it, and no connection is made on a latch the buffer does not explain |
| `ClientThreads.StepKeepsLatch` | remote-terminal-client/src/client.cpp:99-145 | every safe statement of every thread keeps: on a live connection a latch that is set or being set has an `EOT` in the buffer |
| `ClientThreads.RunKeepsLatch` | remote-terminal-client/src/client.cpp:99-145 | so does every run, and none of its states has an unexplained latch |
| `ClientThreads.UnsafeClearSticks` | remote-terminal-client/src/frmmain.cpp:336-405 | every unsafe clear can leave a connection with the latch set and the buffer empty |
| `ClientThreads.OneThreadSuffices` | remote-terminal-client/src/client.cpp:115-124 | one thread is enough: a packet with `EOT` is appended, a poll is about to empty the buffer, and the latch is still to be set |
| `ClientThreads.FinishedPollReleases` | remote-terminal-client/src/frmmain.cpp:356-374 | in such a run every poll of a live connection that gets to its end leaves the latch released |
| `ClientThreads.PollMissesWhatIsAppended` | remote-terminal-client/src/frmmain.cpp:343-372 | what a poll empties unseen is exactly what threads append between its copy and its clear |
| `ClientThreads.EventIsARun` | remote-terminal-client/src/frmmain.cpp:277-416 | every event of `Client` is a run of these statements in which nobody is interrupted |
| `Client.LatchSticksOnlyWithTwoThreads` | remote-terminal-client/src/client.cpp:54-132 | with turns and actions in one piece: making a connection can lead to such a latch if and only if a receive thread of an earlier connection is still alive |
| `Client.LatchSticksAfterLatePacket` | remote-terminal-client/src/frmmain.cpp:277-388 | the sticking run: two connections made while the first one's thread lives, a hang-up, a packet that thread appends after it, a poll |
| `Client.StuckUntilHangUp` | remote-terminal-client/src/frmmain.cpp:336-416 | a connection made on such a latch receives, shows and sends nothing until it ends |
| `Client.UpWalksBack` | remote-terminal-client/src/frmmain.cpp:85-96 | with the index on the last of n commands, k presses of Up show command n - k and change no entry |
| `Client.UpAfterSend` | remote-terminal-client/src/frmmain.cpp:391-392 | the same right after a send, the sent command being the first shown |
| `Client.UpStartsOver` | remote-terminal-client/src/frmmain.cpp:85-96 | behind the oldest entry Up shows nothing new and starts over at the first |
| `Client.DownWalksForward` | remote-terminal-client/src/frmmain.cpp:72-84 | k presses of Down show the k-th entry behind the index, up to the last, where they stay |
| `Client.ConnectForgets` | remote-terminal-client/src/frmmain.cpp:277-310 | a new connection empties the history, counts one thread more and touches neither buffer, latch nor what is shown; any other attempt leaves the form as it is but for the socket |
| `Client.SendTakesTheLine` | remote-terminal-client/src/frmmain.cpp:385-399 | a command sent leaves the line empty, joins the history, drops the buffer and allows a cancel |
| `Client.PollShowsBuffer` | remote-terminal-client/src/frmmain.cpp:340-374 | a poll shows the buffer's text once and empties it; it forbids a cancel exactly after an end code |
| `Client.PollNoticesLoss` | remote-terminal-client/src/frmmain.cpp:377-380 | the first poll after a loss stops the timer and says nothing |
| `Client.RefusedSendDisconnects` | remote-terminal-client/src/frmmain.cpp:396-414 | a send or cancel the socket does not take disconnects |
| `Client.ContainsInSuffix` | remote-terminal-client/src/client.cpp:123-124 | an end code found in the packet is in the buffer it was appended to |
| `Client.TCPClient.ReceiveLoop` | remote-terminal-client/src/client.cpp:99-133 | the thread applies one reception per packet in order, then hangs up and ends |
| `Client.TCPClient.ReadPacket` | remote-terminal-client/src/client.cpp:115-119 | the packet as a C string, with whatever lies behind a full buffer |
| `Client.TCPClient.Connect` | remote-terminal-client/src/client.cpp:54-92 | connected, with one receive thread more, exactly when the server is reached; the socket is overwritten by every attempt that gets that far; latch and buffer are not touched |
| `Client.TCPClient.Disconnect` | remote-terminal-client/src/client.cpp:135-145 | with a socket, clears the connected flag and the latch, and keeps the buffer |
| `Client.MainForm.CheckMessages` | remote-terminal-client/src/frmmain.cpp:336-381 | the poll: shows the buffer's text, empties the buffer, releases a set latch; disconnects when the connection is gone |
| `Client.MainForm.ReadPieces` | remote-terminal-client/src/frmmain.cpp:347-353 | the loop appends the decrypted pieces in order, skipping empty ones and `EOT` |
| `Client.MainForm.SendCommand` | remote-terminal-client/src/frmmain.cpp:383-405 | nothing while latched or not connected; otherwise the buffer is dropped, the command sealed and sent and added to the history |
| `Client.MainForm.CancelCommand` | remote-terminal-client/src/frmmain.cpp:407-416 | nothing while latched; otherwise one cancel code is sent |
| `Client.MainForm.Connect` | remote-terminal-client/src/frmmain.cpp:277-310 | nothing while connected; a new connection starts with an empty history and a running message timer |
| `Client.MainForm.Disconnect` | remote-terminal-client/src/frmmain.cpp:312-334 | the buffer is dropped, a live connection is told and closed, and the message timer is stopped |
| `Client.MainForm.Leave` | remote-terminal-client/src/frmmain.cpp:160-165 | the button and the menu disconnect only what is connected |
| `Client.MainForm.KeyUp` | remote-terminal-client/src/frmmain.cpp:85-96 | shows the entry at the index and steps back, or resets the index to 0 |
| `Client.MainForm.KeyDown` | remote-terminal-client/src/frmmain.cpp:72-84 | for every index from which the entry asked for exists: steps forward and shows that entry, or stays on the last one |
| `Client.DownIsInRangeFromMinusOne` | remote-terminal-client/src/frmmain.cpp:74-78 | that entry exists if and only if the index is at least -1 |
| `Limits.SplitEndIsMissed` | remote-terminal-client/src/client.cpp:124 | `EO` and `T` in two packets: the buffer is `EOT` and the latch is clear |
| `Limits.FrameBehindEnd` | remote-terminal-client/src/frmmain.cpp:343-352 | a frame right behind `EOT` is decrypted together with the code |
| `Limits.BytesAfterEndAreLost` | remote-terminal-client/src/frmmain.cpp:343-352 | and for some lawful cipher and text nothing of it is shown |
| `Limits.PollInsideFrame` | remote-terminal-client/src/frmmain.cpp:336-361 | for every cipher, text and cut inside a frame: the first poll shows what opening the truncated sealed text gives, the second what opening the rest gives; only a cut right before the bar leaves the text whole |
| `Limits.PollInsideFrameLosesIt` | remote-terminal-client/src/frmmain.cpp:336-361 | and for some lawful cipher and text neither half shows anything |
| `Limits.FullPacketNeedsLuck` | remote-terminal-client/src/client.cpp:103-123 | a 512-byte packet arrives unspoiled if and only if a NUL follows its buffer in memory |
| `Limits.LongCommandCanBeMisheard` | remote-terminal-server/src/main.cpp:149-183 | a command of 239 bytes can reach the server as a different command |
| `Dispatch.CommandFits` | remote-terminal-client/src/frmmain.cpp:389-396 | a sealed command is shorter than 512 characters if and only if it has at most 238 bytes |
| `Dispatch.CommandIsHeard` | remote-terminal-server/src/main.cpp:178-194 | such a command, received at once, is heard as itself with its line ends removed |
| `Dispatch.FormIsHeard` | remote-terminal-client/src/frmmain.cpp:312-416 | what the connected form sends is what the server hears, one message each: an accepted command of at most 238 bytes as that command without its line ends, a cancel as a cancel, a disconnect as a close |
| `Dispatch.SilentForm` | remote-terminal-client/src/frmmain.cpp:385-409 | latched or not connected the form sends neither, and nothing changes |
| `Dispatch.HeardByLetter` | remote-terminal-server/src/main.cpp:185-297 | a text is a command, a cancel or a close by its first letter; only a lone C, but for line ends, ends the session |
| `Dispatch.CleanOnlyRemovesLineEnds` | remote-terminal-server/src/main.cpp:193-194 | no CR or LF is left, and every other character keeps its number and order |
| `Dispatch.FullPacketIsReadOn` | remote-terminal-server/src/main.cpp:149-183 | a command of 239 bytes is decrypted with whatever follows the packet buffer |
| `Dispatch.EveryDirectoryCommandHasATarget` | remote-terminal-server/src/main.cpp:209-222 | a command with "cd" has one target whatever was entered before: the parent for exactly `cd ..`, home for exactly `cd`, else the text from position 3, which exists |
| `Dispatch.NamedDirectory` | remote-terminal-server/src/main.cpp:215-218 | `cd name` goes to `name`, except that `cd ..` goes to the parent of the slot's directory |
| `SlotCommand.RunsWhatWasLaunched` | remote-terminal-server/src/main.cpp:209-345 | in every run of a slot a console is launched with a command without "cd"; it announces that command if and only if no directory command was put in the entry between launch and header, and runs it if and only if none was put there between launch and read; otherwise the shell gets a directory command |
| `SlotCommand.WhereACommandGoes` | remote-terminal-server/src/main.cpp:196-265 | with `exitCode` 0 a command is refused if and only if it contains "sudo " and the server is not root, else taken for a directory command if and only if it contains "cd", else passed on; with any other `exitCode` it is dropped |
| `SlotCommand.NoSudoWithoutRoot` | remote-terminal-server/src/main.cpp:196-345 | in every run of a slot of a server that is not root no console is launched with, announces or runs a command with "sudo " in it, and none is in the entry |
| `SlotCommand.CommandIsCarried` | remote-terminal-server/src/main.cpp:188-264 | a session works on the command it received, unchanged, until it is done with it |
| `SlotCommand.CommandIsLaunched` | remote-terminal-server/src/main.cpp:248 | and it is what a console is launched with |
| `SlotCommand.CommandsKept` | remote-terminal-server/src/main.cpp:209-345 | every statement keeps what that rests on |
| `SlotCommand.DirectoryCommandIsRun` | remote-terminal-server/src/main.cpp:230-345 | from every state in which a console has still to read its command, a directory command that arrives is what the shell is given |
| `Dispatch.CdInsideAWord` | remote-terminal-server/src/main.cpp:209-218 | `ls abcd` is taken for a change to the directory `abcd` |
| `Dispatch.Session.ReceiveRequest` | remote-terminal-server/src/main.cpp:178-302 | one receive is classified by its decrypted first letter and leaves the buffer zeroed; an empty or undecipherable one is rejected |
| `Dispatch.Session.ResolveDirectory` | remote-terminal-server/src/main.cpp:211-222 | the variable holds the target the command names |
| `ServerTable.Server.constructor` | remote-terminal-server/src/server.cpp:9-19 | one entry more than the maximum, all free, count zero |
| `ServerTable.Server.ResetSockets` | remote-terminal-server/src/server.cpp:76-82 | every entry is free |
| `ServerTable.Server.CloseSocket` | remote-terminal-server/src/server.cpp:99-112 | exactly this entry becomes free, and its descriptor is shut down unless it was -1 |
| `ServerTable.Server.SocketsDisconnect` | remote-terminal-server/src/server.cpp:114-130 | every entry is free, and every descriptor other than -1 was shut down, in order |
| `ServerTable.Server.CountIn` | remote-terminal-server/src/main.cpp:131 | whatever number the 16-bit field stood for, it now stands for one more |
| `ServerTable.Server.CountOut` | remote-terminal-server/src/main.cpp:307 | whatever positive number the 16-bit field stood for, it now stands for one less |
| `ServerTable.CountUpdate` | remote-terminal-server/src/server.cpp:99-112 | changing one entry changes the number of occupied slots by that entry alone |
| `ServerTable.UpWraps` | remote-terminal-server/src/server.cpp:55-58 | counting up and down in 16 bits are inverse and agree with counting in full |
| `AcceptLoop.StepKeepsInv` | remote-terminal-server/src/main.cpp:111-135 | every statement of the accept loop and of any session keeps the invariant on ownership, occupancy and count |
| `AcceptLoop.RunKeepsInv` | remote-terminal-server/src/main.cpp:106-139 | so does every run in which slot numbers are handed over |
| `AcceptLoop.NoSharedSlot` | remote-terminal-server/src/main.cpp:132-153 | in every such run no two live sessions share a slot |
| `AcceptLoop.OccupiedHasOneSession` | remote-terminal-server/src/main.cpp:118-153 | every occupied slot the accept loop has let go has exactly one session |
| `AcceptLoop.SweepFindsFirstFree` | remote-terminal-server/src/main.cpp:115-121 | a sweep passes exactly the slots in use and accepts in the first free one |
| `AcceptLoop.FailedAcceptIsUndone` | remote-terminal-server/src/main.cpp:123-126 | a failed accept leaves its slot free and starts over |
| `AcceptLoop.DescriptorUnchanged` | remote-terminal-server/src/main.cpp:118-126 | no step but its own close takes a live session's slot or descriptor away |
| `AcceptLoop.DescriptorKept` | remote-terminal-server/src/main.cpp:118-306 | over any such run without its close the session keeps slot and descriptor |
| `AcceptLoop.UnsharedKept` | remote-terminal-server/src/main.cpp:118-126 | no two slots ever hold the same descriptor |
| `AcceptLoop.CountAtAllTimes` | remote-terminal-server/src/main.cpp:118-307 | in every reachable state the count is the occupied slots, less the one not yet counted in, plus the sessions closed and not yet counted out |
| `AcceptLoop.CountWhenQuiet` | remote-terminal-server/src/main.cpp:118-307 | with no step in progress the count is the number of occupied slots, at most maxClients + 1 |
| `AcceptLoop.PublishSharesUnlessRead` | remote-terminal-server/src/main.cpp:132-153 | from every state of such a run, publishing a slot number can lead to two live sessions on one slot if and only if some session has not read its own yet |
| `AcceptLoop.OverwrittenNumberIsShared` | remote-terminal-server/src/main.cpp:132-153 | and then it does: the new session is created, both read, and both live on the slot |
| `AcceptLoop.TwoAcceptsInARow` | remote-terminal-server/src/main.cpp:115-135 | such a state is reached by accepting two clients before the first session runs |
| `AcceptLoop.LateReadSharesASlot` | remote-terminal-server/src/main.cpp:132-153 | with two clients: both take slot 1 and slot 0 has none |
| `SlotSafety.AtMostOneConsole` | remote-terminal-server/src/main.cpp:238-248 | in every run of a slot, over any number of clients, at most one console works, and then `pipeActive` is set |
| `SlotSafety.OneConsoleKept` | remote-terminal-server/src/main.cpp:238-471 | every statement of either thread keeps that |
| `SlotSafety.EveryCommandGetsOneEnd` | remote-terminal-server/src/main.cpp:196-266 | in every run there are never more `EOT`s than commands begun, at most two are owed, and none when nothing is under way |
| `SlotSafety.AccountedKept` | remote-terminal-server/src/main.cpp:196-333 | every statement keeps: `EOT`s sent plus those owed are the commands begun |
| `SlotSafety.InputBeginsNothing` | remote-terminal-server/src/main.cpp:261-265 | a line for a running process begins no command, owes nothing and sends nothing |
| `SlotSafety.FinishedConsoleSaidItsResponse` | remote-terminal-server/src/main.cpp:336-475 | whatever ran beside it, a finished console has sent exactly header, one frame per read, killed notice and `EOT` |
| `SlotSpeech.ConsoleResponds` | remote-terminal-server/src/main.cpp:336-475 | over any stretch from a console's start to its end the socket gets its response interleaved with what the session says, and exactly the response if and only if the session says nothing; the reads are what the child printed, in order, up to what is left unread |
| `SlotHeader.HeaderNames` | remote-terminal-server/src/main.cpp:319-322 | newline, user and host, colon, directory, dollar and blank, command and two newlines stand in every header, each at its own offset, and nothing else does |
| `SlotHeader.ConsoleHeaderNamesCommand` | remote-terminal-server/src/main.cpp:319-345 | in every run the header of a console names the command it announced, which is the one it was launched with unless a directory command came in between |
| `SlotHeader.DirectoryIsAsked` | remote-terminal-server/src/main.cpp:211-228 | a directory command asks `chdir` once, for the parent, home or the text from position 3; the slot then has the directory entered, or its old one |
| `SlotHeader.OnlyDirectoryCommandsAsk` | remote-terminal-server/src/main.cpp:224 | no other statement of a session or console asks for one |
| `SlotHeader.DirectoryAnswerNamesCommand` | remote-terminal-server/src/main.cpp:209-234 | its answer is one frame, with the user, the directory by then and the command received, and one end code |
| `SlotTurns.TurnIsARun` | remote-terminal-server/src/main.cpp:176-304 | a session that is not interrupted goes through these statements until it receives again, waits or is gone |
| `SlotTurns.ArrivalTurn` | remote-terminal-server/src/main.cpp:153-174 | it puts user, host and start directory in the entry |
| `SlotTurns.RefusedTurn` | remote-terminal-server/src/main.cpp:198-208 | a refused command is answered with the refusal and one end code, and changes nothing else |
| `SlotTurns.DirectoryTurn` | remote-terminal-server/src/main.cpp:209-234 | a directory command changes directory and command in the entry and is answered once; it runs nothing |
| `SlotTurns.ShellTurn` | remote-terminal-server/src/main.cpp:238-248 | with no process at work any other command launches one console with it, which the session can wait for, and marks the slot busy |
| `SlotTurns.PipelessTurn` | remote-terminal-server/src/main.cpp:240-242 | without pipes it is dropped unanswered |
| `SlotTurns.InputTurn` | remote-terminal-server/src/main.cpp:261-265 | with a process at work it becomes its line of input, with a newline, flagged |
| `SlotTurns.DroppedTurn` | remote-terminal-server/src/main.cpp:196 | while `exitCode` is set it does nothing |
| `SlotTurns.FailedTurn` | remote-terminal-server/src/main.cpp:248-258 | a thread that cannot be created is reported with one end code and the session ends |
| `SlotTurns.CancelTurn` | remote-terminal-server/src/main.cpp:270-277 | a cancel sets `exitCode`, waits for a console of the session that is at work, and otherwise goes on |
| `SlotTurns.CloseTurn` | remote-terminal-server/src/main.cpp:279-297 | a close and anything undecipherable end the session; a close with a tail does nothing |
| `SlotTurns.HandleChanges` | remote-terminal-server/src/main.cpp:248-276 | the thread a session can wait for changes only by a launch, a finished wait and an arrival |
| `SlotSpeech.RunGrows` | remote-terminal-server/src/main.cpp:202-468 | while a console is at work the socket gets what it and the session say, interleaved, and nothing else |
| `SlotSpeech.UncancelledIsComplete` | remote-terminal-server/src/main.cpp:403-443 | without a cancel a finished console has read every byte its child ever printed |
| `SlotSpeech.AllBytesOkKept` | remote-terminal-server/src/main.cpp:406-438 | every statement keeps: what was forwarded and what is unread are what the child printed |
| `SlotSpeech.AnswerIsGiven` | remote-terminal-server/src/main.cpp:198-234 | with no console at work, a refused or a directory command gets its frame and its `EOT` and nothing else |
| `SlotSafety.StepSafe` | remote-terminal-server/src/main.cpp:141-475 | every statement keeps all three invariants of a slot |
| `SlotSafety.RunSafe` | remote-terminal-server/src/main.cpp:141-475 | so does every run |
| `SlotSafety.CancelWithNothingRunning` | remote-terminal-server/src/main.cpp:270-277 | a cancel with no console at work leaves `exitCode` at 1 with nobody to clear it |
| `SlotSafety.DeafUntilReassigned` | remote-terminal-server/src/main.cpp:129-196 | and then nothing is sent or launched in any run until the accept loop clears `exitCode` |
| `SlotSafety.BusyMeansWorking` | remote-terminal-server/src/main.cpp:238-471 | at the end of every run of a slot `pipeActive` means a console at work or being launched, if and only if no thread creation of the run failed |
| `SlotSafety.TruthfulUnlessLaunchFails` | remote-terminal-server/src/main.cpp:238-471 | the same from any state where it holds |
| `SlotSafety.FailedLaunchWedges` | remote-terminal-server/src/main.cpp:246-258 | a failed thread creation leaves `pipeActive` set with no console |
| `SlotSafety.WedgedForever` | remote-terminal-server/src/main.cpp:238-266 | and no run of the slot, of this client or a later one, ever launches a console again |
| `SlotHandoff.InputIsASubsequence` | remote-terminal-server/src/main.cpp:261-451 | under every interleaving the non-empty lines written to children are a subsequence of the lines submitted, in order, each at most once |
| `SlotHandoff.InputIsCompleteUnlessLost` | remote-terminal-server/src/main.cpp:261-451 | in every run the lines written and the one that waits are all the lines submitted if and only if none was overwritten while it waited and none was cleared with the line before it; as many are missing as were lost that way |
| `SlotHandoff.StepBox` | remote-terminal-server/src/main.cpp:261-451 | every statement of every thread puts a line in the mailbox, writes it out, clears it, or leaves it alone |
| `SlotHandoff.PacedInputIsComplete` | remote-terminal-server/src/main.cpp:445-451 | with a full console pass between submissions it is the whole sequence |
| `SlotHandoff.OrderKept` | remote-terminal-server/src/main.cpp:261-451 | every statement keeps the order, with an unwritten line being the latest one and coming after all that was written |
| `SlotHandoff.KeepsUpKept` | remote-terminal-server/src/main.cpp:445-451 | every statement of a paced run keeps all earlier lines written |
| `Text.SubsequenceMeansPlaces` | remote-terminal-server/src/main.cpp:261-451 | "subsequence" means that the items sit at increasing positions of the other sequence |
| `SlotCancel.CancelCompletes` | remote-terminal-server/src/main.cpp:270-471 | a cancel in time: whatever the schedule and whatever the child still prints, when the console has ended the socket has got exactly the rest of its response, which for a console in its loop is one frame a further read, one killed notice and one `EOT`; the reads are what was printed, in order, with nothing left unread if the child had stopped; the join then finds `exitCode` 0 and `pipeActive` false |
| `SlotCancel.CancelIsSeenUnlessLate` | remote-terminal-server/src/main.cpp:270-471 | the join finds both flags cleared if and only if the console had not yet cleared `exitCode` when it was set; otherwise the slot is deaf |
| `SlotCancel.CancelDeafens` | remote-terminal-server/src/main.cpp:270-277 | with or without a console to wait for, the slot is deaf at once if and only if its console has cleared `exitCode` already |
| `SlotCancel.InTimeIsCleared` | remote-terminal-server/src/main.cpp:423-470 | a cancel in time is cleared by the console even if nobody waits |
| `SlotCancel.RunsReachThose` | remote-terminal-server/src/main.cpp:141-475 | every state of every run of a slot meets the conditions of these lemmas |
| `SlotCancel.CancelTerminates` | remote-terminal-server/src/main.cpp:403-471 | the console's steps are bounded by the unread bytes and the bytes still printed |
| `SlotCancel.CancelProgresses` | remote-terminal-server/src/main.cpp:403-471 | until it has ended the console can always take a step |
| `SlotCancel.NothingInterferes` | remote-terminal-server/src/main.cpp:275-276 | while the session waits nothing but the console and children can move |
| `SlotCancel.CancelBegins` | remote-terminal-server/src/main.cpp:275-276 | setting `exitCode` starts a cancel that is seen if and only if the console has not yet cleared it, and one that is missed otherwise |
| `WholeServer.StepMatched` | remote-terminal-server/src/main.cpp:106-475 | every step of the whole server keeps slots and sessions matched |
| `WholeServer.NumberReadIsFree` | remote-terminal-server/src/main.cpp:153 | the slot whose number a session reads has no session |
| `WholeServer.EverySlotRunsAlone` | remote-terminal-server/src/main.cpp:106-475 | in every run of the server each slot goes through its own part of the run, which is a run of the slot alone |
| `WholeServer.StepIsOwn` | remote-terminal-server/src/main.cpp:106-475 | every step of the server is to each slot one step of its own or none |
| `WholeServer.EverySlotIsSafe` | remote-terminal-server/src/main.cpp:106-475 | so every slot has at most one working console, no `EOT` too many, and its input in order |
| `Decimal.ToIntOfPrint` | remote-terminal-client/src/profilemanager.cpp:55-85 | reading a printed 32-bit number gives the number back |
| `Decimal.OnlyDigitsRead` | remote-terminal-client/src/profilemanager.cpp:55 | exactly the non-empty digit strings read as numbers |
| `Decimal.DigitBehind` | remote-terminal-client/src/profilemanager.cpp:55-85 | a digit behind a number makes it ten times as much, and the digit |
| `Decimal.SignsRead` | remote-terminal-client/src/profilemanager.cpp:55 | a sign is read, and what is not a number within `int` is 0 |
| `Profiles.ProfileManager.SaveProfiles` | remote-terminal-client/src/profilemanager.cpp:73-91 | success exactly when the file can be written, and then the file holds the sealed document of these profiles; otherwise the old file, or none if it could be removed |
| `Profiles.ProfileManager.ProfileNode` | remote-terminal-client/src/profilemanager.cpp:81-86 | the element with the five attributes of the profile |
| `Profiles.ProfileManager.GetProfiles` | remote-terminal-client/src/profilemanager.cpp:14-71 | for any file: fresh objects as the token-level reader makes them, in its order; an error lists none; the flag records a failed decryption |
| `Profiles.ProfileManager.ReadInner` | remote-terminal-client/src/profilemanager.cpp:34-64 | the inner loop reads all remaining tokens; a name starts an object, the default flag lists it |
| `Profiles.ParseOfDocument` | remote-terminal-client/src/profilemanager.cpp:28-66 | any token stream whose elements are those of a saved document, whatever stands between them, parses to exactly the saved profiles, complete and listed once each |
| `Profiles.ParseSeesElements` | remote-terminal-client/src/profilemanager.cpp:28-66 | the two loops depend on the elements alone: the first is taken as root, the others are read in order |
| `Profiles.ElementEffects` | remote-terminal-client/src/profilemanager.cpp:38-63 | whatever a profile element lacks: a name, and only a name, makes one new object with nothing else in it; a default flag, and only a flag, lists the latest object; earlier ones are not touched |
| `Profiles.LatestIsFilled` | remote-terminal-client/src/profilemanager.cpp:46-60 | each other attribute goes to its own field of the latest object, which keeps what the element lacks |
| `Profiles.OthersDoNothing` | remote-terminal-client/src/profilemanager.cpp:36-38 | other elements and tokens do nothing |
| `Profiles.ErrorListsNothing` | remote-terminal-client/src/profilemanager.cpp:67-68 | a text with an error lists no profile |
| `Profiles.ElementRoundTrip` | remote-terminal-client/src/profilemanager.cpp:38-87 | one element read back adds one complete object and lists it |
| `Profiles.SavedReadsBack` | remote-terminal-client/src/profilemanager.cpp:14-91 | both layers of encryption and the document between them are undone |
| `PlainXml.LawfulXmlExists` | remote-terminal-client/src/profilemanager.cpp:23-90 | the law asked of the printer and the reader can be met |
| `Profiles.SavedDocumentIsPlain` | remote-terminal-client/src/profilemanager.cpp:81-86 | a saved document's attribute values need no escaping |
| `Profiles.LoadedIsSaved` | remote-terminal-client/src/profilemanager.cpp:14-91 | with a valid key, loading a saved store gives the same profiles in the same order, for every list |
| `Profiles.LoadedIsStored` | remote-terminal-client/src/profilemanager.cpp:14-71 | the same, with a missing file holding the empty list |
| `Profiles.LoadStored` | remote-terminal-client/src/profilemanager.cpp:14-71 | the loaded objects are fresh, distinct and hold the stored values; a bad key shows none |
| `Profiles.SaveStored` | remote-terminal-client/src/profilemanager.cpp:73-91 | what later loads show after a save: the new list, the old one if the file could be neither written nor removed, none if it is gone or the key is bad |
| `Profiles.SaveThenLoad` | remote-terminal-client/src/profilemanager.cpp:14-91 | a load after a save returns distinct fresh objects; with a good key and a successful save as many, in the same order, field by field equal; otherwise the old list or none |
| `Editor.EventKeepsInv` | remote-terminal-client/src/frmprofilemanager.cpp:57-150 | every event the form offers and the store allows keeps: at most one default, the box free only if no other profile is the default, no profile named None, every index in range |
| `Editor.InRangeIffStoreAllows` | remote-terminal-client/src/frmprofilemanager.cpp:57-150 | the row selected at the end of an event exists if and only if the store allows the event: a save has not emptied it, and a failed addition finds the selected row still there |
| `Editor.WrittenIsAllowed` | remote-terminal-client/src/frmprofilemanager.cpp:57-150 | while saves succeed, the store allows every event the form offers |
| `Editor.WrittenStaysNear` | remote-terminal-client/src/frmprofilemanager.cpp:57-150 | and goes on doing so |
| `Editor.SessionKeepsInv` | remote-terminal-client/src/frmprofilemanager.cpp:57-150 | so does every sequence of events |
| `Editor.AtMostOneDefaultForever` | remote-terminal-client/src/frmprofilemanager.cpp:27-160 | from a store with at most one default and no profile named None, every session of the form, failed saves included, leaves such a list, and enabled fields always have a profile |
| `Editor.Opened` | remote-terminal-client/src/frmprofilemanager.cpp:27-36 | opening the form over such a store establishes the invariant |
| `Editor.DeletedIsTheSelected` | remote-terminal-client/src/frmprofilemanager.cpp:71-84 | deleting takes the selected profile and no other: those before it keep their place, those behind it move up by one; the one before it is shown, or the first, or nothing |
| `Editor.AddedIsLast` | remote-terminal-client/src/frmprofilemanager.cpp:57-69 | adding puts one numbered, empty profile at the end; the others and the selection stay |
| `Editor.SavedIsTheSelected` | remote-terminal-client/src/frmprofilemanager.cpp:132-150 | saving puts what was typed in the selected profile, field by field, and in no other; the name None leaves the old name; the form shows it again |
| `Editor.OpenedShowsFirst` | remote-terminal-client/src/frmprofilemanager.cpp:27-36 | the form opens on the first stored profile, or blank |
| `Editor.TypingStoresNothing` | remote-terminal-client/src/frmprofilemanager.cpp:86-130 | typing changes each text field by itself and the box its mark; the profiles change only by a save |
| `Editor.SelectedShowsProfile` | remote-terminal-client/src/frmprofilemanager.cpp:113-130 | each field shows its own part of the profile, the port reads back, and the box is free if and only if no other profile has the mark |
| `Editor.RowsNameProfiles` | remote-terminal-client/src/frmprofilemanager.cpp:49-54 | each row is the name, with the mark exactly for the default |
| `Editor.ProfileEditor.constructor` | remote-terminal-client/src/frmprofilemanager.cpp:27-36 | the form shows the stored profiles, the first selected |
| `Editor.ProfileEditor.AddNewProfile` | remote-terminal-client/src/frmprofilemanager.cpp:57-69 | one profile more at the end, in form and file; the selection stays; after a failed save the form shows what the store holds |
| `Editor.ProfileEditor.DeleteProfile` | remote-terminal-client/src/frmprofilemanager.cpp:71-84 | exactly the selected profile goes, in form and file; its predecessor is shown, or the fields are blank; after a failed save the form shows what the store holds |
| `Editor.ProfileEditor.SaveProfile` | remote-terminal-client/src/frmprofilemanager.cpp:132-150 | exactly the selected profile takes the fields' values, in form and file; the name None is not taken |
| `Editor.ProfileEditor.LoadProfile` | remote-terminal-client/src/frmprofilemanager.cpp:113-130 | the fields show the profile; the box is enabled if this is the default or there is none |
| `Editor.ProfileEditor.LoadProfiles` | remote-terminal-client/src/frmprofilemanager.cpp:43-55 | list and objects are those of the file |
| `Editor.ProfileEditor.IsDefaultProfileSelected` | remote-terminal-client/src/frmprofilemanager.cpp:152-160 | true exactly when some stored profile is the default |
| `ProfileList.OnlyTheSentinelReadsNone` | remote-terminal-client/src/frmmain.cpp:49-60 | an entry reads None if and only if it is the last one, or a profile of that name that is not the default |
| `ProfileList.ChoosingLoads` | remote-terminal-client/src/frmmain.cpp:217-235 | with the name reserved, choosing a stored profile shows that profile, and the last entry clears the fields |
| `ProfileList.ChoosingShowsLogin` | remote-terminal-client/src/frmmain.cpp:229-231 | host, password and port shown are that profile's own |
| `ProfileList.StartIndex` | remote-terminal-client/src/frmmain.cpp:45-58 | the last default profile, if there is one, else the remembered entry, if it exists, else none |
| `ProfileList.ChoosingLoadsAfterEditing` | remote-terminal-client/src/frmmain.cpp:217-235 | that holds after any session of the profile form |
| `ProfileList.DefaultIndex` | remote-terminal-client/src/frmmain.cpp:45-55 | the last default profile, or -1 |
| `ProfileList.ProfileChooser.LoadStoredProfiles` | remote-terminal-client/src/frmmain.cpp:43-62 | the list is the stored profiles and None; the default is chosen, else the remembered entry, else none; the fields show the chosen one, or the first when none is chosen |
| `ProfileList.ProfileChooser.LoadSelectedProfile` | remote-terminal-client/src/frmmain.cpp:217-235 | the fields show the profile, are cleared by None, and stay for -1 |

## Left out

- AES-GCM, SHA-512 and key derivation: a cipher is any lawful pair of functions with a 16-byte tag.
- Sockets, `select`, `listen`, name lookup, `bind` and ports: `accept`, `recv`, `read` and `send` are steps over sequences, and a `send` takes its whole buffer.
- `fork`, `exec`, `dup2`, `/proc`, `kill` and closing of pipe descriptors: a child is what it prints and when it closes its pipe. A console that closes its descriptors only after it has cleared `pipeActive` can close those of its successor; the model has no pipe descriptors.
- The wait timer and `processOpen`: they do not decide when the loop ends.
- Sends to a slot without a client: they go to descriptor 0, which is nobody's here.
- Data races below the level of statements: reads and writes of one field, the writes of user and host name, the reads that make up a header, a `send`, closing a socket, and the get-then-set of `numClients` are single steps, and an assignment to `nextCommand` is atomic.
- Interruptions of the client: `Client`, `Delivery`, `Limits` and `EndToEnd` take each turn of the receive thread and each action of the form in one piece; `ClientThreads` does not, and says what goes wrong. There, the copy of the buffer with the tests before it, the test and the copy of a received packet, and making a connection are one statement each. All connections of a run use one password.
- Lifetimes of threads: the slot number a console reads through a pointer into its session's stack is taken to be there, session threads are always created, and joining no thread, or one already joined, returns at once.
- Initial values: the form's history index is any number until the first connection, and before that a press of Down is only modelled from -1 on (`Client.DownIsInRangeFromMinusOne` says why). `pipeActive` and `hasNextCommand` are taken to start false, which the source leaves open; `currentClientSocket` starts at 0.
- `accept` returns -1 or a positive descriptor that no slot holds, never 0; a descriptor is closed and its slot freed in one step.
- maxClients = 65535, for which the source's 16-bit loop counter never passes the bound.
- Widgets, window geometry, menus and the connect timer: only text, index, enabled and checked state that the modelled code reads.
- XML syntax: what the program writes, a root of profile elements with five attributes that need no escaping, prints to some text that reads back element by element with any other tokens in between, and an empty text is an error without elements; nothing else is assumed of the printer and the reader.
- QString conversions: text is a sequence of bytes. Reading numbers ignores the surrounding blanks that `toInt` accepts.
- SlotLife steps: the session, the console and the accept loop are values with a step function rather than classes, since their statements interleave.
- Editor.ProfileEditor.SaveProfile: is not stated for a save that empties the store, because the source then indexes a list that is empty (`Editor.InRangeIffStoreAllows` says exactly when).
- Editor.ProfileEditor.AddNewProfile: is not stated for a failed addition after which the selected row is gone, for the same reason.
- Editor.ProfileEditor.constructor: the store is one that was saved with this key, is missing, or does not decrypt; files of other makers that do decrypt are covered by `Profiles.ProfileManager.GetProfiles` only.
- What `chdir` makes of the directory asked for: its answer is a parameter; the process-wide working directory that sessions share is not modelled, so relative names are not resolved.
- Settings paths, `SettingsCrypto`, the getters and setters of `Profile`, and the About form: they would add only easy members.

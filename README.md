# TCP chat relay: a verified model

The TCP chat system has three programs. The server keeps four structures:
- a list of **viewers**, the connections that only receive;
- a list of **messengers**, the connections that send under a display name;
- a dictionary from each messenger to its name;
- a **message queue** of the lines waiting to be sent to the viewers.

It runs a polling loop. Each pass of the loop does four things in order:
1. It accepts at most one new connection and classifies it by its first payload: `"viewer"`, or `"name:<name>"` with a unique non-empty name.
2. It drops every client whose socket reports a disconnect. For each departed messenger it queues `"<name> has left the chat."`.
3. It reads what each messenger has sent and queues it as `"<name>: <text>"`.
4. It writes every queued message to every viewer and empties the queue.

Ctrl-C calls `Shutdown`, which only clears the `Running` flag. The loop notices at its next check and closes every client.

The messenger client connects and sends `"name:<Name>"`. It counts itself accepted if its liveness check still reports the connection alive. It then sends each non-empty console line until the user types `quit` or `exit` in any letter case, or until the server drops it.

The model has four modules.
- **`ChatRegistry`** (`registry.dfy`) holds the server's state as a value, a `Registry`.
  - Sockets become connection ids. The listener hands them out in accept order.
  - Each step of the loop is a function from a registry, plus what the sockets report, to a new registry and the writes and closes it performs: `Accept`, `Disconnect`, `Intake`, `Broadcast`, `Tick` and `Serve`.
  - Its lemmas state the server's promises. The invariant `Consistent` covers no duplicates, disjoint roles, name keys equal to the messenger set, and unique non-empty names. The other promises are exact removal, one notice per departure, FIFO fan-out and tick order.
- **`ChatServer`** (`server.dfy`) is the `TcpChatServer` class.
  - Its fields are the lists, the dictionary, the queue and `Running`, updated in place by loops as the source does. The disconnect scan walks a snapshot of each list, as the source's `ToArray()` copies do; the intake walks the live messenger list and the send walks the live queue.
  - Each method is proved to leave the object in the state the matching `ChatRegistry` function describes, and to perform exactly the writes and closes that function lists.
- **`ChatMessenger`** (`messenger.dfy`) covers the messenger client:
  - the handshake payload and its round trip through the server's parse;
  - the classification of a console line;
  - its liveness policy, which differs from the server's on a socket error;
  - the send loop as a function `Converse`;
  - a `TcpChatMessenger` class whose `Connect` and `SendMessages` follow those definitions.
- **`ChatScenario`** (`scenario.dfy`) walks through one session, pass by pass of the loop, for any two different non-empty names alice and bob. A viewer joins, alice registers, a second claim of her name is refused, bob registers, alice says something, alice drops, and her name is claimed again.

The sockets become inputs:
- `PollResult` is what polling a socket reports: read readiness and the number of buffered bytes, or a socket error.
- A first payload of `""` stands for a zero-byte read.
- `available(c)` is the text a messenger has waiting, `""` when it has none.
- A `TickInput` carries one pass's pending arrival, polls, available text, and whether Ctrl-C arrived during that pass.
- Messenger console lines are a sequence. The polls after each line are a function of the line's number.

## Model

| member | source | states |
|---|---|---|
| ChatRegistry.ServerIsDisconnected | TCP-Chat/TcpChat-Server/Program.cs:243-255 | a client is gone when its socket is readable with no bytes buffered, or when polling it raises a socket error |
| ChatRegistry.StartsWith | TCP-Chat/TcpChat-Server/Program.cs:134 | a payload starts with "name:" when it is at least that long and its first five characters are exactly "name:" |
| ChatRegistry.IndexOf | TCP-Chat/TcpChat-Server/Program.cs:137 | the result is the first position of the character, or -1 exactly when the character does not occur |
| ChatRegistry.CandidateName | TCP-Chat/TcpChat-Server/Program.cs:137 | for a payload starting with "name:", the text after the first ':' is the name, and "name:" followed by it rebuilds the payload |
| ChatRegistry.Classify | TCP-Chat/TcpChat-Server/Program.cs:112-157 | exactly "viewer" gives a viewer; a zero-byte read, or text that is neither "viewer" nor "name:…", is rejected; a messenger verdict carries a non-empty name that is not yet taken and that the payload spells after "name:" |
| ChatRegistry.Accept | TCP-Chat/TcpChat-Server/Program.cs:95-166 | every accepted connection gets a fresh id; accepting keeps the registry consistent (no duplicates, disjoint roles, names keyed by exactly the messengers, names unique and non-empty) |
| ChatRegistry.ViewerHandshake | TCP-Chat/TcpChat-Server/Program.cs:120-131 | "viewer" appends the connection to the viewers, leaves messengers, names and queue unchanged, and writes only the welcome line to that connection |
| ChatRegistry.ClaimHandshake | TCP-Chat/TcpChat-Server/Program.cs:134-150 | "name:"+name registers the connection in both the messenger list and the names, and queues exactly "<name> has joined the chat.", iff the name is non-empty and unused; otherwise only the new connection is closed |
| ChatRegistry.RejectedNeverRegisters | TCP-Chat/TcpChat-Server/Program.cs:115-164 | a rejected handshake leaves viewers, messengers, names and queue unchanged, the connection appears in none of them, and the only action is closing it |
| ChatRegistry.Empty | TCP-Chat/TcpChat-Server/Program.cs:21-28 | the initial registry is empty and consistent |
| ChatRegistry.Welcome | TCP-Chat/TcpChat-Server/Program.cs:129 | the greeting a new viewer is sent: `Welcome to the "<chat name>" Chat Server!` |
| ChatRegistry.Joined | TCP-Chat/TcpChat-Server/Program.cs:149 | the notice queued when a messenger registers: `<name> has joined the chat.` |
| ChatRegistry.Left | TCP-Chat/TcpChat-Server/Program.cs:194 | the notice queued when a messenger departs: `<name> has left the chat.` |
| ChatRegistry.Tagged | TCP-Chat/TcpChat-Server/Program.cs:217 | a relayed chat line: `<name>: <text>` |
| ChatRegistry.FormatsCarryTheirParts | TCP-Chat/TcpChat-Server/Program.cs:129-217 | the chat's name sits at a fixed offset of the greeting; a join or leave notice starts with the subject's name; a relayed line is the sender's name, two separator characters, then the text unchanged |
| ChatRegistry.LeftInjective | TCP-Chat/TcpChat-Server/Program.cs:194 | different names give different "has left" notices |
| ChatRegistry.RemoveFirst | TCP-Chat/TcpChat-Server/Program.cs:179 | List.Remove: when the element is absent the list is unchanged |
| ChatRegistry.RemoveFirstDropsOne | TCP-Chat/TcpChat-Server/Program.cs:197 | List.Remove of a present element shortens the list by one and takes away exactly one copy of that element |
| ChatRegistry.RemoveFirstSplit | TCP-Chat/TcpChat-Server/Program.cs:179 | List.Remove removes the first occurrence and keeps the rest in order |
| ChatRegistry.WithStatus | TCP-Chat/TcpChat-Server/Program.cs:172-201 | the selected clients are exactly those of the list whose liveness check gives the requested answer |
| ChatRegistry.Survivors | TCP-Chat/TcpChat-Server/Program.cs:172-201 | the clients a scan keeps: those whose liveness check reports them alive, in list order |
| ChatRegistry.Departed | TCP-Chat/TcpChat-Server/Program.cs:172-201 | the clients a scan drops: those whose liveness check reports them gone, in list order |
| ChatRegistry.WithStatusAppend | TCP-Chat/TcpChat-Server/Program.cs:172-201 | selecting from a concatenation is selecting from each part and concatenating, so the scan keeps list order |
| ChatRegistry.ScanKeepsOrderAndPartitions | TCP-Chat/TcpChat-Server/Program.cs:172-201 | removing the dead clients from `a + [c] + b` leaves the survivors of `a`, then `c` if it is alive, then the survivors of `b`; every client is either kept or dropped, never both, never neither |
| ChatRegistry.WithStatusNoDup | TCP-Chat/TcpChat-Server/Program.cs:172-201 | selecting from a list without repeats gives a list without repeats |
| ChatRegistry.ViewerScanStep | TCP-Chat/TcpChat-Server/Program.cs:172-182 | visiting the next viewer of the snapshot removes it from the live list and closes it iff its check reports it gone |
| ChatRegistry.MessengerScanStep | TCP-Chat/TcpChat-Server/Program.cs:185-201 | visiting the next messenger of the snapshot, if it is gone: its name is still known, its notice is queued, it leaves the list and the names, and it is closed; otherwise nothing changes |
| ChatRegistry.Closes | TCP-Chat/TcpChat-Server/Program.cs:180 | one close per departed client |
| ChatRegistry.ClosesAt | TCP-Chat/TcpChat-Server/Program.cs:180 | the k-th close performed is for the k-th departed client |
| ChatRegistry.LeftNotices | TCP-Chat/TcpChat-Server/Program.cs:190-194 | one "has left" notice per departed messenger |
| ChatRegistry.LeftNoticeAt | TCP-Chat/TcpChat-Server/Program.cs:190-194 | the k-th notice queued names the k-th departed messenger |
| ChatRegistry.AllAliveScan | TCP-Chat/TcpChat-Server/Program.cs:172-201 | when every listed client answers alive, the scan keeps the whole list and drops nothing |
| ChatRegistry.QuietScan | TCP-Chat/TcpChat-Server/Program.cs:169-202 | when every client answers alive, the disconnect scan changes nothing and closes nothing |
| ChatRegistry.ViewerClosesFirst | TCP-Chat/TcpChat-Server/Program.cs:169-202 | the scan performs one close per departed client, all closes of viewers before all closes of messengers |
| ChatRegistry.Disconnect | TCP-Chat/TcpChat-Server/Program.cs:169-202 | the disconnect scan keeps the registry consistent |
| ChatRegistry.DisconnectRemovesExactly | TCP-Chat/TcpChat-Server/Program.cs:169-202 | afterwards a client is still a viewer, a messenger, or named iff it was one before and its check did not report it gone; it is closed iff it was listed and reported gone |
| ChatRegistry.LeftNoticeOncePerDeparture | TCP-Chat/TcpChat-Server/Program.cs:185-201 | the scan queues one notice per departed messenger, all different, and every departed messenger's notice is among them |
| ChatRegistry.NameFreedForReuse | TCP-Chat/TcpChat-Server/Program.cs:198 | a departed messenger's name is no longer taken, and a new "name:" claim for it registers the next connection |
| ChatRegistry.Intake | TCP-Chat/TcpChat-Server/Program.cs:205-221 | one intake pass queues at most one message per messenger |
| ChatRegistry.IntakeInListOrder | TCP-Chat/TcpChat-Server/Program.cs:207 | messages are taken in messenger-list order: intake over a concatenation is the concatenation of the intakes |
| ChatRegistry.IntakeOfOne | TCP-Chat/TcpChat-Server/Program.cs:209-218 | a messenger with nothing available contributes nothing; one with text contributes exactly "<name>: <text>" |
| ChatRegistry.SilentIntake | TCP-Chat/TcpChat-Server/Program.cs:210 | when no messenger has bytes available, nothing is queued |
| ChatRegistry.WritesOf | TCP-Chat/TcpChat-Server/Program.cs:232-233 | one message is written once to each viewer, in viewer order |
| ChatRegistry.FanOut | TCP-Chat/TcpChat-Server/Program.cs:226-233 | every queued message in turn is written to every viewer; with no viewers nothing is written |
| ChatRegistry.FanOutCount | TCP-Chat/TcpChat-Server/Program.cs:226-233 | a send performs one write per queued message per viewer |
| ChatRegistry.InboxOfWrites | TCP-Chat/TcpChat-Server/Program.cs:232-233 | writing one message to a viewer list without repeats delivers it once to each listed viewer and to nobody else |
| ChatRegistry.FifoDelivery | TCP-Chat/TcpChat-Server/Program.cs:224-238 | each viewer is sent exactly the queue, in FIFO order; a connection that is not a viewer is sent nothing |
| ChatRegistry.Broadcast | TCP-Chat/TcpChat-Server/Program.cs:224-238 | sending keeps the registry consistent |
| ChatRegistry.LateViewerMissesEarlier | TCP-Chat/TcpChat-Server/Program.cs:224-238 | a viewer that joins after a send got nothing from it, and the queue it will be served from starts empty |
| ChatRegistry.InboxOfCloses | TCP-Chat/TcpChat-Server/Program.cs:180 | closing clients writes nothing to anyone |
| ChatRegistry.Tick | TCP-Chat/TcpChat-Server/Program.cs:69-82 | one pass of the loop keeps the registry consistent, ends with an empty queue, and issues one new connection id exactly when a connection was pending |
| ChatRegistry.TickDelivery | TCP-Chat/TcpChat-Server/Program.cs:72-78 | within a pass, a viewer that survives the scan is sent the queue as accept left it, then the departure notices, then the new messages, in that order |
| ChatRegistry.QuietTick | TCP-Chat/TcpChat-Server/Program.cs:69-82 | in a pass where every client (including one just accepted) answers alive, the pass is the accept, then the intake, then one send of the whole queue to every viewer |
| ChatRegistry.QuietSilentTick | TCP-Chat/TcpChat-Server/Program.cs:69-82 | in such a pass where moreover no messenger has bytes waiting, the pass sends exactly what the accept queued and ends with an empty queue |
| ChatRegistry.Serve | TCP-Chat/TcpChat-Server/Program.cs:69-82 | any run of passes keeps the registry consistent, leaves the queue empty after at least one pass, and advances the id counter by exactly the number of accepted connections; since every listed id stays below the counter, each new connection's id is one no listed client has |
| ChatRegistry.FirstInterrupt | TCP-Chat/TcpChat-Server/Program.cs:69 | the pass that first sees Shutdown requested: Shutdown is requested in it and in no earlier pass |
| ChatServer.TcpChatServer.constructor | TCP-Chat/TcpChat-Server/Program.cs:39-48 | a new server has empty lists, names and queue and is not running |
| ChatServer.TcpChatServer.Shutdown | TCP-Chat/TcpChat-Server/Program.cs:51-55 | Shutdown clears Running and changes nothing else |
| ChatServer.TcpChatServer.HandleNewConnection | TCP-Chat/TcpChat-Server/Program.cs:95-166 | the new state and the writes and closes are those of Accept on the old state; consistency is kept |
| ChatServer.TcpChatServer.CheckForDisconnects | TCP-Chat/TcpChat-Server/Program.cs:169-202 | the new state and the closes are those of Disconnect on the old state; consistency is kept and Running is untouched |
| ChatServer.TcpChatServer.DropDeadViewers | TCP-Chat/TcpChat-Server/Program.cs:172-182 | the loop over the viewer snapshot ends in the state ViewerScan describes for the whole snapshot |
| ChatServer.TcpChatServer.DropViewer | TCP-Chat/TcpChat-Server/Program.cs:179 | removes the first occurrence of the viewer and changes nothing else |
| ChatServer.TcpChatServer.DropDeadMessengers | TCP-Chat/TcpChat-Server/Program.cs:185-201 | the loop over the messenger snapshot ends in the state MessengerScan describes for the whole snapshot |
| ChatServer.TcpChatServer.DropMessenger | TCP-Chat/TcpChat-Server/Program.cs:190-198 | queues the messenger's "has left" notice, removes it from the list and from the names, and changes nothing else |
| ChatServer.TcpChatServer.CheckForNewMessages | TCP-Chat/TcpChat-Server/Program.cs:205-221 | the queue is extended by Intake over the messengers and nothing else changes |
| ChatServer.TcpChatServer.SendMessages | TCP-Chat/TcpChat-Server/Program.cs:224-238 | the writes and the emptied queue are those of Broadcast on the old state |
| ChatServer.TcpChatServer.CleanupAll | TCP-Chat/TcpChat-Server/Program.cs:85-88 | closes exactly the given clients, in order |
| ChatServer.TcpChatServer.ServeTick | TCP-Chat/TcpChat-Server/Program.cs:72-78 | one pass of the loop computes Tick on the old state |
| ChatServer.TcpChatServer.Run | TCP-Chat/TcpChat-Server/Program.cs:58-93 | the loop serves the script's passes up to and including the one in which Shutdown was first requested, stops at the next check, then closes every viewer and then every messenger; the final state is consistent and not running |
| ChatMessenger.MessengerIsDisconnected | TCP-Chat/TcpChat-Messenger/Program.cs:129-141 | the messenger counts the server gone when its socket is readable with no bytes buffered, but not on a socket error |
| ChatMessenger.LivenessAsymmetry | TCP-Chat/TcpChat-Messenger/Program.cs:136-140 | the messenger's and the server's checks disagree exactly on a socket error; whenever the messenger sees a disconnect, so would the server |
| ChatMessenger.HandshakePayload | TCP-Chat/TcpChat-Messenger/Program.cs:57 | the handshake starts with "name:", and the server's parse (after the first ':') recovers exactly the name, even a name containing ':' |
| ChatMessenger.ClaimOutcome | TCP-Chat/TcpChat-Messenger/Program.cs:57 | the server registers the messenger under its name when that is non-empty and free, and otherwise rejects it as empty or taken |
| ChatMessenger.LowerChar | TCP-Chat/TcpChat-Messenger/Program.cs:88 | ASCII capitals map to their lower-case letters; every other character is unchanged |
| ChatMessenger.ToLower | TCP-Chat/TcpChat-Messenger/Program.cs:88 | lower-casing keeps the length and lower-cases each character in place |
| ChatMessenger.ClassifyLine | TCP-Chat/TcpChat-Messenger/Program.cs:88-100 | an empty line is skipped, and only an empty line is; a line that is sent is sent verbatim |
| ChatMessenger.LowerEqualsWord | TCP-Chat/TcpChat-Messenger/Program.cs:88 | lower-casing a line gives a lower-case word iff the line spells that word with each letter in either case |
| ChatMessenger.QuitWords | TCP-Chat/TcpChat-Messenger/Program.cs:88-93 | a line stops the messenger iff it is "quit" or "exit" in any mix of letter cases |
| ChatMessenger.Converse | TCP-Chat/TcpChat-Messenger/Program.cs:81-111 | the send loop sends at most one message per line read |
| ChatMessenger.SentIsVerbatim | TCP-Chat/TcpChat-Messenger/Program.cs:94-99 | everything sent is a non-empty console line, sent unchanged, that is not a quit word |
| ChatMessenger.NothingAfterQuit | TCP-Chat/TcpChat-Messenger/Program.cs:88-93 | once a quit word is typed, later lines make no difference and the loop does not reach the end of input |
| ChatMessenger.NothingAfterDrop | TCP-Chat/TcpChat-Messenger/Program.cs:105-111 | once the liveness check after a line reports the server gone, the loop ends as dropped by the server and later lines make no difference |
| ChatMessenger.NoStopSendsAllNonEmpty | TCP-Chat/TcpChat-Messenger/Program.cs:81-111 | with no quit word and no disconnect reported, every non-empty line is sent in order and the loop runs to the end of input |
| ChatMessenger.QuitSendsPrefix | TCP-Chat/TcpChat-Messenger/Program.cs:81-100 | a conversation ended by a quit word sends exactly the non-empty lines typed before it, in order, and ends as the user's quit |
| ChatMessenger.DropSendsPrefix | TCP-Chat/TcpChat-Messenger/Program.cs:81-111 | a conversation ended by the liveness check after a line sends exactly the non-empty lines up to and including that line, in order, and ends as dropped by the server |
| ChatMessenger.SocketErrorsNeverDrop | TCP-Chat/TcpChat-Messenger/Program.cs:105-111 | socket errors alone never end the messenger's loop (the server counts such a peer as gone, by LivenessAsymmetry) |
| ChatMessenger.TcpChatMessenger.constructor | TCP-Chat/TcpChat-Messenger/Program.cs:29-41 | a new messenger is not running, has no stream, and has an open client |
| ChatMessenger.TcpChatMessenger.CleanupNetworkResources | TCP-Chat/TcpChat-Messenger/Program.cs:119-124 | closes the stream and the client and leaves Running alone |
| ChatMessenger.TcpChatMessenger.Connect | TCP-Chat/TcpChat-Messenger/Program.cs:43-75 | on a successful connect the handshake payload is written; Running becomes true iff the connect succeeded and the liveness check then reports the connection alive; otherwise everything is closed |
| ChatMessenger.TcpChatMessenger.SendMessages | TCP-Chat/TcpChat-Messenger/Program.cs:77-116 | what is sent and why the loop ended are Converse of the lines and polls; a messenger that was not running sends nothing; except when input runs out, the loop ends with Running false and everything closed |
| ChatScenario.AliceClaims | TCP-Chat/TcpChat-Server/Program.cs:134-150 | with only the viewer connected, "name:"+alice registers connection 1 under alice and queues her join |
| ChatScenario.SecondAliceClaims | TCP-Chat/TcpChat-Server/Program.cs:139-164 | a claim of a name already taken only closes the new connection and uses up its id |
| ChatScenario.BobClaims | TCP-Chat/TcpChat-Server/Program.cs:134-150 | a second, different name registers connection 3 next to alice and queues its join |
| ChatScenario.AliceClaimsAgain | TCP-Chat/TcpChat-Server/Program.cs:139-150 | once alice has left, her name registers the next connection again |
| ChatScenario.TwoMessengersConsistent | TCP-Chat/TcpChat-Server/Program.cs:21-25 | a viewer and two messengers with different non-empty names form a consistent registry |
| ChatScenario.OneMessengerConsistent | TCP-Chat/TcpChat-Server/Program.cs:21-25 | a viewer and one named messenger form a consistent registry |
| ChatScenario.ViewerConnects | TCP-Chat/TcpChat-Server/Program.cs:69-82 | the first pass, with a "viewer" connection pending, lists connection 0 as a viewer and writes it only the welcome line |
| ChatScenario.AliceJoins | TCP-Chat/TcpChat-Server/Program.cs:69-82 | the pass in which alice connects registers her and writes her join to the viewer, leaving the queue empty |
| ChatScenario.SecondAliceRefused | TCP-Chat/TcpChat-Server/Program.cs:69-82 | the pass in which her name is claimed again only closes that connection; the viewer is sent nothing |
| ChatScenario.BobJoins | TCP-Chat/TcpChat-Server/Program.cs:69-82 | the pass in which bob connects registers him as connection 3 and writes his join to the viewer |
| ChatScenario.AliceSpeaks | TCP-Chat/TcpChat-Server/Program.cs:205-238 | a pass in which alice has text waiting writes exactly "alice: text" to the viewer and leaves the registry as it was |
| ChatScenario.AliceDrops | TCP-Chat/TcpChat-Server/Program.cs:169-238 | the pass in which alice's connection drops closes it, frees her name, keeps bob and the viewer, and writes "alice has left the chat." to the viewer |
| ChatScenario.AliceReturns | TCP-Chat/TcpChat-Server/Program.cs:69-82 | the next pass with a claim of alice's freed name registers it as connection 4 and writes her join to the viewer |

## Left out

- Socket I/O is not modelled. Accepting, reading, writing, polling, `Available` and closing become connection ids, oracle inputs and `Effect` values. The 2 KB buffer sizes, partial reads, and a payload split across reads are therefore not modelled.
- UTF-8 encoding and decoding are not modelled: payloads and messages are strings.
- `Thread.Sleep`, all Console output, the listener's start and stop, and the Ctrl-C handler's plumbing are not modelled. Ctrl-C becomes the `interrupt` flag of a pass.
- ChatServer.TcpChatServer.Run: the model serves a finite script of passes whose last pass requests Shutdown. An endless run with no Ctrl-C is not modelled. Ctrl-C arriving asynchronously mid-pass is modelled as taking effect at the next loop check, which is the source's behaviour for a flag that is only read there.
- ChatServer.TcpChatServer.HandleNewConnection: an unrecognised payload is closed twice by the source (Program.cs:156 and again at 164). The model records a single `Close`.
- Rejected handshakes are always closed. The source closes every rejected connection at Program.cs:163-164, including a taken or empty name, and the model follows the code.
- ChatMessenger.LowerChar: only ASCII capitals are lower-cased. .NET's culture-sensitive `ToLower` (for example the Turkish dotted I) is not modelled.
- ChatMessenger.ToLower: lower-cases character by character with `LowerChar`, so it shares that ASCII-only limitation.
- ChatRegistry.Classify: the "name:" test is an exact character comparison. .NET's culture-sensitive `StartsWith` (Program.cs:134) ignores characters such as the soft hyphen U+00AD, so it accepts some payloads the model rejects. That comparison is not modelled.
- ChatRegistry.StartsWith: the same exact comparison; culture-sensitive matching is not modelled.
- A failing `Write`, `Read` or `GetStream` on the server is not modelled: the model assumes every read and write succeeds. In the source such an exception escapes `Run` (Program.cs:73-78) and skips the cleanup at Program.cs:85-89.
- ChatMessenger.TcpChatMessenger.SendMessages: the messenger's `_msgStream.Write` (Messenger Program.cs:58 and 98) is outside any try block. A failing write throws out of `Connect` or `SendMessages`, leaves Running true and skips `_cleanupNetworkResources` (Program.cs:113). The model assumes every messenger write succeeds.
- ChatServer.TcpChatServer.HandleNewConnection: the handshake read (Server Program.cs:112) blocks with no timeout. A client that connects and sends nothing stalls the whole loop: no scan, no intake, no send, and a Shutdown is never noticed, because Running is only read at Program.cs:69. In the model a pending arrival is always a finished read, so every pass completes.
- ChatMessenger.TcpChatMessenger.Connect: an exception from the connection attempt (Program.cs:46) is not modelled; the attempt's outcome is the `connected` input.
- The accept/reject inference in ChatMessenger.TcpChatMessenger.Connect is racy. The liveness check right after the handshake may run before the server has acted on it, so a rejected name can still be reported as accepted. The poll result is an input, so the model does not capture the timing.
- ChatMessenger.TcpChatMessenger.SendMessages: when the console runs out of lines, `ReadLine` returns null and `msg.ToLower()` throws. The model ends the loop with `InputEnded`, leaves Running set and skips the cleanup, as the exception does. What the exception does after that is not modelled.
- The messenger's `Main` (reading the name, host and port) is not part of this model. The name is the constructor argument.
- The viewer client (TcpChat-Viewer), PING, HTTPListener, TCP-SocketExample, DNS and SharedClass/NetworkMessage.cs are not part of this model.

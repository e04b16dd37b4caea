/**
 * The messenger client: it connects, announces its name, and sends the lines
 * typed at the console until the user quits or the server drops it.
 *
 * The decisions it makes are pure functions here (the handshake payload, what
 * a typed line means, when the server counts as gone, and the whole
 * conversation as a function of the typed lines and the polls); the client
 * object is a class whose methods are proved to follow them.
 */
module ChatMessenger {
  import opened ChatRegistry

  /** The messenger's liveness check.  It polls like the server does, but a
      socket error counts as still connected. */
  predicate MessengerIsDisconnected(p: PollResult) {
    match p
    case Polled(readable, available) => readable && available == 0
    case SocketError => false
  }

  /** The two liveness checks disagree exactly on a socket error, where the
      server gives up on the peer and the messenger does not. */
  lemma LivenessAsymmetry(p: PollResult)
    ensures MessengerIsDisconnected(p) != ServerIsDisconnected(p) <==> p == SocketError
    ensures MessengerIsDisconnected(p) ==> ServerIsDisconnected(p)
  {
  }

  // ---------------------------------------------------------------------------
  // Handshake

  /** What the messenger writes right after connecting. */
  function HandshakePayload(name: string): (payload: string)
    ensures StartsWith(payload, "name:")
    ensures CandidateName(payload) == name
  {
    var payload := "name:" + name;
    assert payload[..5] == "name:";
    payload
  }

  /** The server's verdict on the messenger's handshake: registered under its
      own name when that is non-empty and free, otherwise rejected with the
      reason. */
  lemma {:induction false} ClaimOutcome(name: string, names: map<ConnId, string>)
    ensures Classify(HandshakePayload(name), names) ==
            if name == "" then Rejected(EmptyName)
            else if name in names.Values then Rejected(NameTaken)
            else AsMessenger(name)
  {
    var payload := HandshakePayload(name);
    assert payload != "viewer" by { assert payload[..5] == "name:"; }
  }

  // ---------------------------------------------------------------------------
  // Console lines

  /** Lower-casing of one character, for the ASCII letters. */
  function LowerChar(c: char): (d: char)
    ensures 'A' <= c <= 'Z' ==> d as int == c as int + 32 && 'a' <= d <= 'z'
    ensures !('A' <= c <= 'Z') ==> d == c
  {
    if 'A' <= c <= 'Z' then (c as int + 32) as char else c
  }

  function ToLower(s: string): (t: string)
    ensures |t| == |s|
    ensures forall i :: 0 <= i < |s| ==> t[i] == LowerChar(s[i])
  {
    if s == [] then [] else [LowerChar(s[0])] + ToLower(s[1..])
  }

  /** What the messenger does with a line read from the console. */
  datatype LineAction = Quit | Skip | Send(text: string)

  function ClassifyLine(line: string): (a: LineAction)
    ensures a == Skip <==> line == ""
    ensures a.Send? ==> a.text == line && line != ""
    ensures a == Quit ==> |line| == 4
  {
    var lower := ToLower(line);
    if lower == "quit" || lower == "exit" then Quit
    else if line != "" then Send(line)
    else Skip
  }

  /** `s` spells the lower-case word `w`, each letter in either case. */
  predicate CaseVariant(s: string, w: string) {
    |s| == |w| && forall i :: 0 <= i < |s| ==> s[i] == w[i] || s[i] as int == w[i] as int - 32
  }

  predicate LowerWord(w: string) {
    forall i :: 0 <= i < |w| ==> 'a' <= w[i] <= 'z'
  }

  /** Lower-casing gives the lower-case word `w` exactly for the spellings of
      `w` with any mix of upper- and lower-case letters. */
  lemma {:induction false} LowerEqualsWord(s: string, w: string)
    requires LowerWord(w)
    ensures ToLower(s) == w <==> CaseVariant(s, w)
  {
    if |s| == |w| {
      if ToLower(s) == w {
        forall i | 0 <= i < |s| ensures s[i] == w[i] || s[i] as int == w[i] as int - 32 {
          assert LowerChar(s[i]) == w[i];
        }
      }
      if CaseVariant(s, w) {
        forall i | 0 <= i < |s| ensures ToLower(s)[i] == w[i] {
          assert s[i] == w[i] || s[i] as int == w[i] as int - 32;
          assert 'a' <= w[i] <= 'z';
        }
      }
    }
  }

  /** A line quits the messenger exactly when it is "quit" or "exit" in any
      mix of letter cases. */
  lemma QuitWords(line: string)
    ensures ClassifyLine(line) == Quit <==> CaseVariant(line, "quit") || CaseVariant(line, "exit")
  {
    LowerEqualsWord(line, "quit");
    LowerEqualsWord(line, "exit");
  }

  // ---------------------------------------------------------------------------
  // The conversation

  /** How a conversation ended: the user typed a quit word, the liveness check
      reported the server gone, the console ran out of lines, or the messenger
      was never running. */
  datatype Ending = UserQuit | DroppedByServer | InputEnded | NotRunning

  /** The lines written to the server, and how the conversation ended. */
  datatype Session = Session(sent: seq<string>, ending: Ending)

  /** The send loop over the console lines `lines`; `polls(k)` is what the
      liveness check after the k-th line sees, and `from` numbers the first line. */
  function Converse(lines: seq<string>, polls: nat -> PollResult, from: nat): (s: Session)
    ensures |s.sent| <= |lines|
    ensures s.ending != NotRunning
    decreases |lines|
  {
    if lines == [] then Session([], InputEnded)
    else
      match ClassifyLine(lines[0])
      case Quit => Session([], UserQuit)
      case Skip => After([], lines, polls, from)
      case Send(text) => After([text], lines, polls, from)
  }

  /** The rest of the loop once the first line's output `out` is written: stop
      if the server is gone, otherwise go on with the next line. */
  function After(out: seq<string>, lines: seq<string>, polls: nat -> PollResult, from: nat): (s: Session)
    requires lines != []
    ensures |s.sent| <= |out| + |lines| - 1
    ensures s.ending != NotRunning
    decreases |lines|, 0
  {
    if MessengerIsDisconnected(polls(from)) then Session(out, DroppedByServer)
    else
      var rest := Converse(lines[1..], polls, from + 1);
      Session(out + rest.sent, rest.ending)
  }

  /** Everything sent is a non-empty line typed at the console, sent verbatim. */
  lemma {:induction false} SentIsVerbatim(lines: seq<string>, polls: nat -> PollResult, from: nat)
    ensures forall t :: t in Converse(lines, polls, from).sent ==>
              t in lines && t != "" && ClassifyLine(t) == Send(t)
    decreases |lines|
  {
    if lines != [] && ClassifyLine(lines[0]) != Quit && !MessengerIsDisconnected(polls(from)) {
      SentIsVerbatim(lines[1..], polls, from + 1);
      forall t | t in lines[1..] ensures t in lines {
        var k :| 0 <= k < |lines[1..]| && lines[1..][k] == t;
        assert lines[k + 1] == t;
      }
    }
  }

  /** Nothing typed after a quit word is sent: the conversation is the same
      with the later lines cut off. */
  lemma {:induction false} NothingAfterQuit(lines: seq<string>, polls: nat -> PollResult, from: nat, k: nat)
    requires k < |lines| && ClassifyLine(lines[k]) == Quit
    ensures Converse(lines, polls, from) == Converse(lines[..k + 1], polls, from)
    ensures Converse(lines, polls, from).ending != InputEnded
    decreases k
  {
    var cut := lines[..k + 1];
    assert cut[0] == lines[0];
    if k > 0 {
      assert cut[1..] == lines[1..][..k];
      NothingAfterQuit(lines[1..], polls, from + 1, k - 1);
    }
  }

  /** Once the liveness check after line `k` reports the server gone, the loop
      stops: nothing typed after line `k` is sent, and the conversation ends
      as dropped by the server. */
  lemma {:induction false} NothingAfterDrop(lines: seq<string>, polls: nat -> PollResult, from: nat, k: nat)
    requires k < |lines|
    requires forall i :: 0 <= i <= k ==> ClassifyLine(lines[i]) != Quit
    requires forall j :: from <= j < from + k ==> !MessengerIsDisconnected(polls(j))
    requires MessengerIsDisconnected(polls(from + k))
    ensures Converse(lines, polls, from) == Converse(lines[..k + 1], polls, from)
    ensures Converse(lines, polls, from).ending == DroppedByServer
    decreases k
  {
    var cut := lines[..k + 1];
    assert cut[0] == lines[0];
    assert ClassifyLine(lines[0]) != Quit;
    if k > 0 {
      assert !MessengerIsDisconnected(polls(from));
      assert cut[1..] == lines[1..][..k];
      forall i | 0 <= i <= k - 1 ensures ClassifyLine(lines[1..][i]) != Quit {
        assert lines[1..][i] == lines[i + 1];
      }
      NothingAfterDrop(lines[1..], polls, from + 1, k - 1);
    }
  }

  /** The non-empty lines of `lines`, in order. */
  function NonEmpty(lines: seq<string>): (r: seq<string>)
    ensures |r| <= |lines|
  {
    if lines == [] then [] else (if lines[0] != "" then [lines[0]] else []) + NonEmpty(lines[1..])
  }

  /** With no quit word typed and the server never reported gone, every
      non-empty line is sent, in order, and the loop runs off the end of the
      console input. */
  lemma {:induction false} NoStopSendsAllNonEmpty(lines: seq<string>, polls: nat -> PollResult, from: nat)
    requires forall i :: 0 <= i < |lines| ==> ClassifyLine(lines[i]) != Quit
    requires forall k :: from <= k < from + |lines| ==> !MessengerIsDisconnected(polls(k))
    ensures Converse(lines, polls, from) == Session(NonEmpty(lines), InputEnded)
    decreases |lines|
  {
    if lines != [] {
      forall i | 0 <= i < |lines[1..]| ensures ClassifyLine(lines[1..][i]) != Quit {
        assert lines[1..][i] == lines[i + 1];
      }
      NoStopSendsAllNonEmpty(lines[1..], polls, from + 1);
    }
  }

  /** A conversation ended by a quit word on line `k` sends exactly the
      non-empty lines before it, in order. */
  lemma {:induction false} QuitSendsPrefix(lines: seq<string>, polls: nat -> PollResult, from: nat, k: nat)
    requires k < |lines| && ClassifyLine(lines[k]) == Quit
    requires forall i :: 0 <= i < k ==> ClassifyLine(lines[i]) != Quit
    requires forall j :: from <= j < from + k ==> !MessengerIsDisconnected(polls(j))
    ensures Converse(lines, polls, from) == Session(NonEmpty(lines[..k]), UserQuit)
    decreases k
  {
    if k == 0 {
      assert lines[..0] == [];
    } else {
      assert !MessengerIsDisconnected(polls(from));
      forall i | 0 <= i < k - 1 ensures ClassifyLine(lines[1..][i]) != Quit {
        assert lines[1..][i] == lines[i + 1];
      }
      QuitSendsPrefix(lines[1..], polls, from + 1, k - 1);
      assert lines[..k][1..] == lines[1..][..k - 1];
      assert lines[..k][0] == lines[0];
    }
  }

  /** A conversation ended by the liveness check after line `k` sends exactly
      the non-empty lines up to and including line `k`, in order. */
  lemma {:induction false} DropSendsPrefix(lines: seq<string>, polls: nat -> PollResult, from: nat, k: nat)
    requires k < |lines|
    requires forall i :: 0 <= i <= k ==> ClassifyLine(lines[i]) != Quit
    requires forall j :: from <= j < from + k ==> !MessengerIsDisconnected(polls(j))
    requires MessengerIsDisconnected(polls(from + k))
    ensures Converse(lines, polls, from) == Session(NonEmpty(lines[..k + 1]), DroppedByServer)
    decreases k
  {
    assert ClassifyLine(lines[0]) != Quit;
    assert lines[..k + 1][0] == lines[0];
    assert lines[..k + 1][1..] == lines[1..][..k];
    if k == 0 {
      assert lines[1..][..0] == [];
    } else {
      assert !MessengerIsDisconnected(polls(from));
      forall i | 0 <= i <= k - 1 ensures ClassifyLine(lines[1..][i]) != Quit {
        assert lines[1..][i] == lines[i + 1];
      }
      DropSendsPrefix(lines[1..], polls, from + 1, k - 1);
    }
  }

  /** Socket errors alone never end the conversation on the messenger's side,
      although the server would count such a peer as gone (`LivenessAsymmetry`). */
  lemma {:induction false} SocketErrorsNeverDrop(lines: seq<string>, polls: nat -> PollResult, from: nat)
    requires forall k :: from <= k ==> polls(k) == SocketError
    ensures Converse(lines, polls, from).ending != DroppedByServer
    decreases |lines|
  {
    if lines != [] && ClassifyLine(lines[0]) != Quit {
      assert polls(from) == SocketError;
      SocketErrorsNeverDrop(lines[1..], polls, from + 1);
    }
  }

  // ---------------------------------------------------------------------------
  // The client object

  class TcpChatMessenger {
    const name: string
    var running: bool
    /** Whether the message stream has been opened and not yet closed. */
    var streamOpen: bool
    /** Whether the underlying client socket has not been closed. */
    var clientOpen: bool

    predicate Valid()
      reads this
    {
      (running ==> streamOpen) && (streamOpen ==> clientOpen)
    }

    constructor (name: string)
      ensures this.name == name
      ensures !running && !streamOpen && clientOpen
      ensures Valid()
    {
      this.name := name;
      running := false;
      streamOpen := false;
      clientOpen := true;
    }

    /** Close the stream, if any, and the client. */
    method CleanupNetworkResources()
      modifies this
      ensures !streamOpen && !clientOpen && running == old(running)
    {
      streamOpen := false;
      clientOpen := false;
    }

    /** Connect and announce the name.  `connected` is whether the connection
        attempt succeeded and `poll` what the liveness check sees right after
        the handshake; `written` is what was sent to the server. */
    method Connect(connected: bool, poll: PollResult) returns (written: seq<string>)
      requires Valid() && clientOpen && !streamOpen
      modifies this
      ensures Valid()
      ensures written == if connected then [HandshakePayload(name)] else []
      ensures running <==> connected && !MessengerIsDisconnected(poll)
      ensures running <==> streamOpen
      ensures running <==> clientOpen
    {
      written := [];
      if connected {
        streamOpen := true;
        written := [HandshakePayload(name)];
        if !MessengerIsDisconnected(poll) {
          running := true;
        } else {
          CleanupNetworkResources();
        }
      } else {
        CleanupNetworkResources();
      }
    }

    /** The send loop over the console lines `lines`; `polls(k)` is what the
        liveness check after the k-th line sees.  When the console runs out of
        lines while the loop is still running, the read yields no line and the
        loop fails before cleaning up. */
    method SendMessages(lines: seq<string>, polls: nat -> PollResult) returns (sent: seq<string>, ending: Ending)
      requires Valid()
      modifies this
      ensures Valid()
      ensures old(running) ==> Session(sent, ending) == Converse(lines, polls, 0)
      ensures !old(running) ==> sent == [] && ending == NotRunning
      ensures ending == InputEnded ==> running && streamOpen == old(streamOpen) && clientOpen == old(clientOpen)
      ensures ending != InputEnded ==> !running && !streamOpen && !clientOpen
    {
      sent := [];
      ending := NotRunning;
      var i := 0;
      while running
        invariant 0 <= i <= |lines|
        invariant streamOpen == old(streamOpen) && clientOpen == old(clientOpen)
        invariant Valid()
        invariant !old(running) ==> !running && sent == [] && ending == NotRunning
        invariant ending != InputEnded
        invariant running ==> (old(running) &&
                               Converse(lines, polls, 0) == (var rest := Converse(lines[i..], polls, i);
                                                             Session(sent + rest.sent, rest.ending)))
        invariant old(running) && !running ==> Converse(lines, polls, 0) == Session(sent, ending)
        decreases |lines| - i, running
      {
        if i == |lines| {
          assert lines[i..] == [];
          ending := InputEnded;
          return;
        }
        var line := lines[i];
        assert lines[i..][0] == line && lines[i..][1..] == lines[i + 1..];
        var action := ClassifyLine(line);
        if action == Quit {
          running := false;
          ending := UserQuit;
        } else if action.Send? {
          sent := sent + [line];
        }
        if MessengerIsDisconnected(polls(i)) && running {
          running := false;
          ending := DroppedByServer;
        }
        i := i + 1;
      }
      CleanupNetworkResources();
    }
  }
}

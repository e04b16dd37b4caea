/**
 * The chat relay server as the object it is: lists, a dictionary and a queue
 * updated in place by the steps of its loop.  Every method is proved to leave
 * the object in the state the matching function of module ChatRegistry
 * describes, and to perform the writes and closes that function lists.
 */
module ChatServer {
  import opened ChatRegistry

  class TcpChatServer {
    const chatName: string
    var viewers: seq<ConnId>
    var messengers: seq<ConnId>
    var names: map<ConnId, string>
    var messageQueue: seq<string>
    /** The id the listener gives to the next connection it accepts. */
    var nextConn: ConnId
    var running: bool

    function State(): Registry
      reads this
    {
      Registry(viewers, messengers, names, messageQueue, nextConn)
    }

    predicate Valid()
      reads this
    {
      Consistent(State())
    }

    constructor (chatName: string)
      ensures this.chatName == chatName
      ensures State() == Empty() && !running
      ensures Valid()
    {
      this.chatName := chatName;
      viewers, messengers, names, messageQueue, nextConn := [], [], map[], [], 0;
      running := false;
    }

    /** Only clears the flag; the loop notices it at its next check. */
    method Shutdown()
      modifies this
      ensures !running
      ensures State() == old(State())
    {
      running := false;
    }

    /** Accept a pending connection whose first read gave `payload`. */
    method HandleNewConnection(payload: string) returns (effects: seq<Effect>)
      requires Valid()
      modifies this
      ensures Valid() && running == old(running)
      ensures Step(State(), effects) == Accept(old(State()), payload, chatName)
    {
      var client := nextConn;
      nextConn := nextConn + 1;
      var good := false;
      effects := [];
      if payload != "" {
        if payload == "viewer" {
          good := true;
          viewers := viewers + [client];
          effects := [Write(client, Welcome(chatName))];
        } else if StartsWith(payload, "name:") {
          var name := CandidateName(payload);
          if name != "" && name !in names.Values {
            good := true;
            names := names[client := name];
            messengers := messengers + [client];
            messageQueue := messageQueue + [Joined(name)];
          }
        }
      }
      if !good {
        effects := [Close(client)];
      }
      assert Step(State(), effects) == Accept(old(State()), payload, chatName);
    }

    /** Remove and close every client the liveness check reports disconnected,
        viewers first; announce each departed messenger and free its name. */
    method CheckForDisconnects(probe: ConnId -> PollResult) returns (effects: seq<Effect>)
      requires Valid()
      modifies this
      ensures Valid() && running == old(running)
      ensures Step(State(), effects) == Disconnect(old(State()), probe)
    {
      ghost var start := State();
      var viewerCloses := DropDeadViewers(probe);
      assert start.viewers[..|start.viewers|] == start.viewers;
      ghost var viewersDone := State();
      var messengerCloses := DropDeadMessengers(probe);
      effects := viewerCloses + messengerCloses;
      assert start.messengers[..|start.messengers|] == start.messengers;
      ghost var scan := MessengerScan(viewersDone, start.messengers, |start.messengers|, probe);
      assert scan.reg == Disconnect(start, probe).reg;
      assert scan.effects == Closes(Departed(start.messengers, probe));
    }

    /** The viewer half of the disconnect scan, over a snapshot of the list. */
    method DropDeadViewers(probe: ConnId -> PollResult) returns (effects: seq<Effect>)
      requires NoDup(viewers)
      modifies this
      ensures Step(State(), effects) == ViewerScan(old(State()), old(viewers), |old(viewers)|, probe)
      ensures running == old(running)
    {
      ghost var start := State();
      effects := [];
      var snapshot := viewers;
      var i := 0;
      while i < |snapshot|
        invariant 0 <= i <= |snapshot|
        invariant Step(State(), effects) == ViewerScan(start, snapshot, i, probe)
        invariant running == old(running)
      {
        var v := snapshot[i];
        ViewerScanStep(start, snapshot, i, probe);
        if ServerIsDisconnected(probe(v)) {
          DropViewer(v);
          effects := effects + [Close(v)];
        }
        i := i + 1;
      }
    }

    /** Take one departed viewer off the list. */
    method DropViewer(v: ConnId)
      modifies this
      ensures State() == old(State()).(viewers := RemoveFirst(old(viewers), v))
      ensures running == old(running)
    {
      viewers := RemoveFirst(viewers, v);
    }

    /** The messenger half of the disconnect scan, over a snapshot of the list:
        each dead messenger's departure is queued, its name freed. */
    method DropDeadMessengers(probe: ConnId -> PollResult) returns (effects: seq<Effect>)
      requires NoDup(messengers)
      requires forall m :: m in messengers ==> m in names
      modifies this
      ensures Step(State(), effects) == MessengerScan(old(State()), old(messengers), |old(messengers)|, probe)
      ensures running == old(running)
    {
      ghost var start := State();
      effects := [];
      var snapshot := messengers;
      var i := 0;
      while i < |snapshot|
        invariant 0 <= i <= |snapshot|
        invariant Step(State(), effects) == MessengerScan(start, snapshot, i, probe)
        invariant viewers == old(viewers) && running == old(running)
      {
        var m := snapshot[i];
        MessengerScanStep(start, snapshot, i, probe);
        if ServerIsDisconnected(probe(m)) {
          DropMessenger(m);
          effects := effects + [Close(m)];
        }
        i := i + 1;
      }
      assert snapshot[..i] == snapshot;
    }

    /** Forget one departed messenger: queue its "has left" notice, take it
        off the list and free its name. */
    method DropMessenger(m: ConnId)
      requires m in names
      modifies this
      ensures State() == old(State()).(messengers := RemoveFirst(old(messengers), m),
                                       names := old(names) - {m},
                                       queue := old(messageQueue) + [Left(old(names)[m])])
      ensures running == old(running)
    {
      var name := names[m];
      messageQueue := messageQueue + [Left(name)];
      messengers := RemoveFirst(messengers, m);
      names := names - {m};
    }

    /** Read what each messenger has available, in list order, and queue it
        tagged with the sender's name. */
    method CheckForNewMessages(available: ConnId -> string)
      requires Valid()
      modifies this
      ensures Valid() && running == old(running)
      ensures State() == old(State()).(queue := old(messageQueue) + Intake(messengers, names, available))
    {
      var i := 0;
      while i < |messengers|
        invariant 0 <= i <= |messengers|
        invariant State() == old(State()).(queue := messageQueue) && running == old(running)
        invariant messageQueue == old(messageQueue) + Intake(messengers[..i], names, available)
      {
        var m := messengers[i];
        assert messengers[..i + 1][..i] == messengers[..i];
        var text := available(m);
        if text != "" {
          messageQueue := messageQueue + [Tagged(names[m], text)];
        }
        i := i + 1;
      }
      assert messengers[..i] == messengers;
    }

    /** Write every queued message to every viewer, then clear the queue. */
    method SendMessages() returns (effects: seq<Effect>)
      requires Valid()
      modifies this
      ensures Valid() && running == old(running)
      ensures Step(State(), effects) == Broadcast(old(State()))
    {
      effects := [];
      var i := 0;
      while i < |messageQueue|
        invariant 0 <= i <= |messageQueue|
        invariant effects == FanOut(messageQueue[..i], viewers)
      {
        var msg := messageQueue[i];
        assert messageQueue[..i + 1][..i] == messageQueue[..i];
        var j := 0;
        while j < |viewers|
          invariant 0 <= j <= |viewers|
          invariant effects == FanOut(messageQueue[..i], viewers) + WritesOf(msg, viewers[..j])
        {
          assert viewers[..j + 1][..j] == viewers[..j];
          effects := effects + [Write(viewers[j], msg)];
          j := j + 1;
        }
        assert viewers[..j] == viewers;
        i := i + 1;
      }
      assert messageQueue[..i] == messageQueue;
      messageQueue := [];
    }

    /** Close every connection in `cs`, in order. */
    method CleanupAll(cs: seq<ConnId>) returns (effects: seq<Effect>)
      ensures effects == Closes(cs)
    {
      effects := [];
      var i := 0;
      while i < |cs|
        invariant 0 <= i <= |cs|
        invariant effects == Closes(cs[..i])
      {
        assert cs[..i + 1][..i] == cs[..i];
        effects := effects + [Close(cs[i])];
        i := i + 1;
      }
      assert cs[..i] == cs;
    }

    /** One pass of the server loop: accept a pending connection if there is
        one, drop the disconnected clients, read new messages, broadcast. */
    method ServeTick(input: TickInput) returns (effects: seq<Effect>)
      requires Valid()
      modifies this
      ensures Valid() && running == old(running)
      ensures Step(State(), effects) == Tick(old(State()), input, chatName)
    {
      ghost var before := State();
      var accepted: seq<Effect> := [];
      if input.arrival.Some? {
        accepted := HandleNewConnection(input.arrival.value);
      }
      ghost var a := if input.arrival.Some? then Accept(before, input.arrival.value, chatName) else Step(before, []);
      assert Step(State(), accepted) == a;
      var closed := CheckForDisconnects(input.probe);
      ghost var d := Disconnect(a.reg, input.probe);
      assert Step(State(), closed) == d;
      CheckForNewMessages(input.available);
      assert State() == d.reg.(queue := d.reg.queue + Intake(d.reg.messengers, d.reg.names, input.available));
      var sent := SendMessages();
      effects := accepted + closed + sent;
    }

    /** The server loop over a script of ticks.  Shutdown, requested during
        the script's last tick at the latest, is seen at the next check of the
        loop condition; then every viewer and messenger is closed. */
    method Run(script: seq<TickInput>) returns (effects: seq<Effect>)
      requires Valid()
      requires |script| > 0 && script[|script| - 1].interrupt
      modifies this
      ensures Valid() && !running
      ensures var served := Serve(old(State()), script[..FirstInterrupt(script) + 1], chatName);
              && State() == served.reg
              && effects == served.effects + Closes(served.reg.viewers) + Closes(served.reg.messengers)
    {
      ghost var start := State();
      running := true;
      effects := [];
      ghost var last := FirstInterrupt(script);
      var i := 0;
      while running
        invariant 0 <= i <= last + 1
        invariant running <==> i <= last
        invariant Step(State(), effects) == Serve(start, script[..i], chatName)
        decreases last + 1 - i
      {
        var input := script[i];
        assert input.interrupt <==> i == last;
        ServeExtend(start, script, i, chatName);
        var produced := ServeTick(input);
        effects := effects + produced;
        if input.interrupt {
          Shutdown();
        }
        i := i + 1;
      }
      var viewerCloses := CleanupAll(viewers);
      var messengerCloses := CleanupAll(messengers);
      effects := effects + viewerCloses + messengerCloses;
    }
  }
}

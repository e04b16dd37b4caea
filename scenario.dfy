/**
 * A worked session of the chat server, one pass of its loop at a time, for
 * any two different non-empty names `alice` and `bob`: a viewer (connection
 * 0) joins; alice registers (1); a second claim of her name (2) is turned
 * away; bob registers (3); alice says something; alice's connection drops;
 * her name is claimed again (4).  Each pass is a `Tick`; in every one the
 * clients still listed answer alive, except alice's in the pass where she
 * drops.
 */
module ChatScenario {
  import opened ChatRegistry

  // The registry after each pass; every pass ends with the queue sent and empty.

  const WithViewer := Registry([0], [], map[], [], 1)

  function WithAlice(alice: string): Registry {
    Registry([0], [1], map[1 := alice], [], 2)
  }

  function AfterRefusal(alice: string): Registry {
    Registry([0], [1], map[1 := alice], [], 3)
  }

  function WithBob(alice: string, bob: string): Registry {
    Registry([0], [1, 3], map[1 := alice, 3 := bob], [], 4)
  }

  function AliceGone(bob: string): Registry {
    Registry([0], [3], map[3 := bob], [], 4)
  }

  function AliceBack(alice: string, bob: string): Registry {
    Registry([0], [3, 4], map[3 := bob, 4 := alice], [], 5)
  }

  // ---------------------------------------------------------------------------
  // The registries along the way are consistent

  lemma OneMessengerConsistent(v: ConnId, m: ConnId, n: string, next: ConnId)
    requires v != m && n != "" && v < next && m < next
    ensures Consistent(Registry([v], [m], map[m := n], [], next))
  {
  }

  lemma TwoMessengersConsistent(v: ConnId, m1: ConnId, m2: ConnId, n1: string, n2: string, next: ConnId)
    requires v != m1 && v != m2 && m1 != m2
    requires n1 != "" && n2 != "" && n1 != n2
    requires v < next && m1 < next && m2 < next
    ensures Consistent(Registry([v], [m1, m2], map[m1 := n1, m2 := n2], [], next))
  {
    var r := Registry([v], [m1, m2], map[m1 := n1, m2 := n2], [], next);
    assert forall c :: c in r.messengers ==> c == m1 || c == m2;
    assert forall k :: k in r.names ==> k == m1 || k == m2;
  }

  // ---------------------------------------------------------------------------
  // The handshakes

  /** Alice's claim on a server with only the viewer registers connection 1
      and queues her join. */
  lemma AliceClaims(alice: string, chatName: string)
    requires alice != ""
    ensures Accept(WithViewer, "name:" + alice, chatName)
            == Step(Registry([0], [1], map[1 := alice], [Joined(alice)], 2), [])
  {
    ClaimHandshake(WithViewer, alice, chatName);
  }

  /** A second claim of alice's name only closes the new connection. */
  lemma SecondAliceClaims(alice: string, chatName: string)
    ensures Accept(WithAlice(alice), "name:" + alice, chatName) == Step(AfterRefusal(alice), [Close(2)])
  {
    var r := WithAlice(alice);
    assert alice in r.names.Values by { assert r.names[1] == alice; }
    ClaimHandshake(r, alice, chatName);
  }

  /** Bob's claim registers connection 3 next to alice and queues his join. */
  lemma BobClaims(alice: string, bob: string, chatName: string)
    requires bob != "" && bob != alice
    ensures Accept(AfterRefusal(alice), "name:" + bob, chatName)
            == Step(Registry([0], [1, 3], map[1 := alice, 3 := bob], [Joined(bob)], 4), [])
  {
    var r := AfterRefusal(alice);
    assert bob !in r.names.Values by {
      forall k | k in r.names ensures r.names[k] != bob { assert k == 1; }
    }
    ClaimHandshake(r, bob, chatName);
  }

  /** Once alice is gone, her name registers connection 4. */
  lemma AliceClaimsAgain(alice: string, bob: string, chatName: string)
    requires alice != "" && alice != bob
    ensures Accept(AliceGone(bob), "name:" + alice, chatName)
            == Step(Registry([0], [3, 4], map[3 := bob, 4 := alice], [Joined(alice)], 5), [])
  {
    var r := AliceGone(bob);
    assert alice !in r.names.Values by {
      forall k | k in r.names ensures r.names[k] != alice { assert k == 3; }
    }
    ClaimHandshake(r, alice, chatName);
  }

  // ---------------------------------------------------------------------------
  // The passes

  /** Pass 1: a viewer connects and is greeted; nothing is queued. */
  lemma ViewerConnects(input: TickInput, chatName: string)
    requires input.arrival == Some("viewer") && !ServerIsDisconnected(input.probe(0))
    ensures Tick(Empty(), input, chatName) == Step(WithViewer, [Write(0, Welcome(chatName))])
  {
    ViewerHandshake(Empty(), chatName);
    assert Empty().viewers + [0] == [0];
    QuietSilentTick(Empty(), input, chatName, WithViewer.(nextConn := 1), [Write(0, Welcome(chatName))]);
  }

  /** Pass 2: alice registers, and her join is written to the viewer. */
  lemma AliceJoins(alice: string, input: TickInput, chatName: string)
    requires alice != ""
    requires input.arrival == Some("name:" + alice)
    requires !ServerIsDisconnected(input.probe(0)) && !ServerIsDisconnected(input.probe(1))
    requires input.available(1) == ""
    ensures Tick(WithViewer, input, chatName) == Step(WithAlice(alice), FanOut([Joined(alice)], [0]))
  {
    AliceClaims(alice, chatName);
    QuietSilentTick(WithViewer, input, chatName, Registry([0], [1], map[1 := alice], [Joined(alice)], 2), []);
  }

  /** Pass 3: a second claim of alice's name only closes the new connection. */
  lemma SecondAliceRefused(alice: string, input: TickInput, chatName: string)
    requires alice != ""
    requires input.arrival == Some("name:" + alice)
    requires !ServerIsDisconnected(input.probe(0)) && !ServerIsDisconnected(input.probe(1))
    requires input.available(1) == ""
    ensures Tick(WithAlice(alice), input, chatName) == Step(AfterRefusal(alice), [Close(2)])
  {
    OneMessengerConsistent(0, 1, alice, 2);
    SecondAliceClaims(alice, chatName);
    QuietSilentTick(WithAlice(alice), input, chatName, AfterRefusal(alice), [Close(2)]);
  }

  /** Pass 4: bob registers as connection 3, and his join is written to the viewer. */
  lemma BobJoins(alice: string, bob: string, input: TickInput, chatName: string)
    requires alice != "" && bob != "" && alice != bob
    requires input.arrival == Some("name:" + bob)
    requires !ServerIsDisconnected(input.probe(0)) && !ServerIsDisconnected(input.probe(1))
    requires !ServerIsDisconnected(input.probe(3))
    requires input.available(1) == "" && input.available(3) == ""
    ensures Tick(AfterRefusal(alice), input, chatName) == Step(WithBob(alice, bob), FanOut([Joined(bob)], [0]))
  {
    OneMessengerConsistent(0, 1, alice, 3);
    BobClaims(alice, bob, chatName);
    var a := Registry([0], [1, 3], map[1 := alice, 3 := bob], [Joined(bob)], 4);
    QuietSilentTick(AfterRefusal(alice), input, chatName, a, []);
  }

  /** Pass 5: what alice sent is written to the viewer, tagged with her name. */
  lemma AliceSpeaks(alice: string, bob: string, text: string, input: TickInput, chatName: string)
    requires alice != "" && bob != "" && alice != bob && text != ""
    requires input.arrival == None
    requires !ServerIsDisconnected(input.probe(0)) && !ServerIsDisconnected(input.probe(1))
    requires !ServerIsDisconnected(input.probe(3))
    requires input.available(1) == text && input.available(3) == ""
    ensures Tick(WithBob(alice, bob), input, chatName)
            == Step(WithBob(alice, bob), FanOut([Tagged(alice, text)], [0]))
  {
    var r := WithBob(alice, bob);
    TwoMessengersConsistent(0, 1, 3, alice, bob, 4);
    IntakeInListOrder([1], [3], r.names, input.available);
    IntakeOfOne(1, r.names, input.available);
    IntakeOfOne(3, r.names, input.available);
    assert [1] + [3] == r.messengers;
    QuietTick(r, input, chatName);
    assert [] + [Tagged(alice, text)] == [Tagged(alice, text)];
  }

  /** Pass 6: alice's connection drops; it is closed, her name is freed, and her
      departure is written to the viewer. */
  lemma AliceDrops(alice: string, bob: string, input: TickInput, chatName: string)
    requires alice != "" && bob != "" && alice != bob
    requires input.arrival == None
    requires ServerIsDisconnected(input.probe(1))
    requires !ServerIsDisconnected(input.probe(0)) && !ServerIsDisconnected(input.probe(3))
    requires input.available(3) == ""
    ensures Tick(WithBob(alice, bob), input, chatName)
            == Step(AliceGone(bob), [Close(1)] + FanOut([Left(alice)], [0]))
  {
    var r := WithBob(alice, bob);
    assert r.messengers[..1] == [1];
    assert Departed(r.messengers, input.probe) == [1];
    assert Survivors(r.messengers, input.probe) == [3];
    assert r.viewers[..0] == [];
    assert Departed(r.viewers, input.probe) == [];
    assert Survivors(r.viewers, input.probe) == [0];
    assert r.names - Members([1]) == map[3 := bob];
    assert Disconnect(r, input.probe) == Step(AliceGone(bob).(queue := [Left(alice)]), [Close(1)]);
    IntakeOfOne(3, AliceGone(bob).names, input.available);
    assert [] + [Close(1)] == [Close(1)];
    assert [Left(alice)] + [] == [Left(alice)];
  }

  /** Pass 7: alice's freed name is claimed again, by connection 4, and her
      join is written to the viewer. */
  lemma AliceReturns(alice: string, bob: string, input: TickInput, chatName: string)
    requires alice != "" && bob != "" && alice != bob
    requires input.arrival == Some("name:" + alice)
    requires !ServerIsDisconnected(input.probe(0)) && !ServerIsDisconnected(input.probe(3))
    requires !ServerIsDisconnected(input.probe(4))
    requires input.available(3) == "" && input.available(4) == ""
    ensures Tick(AliceGone(bob), input, chatName) == Step(AliceBack(alice, bob), FanOut([Joined(alice)], [0]))
  {
    OneMessengerConsistent(0, 3, bob, 4);
    AliceClaimsAgain(alice, bob, chatName);
    var a := Registry([0], [3, 4], map[3 := bob, 4 := alice], [Joined(alice)], 5);
    QuietSilentTick(AliceGone(bob), input, chatName, a, []);
  }
}

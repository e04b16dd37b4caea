/**
 * The bookkeeping of the TCP chat relay server, as values.
 *
 * A `Registry` is the server's state with the sockets replaced by connection
 * ids: the viewer list, the messenger list, the messenger-to-name dictionary,
 * the queue of messages waiting to be broadcast, and the id the listener gives
 * to the next connection it accepts.  Each step of the server's loop is a
 * function from a registry (and what the sockets report) to a new registry and
 * the writes and closes it performs.  The class in module ChatServer is proved
 * to compute exactly these functions; the lemmas here state what they promise.
 */
module ChatRegistry {

  /** A connection accepted by the listener; ids are handed out in accept order. */
  type ConnId = nat

  datatype Option<T> = None | Some(value: T)

  /** What polling a socket reports: read readiness and buffered bytes, or a socket error. */
  datatype PollResult = Polled(readable: bool, available: nat) | SocketError

  /** An observable action of the server on a connection. */
  datatype Effect = Write(to: ConnId, text: string) | Close(conn: ConnId)

  datatype Registry = Registry(
    viewers: seq<ConnId>,
    messengers: seq<ConnId>,
    names: map<ConnId, string>,
    queue: seq<string>,
    nextConn: ConnId)

  /** A new registry together with what was done to the connections on the way. */
  datatype Step = Step(reg: Registry, effects: seq<Effect>)

  /** Why a handshake did not register its connection. */
  datatype Rejection = NothingRead | EmptyName | NameTaken | Unrecognised

  /** The handshake classifier's decision about a first payload. */
  datatype Verdict = AsViewer | AsMessenger(name: string) | Rejected(reason: Rejection)

  /** The server's liveness check: readable with nothing buffered means the peer
      closed; a socket error counts as disconnected. */
  predicate ServerIsDisconnected(p: PollResult) {
    match p
    case Polled(readable, available) => readable && available == 0
    case SocketError => true
  }

  // ---------------------------------------------------------------------------
  // Text

  /** String.StartsWith, compared character by character. */
  predicate StartsWith(s: string, prefix: string)
  {
    |prefix| <= |s| && s[..|prefix|] == prefix
  }

  /** The first position of `c` in `s`, or -1 when there is none. */
  function IndexOf(s: string, c: char): (i: int)
    ensures -1 <= i < |s|
    ensures i == -1 ==> c !in s
    ensures 0 <= i ==> s[i] == c && c !in s[..i]
  {
    if |s| == 0 then -1
    else if s[0] == c then 0
    else
      var j := IndexOf(s[1..], c);
      if j == -1 then -1 else j + 1
  }

  /** The name claimed by a "name:" handshake: everything after the first ':'. */
  function CandidateName(msg: string): (name: string)
    requires StartsWith(msg, "name:")
    ensures msg == "name:" + name
  {
    var i := IndexOf(msg, ':');
    assert msg[4] == msg[..5][4] == ':';
    assert i == 4;
    assert msg == msg[..5] + msg[5..];
    msg[i + 1..]
  }

  /** The greeting a new viewer is sent; the chat's name sits between fixed text. */
  function Welcome(chatName: string): string {
    "Welcome to the \"" + chatName + "\" Chat Server!"
  }

  /** The notice queued when a messenger registers; it starts with the name. */
  function Joined(name: string): string {
    name + " has joined the chat."
  }

  /** The notice queued when a messenger departs; it starts with the name. */
  function Left(name: string): string {
    name + " has left the chat."
  }

  /** A chat line as relayed: the sender's name, a separator, the text verbatim. */
  function Tagged(name: string, text: string): string {
    name + ": " + text
  }

  /** Each text the server writes keeps its variable part recoverable: the
      chat's name sits at a fixed offset in the greeting, the subject's name
      opens a join or leave notice, and a relayed line is the sender's name,
      two separator characters, then the text verbatim. */
  lemma FormatsCarryTheirParts(chatName: string, name: string, text: string)
    ensures |Welcome(chatName)| == |chatName| + 30 && Welcome(chatName)[16..|chatName| + 16] == chatName
    ensures |Joined(name)| == |name| + 21 && Joined(name)[..|name|] == name
    ensures |Left(name)| == |name| + 19 && Left(name)[..|name|] == name
    ensures |Tagged(name, text)| == |name| + 2 + |text|
    ensures Tagged(name, text)[..|name|] == name && Tagged(name, text)[|name| + 2..] == text
  {
  }

  /** Different names give different "has left" notices. */
  lemma LeftInjective(a: string, b: string)
    requires Left(a) == Left(b)
    ensures a == b
  {
    FormatsCarryTheirParts("", a, "");
    FormatsCarryTheirParts("", b, "");
  }

  // ---------------------------------------------------------------------------
  // Registry invariant

  predicate NoDup<T(==)>(s: seq<T>) {
    forall i, j :: 0 <= i < j < |s| ==> s[i] != s[j]
  }

  predicate UniqueNames(names: map<ConnId, string>) {
    forall a, b :: a in names && b in names && a != b ==> names[a] != names[b]
  }

  function Members(s: seq<ConnId>): set<ConnId> {
    set c | c in s
  }

  /** What the server keeps true between steps: no connection listed twice or in
      both roles, the name dictionary keyed by exactly the messengers, names
      non-empty and held by one messenger each, every listed id already issued. */
  predicate Consistent(r: Registry) {
    && NoDup(r.viewers)
    && NoDup(r.messengers)
    && (forall c :: c in r.viewers ==> c !in r.messengers)
    && (forall c :: c in r.messengers ==> c in r.names)
    && (forall c :: c in r.names ==> c in r.messengers)
    && UniqueNames(r.names)
    && (forall c :: c in r.names ==> r.names[c] != "")
    && (forall c :: c in r.viewers ==> c < r.nextConn)
    && (forall c :: c in r.messengers ==> c < r.nextConn)
  }

  function Empty(): (r: Registry)
    ensures Consistent(r)
    ensures r.viewers == [] && r.messengers == [] && r.names == map[] && r.queue == []
  {
    Registry([], [], map[], [], 0)
  }

  lemma NoDupAppend(s: seq<ConnId>, x: ConnId)
    ensures NoDup(s) && x !in s ==> NoDup(s + [x])
  {
  }

  // ---------------------------------------------------------------------------
  // Handshake

  /** The decision about a new connection's first payload ("" is a zero-byte read). */
  function Classify(payload: string, names: map<ConnId, string>): (v: Verdict)
    ensures v == AsViewer <==> payload == "viewer"
    ensures v == Rejected(NothingRead) <==> payload == ""
    ensures v.AsMessenger? ==> payload == "name:" + v.name && v.name != "" && v.name !in names.Values
    ensures v == Rejected(Unrecognised) <==> payload != "" && payload != "viewer" && !StartsWith(payload, "name:")
  {
    if payload == "" then Rejected(NothingRead)
    else if payload == "viewer" then AsViewer
    else if StartsWith(payload, "name:") then
      var name := CandidateName(payload);
      if name == "" then Rejected(EmptyName)
      else if name in names.Values then Rejected(NameTaken)
      else AsMessenger(name)
    else Rejected(Unrecognised)
  }

  /** Accept one pending connection and classify it by its first payload. */
  function Accept(r: Registry, payload: string, chatName: string): (s: Step)
    ensures s.reg.nextConn == r.nextConn + 1
    ensures Consistent(r) ==> Consistent(s.reg)
  {
    var c := r.nextConn;
    var issued := r.(nextConn := c + 1);
    match Classify(payload, r.names)
    case AsViewer =>
      NoDupAppend(r.viewers, c);
      Step(issued.(viewers := r.viewers + [c]), [Write(c, Welcome(chatName))])
    case AsMessenger(name) =>
      NoDupAppend(r.messengers, c);
      assert forall a :: a in r.names ==> r.names[a] in r.names.Values;
      Step(issued.(messengers := r.messengers + [c],
                   names := r.names[c := name],
                   queue := r.queue + [Joined(name)]),
           [])
    case Rejected(_) =>
      Step(issued, [Close(c)])
  }

  /** "viewer" registers the new connection as a viewer, touches nothing else
      and greets only that connection. */
  lemma ViewerHandshake(r: Registry, chatName: string)
    ensures var c := r.nextConn;
            var s := Accept(r, "viewer", chatName);
            && s.reg == r.(viewers := r.viewers + [c], nextConn := c + 1)
            && s.effects == [Write(c, Welcome(chatName))]
  {
  }

  /** "name:" + name registers a messenger exactly when the name is non-empty and
      free, announcing the arrival; otherwise the connection is closed and the
      registry keeps its lists, names and queue. */
  lemma ClaimHandshake(r: Registry, name: string, chatName: string)
    ensures var c := r.nextConn;
            var s := Accept(r, "name:" + name, chatName);
            if name != "" && name !in r.names.Values then
              && s.reg == r.(messengers := r.messengers + [c], names := r.names[c := name],
                             queue := r.queue + [Joined(name)], nextConn := c + 1)
              && s.effects == []
            else
              s == Step(r.(nextConn := c + 1), [Close(c)])
  {
    var payload := "name:" + name;
    assert payload[..5] == "name:";
    assert payload != "viewer" by { assert payload[0] == 'n'; }
    assert CandidateName(payload) == name;
  }

  /** A rejected handshake creates no registry entry and closes the connection. */
  lemma RejectedNeverRegisters(r: Registry, payload: string, chatName: string)
    requires Consistent(r)
    requires Classify(payload, r.names).Rejected?
    ensures var c := r.nextConn;
            var s := Accept(r, payload, chatName);
            && s.reg.viewers == r.viewers && s.reg.messengers == r.messengers
            && s.reg.names == r.names && s.reg.queue == r.queue
            && c !in s.reg.viewers && c !in s.reg.messengers && c !in s.reg.names
            && s.effects == [Close(c)]
  {
  }

  // ---------------------------------------------------------------------------
  // Disconnect scan

  /** List.Remove: drop the first occurrence of `x`, if any. */
  function RemoveFirst(s: seq<ConnId>, x: ConnId): (t: seq<ConnId>)
    ensures x !in s ==> t == s
  {
    if s == [] then []
    else if s[0] == x then s[1..]
    else [s[0]] + RemoveFirst(s[1..], x)
  }

  /** Removing an element present in the list takes away exactly one copy of it. */
  lemma {:induction false} RemoveFirstDropsOne(s: seq<ConnId>, x: ConnId)
    ensures x in s ==> |RemoveFirst(s, x)| == |s| - 1
    ensures multiset(RemoveFirst(s, x)) == multiset(s) - multiset{x}
  {
    if s != [] {
      assert s == [s[0]] + s[1..];
      assert multiset(s) == multiset{s[0]} + multiset(s[1..]);
      if s[0] != x {
        var rest := RemoveFirst(s[1..], x);
        RemoveFirstDropsOne(s[1..], x);
        assert RemoveFirst(s, x) == [s[0]] + rest;
        assert multiset(RemoveFirst(s, x)) == multiset{s[0]} + multiset(rest);
      }
    }
  }

  lemma {:induction false} RemoveFirstSplit(a: seq<ConnId>, x: ConnId, b: seq<ConnId>)
    requires x !in a
    ensures RemoveFirst(a + [x] + b, x) == a + b
  {
    if a == [] {
      assert a + [x] + b == [x] + b;
    } else {
      assert (a + [x] + b)[1..] == a[1..] + [x] + b;
      RemoveFirstSplit(a[1..], x, b);
      assert a + b == [a[0]] + (a[1..] + b);
    }
  }

  /** One more element of a snapshot scanned: the live list loses it exactly
      when it is reported disconnected. */
  lemma ScanStep(snap: seq<ConnId>, i: nat, probe: ConnId -> PollResult)
    requires NoDup(snap) && i < |snap|
    ensures var v := snap[i];
            var live := Survivors(snap[..i], probe) + snap[i..];
            var gone := Departed(snap[..i], probe);
            && Survivors(snap[..i + 1], probe) + snap[i + 1..]
               == (if ServerIsDisconnected(probe(v)) then RemoveFirst(live, v) else live)
            && Departed(snap[..i + 1], probe) == (if ServerIsDisconnected(probe(v)) then gone + [v] else gone)
            && Closes(Departed(snap[..i + 1], probe)) ==
               (if ServerIsDisconnected(probe(v)) then Closes(gone) + [Close(v)] else Closes(gone))
            && v !in gone
  {
    var v := snap[i];
    assert snap[..i + 1] == snap[..i] + [v];
    assert snap[..i + 1][..i] == snap[..i];
    assert snap[i..] == [v] + snap[i + 1..];
    assert v !in snap[..i];
    var alive := Survivors(snap[..i], probe);
    assert v !in alive;
    assert alive + snap[i..] == alive + [v] + snap[i + 1..];
    if ServerIsDisconnected(probe(v)) {
      assert Survivors(snap[..i + 1], probe) == alive;
      RemoveFirstSplit(alive, v, snap[i + 1..]);
      var gone := Departed(snap[..i], probe);
      assert (gone + [v])[..|gone|] == gone;
    } else {
      assert Survivors(snap[..i + 1], probe) == alive + [v];
    }
  }

  /** The registry, and the closes performed, after the viewer half of the
      disconnect scan has looked at the first `i` viewers of the snapshot `snap`. */
  function ViewerScan(r: Registry, snap: seq<ConnId>, i: nat, probe: ConnId -> PollResult): Step
    requires i <= |snap|
  {
    Step(r.(viewers := Survivors(snap[..i], probe) + snap[i..]), Closes(Departed(snap[..i], probe)))
  }

  /** Looking at one more viewer: if it is reported disconnected it leaves the
      list (List.Remove) and its connection is closed. */
  lemma ViewerScanStep(r: Registry, snap: seq<ConnId>, i: nat, probe: ConnId -> PollResult)
    requires NoDup(snap) && i < |snap|
    ensures var v := snap[i];
            var cur := ViewerScan(r, snap, i, probe);
            ViewerScan(r, snap, i + 1, probe) ==
              if ServerIsDisconnected(probe(v)) then
                Step(cur.reg.(viewers := RemoveFirst(cur.reg.viewers, v)), cur.effects + [Close(v)])
              else cur
  {
    ScanStep(snap, i, probe);
  }

  /** The registry, and the closes performed, after the messenger half of the
      disconnect scan has looked at the first `i` messengers of the snapshot
      `snap`. */
  function MessengerScan(r: Registry, snap: seq<ConnId>, i: nat, probe: ConnId -> PollResult): Step
    requires i <= |snap|
    requires forall m :: m in snap ==> m in r.names
  {
    var gone := Departed(snap[..i], probe);
    Step(r.(messengers := Survivors(snap[..i], probe) + snap[i..],
            names := r.names - Members(gone),
            queue := r.queue + LeftNotices(gone, r.names)),
         Closes(gone))
  }

  /** Looking at one more messenger: if it is reported disconnected it leaves
      the list (List.Remove), its name is dropped, its notice queued and its
      connection closed. */
  lemma MessengerScanStep(r: Registry, snap: seq<ConnId>, i: nat, probe: ConnId -> PollResult)
    requires NoDup(snap) && i < |snap|
    requires forall m :: m in snap ==> m in r.names
    ensures var m := snap[i];
            var cur := MessengerScan(r, snap, i, probe).reg;
            var closed := MessengerScan(r, snap, i, probe).effects;
            && m in cur.names && cur.names[m] == r.names[m]
            && MessengerScan(r, snap, i + 1, probe) ==
               (if ServerIsDisconnected(probe(m)) then
                  Step(cur.(messengers := RemoveFirst(cur.messengers, m),
                            names := cur.names - {m},
                            queue := cur.queue + [Left(cur.names[m])]),
                       closed + [Close(m)])
                else Step(cur, closed))
  {
    var m := snap[i];
    var gone := Departed(snap[..i], probe);
    var cur := MessengerScan(r, snap, i, probe).reg;
    var next := MessengerScan(r, snap, i + 1, probe).reg;
    ScanStep(snap, i, probe);
    assert m in cur.names;
    if ServerIsDisconnected(probe(m)) {
      assert next.messengers == RemoveFirst(cur.messengers, m);
      DropOneMore(r.names, gone, m);
      assert next.queue == cur.queue + [Left(cur.names[m])] by {
        assert (gone + [m])[..|gone|] == gone;
        assert LeftNotices(gone + [m], r.names) == LeftNotices(gone, r.names) + [Left(r.names[m])];
      }
    }
  }

  /** Dropping the keys of `gone + [m]` is dropping those of `gone`, then `m`. */
  lemma DropOneMore(names: map<ConnId, string>, gone: seq<ConnId>, m: ConnId)
    ensures names - Members(gone + [m]) == (names - Members(gone)) - {m}
  {
  }

  /** The elements of `s`, in order, whose liveness check says `disconnected`. */
  function WithStatus(s: seq<ConnId>, probe: ConnId -> PollResult, disconnected: bool): (t: seq<ConnId>)
    ensures forall c {:trigger c in t} :: c in t <==> c in s && ServerIsDisconnected(probe(c)) == disconnected
    ensures |t| <= |s|
  {
    if s == [] then []
    else
      var init := s[..|s| - 1];
      var last := s[|s| - 1];
      assert s == init + [last];
      var t := WithStatus(init, probe, disconnected);
      if ServerIsDisconnected(probe(last)) == disconnected then t + [last] else t
  }

  /** Selecting from a list without repeats gives a list without repeats. */
  lemma {:induction false} WithStatusNoDup(s: seq<ConnId>, probe: ConnId -> PollResult, disconnected: bool)
    ensures NoDup(s) ==> NoDup(WithStatus(s, probe, disconnected))
  {
    if s != [] && NoDup(s) {
      var init := s[..|s| - 1];
      assert s == init + [s[|s| - 1]];
      WithStatusNoDup(init, probe, disconnected);
      NoDupAppend(WithStatus(init, probe, disconnected), s[|s| - 1]);
    }
  }

  /** The connections a scan keeps: those whose check says they are alive. */
  function Survivors(s: seq<ConnId>, probe: ConnId -> PollResult): (t: seq<ConnId>)
  {
    WithStatus(s, probe, false)
  }

  /** The connections a scan drops: those whose check says they are gone. */
  function Departed(s: seq<ConnId>, probe: ConnId -> PollResult): (t: seq<ConnId>)
  {
    WithStatus(s, probe, true)
  }

  /** Filtering by status distributes over concatenation, so a scan keeps the
      order of the list it walks: scanning `a + b` is scanning `a`, then `b`. */
  lemma {:induction false} WithStatusAppend(a: seq<ConnId>, b: seq<ConnId>, probe: ConnId -> PollResult, disconnected: bool)
    ensures WithStatus(a + b, probe, disconnected)
            == WithStatus(a, probe, disconnected) + WithStatus(b, probe, disconnected)
    decreases |b|
  {
    if b != [] {
      var init, last := b[..|b| - 1], b[|b| - 1];
      var tail := if ServerIsDisconnected(probe(last)) == disconnected then [last] else [];
      assert (a + b)[..|a + b| - 1] == a + init;
      assert (a + b)[|a + b| - 1] == last;
      assert WithStatus(b, probe, disconnected) == WithStatus(init, probe, disconnected) + tail;
      assert WithStatus(a + b, probe, disconnected) == WithStatus(a + init, probe, disconnected) + tail;
      WithStatusAppend(a, init, probe, disconnected);
      var wa, wi := WithStatus(a, probe, disconnected), WithStatus(init, probe, disconnected);
      assert (wa + wi) + tail == wa + (wi + tail);
    } else {
      assert a + b == a;
    }
  }

  /** A scan keeps the surviving connections in their original order, and every
      connection ends up on exactly one side: kept or dropped. */
  lemma {:induction false} ScanKeepsOrderAndPartitions(a: seq<ConnId>, b: seq<ConnId>, c: ConnId, probe: ConnId -> PollResult)
    ensures Survivors(a + [c] + b, probe)
            == Survivors(a, probe) + (if ServerIsDisconnected(probe(c)) then [] else [c]) + Survivors(b, probe)
    ensures multiset(Survivors(a, probe)) + multiset(Departed(a, probe)) == multiset(a)
    decreases |a|
  {
    WithStatusAppend(a + [c], b, probe, false);
    WithStatusAppend(a, [c], probe, false);
    assert WithStatus([c], probe, false) == WithStatus([], probe, false) + (if ServerIsDisconnected(probe(c)) then [] else [c]);
    if a != [] {
      var init := a[..|a| - 1];
      ScanKeepsOrderAndPartitions(init, [], a[|a| - 1], probe);
      assert init + [a[|a| - 1]] == a;
    }
  }

  function Closes(cs: seq<ConnId>): (e: seq<Effect>)
    ensures |e| == |cs|
  {
    if cs == [] then [] else Closes(cs[..|cs| - 1]) + [Close(cs[|cs| - 1])]
  }

  lemma {:induction false} ClosesAt(cs: seq<ConnId>, k: nat)
    requires k < |cs|
    ensures Closes(cs)[k] == Close(cs[k])
  {
    if k < |cs| - 1 {
      ClosesAt(cs[..|cs| - 1], k);
    }
  }

  /** One "has left" notice per departed messenger, in departure order. */
  function LeftNotices(gone: seq<ConnId>, names: map<ConnId, string>): (q: seq<string>)
    requires forall m :: m in gone ==> m in names
    ensures |q| == |gone|
  {
    if gone == [] then []
    else LeftNotices(gone[..|gone| - 1], names) + [Left(names[gone[|gone| - 1]])]
  }

  lemma {:induction false} LeftNoticeAt(gone: seq<ConnId>, names: map<ConnId, string>, k: nat)
    requires forall m :: m in gone ==> m in names
    requires k < |gone|
    ensures LeftNotices(gone, names)[k] == Left(names[gone[k]])
  {
    if k < |gone| - 1 {
      LeftNoticeAt(gone[..|gone| - 1], names, k);
    }
  }

  /** The disconnect scan: viewers first, then messengers; each dead messenger's
      name is freed and its departure announced. */
  function Disconnect(r: Registry, probe: ConnId -> PollResult): (s: Step)
    requires forall m :: m in r.messengers ==> m in r.names
    ensures Consistent(r) ==> Consistent(s.reg)
  {
    var gone := Departed(r.messengers, probe);
    var reg := r.(viewers := Survivors(r.viewers, probe),
                  messengers := Survivors(r.messengers, probe),
                  names := r.names - Members(gone),
                  queue := r.queue + LeftNotices(gone, r.names));
    WithStatusNoDup(r.viewers, probe, false);
    WithStatusNoDup(r.messengers, probe, false);
    assert Consistent(r) ==> forall c :: c in reg.messengers <==> c in reg.names;
    Step(reg, Closes(Departed(r.viewers, probe)) + Closes(gone))
  }

  /** A list whose clients all answer alive is kept whole, and nobody departs. */
  lemma {:induction false} AllAliveScan(s: seq<ConnId>, probe: ConnId -> PollResult)
    requires forall c :: c in s ==> !ServerIsDisconnected(probe(c))
    ensures Survivors(s, probe) == s
    ensures Departed(s, probe) == []
    decreases |s|
  {
    if s != [] {
      var init := s[..|s| - 1];
      forall c | c in init ensures !ServerIsDisconnected(probe(c)) {
        assert c in s;
      }
      AllAliveScan(init, probe);
      assert s[|s| - 1] in s;
      SplitLast(s);
    }
  }

  /** A scan in which every listed client answers alive changes nothing and
      closes nothing. */
  lemma QuietScan(r: Registry, probe: ConnId -> PollResult)
    requires forall m :: m in r.messengers ==> m in r.names
    requires forall c :: c in r.viewers ==> !ServerIsDisconnected(probe(c))
    requires forall c :: c in r.messengers ==> !ServerIsDisconnected(probe(c))
    ensures Disconnect(r, probe) == Step(r, [])
  {
    AllAliveScan(r.viewers, probe);
    AllAliveScan(r.messengers, probe);
    assert Members([]) == {};
    assert r.names - {} == r.names;
    assert r.queue + [] == r.queue;
  }

  /** The scan closes the departed viewers first and the departed messengers
      after them: the first closes are exactly those of viewers. */
  lemma ViewerClosesFirst(r: Registry, probe: ConnId -> PollResult)
    requires Consistent(r)
    ensures var e := Disconnect(r, probe).effects;
            var nv := |Departed(r.viewers, probe)|;
            && |e| == nv + |Departed(r.messengers, probe)|
            && forall k :: 0 <= k < |e| ==> e[k].Close? && (e[k].conn in r.viewers <==> k < nv)
  {
    var dv, dm := Departed(r.viewers, probe), Departed(r.messengers, probe);
    var e := Disconnect(r, probe).effects;
    assert e == Closes(dv) + Closes(dm);
    forall k | 0 <= k < |e| ensures e[k].Close? && (e[k].conn in r.viewers <==> k < |dv|) {
      if k < |dv| {
        ClosesAt(dv, k);
        assert dv[k] in dv;
      } else {
        ClosesAt(dm, k - |dv|);
        assert dm[k - |dv|] in dm;
      }
    }
  }

  /** The scan removes exactly the connections reported disconnected and closes
      exactly those, viewers first. */
  lemma DisconnectRemovesExactly(r: Registry, probe: ConnId -> PollResult, c: ConnId)
    requires Consistent(r)
    ensures var s := Disconnect(r, probe);
            && (c in s.reg.viewers <==> c in r.viewers && !ServerIsDisconnected(probe(c)))
            && (c in s.reg.messengers <==> c in r.messengers && !ServerIsDisconnected(probe(c)))
            && (c in s.reg.names <==> c in r.messengers && !ServerIsDisconnected(probe(c)))
            && (Close(c) in s.effects <==> (c in r.viewers || c in r.messengers) && ServerIsDisconnected(probe(c)))
  {
    var s := Disconnect(r, probe);
    var dv := Closes(Departed(r.viewers, probe));
    var dm := Closes(Departed(r.messengers, probe));
    assert s.effects == dv + dm;
    if Close(c) in s.effects {
      var k :| 0 <= k < |s.effects| && s.effects[k] == Close(c);
      if k < |dv| {
        ClosesAt(Departed(r.viewers, probe), k);
        assert dv[k] == Close(c);
        assert Departed(r.viewers, probe)[k] == c;
        assert c in Departed(r.viewers, probe);
      } else {
        ClosesAt(Departed(r.messengers, probe), k - |dv|);
        assert dm[k - |dv|] == Close(c);
        assert Departed(r.messengers, probe)[k - |dv|] == c;
        assert c in Departed(r.messengers, probe);
      }
    }
    if (c in r.viewers || c in r.messengers) && ServerIsDisconnected(probe(c)) {
      if c in r.viewers {
        assert c in Departed(r.viewers, probe);
        var k :| 0 <= k < |Departed(r.viewers, probe)| && Departed(r.viewers, probe)[k] == c;
        ClosesAt(Departed(r.viewers, probe), k);
        assert s.effects[k] == Close(c);
      } else {
        assert c in Departed(r.messengers, probe);
        var k :| 0 <= k < |Departed(r.messengers, probe)| && Departed(r.messengers, probe)[k] == c;
        ClosesAt(Departed(r.messengers, probe), k);
        assert s.effects[|dv| + k] == Close(c);
      }
    }
  }

  /** Every departed messenger is announced exactly once: one notice per
      departure, all different, and each names a departed messenger. */
  lemma LeftNoticeOncePerDeparture(r: Registry, probe: ConnId -> PollResult)
    requires Consistent(r)
    ensures var gone := Departed(r.messengers, probe);
            var notices := LeftNotices(gone, r.names);
            && Disconnect(r, probe).reg.queue == r.queue + notices
            && |notices| == |gone|
            && NoDup(notices)
            && forall m :: m in r.messengers && ServerIsDisconnected(probe(m)) ==> Left(r.names[m]) in notices
  {
    var gone := Departed(r.messengers, probe);
    var notices := LeftNotices(gone, r.names);
    WithStatusNoDup(r.messengers, probe, true);
    forall i, j | 0 <= i < j < |notices| ensures notices[i] != notices[j] {
      LeftNoticeAt(gone, r.names, i);
      LeftNoticeAt(gone, r.names, j);
      if notices[i] == notices[j] {
        LeftInjective(r.names[gone[i]], r.names[gone[j]]);
      }
    }
    forall m | m in r.messengers && ServerIsDisconnected(probe(m)) ensures Left(r.names[m]) in notices {
      assert m in gone;
      var k :| 0 <= k < |gone| && gone[k] == m;
      LeftNoticeAt(gone, r.names, k);
    }
  }

  /** A departed messenger's name is free again: a new "name:" claim for it
      is accepted. */
  lemma NameFreedForReuse(r: Registry, probe: ConnId -> PollResult, m: ConnId, chatName: string)
    requires Consistent(r)
    requires m in r.messengers && ServerIsDisconnected(probe(m))
    ensures var after := Disconnect(r, probe).reg;
            var name := r.names[m];
            && name !in after.names.Values
            && Accept(after, "name:" + name, chatName).reg.names == after.names[after.nextConn := name]
  {
    var after := Disconnect(r, probe).reg;
    var name := r.names[m];
    assert m in Departed(r.messengers, probe);
    assert Consistent(after);
    ClaimHandshake(after, name, chatName);
  }

  // ---------------------------------------------------------------------------
  // Message intake

  /** The tagged messages read in one intake pass over `ms`: at most one per
      messenger, in list order; `available` gives the text a messenger has
      waiting ("" when nothing is available). */
  function Intake(ms: seq<ConnId>, names: map<ConnId, string>, available: ConnId -> string): (q: seq<string>)
    requires forall m :: m in ms ==> m in names
    ensures |q| <= |ms|
  {
    if ms == [] then []
    else
      var m := ms[|ms| - 1];
      Intake(ms[..|ms| - 1], names, available)
        + (if available(m) != "" then [Tagged(names[m], available(m))] else [])
  }

  /** Intake follows the messenger list order. */
  lemma {:induction false} IntakeInListOrder(ms1: seq<ConnId>, ms2: seq<ConnId>, names: map<ConnId, string>,
                                              available: ConnId -> string)
    requires forall m :: m in ms1 + ms2 ==> m in names
    ensures Intake(ms1 + ms2, names, available) == Intake(ms1, names, available) + Intake(ms2, names, available)
  {
    if ms2 != [] {
      var ms := ms1 + ms2;
      assert ms[..|ms| - 1] == ms1 + ms2[..|ms2| - 1];
      IntakeInListOrder(ms1, ms2[..|ms2| - 1], names, available);
    } else {
      assert ms1 + ms2 == ms1;
    }
  }

  /** A messenger with nothing available contributes nothing; one with text
      contributes exactly "<name>: <text>". */
  lemma IntakeOfOne(m: ConnId, names: map<ConnId, string>, available: ConnId -> string)
    requires m in names
    ensures Intake([m], names, available) ==
            if available(m) == "" then [] else [names[m] + ": " + available(m)]
  {
    assert [m][..0] == [];
  }

  /** When no messenger has anything available, intake adds nothing. */
  lemma {:induction false} SilentIntake(ms: seq<ConnId>, names: map<ConnId, string>, available: ConnId -> string)
    requires forall m :: m in ms ==> m in names
    requires forall m :: m in ms ==> available(m) == ""
    ensures Intake(ms, names, available) == []
  {
    if ms != [] {
      SilentIntake(ms[..|ms| - 1], names, available);
    }
  }

  // ---------------------------------------------------------------------------
  // Broadcast

  /** One message written to every viewer, in viewer order. */
  function WritesOf(text: string, vs: seq<ConnId>): (e: seq<Effect>)
    ensures |e| == |vs|
    ensures forall k :: 0 <= k < |e| ==> e[k] == Write(vs[k], text)
  {
    if vs == [] then [] else WritesOf(text, vs[..|vs| - 1]) + [Write(vs[|vs| - 1], text)]
  }

  /** Every queued message, in FIFO order, to every viewer. */
  function FanOut(q: seq<string>, vs: seq<ConnId>): (e: seq<Effect>)
    ensures vs == [] ==> e == []
  {
    if q == [] then [] else FanOut(q[..|q| - 1], vs) + WritesOf(q[|q| - 1], vs)
  }

  /** A send performs one write per queued message per viewer. */
  lemma {:induction false} FanOutCount(q: seq<string>, vs: seq<ConnId>)
    ensures |FanOut(q, vs)| == |q| * |vs|
  {
    if q != [] {
      FanOutCount(q[..|q| - 1], vs);
      assert |q| * |vs| == (|q| - 1) * |vs| + |vs|;
    }
  }

  /** What connection `v` is sent, in order. */
  function Inbox(e: seq<Effect>, v: ConnId): seq<string> {
    if e == [] then []
    else
      var last := e[|e| - 1];
      Inbox(e[..|e| - 1], v) + (if last.Write? && last.to == v then [last.text] else [])
  }

  lemma {:induction false} InboxAppend(a: seq<Effect>, b: seq<Effect>, v: ConnId)
    ensures Inbox(a + b, v) == Inbox(a, v) + Inbox(b, v)
  {
    if b == [] {
      assert a + b == a;
    } else {
      assert (a + b)[..|a + b| - 1] == a + b[..|b| - 1];
      InboxAppend(a, b[..|b| - 1], v);
    }
  }

  lemma {:induction false} InboxOfWrites(text: string, vs: seq<ConnId>, v: ConnId)
    requires NoDup(vs)
    ensures Inbox(WritesOf(text, vs), v) == if v in vs then [text] else []
  {
    if vs != [] {
      var init := vs[..|vs| - 1];
      assert vs == init + [vs[|vs| - 1]];
      assert NoDup(init);
      InboxOfWrites(text, init, v);
      InboxAppend(WritesOf(text, init), [Write(vs[|vs| - 1], text)], v);
      assert Inbox([Write(vs[|vs| - 1], text)], v) == if vs[|vs| - 1] == v then [text] else [] by {
        assert [Write(vs[|vs| - 1], text)][..0] == [];
      }
    }
  }

  /** FIFO fan-out: each listed viewer is sent exactly the queue, in order; a
      connection that is not a viewer at send time is sent nothing. */
  lemma {:induction false} FifoDelivery(q: seq<string>, vs: seq<ConnId>, v: ConnId)
    requires NoDup(vs)
    ensures Inbox(FanOut(q, vs), v) == if v in vs then q else []
  {
    if q != [] {
      var init, last := q[..|q| - 1], q[|q| - 1];
      assert FanOut(q, vs) == FanOut(init, vs) + WritesOf(last, vs);
      FifoDelivery(init, vs, v);
      InboxAppend(FanOut(init, vs), WritesOf(last, vs), v);
      InboxOfWrites(last, vs, v);
      SplitLast(q);
    }
  }

  lemma SplitLast<T>(s: seq<T>)
    requires s != []
    ensures s[..|s| - 1] + [s[|s| - 1]] == s
  {
  }

  /** Send every queued message to every viewer, then empty the queue. */
  function Broadcast(r: Registry): (s: Step)
    ensures Consistent(r) ==> Consistent(s.reg)
  {
    Step(r.(queue := []), FanOut(r.queue, r.viewers))
  }

  /** A viewer that joins after a send never receives what that send carried:
      it was sent nothing, and the queue it will be served from starts empty. */
  lemma LateViewerMissesEarlier(r: Registry, chatName: string)
    requires Consistent(r)
    ensures var sent := Broadcast(r);
            var joined := Accept(sent.reg, "viewer", chatName);
            var c := sent.reg.nextConn;
            && c in joined.reg.viewers
            && Inbox(sent.effects, c) == []
            && joined.reg.queue == []
  {
    var sent := Broadcast(r);
    FifoDelivery(r.queue, r.viewers, sent.reg.nextConn);
  }

  // ---------------------------------------------------------------------------
  // Control loop

  /** What the sockets report during one tick: the first payload of a pending
      connection if there is one, each connection's poll, each messenger's
      available text, and whether Shutdown was requested during the tick. */
  datatype TickInput = TickInput(
    arrival: Option<string>,
    probe: ConnId -> PollResult,
    available: ConnId -> string,
    interrupt: bool)

  /** One tick, in the loop's fixed order: accept and classify at most one
      connection, scan for disconnects, take in messages, broadcast. */
  function Tick(r: Registry, input: TickInput, chatName: string): (s: Step)
    requires Consistent(r)
    ensures Consistent(s.reg)
    ensures s.reg.queue == []
    ensures s.reg.nextConn == r.nextConn + (if input.arrival.Some? then 1 else 0)
  {
    var accepted := if input.arrival.Some? then Accept(r, input.arrival.value, chatName) else Step(r, []);
    var scanned := Disconnect(accepted.reg, input.probe);
    var d := scanned.reg;
    var read := d.(queue := d.queue + Intake(d.messengers, d.names, input.available));
    var sent := Broadcast(read);
    Step(sent.reg, accepted.effects + scanned.effects + sent.effects)
  }

  /** How many connections a script of ticks accepts. */
  function Arrivals(script: seq<TickInput>): nat {
    if script == [] then 0
    else Arrivals(script[..|script| - 1]) + (if script[|script| - 1].arrival.Some? then 1 else 0)
  }

  /** A sequence of ticks, run one after the other. */
  function Serve(r: Registry, script: seq<TickInput>, chatName: string): (s: Step)
    requires Consistent(r)
    ensures Consistent(s.reg)
    ensures script != [] ==> s.reg.queue == []
    ensures s.reg.nextConn == r.nextConn + Arrivals(script)
  {
    if script == [] then Step(r, [])
    else
      var before := Serve(r, script[..|script| - 1], chatName);
      var t := Tick(before.reg, script[|script| - 1], chatName);
      Step(t.reg, before.effects + t.effects)
  }

  /** Closing connections writes nothing to anyone. */
  lemma {:induction false} InboxOfCloses(cs: seq<ConnId>, v: ConnId)
    ensures Inbox(Closes(cs), v) == []
  {
    if cs != [] {
      InboxOfCloses(cs[..|cs| - 1], v);
      InboxAppend(Closes(cs[..|cs| - 1]), [Close(cs[|cs| - 1])], v);
      assert [Close(cs[|cs| - 1])][..0] == [];
    }
  }

  /** What a viewer that survives the tick's scan is sent during the tick: the
      queue as the accept step left it, then the departures the scan found,
      then what the messengers still listed had available, in that order. */
  lemma {:induction false} TickDelivery(r: Registry, input: TickInput, chatName: string, v: ConnId)
    requires Consistent(r)
    requires v in r.viewers && !ServerIsDisconnected(input.probe(v))
    ensures var accepted := if input.arrival.Some? then Accept(r, input.arrival.value, chatName).reg else r;
            var scanned := Disconnect(accepted, input.probe).reg;
            Inbox(Tick(r, input, chatName).effects, v)
              == accepted.queue
                 + LeftNotices(Departed(accepted.messengers, input.probe), accepted.names)
                 + Intake(scanned.messengers, scanned.names, input.available)
  {
    var accepted := if input.arrival.Some? then Accept(r, input.arrival.value, chatName) else Step(r, []);
    var scanned := Disconnect(accepted.reg, input.probe);
    var d := scanned.reg;
    var read := d.(queue := d.queue + Intake(d.messengers, d.names, input.available));
    var sent := Broadcast(read);
    assert Tick(r, input, chatName).effects == accepted.effects + scanned.effects + sent.effects;
    InboxAppend(accepted.effects + scanned.effects, sent.effects, v);
    InboxAppend(accepted.effects, scanned.effects, v);
    assert Inbox(accepted.effects, v) == [] by {
      if accepted.effects != [] {
        assert |accepted.effects| == 1 && accepted.effects[..0] == [];
        var e := accepted.effects[0];
        assert e.Write? ==> e.to == r.nextConn;
      }
    }
    InboxAppend(Closes(Departed(accepted.reg.viewers, input.probe)), Closes(Departed(accepted.reg.messengers, input.probe)), v);
    InboxOfCloses(Departed(accepted.reg.viewers, input.probe), v);
    InboxOfCloses(Departed(accepted.reg.messengers, input.probe), v);
    assert v in accepted.reg.viewers;
    assert v in d.viewers;
    FifoDelivery(read.queue, read.viewers, v);
  }

  /** A pass in which every client, the new one included, answers alive: the
      queue as accept left it, followed by the new messages, is written to
      every viewer, after whatever accept wrote or closed, and then emptied. */
  lemma QuietTick(r: Registry, input: TickInput, chatName: string)
    requires Consistent(r)
    requires var a := if input.arrival.Some? then Accept(r, input.arrival.value, chatName).reg else r;
             && (forall c :: c in a.viewers ==> !ServerIsDisconnected(input.probe(c)))
             && (forall c :: c in a.messengers ==> !ServerIsDisconnected(input.probe(c)))
    ensures var accepted := if input.arrival.Some? then Accept(r, input.arrival.value, chatName) else Step(r, []);
            var a := accepted.reg;
            Tick(r, input, chatName)
              == Step(a.(queue := []),
                      accepted.effects + FanOut(a.queue + Intake(a.messengers, a.names, input.available), a.viewers))
  {
    var accepted := if input.arrival.Some? then Accept(r, input.arrival.value, chatName) else Step(r, []);
    QuietScan(accepted.reg, input.probe);
    assert accepted.effects + [] == accepted.effects;
  }

  /** A pass with an arrival in which every client answers alive and no
      messenger has sent anything: the registry is the one accept produced,
      with its queue written to every viewer and emptied. */
  lemma QuietSilentTick(r: Registry, input: TickInput, chatName: string, a: Registry, e: seq<Effect>)
    requires Consistent(r) && input.arrival.Some?
    requires Accept(r, input.arrival.value, chatName) == Step(a, e)
    requires forall c :: c in a.viewers ==> !ServerIsDisconnected(input.probe(c))
    requires forall c :: c in a.messengers ==> !ServerIsDisconnected(input.probe(c))
    requires forall c :: c in a.messengers ==> input.available(c) == ""
    ensures Tick(r, input, chatName).reg == a.(queue := [])
    ensures Tick(r, input, chatName).effects == e + FanOut(a.queue, a.viewers)
  {
    QuietTick(r, input, chatName);
    SilentIntake(a.messengers, a.names, input.available);
    assert a.queue + [] == a.queue;
  }

  /** Serving one more tick of a script extends what was served so far. */
  lemma ServeExtend(r: Registry, script: seq<TickInput>, i: nat, chatName: string)
    requires Consistent(r) && i < |script|
    ensures var before := Serve(r, script[..i], chatName);
            var t := Tick(before.reg, script[i], chatName);
            Serve(r, script[..i + 1], chatName) == Step(t.reg, before.effects + t.effects)
  {
    assert script[..i + 1][..i] == script[..i];
  }

  /** The tick during which Shutdown was first requested. */
  function FirstInterrupt(script: seq<TickInput>): (k: nat)
    requires |script| > 0 && script[|script| - 1].interrupt
    ensures k < |script| && script[k].interrupt
    ensures forall j :: 0 <= j < k ==> !script[j].interrupt
  {
    if script[0].interrupt then 0 else 1 + FirstInterrupt(script[1..])
  }
}

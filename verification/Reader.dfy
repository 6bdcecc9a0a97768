/** The server's reader thread interleaved with its command loop: reading, lookup, sealing and publishing are
    separate steps, and any commands may run in between. */
module Reader {
  import opened Common
  import opened Wire
  import opened Topics
  import opened Sessions
  import opened Server
  import opened Ownership
  import opened History
  import opened Packets

  /** What the reader has in hand. */
  datatype Hand =
    | Nothing
    | Packet(length: nat)                        // bytes read into the buffer
    | Found(session: SessionConfig, length: nat)  // copy of the session the lookup found
    | Ready(message: DataMessage)

  datatype Node = Node(server: Server, buffer: Buffer, hand: Hand, sent: seq<DataMessage>)

  datatype Tick =
    | TakeCommand(event: Event)
    | ReadPacket(bytes: seq<byte>)
    | Lookup
    | Sealing(nonce: Nonce)
    | Publish

  /** One step of either thread. A step the reader is not at leaves the node as it is. */
  ghost function NodeStep(n: Node, t: Tick): Node {
    match t
    case TakeCommand(e) => n.(server := Consume(n.server, e).server)
    case ReadPacket(bytes) =>
      if n.hand.Nothing? && |bytes| <= BUFFER_SIZE
      then n.(buffer := Refill(n.buffer, bytes), hand := Packet(|bytes|)) else n
    case Lookup =>
      if !n.hand.Packet? then n
      else
        (match FindByIp(n.server.active, Destination(n.buffer))
         case None => n.(hand := Nothing)
         case Some(session) => n.(hand := Found(session, n.hand.length)))
    case Sealing(nonce) =>
      if !n.hand.Found? || n.hand.length > BUFFER_SIZE then n
      else
        (match PacketFor(n.server.setup.encrypted, n.server.keys, n.hand.session, n.buffer[..n.hand.length], nonce)
         case Failure(_) => n.(hand := Nothing)
         case Success(m) => n.(hand := Ready(m)))
    case Publish => if n.hand.Ready? then n.(sent := n.sent + [n.hand.message], hand := Nothing) else n
  }

  ghost function NodeAfter(n: Node, ticks: seq<Tick>): Node
    decreases |ticks|
  {
    if ticks == [] then n else NodeStep(NodeAfter(n, ticks[..|ticks| - 1]), ticks[|ticks| - 1])
  }

  // ---------- provenance ----------

  /** At step j the lookup found this session for the packet in the buffer, whose bytes are given. */
  ghost predicate LookedUp(n0: Node, ticks: seq<Tick>, j: int, session: SessionConfig, bytes: seq<byte>) {
    && 0 <= j < |ticks| && ticks[j].Lookup?
    && var n := NodeAfter(n0, ticks[..j]);
       && n.hand.Packet? && n.hand.length <= BUFFER_SIZE && bytes == n.buffer[..n.hand.length]
       && FindByIp(n.server.active, Destination(n.buffer)) == Some(session)
  }

  /** The message is the packet for that session with the keys the server had at step j. */
  ghost predicate MadeFor(n0: Node, ticks: seq<Tick>, j: int, m: DataMessage) {
    exists session, bytes, nonce ::
      LookedUp(n0, ticks, j, session, bytes) && IsPacketFor(NodeAfter(n0, ticks[..j]).server, session, bytes, nonce, m)
  }

  ghost predicate IsPacketFor(s: Server, session: SessionConfig, bytes: seq<byte>, nonce: Nonce, m: DataMessage) {
    PacketFor(s.setup.encrypted, s.keys, session, bytes, nonce) == Success(m)
  }

  ghost predicate Made(n0: Node, ticks: seq<Tick>, m: DataMessage) { exists j :: MadeFor(n0, ticks, j, m) }

  /** The session in hand was looked up at step j, and its key there is its key now. */
  ghost predicate FoundAt(n0: Node, ticks: seq<Tick>, n: Node, j: int, session: SessionConfig, k: nat) {
    && k <= BUFFER_SIZE && LookedUp(n0, ticks, j, session, n.buffer[..k])
    && var was := NodeAfter(n0, ticks[..j]).server;
       && Extends(n.server.keys, was.keys) && was.setup == n.server.setup
       && (was.setup.encrypted ==> session.clientId in was.keys)
  }

  ghost predicate HandInv(n0: Node, ticks: seq<Tick>, n: Node) {
    match n.hand
    case Nothing => true
    case Packet(k) => k <= BUFFER_SIZE
    case Found(session, k) => exists j :: FoundAt(n0, ticks, n, j, session, k)
    case Ready(m) => Made(n0, ticks, m)
  }

  ghost predicate NodeInv(n0: Node, ticks: seq<Tick>, n: Node) {
    && Sound(n.server) && HandInv(n0, ticks, n)
    && forall k :: 0 <= k < |n.sent| ==> Made(n0, ticks, n.sent[k])
  }

  lemma LookedUpLater(n0: Node, ticks: seq<Tick>, t: Tick, j: int, session: SessionConfig, bytes: seq<byte>)
    requires LookedUp(n0, ticks, j, session, bytes)
    ensures LookedUp(n0, ticks + [t], j, session, bytes) && (ticks + [t])[..j] == ticks[..j]
  {
    assert (ticks + [t])[..j] == ticks[..j];
  }

  lemma MadeLater(n0: Node, ticks: seq<Tick>, t: Tick, m: DataMessage)
    requires Made(n0, ticks, m)
    ensures Made(n0, ticks + [t], m)
  {
    var j :| MadeFor(n0, ticks, j, m);
    var session, bytes, nonce :|
      LookedUp(n0, ticks, j, session, bytes) && IsPacketFor(NodeAfter(n0, ticks[..j]).server, session, bytes, nonce, m);
    LookedUpLater(n0, ticks, t, j, session, bytes);
    assert MadeFor(n0, ticks + [t], j, m);
  }

  /** The session a lookup finds in a sound server has its keys there. */
  lemma FoundHasKeys(s: Server, ip: string)
    requires Sound(s) && FindByIp(s.active, ip).Some?
    ensures var session := FindByIp(s.active, ip).value;
            session.clientId in s.active && s.active[session.clientId] == session
            && (s.setup.encrypted ==> session.clientId in s.keys)
  {
    var id :| IsFirst(id, Holders(s.active, ip)) && FindByIp(s.active, ip) == Some(s.active[id]);
  }

  lemma {:induction false} PacketStep(n0: Node, ticks: seq<Tick>, n: Node, t: Tick)
    requires n == NodeAfter(n0, ticks) && NodeInv(n0, ticks, n) && n.hand.Packet?
    ensures HandInv(n0, ticks + [t], NodeStep(n, t))
  {
    var n' := NodeStep(n, t);
    assert (ticks + [t])[..|ticks|] == ticks;
    if n'.hand.Found? {
      FoundHasKeys(n.server, Destination(n.buffer));
      assert FoundAt(n0, ticks + [t], n', |ticks|, n'.hand.session, n.hand.length);
    }
  }

  lemma {:induction false} SealStep(n0: Node, ticks: seq<Tick>, n: Node, nonce: Nonce)
    requires n == NodeAfter(n0, ticks) && NodeInv(n0, ticks, n) && n.hand.Found?
    ensures HandInv(n0, ticks + [Sealing(nonce)], NodeStep(n, Sealing(nonce)))
  {
    var t, session, k := Sealing(nonce), n.hand.session, n.hand.length;
    var n' := NodeStep(n, t);
    var j :| FoundAt(n0, ticks, n, j, session, k);
    LookedUpLater(n0, ticks, t, j, session, n.buffer[..k]);
    assert IsPacketFor(NodeAfter(n0, ticks[..j]).server, session, n.buffer[..k], nonce, n'.hand.message);
    assert MadeFor(n0, ticks + [t], j, n'.hand.message);
  }

  /** Until it is sealed, the session in hand stays as it was found, whatever the command loop does. */
  lemma {:induction false} WaitStep(n0: Node, ticks: seq<Tick>, n: Node, t: Tick)
    requires n == NodeAfter(n0, ticks) && NodeInv(n0, ticks, n) && n.hand.Found? && !t.Sealing?
    ensures HandInv(n0, ticks + [t], NodeStep(n, t))
  {
    var n', session, k := NodeStep(n, t), n.hand.session, n.hand.length;
    var j :| FoundAt(n0, ticks, n, j, session, k);
    LookedUpLater(n0, ticks, t, j, session, n.buffer[..k]);
    if t.TakeCommand? {
      NewKey(n.server, t.event);
      assert SameSetting(n'.server, n.server);
    }
    assert FoundAt(n0, ticks + [t], n', j, session, k);
  }

  lemma {:induction false} FoundStep(n0: Node, ticks: seq<Tick>, n: Node, t: Tick)
    requires n == NodeAfter(n0, ticks) && NodeInv(n0, ticks, n) && n.hand.Found?
    ensures HandInv(n0, ticks + [t], NodeStep(n, t))
  {
    if t.Sealing? {
      SealStep(n0, ticks, n, t.nonce);
    } else {
      WaitStep(n0, ticks, n, t);
    }
  }

  lemma {:induction false} HandStep(n0: Node, ticks: seq<Tick>, n: Node, t: Tick)
    requires n == NodeAfter(n0, ticks) && NodeInv(n0, ticks, n)
    ensures HandInv(n0, ticks + [t], NodeStep(n, t))
  {
    match n.hand
    case Nothing => IdleStep(n, t);
    case Packet(_) => PacketStep(n0, ticks, n, t);
    case Found(_, _) => FoundStep(n0, ticks, n, t);
    case Ready(m) =>
      MadeLater(n0, ticks, t, m);
      ReadyStep(n, t);
  }

  lemma IdleStep(n: Node, t: Tick)
    requires n.hand.Nothing?
    ensures var h := NodeStep(n, t).hand; h.Nothing? || (h.Packet? && h.length <= BUFFER_SIZE)
  {
  }

  lemma ReadyStep(n: Node, t: Tick)
    requires n.hand.Ready?
    ensures NodeStep(n, t).hand == if t.Publish? then Nothing else n.hand
  {
  }

  lemma NodeStepFrame(n: Node, t: Tick)
    ensures NodeStep(n, t).server == if t.TakeCommand? then Consume(n.server, t.event).server else n.server
    ensures NodeStep(n, t).sent == if t.Publish? && n.hand.Ready? then n.sent + [n.hand.message] else n.sent
  {
  }

  lemma {:induction false} NodeStepInv(n0: Node, ticks: seq<Tick>, n: Node, t: Tick)
    requires n == NodeAfter(n0, ticks) && NodeInv(n0, ticks, n)
    ensures NodeInv(n0, ticks + [t], NodeStep(n, t))
  {
    var n' := NodeStep(n, t);
    HandStep(n0, ticks, n, t);
    NodeStepFrame(n, t);
    if t.TakeCommand? {
      ConsumeSound(n.server, t.event);
    }
    forall k | 0 <= k < |n'.sent| ensures Made(n0, ticks + [t], n'.sent[k]) {
      MadeLater(n0, ticks, t, n'.sent[k]);
    }
  }

  lemma {:induction false} AlwaysNodeInv(n0: Node, ticks: seq<Tick>)
    requires Sound(n0.server) && n0.hand.Nothing? && n0.sent == []
    ensures NodeInv(n0, ticks, NodeAfter(n0, ticks))
    decreases |ticks|
  {
    if ticks != [] {
      var before := ticks[..|ticks| - 1];
      AlwaysNodeInv(n0, before);
      NodeStepInv(n0, before, NodeAfter(n0, before), ticks[|ticks| - 1]);
      assert before + [ticks[|ticks| - 1]] == ticks;
    }
  }

  /** The message is on the inbound topic of one active session of this server state, the only one with its
      address, and carries the bytes as they are or sealed under that session's key. */
  ghost predicate FromSnapshot(s: Server, session: SessionConfig, bytes: seq<byte>, nonce: Nonce, m: DataMessage) {
    && session.clientId in s.active && s.active[session.clientId] == session
    && Holders(s.active, session.clientAddress) == {session.clientId}
    && m.topic == InboundTopic(s.setup.channel, session.clientId)
    && if s.setup.encrypted
       then session.clientId in s.keys && m.payload == nonce + Seal(s.keys[session.clientId].tx, nonce, Raws(bytes))
       else m.payload == Raws(bytes)
  }

  lemma SnapshotOf(s: Server, ip: string, session: SessionConfig, bytes: seq<byte>, nonce: Nonce, m: DataMessage)
    requires Sound(s) && ip != "" && FindByIp(s.active, ip) == Some(session) && IsPacketFor(s, session, bytes, nonce, m)
    ensures session.clientAddress == ip && FromSnapshot(s, session, bytes, nonce, m)
  {
    FoundHasKeys(s, ip);
    ReverseIndex(s, ip);
  }

  /** Under every interleaving, each published packet comes from one lookup: at that step one active session held
      the destination, topic and key are that session's, and the payload is the bytes in the buffer then, even
      if the session has since been terminated and its address given to another. */
  lemma {:induction false} ReaderSafety(n0: Node, ticks: seq<Tick>, k: nat)
    requires Sound(n0.server) && n0.hand.Nothing? && n0.sent == []
    requires k < |NodeAfter(n0, ticks).sent|
    ensures exists j, session, bytes, nonce ::
              && LookedUp(n0, ticks, j, session, bytes)
              && session.clientAddress == Destination(NodeAfter(n0, ticks[..j]).buffer)
              && FromSnapshot(NodeAfter(n0, ticks[..j]).server, session, bytes, nonce, NodeAfter(n0, ticks).sent[k])
  {
    AlwaysNodeInv(n0, ticks);
    var m := NodeAfter(n0, ticks).sent[k];
    assert Made(n0, ticks, m);
    var j :| MadeFor(n0, ticks, j, m);
    var session, bytes, nonce :|
      LookedUp(n0, ticks, j, session, bytes) && IsPacketFor(NodeAfter(n0, ticks[..j]).server, session, bytes, nonce, m);
    var n := NodeAfter(n0, ticks[..j]);
    AlwaysNodeInv(n0, ticks[..j]);
    SnapshotOf(n.server, Destination(n.buffer), session, bytes, nonce, m);
  }

  // ---------- every packet gets its turn ----------

  /** The reader's steps are those of its loop: one read, published or not, after another. */
  function TicksFor(r: TunRead): seq<Tick> {
    if r.ReadError? then [] else [ReadPacket(r.bytes), Lookup, Sealing(r.nonce), Publish]
  }

  function AllTicks(inputs: seq<TunRead>): seq<Tick> {
    if inputs == [] then [] else AllTicks(inputs[..|inputs| - 1]) + TicksFor(inputs[|inputs| - 1])
  }

  lemma {:induction false} OneTick(n: Node, ticks: seq<Tick>, t: Tick)
    ensures NodeAfter(n, ticks + [t]) == NodeStep(NodeAfter(n, ticks), t)
  {
    assert (ticks + [t])[..|ticks|] == ticks;
  }

  lemma {:induction false} TickAfter(n: Node, ticks: seq<Tick>, m: Node, t: Tick, more: seq<Tick>)
    requires m == NodeAfter(n, ticks) && more == ticks + [t]
    ensures NodeAfter(n, more) == NodeStep(m, t)
  {
    OneTick(n, ticks, t);
  }

  lemma {:induction false} TwoTicks(n: Node, ticks: seq<Tick>, m: Node, a: Tick, m1: Node, b: Tick, more: seq<Tick>)
    requires m == NodeAfter(n, ticks) && m1 == NodeStep(m, a) && more == ticks + [a] + [b]
    ensures NodeAfter(n, more) == NodeStep(m1, b)
  {
    TickAfter(n, ticks, m, a, ticks + [a]);
    TickAfter(n, ticks + [a], m1, b, more);
  }

  /** The four steps of a turn, the states between them given. */
  lemma {:induction false} FourTicks(n: Node, ticks: seq<Tick>, a: Tick, b: Tick, c: Tick, d: Tick,
                                     m2: Node, m3: Node, t2: seq<Tick>, t4: seq<Tick>)
    requires t2 == ticks + [a] + [b] && m2 == NodeAfter(n, t2) && m3 == NodeStep(m2, c) && t4 == t2 + [c] + [d]
    ensures NodeAfter(n, t4) == NodeStep(m3, d) && t4 == ticks + [a, b, c, d]
  {
    TwoTicks(n, t2, m2, c, m3, d, t4);
  }

  /** One read, undisturbed. */
  lemma ReadIsRouted(n: Node, bytes: seq<byte>, nonce: Nonce)
    requires n.hand.Nothing? && |bytes| <= BUFFER_SIZE
    ensures var s, buffer := n.server, Refill(n.buffer, bytes);
            NodeStep(NodeStep(NodeStep(NodeStep(n, ReadPacket(bytes)), Lookup), Sealing(nonce)), Publish)
            == n.(buffer := buffer, sent := n.sent + Route(s.setup.encrypted, s.active, s.keys, buffer, |bytes|, nonce))
  {
    var n1 := NodeStep(n, ReadPacket(bytes));
    var n2 := NodeStep(n1, Lookup);
    var n3 := NodeStep(n2, Sealing(nonce));
    assert n1 == n.(buffer := Refill(n.buffer, bytes), hand := Packet(|bytes|));
    if n2.hand.Found? {
      assert n2 == n1.(hand := Found(n2.hand.session, |bytes|));
    } else {
      assert n2 == n1.(hand := Nothing) && n3 == n2;
    }
  }

  /** Without commands in between, the reader's steps publish what its loop publishes. */
  lemma {:induction false} LoopRefined(n: Node, inputs: seq<TunRead>)
    requires n.hand.Nothing? && n.sent == [] && n.buffer == ZeroBuffer() && FitBuffer(inputs)
    ensures NodeAfter(n, AllTicks(inputs))
            == n.(buffer := BufferAfter(inputs),
                  sent := RouteAll(n.server.setup.encrypted, n.server.active, n.server.keys, inputs))
  {
    if inputs != [] {
      var before, r := inputs[..|inputs| - 1], inputs[|inputs| - 1];
      LoopRefined(n, before);
      if r.ReadError? {
        assert AllTicks(inputs) == AllTicks(before);
      } else {
        var m := NodeAfter(n, AllTicks(before));
        var m1 := NodeStep(m, ReadPacket(r.bytes));
        var m2 := NodeStep(m1, Lookup);
        var t2 := AllTicks(before) + [ReadPacket(r.bytes)] + [Lookup];
        TwoTicks(n, AllTicks(before), m, ReadPacket(r.bytes), m1, Lookup, t2);
        FourTicks(n, AllTicks(before), ReadPacket(r.bytes), Lookup, Sealing(r.nonce), Publish,
                  m2, NodeStep(m2, Sealing(r.nonce)), t2, t2 + [Sealing(r.nonce)] + [Publish]);
        ReadIsRouted(m, r.bytes, r.nonce);
      }
    }
  }

  // ---------- and gets it under any commands ----------

  function Commands(events: seq<Event>): seq<Tick> { seq(|events|, i requires 0 <= i < |events| => TakeCommand(events[i])) }

  lemma {:induction false} OneCommand(n: Node, ticks: seq<Tick>, m: Node, s: Server, before: seq<Event>, e: Event)
    requires NodeAfter(n, ticks) == m.(server := After(s, before))
    ensures NodeAfter(n, ticks + [TakeCommand(e)]) == m.(server := After(s, before + [e]))
  {
    OneTick(n, ticks, TakeCommand(e));
    AfterOneMore(s, before, e);
  }

  lemma CommandsGrow(ticks: seq<Tick>, events: seq<Event>, k: nat)
    requires 0 < k <= |events|
    ensures events[..k] == events[..k - 1] + [events[k - 1]]
    ensures ticks + Commands(events[..k]) == ticks + Commands(events[..k - 1]) + [TakeCommand(events[k - 1])]
  {
    var last := TakeCommand(events[k - 1]);
    assert Commands(events[..k]) == Commands(events[..k - 1]) + [last];
  }

  lemma {:induction false} FirstCommands(n: Node, ticks: seq<Tick>, events: seq<Event>, m: Node, k: nat)
    requires m == NodeAfter(n, ticks) && k <= |events|
    ensures NodeAfter(n, ticks + Commands(events[..k])) == m.(server := After(m.server, events[..k]))
  {
    if k == 0 {
      assert ticks + Commands(events[..0]) == ticks && After(m.server, []) == m.server;
    } else {
      FirstCommands(n, ticks, events, m, k - 1);
      OneCommand(n, ticks + Commands(events[..k - 1]), m, m.server, events[..k - 1], events[k - 1]);
      CommandsGrow(ticks, events, k);
    }
  }

  lemma {:induction false} OnlyCommands(n: Node, ticks: seq<Tick>, events: seq<Event>, m: Node)
    requires m == NodeAfter(n, ticks)
    ensures NodeAfter(n, ticks + Commands(events)) == m.(server := After(m.server, events))
  {
    FirstCommands(n, ticks, events, m, |events|);
    assert events[..|events|] == events;
  }

  /** Sealing for a session that was found: the packet does not depend on the commands since the lookup. */
  lemma {:induction false} SealedAnyTime(s: Server, ip: string, session: SessionConfig, later: seq<Event>,
                                         bytes: seq<byte>, nonce: Nonce)
    requires Sound(s) && FindByIp(s.active, ip) == Some(session)
    ensures var t := After(s, later);
            var p := PacketFor(t.setup.encrypted, t.keys, session, bytes, nonce);
            p.Success? && p == PacketFor(s.setup.encrypted, s.keys, session, bytes, nonce)
  {
    FoundHasKeys(s, ip);
    KeysNeverChange(s, later);
  }

  /** The reader's four steps for one packet, with the server as it is at each of them. */
  lemma FourSteps(n: Node, bytes: seq<byte>, nonce: Nonce, s: Server, later: seq<Event>, last: Server) returns (m: Node)
    requires n.hand.Nothing? && |bytes| <= BUFFER_SIZE && Sound(s)
    ensures var n2 := NodeStep(NodeStep(n, ReadPacket(bytes)).(server := s), Lookup);
            var n3 := NodeStep(n2.(server := After(s, later)), Sealing(nonce));
            m == NodeStep(n3.(server := last), Publish)
    ensures var buffer := Refill(n.buffer, bytes);
            var session := FindByIp(s.active, Destination(buffer));
            && m.hand.Nothing? && m.buffer == buffer
            && if session.None? then m.sent == n.sent
               else var p := PacketFor(s.setup.encrypted, s.keys, session.value, bytes, nonce);
                    p.Success? && m.sent == n.sent + [p.value]
  {
    var buffer := Refill(n.buffer, bytes);
    var n1 := n.(buffer := buffer, hand := Packet(|bytes|), server := s);
    var n2 := NodeStep(n1, Lookup);
    var n3 := NodeStep(n2.(server := After(s, later)), Sealing(nonce));
    m := NodeStep(n3.(server := last), Publish);
    assert n1.buffer[..|bytes|] == bytes;
    if n2.hand.Found? {
      SealedAnyTime(s, Destination(buffer), n2.hand.session, later, bytes, nonce);
      assert n2 == n1.(hand := Found(n2.hand.session, |bytes|));
    }
  }

  /** What the reader does for one packet, any commands before the lookup, before sealing and before publishing. */
  function Interleaved(bytes: seq<byte>, nonce: Nonce, c1: seq<Event>, c2: seq<Event>, c3: seq<Event>): seq<Tick> {
    [ReadPacket(bytes)] + Commands(c1) + [Lookup] + Commands(c2) + [Sealing(nonce)] + Commands(c3) + [Publish]
  }

  /** A step of the reader and then commands. */
  lemma {:induction false} StepThenCommands(n: Node, ticks: seq<Tick>, t: Tick, events: seq<Event>, m: Node)
    requires m == NodeAfter(n, ticks) && !t.TakeCommand?
    ensures NodeAfter(n, ticks + [t] + Commands(events)) == NodeStep(m, t).(server := After(m.server, events))
  {
    OneTick(n, ticks, t);
    ReaderLeavesServer(m, t);
    OnlyCommands(n, ticks + [t], events, NodeStep(m, t));
  }

  /** Whatever commands run in between: if at the lookup a session holds the destination, exactly one packet is published,
      for that session and with these bytes; if none does, nothing is. */
  lemma {:induction false} PacketGoesOut(n: Node, bytes: seq<byte>, nonce: Nonce,
                                         c1: seq<Event>, c2: seq<Event>, c3: seq<Event>)
    requires Sound(n.server) && n.hand.Nothing? && |bytes| <= BUFFER_SIZE
    ensures var m := NodeAfter(n, Interleaved(bytes, nonce, c1, c2, c3));
            var s, buffer := After(n.server, c1), Refill(n.buffer, bytes);
            var session := FindByIp(s.active, Destination(buffer));
            && m.hand.Nothing? && m.buffer == buffer
            && if session.None? then m.sent == n.sent
               else var p := PacketFor(s.setup.encrypted, s.keys, session.value, bytes, nonce);
                    p.Success? && m.sent == n.sent + [p.value]
  {
    var s := After(n.server, c1);
    var t := After(s, c2);
    SoundAfter(n.server, c1);
    var m := FourSteps(n, bytes, nonce, s, c2, After(t, c3));
    InterleavedIs(n, bytes, nonce, c1, c2, c3, s, t);
  }

  lemma ReaderLeavesServer(n: Node, t: Tick)
    requires !t.TakeCommand?
    ensures NodeStep(n, t).server == n.server
  {
  }

  lemma UpToLookup(n: Node, bytes: seq<byte>, c1: seq<Event>, c2: seq<Event>, s: Server, t: Server) returns (m: Node)
    requires s == After(n.server, c1) && t == After(s, c2)
    ensures m == NodeStep(NodeStep(n, ReadPacket(bytes)).(server := s), Lookup).(server := t)
    ensures NodeAfter(n, [ReadPacket(bytes)] + Commands(c1) + [Lookup] + Commands(c2)) == m
  {
    var m1 := NodeStep(n, ReadPacket(bytes)).(server := s);
    StepThenCommands(n, [], ReadPacket(bytes), c1, n);
    assert [] + [ReadPacket(bytes)] == [ReadPacket(bytes)];
    StepThenCommands(n, [ReadPacket(bytes)] + Commands(c1), Lookup, c2, m1);
    m := NodeStep(m1, Lookup).(server := t);
  }

  lemma {:induction false} InterleavedIs(n: Node, bytes: seq<byte>, nonce: Nonce,
                                         c1: seq<Event>, c2: seq<Event>, c3: seq<Event>, s: Server, t: Server)
    requires s == After(n.server, c1) && t == After(s, c2)
    ensures var n2 := NodeStep(NodeStep(n, ReadPacket(bytes)).(server := s), Lookup);
            var n3 := NodeStep(n2.(server := t), Sealing(nonce));
            NodeAfter(n, Interleaved(bytes, nonce, c1, c2, c3)) == NodeStep(n3.(server := After(t, c3)), Publish)
  {
    var before := [ReadPacket(bytes)] + Commands(c1) + [Lookup] + Commands(c2);
    var m := UpToLookup(n, bytes, c1, c2, s, t);
    StepThenCommands(n, before, Sealing(nonce), c3, m);
    OneTick(n, before + [Sealing(nonce)] + Commands(c3), Publish);
  }
}

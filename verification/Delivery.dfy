/** Packets end to end: from the destination address to the bytes the other side writes to its device. */
module Delivery {
  import opened Common
  import Text
  import opened Topics
  import opened Wire
  import opened Crypto
  import opened IpPool
  import opened Sessions
  import opened Server
  import opened Ownership
  import opened History
  import opened Client
  import opened World
  import opened Solo
  import opened Packets

  /** Whether the callback can take the id out of a data topic of this channel. */
  predicate Recoverable(channel: string, id: string) {
    id != "" && if '/' in channel then id == SecondSegment(channel) else '/' !in id
  }

  /** A callback that holds one id's key gets the payload exactly when it recovers that id from the topic. */
  lemma ArrivesExactly(channel: string, id: string, d: Direction, keys: KeyTable, key: SessionKey, nonce: Nonce,
                       plain: Payload)
    requires id in keys && keys[id].rx == key && |plain| <= BUFFER_SIZE
    requires forall x | x in keys && keys[x].rx == key :: x == id
    ensures Arrive(true, keys, DataMessage(DataTopic(channel, id, d), nonce + Seal(key, nonce, plain)))
            == if Recoverable(channel, id) then Some(plain) else None
  {
    var topic := DataTopic(channel, id, d);
    ExtractExact(channel, id, d);
    var found := ExtractClientId(topic);
    if found in keys {
      var sender: KeyTable := map[id := SessionKeys(key, key)];
      FramingRoundTrip(sender, keys, plain, id, found, nonce);
    }
  }

  // ---------- growth over a run ----------

  lemma {:induction false} LaterWorld(ws: seq<World>, actions: seq<Action>, k: nat, l: nat)
    requires IsRun(ws, actions) && k <= l < |ws|
    ensures ws[l].server.setup == ws[k].server.setup && Extends(ws[l].server.keys, ws[k].server.keys)
    decreases l - k
  {
    if k < l {
      LaterWorld(ws, actions, k, l - 1);
      RunInv(ws, actions, l - 1);
      NextInv(ws[l - 1], actions[l - 1]);
    }
  }

  // ---------- server to client ----------

  /** A packet the server reads for a non-empty address that an active session holds, sealed then or at any later
      moment, whatever happened in between: the lookup finds that session, sealing cannot fail, the topic is one
      that only the configured client of that session subscribes to, and that client's callback writes exactly
      the bytes read, if and only if the id can be recovered from the topic. */
  lemma ServerToClient(ws: seq<World>, actions: seq<Action>, k: nat, l: nat, i: nat, address: string,
                       bytes: seq<byte>, nonce: Nonce)
    requires IsRun(ws, actions) && k <= l < |ws| && address != "" && |bytes| <= BUFFER_SIZE
    requires i in ws[l].clients && ws[l].clients[i].phase.Configured?
    requires var id := ws[l].clients[i].baseId; id in ws[k].server.active && ws[k].server.active[id].clientAddress == address
    ensures var c, s := ws[l].clients[i], ws[k].server;
            var session := FindByIp(s.active, address);
            && session == Some(s.active[c.baseId])
            && var m := PacketFor(true, ws[l].server.keys, session.value, bytes, nonce);
               && m.Success?
               && (forall j | j in ws[l].clients :: m.value.topic in SubscriptionsOf(ws[l].clients[j]) <==> j == i)
               && Arrive(true, c.keys, m.value)
                  == if Recoverable(s.setup.channel, c.baseId) then Some(Raws(bytes)) else None
  {
    RunInv(ws, actions, k);
    RunInv(ws, actions, l);
    LaterWorld(ws, actions, k, l);
    var c, s := ws[l].clients[i], ws[k].server;
    ReverseIndex(s, address);
    OnlySubscriber(ws, actions, l, i);
    ToConfigured(ws[l], c, s.active[c.baseId], bytes, nonce);
  }

  /** What is sealed for a session of a configured client's id arrives at that client. */
  lemma ToConfigured(w: World, c: Client, session: SessionConfig, bytes: seq<byte>, nonce: Nonce)
    requires Inv(w) && GoodClient(w, c) && c.phase.Configured? && IsOffer(w.server.setup, session, c.baseId)
    requires |bytes| <= BUFFER_SIZE
    ensures var m := PacketFor(true, w.server.keys, session, bytes, nonce);
            && m.Success? && m.value.topic == InboundTopic(w.server.setup.channel, c.baseId)
            && Arrive(true, c.keys, m.value)
               == if Recoverable(w.server.setup.channel, c.baseId) then Some(Raws(bytes)) else None
  {
    var n :| KeyedWith(w, c, n);
    ArrivesExactly(w.server.setup.channel, c.baseId, Inbound, c.keys, w.server.keys[c.baseId].tx, nonce, Raws(bytes));
  }

  /** A configured client subscribes to the inbound topic of its id and no other configured client does. */
  lemma OnlySubscriber(ws: seq<World>, actions: seq<Action>, l: nat, i: nat)
    requires IsRun(ws, actions) && l < |ws| && i in ws[l].clients && ws[l].clients[i].phase.Configured?
    ensures var topic := InboundTopic(ws[l].server.setup.channel, ws[l].clients[i].baseId);
            forall j | j in ws[l].clients :: topic in SubscriptionsOf(ws[l].clients[j]) <==> j == i
  {
    RunInv(ws, actions, l);
    var channel := ws[l].server.setup.channel;
    forall j | j in ws[l].clients
      ensures InboundTopic(channel, ws[l].clients[i].baseId) in SubscriptionsOf(ws[l].clients[j]) <==> j == i
    {
      ClientTopics(ws[l], i);
      if ws[l].clients[j].phase.Configured? {
        ClientTopics(ws[l], j);
        if InboundTopic(channel, ws[l].clients[i].baseId) == InboundTopic(channel, ws[l].clients[j].baseId) {
          DataTopicsInjective(channel, ws[l].clients[i].baseId, Inbound, ws[l].clients[j].baseId, Inbound);
          ConfiguredIdsDiffer(ws, actions, l, i, j);
        }
      }
    }
  }

  lemma ClientTopics(w: World, i: nat)
    requires Inv(w) && i in w.clients && w.clients[i].phase.Configured?
    ensures var c := w.clients[i];
            && c.config.topicInbound == InboundTopic(w.server.setup.channel, c.baseId)
            && c.config.topicOutbound == OutboundTopic(w.server.setup.channel, c.baseId)
  {
    var c := w.clients[i];
    var o :| OfferFor(w, c.baseId, o) && c.config == Adopt(BLANK, ServerHelloOf(o));
  }

  // ---------- client to server ----------

  /** What the server makes of a packet sealed by a configured client, in any world with that key in its key table. */
  lemma FromConfigured(w: World, c: Client, s: Server, bytes: seq<byte>, nonce: Nonce)
    requires Inv(w) && GoodClient(w, c) && c.phase.Configured? && |bytes| <= BUFFER_SIZE
    requires s.keys == w.server.keys
    ensures var channel := w.server.setup.channel;
            var m := ClientPacket(true, c.keys, c.baseId, c.config.topicOutbound, bytes, nonce);
            && m.Success? && m.value.topic == OutboundTopic(channel, c.baseId)
            && Arrive(true, s.keys, m.value) == if Recoverable(channel, c.baseId) then Some(Raws(bytes)) else None
  {
    var n :| KeyedWith(w, c, n);
    forall x | x in s.keys && s.keys[x].rx == c.keys[c.baseId].tx ensures x == c.baseId {
      assert s.keys[x].rx.serverKey == s.keys[x].tx.serverKey;
    }
    var o :| OfferFor(w, c.baseId, o) && c.config == Adopt(BLANK, ServerHelloOf(o));
    ArrivesExactly(w.server.setup.channel, c.baseId, Outbound, s.keys, c.keys[c.baseId].tx, nonce, Raws(bytes));
  }

  /** The server subscribes to the outbound topics of exactly those ids for which it activated a session, ever. */
  ghost predicate SubscribedExactly(w: World) {
    forall id :: OutboundTopic(w.server.setup.channel, id) in w.server.subscriptions <==> EverActivated(w, id)
  }

  ghost predicate EverActivated(w: World, id: string) { exists o :: o in w.activated && o.clientId == id }

  lemma SubscribesBy(s: Server, c: Command, d: Draw, id: string)
    requires RecordsSound(s)
    ensures OutboundTopic(s.setup.channel, id) in Execute(s, c, d).server.subscriptions <==>
            OutboundTopic(s.setup.channel, id) in s.subscriptions
            || (ActivationBy(s, c, d).Some? && ActivationBy(s, c, d).value.clientId == id)
  {
    var o := ActivationBy(s, c, d);
    if o.Some? && OutboundTopic(s.setup.channel, id) == OutboundTopic(s.setup.channel, o.value.clientId) {
      DataTopicsInjective(s.setup.channel, id, Outbound, o.value.clientId, Outbound);
    }
  }

  lemma NextSubscribed(w: World, a: Action)
    requires Inv(w) && Enabled(w, a) && SubscribedExactly(w)
    ensures SubscribedExactly(Next(w, a))
  {
    var w' := Next(w, a);
    forall id ensures OutboundTopic(w.server.setup.channel, id) in w'.server.subscriptions <==> EverActivated(w', id) {
      assert OutboundTopic(w.server.setup.channel, id) in w.server.subscriptions <==> EverActivated(w, id);
      if a.ServerTakes? {
        SubscribesBy(w.server, CommandOf(w.server, a.event), a.event.draw, id);
        var o := ActivationOf(w.server, a.event);
        if o.Some? { assert o.value in w'.activated; }
      }
    }
  }

  lemma {:induction false} AlwaysSubscribed(ws: seq<World>, actions: seq<Action>, k: nat)
    requires IsRun(ws, actions) && k < |ws|
    ensures SubscribedExactly(ws[k])
  {
    if k > 0 {
      AlwaysSubscribed(ws, actions, k - 1);
      RunInv(ws, actions, k - 1);
      assert Enabled(ws[k - 1], actions[k - 1]) && ws[k] == Next(ws[k - 1], actions[k - 1]);
      NextSubscribed(ws[k - 1], actions[k - 1]);
    }
  }

  /** In a run of the server alone: it subscribes to the outbound topic of an id if and only if some message of the run
      activated a session for that id, whether or not this session still exists. */
  lemma {:induction false} SubscribedIfActivated(setup: Setup, netIp: string, poolSize: int, events: seq<Event>, id: string)
    requires 1 <= poolSize <= MAX_SIZE
    ensures var s0 := Initial(setup, netIp, poolSize);
            OutboundTopic(setup.channel, id) in After(s0, events).subscriptions <==>
            exists k :: ActivatesAt(s0, events, k, id)
    decreases |events|
  {
    if events != [] {
      var s0, n := Initial(setup, netIp, poolSize), |events| - 1;
      var before := events[..n];
      SubscribedIfActivated(setup, netIp, poolSize, before, id);
      AlwaysSound(setup, netIp, poolSize, before);
      SubscribesBy(After(s0, before), CommandOf(After(s0, before), events[n]), events[n].draw, id);
      ActivatesEarlier(s0, events, id);
    }
  }

  predicate ActivatesAt(s0: Server, events: seq<Event>, k: int, id: string) {
    0 <= k < |events|
    && var o := ActivationOf(StateAt(s0, events, k), events[k]); o.Some? && o.value.clientId == id
  }

  lemma ActivatesBefore(s0: Server, events: seq<Event>, k: int, id: string)
    requires events != [] && k < |events| - 1
    ensures ActivatesAt(s0, events, k, id) <==> ActivatesAt(s0, events[..|events| - 1], k, id)
  {
    if 0 <= k {
      assert events[..|events| - 1][..k] == events[..k];
    }
  }

  lemma ActivatesEarlier(s0: Server, events: seq<Event>, id: string)
    requires events != []
    ensures var n := |events| - 1;
            (exists k :: ActivatesAt(s0, events, k, id)) <==>
            (exists k :: ActivatesAt(s0, events[..n], k, id)) || ActivatesAt(s0, events, n, id)
  {
    var n := |events| - 1;
    if k :| ActivatesAt(s0, events, k, id) && k != n {
      ActivatesBefore(s0, events, k, id);
    }
    if k :| ActivatesAt(s0, events[..n], k, id) {
      ActivatesBefore(s0, events, k, id);
    }
  }

  /** A packet a configured client reads is published on its own outbound topic. A running server gets it and its callback
      writes exactly the bytes read if and only if the id can be recovered from the topic and the server has at some
      time activated a session for that id. It does not matter whether that session is still active. */
  lemma ClientToServer(ws: seq<World>, actions: seq<Action>, k: nat, i: nat, bytes: seq<byte>, nonce: Nonce)
    requires IsRun(ws, actions) && k < |ws| && |bytes| <= BUFFER_SIZE
    requires i in ws[k].clients && ws[k].clients[i].phase.Configured?
    ensures var c, s := ws[k].clients[i], ws[k].server;
            var m := ClientPacket(true, c.keys, c.baseId, c.config.topicOutbound, bytes, nonce);
            && m.Success? && m.value.topic == OutboundTopic(s.setup.channel, c.baseId)
            && (!s.failed ==>
                  && (m.value.topic in s.subscriptions <==> EverActivated(ws[k], c.baseId))
                  && (c.baseId in s.active ==> m.value.topic in s.subscriptions)
                  && Arrive(true, s.keys, m.value)
                     == if Recoverable(s.setup.channel, c.baseId) then Some(Raws(bytes)) else None)
  {
    RunInv(ws, actions, k);
    AlwaysSubscribed(ws, actions, k);
    FromConfigured(ws[k], ws[k].clients[i], ws[k].server, bytes, nonce);
  }

  /** The server does not ask whether the session of a packet is active: what its callback accepts at one moment it
      accepts as long as the server runs, on a topic it stays subscribed to, even after the session is terminated. */
  lemma {:induction false} AcceptedForever(s: Server, events: seq<Event>, m: DataMessage)
    requires m.topic in s.subscriptions && Arrive(true, s.keys, m).Some?
    ensures var t := After(s, events);
            !t.failed ==> m.topic in t.subscriptions && Arrive(true, t.keys, m) == Arrive(true, s.keys, m)
  {
    KeysNeverChange(s, events);
    SubscriptionsLast(s, events);
  }

  lemma {:induction false} SubscriptionsLast(s: Server, events: seq<Event>)
    ensures s.subscriptions <= After(s, events).subscriptions
    decreases |events|
  {
    if events != [] {
      var before, e := events[..|events| - 1], events[|events| - 1];
      SubscriptionsLast(s, before);
      SubscriptionsStay(After(s, before), CommandOf(After(s, before), e), e.draw);
    }
  }

  lemma SubscriptionsStay(s: Server, c: Command, d: Draw)
    ensures s.subscriptions <= Execute(s, c, d).server.subscriptions
  {
  }

  // ---------- addresses on the wire ----------

  /** A packet whose header names an address is looked up under the string the pool of network a.b.c.0 issued for a slot
      if and only if the address is a.b.c.(slot+1). */
  lemma HeaderNamesSlot(a: byte, b: byte, c: byte, slot: nat, a': byte, b': byte, c': byte, o: byte)
    requires slot < MAX_SIZE
    ensures IpToString(a', b', c', o) == Address(NetworkPrefix(a, b, c), slot) <==>
            a' == a && b' == b && c' == c && o == slot + 1
  {
    IssuedAsPrinted(a, b, c, slot);
    if IpToString(a', b', c', o) == IpToString(a, b, c, slot + 1) {
      IpToStringInjective(a', b', c', o, a, b, c, slot + 1);
    }
  }

  /** The server of network a.b.c.0 is a.b.c.1, and in no run does an entry hold this address. */
  lemma {:induction false} GatewayIsNobodys(setup: Setup, a: byte, b: byte, c: byte, poolSize: int, events: seq<Event>)
    requires 1 <= poolSize <= MAX_SIZE
    ensures var s := After(Initial(setup, IpToString(a, b, c, 0), poolSize), events);
            s.setup.ownAddress == IpToString(a, b, c, 1) && forall h :: AddressAt(s, h) != IpToString(a, b, c, 1)
  {
    var netIp := IpToString(a, b, c, 0);
    var s := After(Initial(setup, netIp, poolSize), events);
    AlwaysSound(setup, netIp, poolSize, events);
    IssuedAsPrinted(a, b, c, 0);
    assert Text.Natural(1) == "1";
    forall h ensures AddressAt(s, h) != IpToString(a, b, c, 1) {
      if AddressAt(s, h) == Address(s.pool.base, 0) {
        var k :| 1 <= k < |s.pool.usage| && s.pool.usage[k] && AddressAt(s, h) == Address(s.pool.base, k);
        AddressInjective(s.pool.base, 0, k);
      }
    }
  }

  // ---------- plain mode ----------

  /** In plain mode, in every run: a packet for an address an active session holds goes out on the inbound topic of its
      id with exactly the bytes read, and whoever receives it writes these. */
  lemma {:induction false} PlainServerToClient(setup: Setup, netIp: string, poolSize: int, events: seq<Event>, id: string,
                            bytes: seq<byte>, nonce: Nonce, keys: KeyTable)
    requires 1 <= poolSize <= MAX_SIZE && !setup.encrypted
    requires var s := After(Initial(setup, netIp, poolSize), events); id in s.active && s.active[id].clientAddress != ""
    ensures var s := After(Initial(setup, netIp, poolSize), events);
            var session := FindByIp(s.active, s.active[id].clientAddress);
            && session.Some?
            && var m := PacketFor(s.setup.encrypted, s.keys, session.value, bytes, nonce);
               m == Success(DataMessage(InboundTopic(setup.channel, id), Raws(bytes)))
               && Arrive(s.setup.encrypted, keys, m.value) == Some(Raws(bytes))
  {
    var s := After(Initial(setup, netIp, poolSize), events);
    AlwaysSound(setup, netIp, poolSize, events);
    ReverseIndex(s, s.active[id].clientAddress);
    PlainMode(s.keys, keys, s.active[id], id, "", bytes, nonce);
  }

  /** After a handshake in plain mode: what the server sends for the session is on the one topic the client subscribes to,
      what the client sends is on a topic the server subscribes to, and both arrive as the bytes read. */
  lemma PlainAfterHandshake(s0: Server, x: Solo, draws: nat -> Draw, bytes: seq<byte>, nonce: Nonce)
    requires SoloInv(s0, x, draws) && x.client.phase.Configured? && !s0.setup.encrypted
    ensures var c, s := x.client, x.server;
            && c.baseId in s.active
            && var down, up := PacketFor(s.setup.encrypted, s.keys, s.active[c.baseId], bytes, nonce),
                               ClientPacket(c.encrypted, c.keys, c.baseId, c.config.topicOutbound, bytes, nonce);
               && down.Success? && SubscriptionsOf(c) == {down.value.topic}
               && Arrive(c.encrypted, c.keys, down.value) == Some(Raws(bytes))
               && up.Success? && up.value.topic in s.subscriptions
               && Arrive(s.setup.encrypted, s.keys, up.value) == Some(Raws(bytes))
  {
    var c, s := x.client, x.server;
    PlainMode(s.keys, c.keys, s.active[c.baseId], c.baseId, c.config.topicOutbound, bytes, nonce);
    PlainMode(c.keys, s.keys, s.active[c.baseId], c.baseId, c.config.topicOutbound, bytes, nonce);
  }
}

/** One server and any number of clients with encryption on. The server may be handed any payload at all, and a
    client poll may yield any payload ever published on the _TX topic or none, so every order, loss and
    duplication the broker can produce is covered, and so is every message on the _RX topic. */
module World {
  import opened Common
  import opened Wire
  import opened Messages
  import opened Crypto
  import opened IpPool
  import opened Sessions
  import opened Server
  import opened Ownership
  import opened Dispatch
  import opened History
  import opened Client

  /** A payload and the client that published it on the _RX topic. */
  datatype Mail = Mail(who: nat, payload: Payload)

  datatype World = World(
    server: Server,
    clients: map<nat, Client>,
    rx: set<Mail>,                  // everything the clients published on the _RX topic so far
    tx: set<Payload>,               // everything published on the _TX topic so far
    offered: set<SessionConfig>,    // records sent and stored as ServerHellos so far
    activated: set<SessionConfig>,  // records turned into active sessions so far
    drawn: set<nat>)                // ephemeral keys drawn so far, by anyone

  datatype Action =
    | ServerTakes(event: Event)
    | ClientBegins(who: nat)
    | ClientPolls(who: nat, answer: Option<Payload>)
    | ClientStops(who: nat)

  function ToSet<T>(o: Option<T>): set<T> { if o.Some? then {o.value} else {} }

  ghost predicate Enabled(w: World, a: Action) {
    match a
    case ServerTakes(e) => e.draw.ephemeral !in w.drawn
    case ClientBegins(i) => i in w.clients && w.clients[i].phase.Idle?
    case ClientPolls(i, answer) => i in w.clients && Waiting(w.clients[i]) && ToSet(answer) <= w.tx
    case ClientStops(i) => i in w.clients && w.clients[i].phase.Configured?
  }

  function Deliver(w: World, i: nat, m: Move): World {
    w.(clients := w.clients[i := m.client], rx := w.rx + set p | p in m.published :: Mail(i, p))
  }

  ghost function Next(w: World, a: Action): World
    requires Enabled(w, a)
  {
    match a
    case ServerTakes(e) =>
      var t := Consume(w.server, e);
      w.(server := t.server, tx := w.tx + (set p | p in t.published), drawn := w.drawn + {e.draw.ephemeral},
         offered := w.offered + ToSet(OfferOf(w.server, e)),
         activated := w.activated + ToSet(ActivationOf(w.server, e)))
    case ClientBegins(i) => Deliver(w, i, Begin(w.clients[i]))
    case ClientPolls(i, answer) => Deliver(w, i, Poll(w.clients[i], answer))
    case ClientStops(i) => Deliver(w, i, Stop(w.clients[i]))
  }

  /** A fresh server with encryption on and clients that have not begun, each with its own ephemeral key. */
  ghost predicate IsInitial(w: World) {
    && w.server.setup.encrypted
    && (exists netIp, poolSize :: 1 <= poolSize <= MAX_SIZE && w.server == Initial(w.server.setup, netIp, poolSize))
    && w.rx == {} && w.tx == {} && w.offered == {} && w.activated == {}
    && (forall i | i in w.clients :: IsNew(w.clients[i]) && w.clients[i].seeds.ephemeral in w.drawn)
    && DistinctSeeds(w)
  }

  predicate IsNew(c: Client) {
    c.encrypted && c == NewClient(c.baseId, true, c.skipVerification, c.pinned, c.mode, c.seeds)
  }

  predicate DistinctSeeds(w: World) {
    forall i, j | i in w.clients && j in w.clients && w.clients[i].seeds.ephemeral == w.clients[j].seeds.ephemeral :: i == j
  }

  /** The worlds a sequence of enabled actions leads through. */
  ghost predicate IsRun(ws: seq<World>, actions: seq<Action>) {
    && |ws| == |actions| + 1 && IsInitial(ws[0])
    && forall k :: 0 <= k < |actions| ==>
         Enabled(ws[k], actions[k]) && ws[k + 1] == Next(ws[k], actions[k])
  }

  // ---------- the invariant ----------

  /** The server ephemeral n was drawn for the session id and for no other. */
  ghost predicate DrawnFor(w: World, n: nat, id: string) {
    n in w.drawn && forall x | x in w.server.keys && w.server.keys[x].tx.serverKey == n :: x == id
  }

  ghost predicate OfferFor(w: World, id: string, o: SessionConfig) {
    o in w.offered && IsOffer(w.server.setup, o, id)
  }

  ghost predicate ActivationFor(w: World, id: string, o: SessionConfig) {
    o in w.activated && IsOffer(w.server.setup, o, id)
  }

  /** What the server seals for a client: the ServerHello of a record of that id, or a ServerACK for one. */
  ghost predicate ReplyFor(w: World, id: string, m: Message) {
    || (m.ServerHello? && exists o :: OfferFor(w, id, o) && m == ServerHelloOf(o))
    || (m.ServerAck? && exists o :: ActivationFor(w, id, o) && m.handshakeId == o.handshakeId)
  }

  ghost predicate IsCryptoReply(w: World, p: Payload, id: string, n: nat) {
    p == Write(ServerHelloCrypto(id, n, Sign(w.server.setup.identity, n))) && DrawnFor(w, n, id)
  }

  ghost predicate IsSealedReply(w: World, p: Payload, id: string, nonce: Nonce, m: Message) {
    && id in w.server.keys && ReplyFor(w, id, m)
    && p == Write(EncryptedWrapper(id, nonce + Seal(w.server.keys[id].tx, nonce, Write(m))))
  }

  ghost predicate GoodPayload(w: World, p: Payload) {
    || (exists id, n :: IsCryptoReply(w, p, id, n))
    || (exists id, nonce: Nonce, m :: IsSealedReply(w, p, id, nonce, m))
  }

  /** The key pair at an id was made from the ephemeral it names. */
  ghost predicate GoodKeys(w: World) {
    forall id | id in w.server.keys ::
      var k := w.server.keys[id];
      k == ServerSessionKeys(FreshPair(k.tx.serverKey), k.tx.clientKey) && k.tx.serverKey in w.drawn
  }

  /** The client's only key pair, under its id, made with the server ephemeral n of that id. */
  ghost predicate KeyedWith(w: World, c: Client, n: nat) {
    c.keys == map[c.baseId := ClientSessionKeys(FreshPair(c.seeds.ephemeral), n)] && DrawnFor(w, n, c.baseId)
  }

  /** Agreement of client and server: mirrored keys under the client's id, and the client's config is one the
      server recorded for that id. */
  ghost predicate Agreed(w: World, c: Client) {
    && c.baseId in c.keys && c.baseId in w.server.keys
    && Mirrors(c.keys[c.baseId], w.server.keys[c.baseId])
    && exists o :: OfferFor(w, c.baseId, o) && c.config == Adopt(BLANK, ServerHelloOf(o))
  }

  /** The payload carries a reply of the server to this client. */
  ghost predicate Carries(w: World, c: Client, p: Payload, m: Message) {
    Unwrap(c, p) == Success(Write(m)) && ReplyFor(w, c.baseId, m)
  }

  ghost predicate GoodClient(w: World, c: Client) {
    && c.encrypted && c.seeds.ephemeral in w.drawn
    && match c.phase
       case Idle => IsNew(c)
       case AwaitCrypto(_) => c.ephemeral == FreshPair(c.seeds.ephemeral) && c.keys == map[] && c.config == BLANK
       case AwaitHello(_) => c.config == BLANK && exists n :: KeyedWith(w, c, n)
       case AwaitAck(_) => (exists n :: KeyedWith(w, c, n)) && Agreed(w, c) && c.response in w.tx
       case Configured =>
         && (exists n :: KeyedWith(w, c, n)) && Agreed(w, c)
         && exists m: Message :: Carries(w, c, c.response, m) && m.handshakeId == c.seeds.handshakeId
       case _ => true
  }

  /** Pending and active records are among those the server sent. */
  predicate Recorded(w: World) {
    && (forall id | id in w.server.handshakes && w.server.handshakes[id].state.HandshakeClientAck? ::
          w.server.handshakes[id] in w.offered)
    && (forall id | id in w.server.active :: w.server.active[id] in w.offered)
  }

  ghost predicate Inv(w: World) {
    && Sound(w.server) && w.server.setup.encrypted && GoodKeys(w) && DistinctSeeds(w) && Recorded(w)
    && (forall p | p in w.tx :: GoodPayload(w, p))
    && (forall i | i in w.clients :: GoodClient(w, w.clients[i]))
  }

  // ---------- what a client can open ----------

  /** A payload of the _TX topic a client can open was sealed for its own id, by a server with mirrored keys. */
  lemma OpensOnlyOwn(w: World, c: Client, n: nat, p: Payload)
    requires GoodKeys(w) && GoodPayload(w, p) && c.encrypted && KeyedWith(w, c, n) && Unwrap(c, p).Success?
    ensures c.baseId in w.server.keys && Mirrors(c.keys[c.baseId], w.server.keys[c.baseId])
    ensures exists m: Message :: Carries(w, c, p, m)
  {
    if id, k :| IsCryptoReply(w, p, id, k) {
      ReadWrite(ServerHelloCrypto(id, k, Sign(w.server.setup.identity, k)), EncryptedWrapperKind);
    } else {
      var id, nonce: Nonce, m: Message :| IsSealedReply(w, p, id, nonce, m);
      var packet := nonce + Seal(w.server.keys[id].tx, nonce, Write(m));
      ReadWrite(EncryptedWrapper(id, packet), EncryptedWrapperKind);
      FramingRoundTrip(w.server.keys, c.keys, Write(m), id, c.baseId, nonce);
      var k := w.server.keys[id].tx;
      assert c.keys[c.baseId].rx == k;
      assert k.serverKey == n && k.clientKey == c.seeds.ephemeral && id == c.baseId;
      KeysMirror(c.seeds.ephemeral, n, n, c.seeds.ephemeral);
      assert Carries(w, c, p, m);
    }
  }

  // ---------- client moves ----------

  lemma BeginGood(w: World, i: nat)
    requires Inv(w) && Enabled(w, ClientBegins(i))
    ensures GoodClient(w, Begin(w.clients[i]).client) && Begin(w.clients[i]).client.seeds == w.clients[i].seeds
  {
  }

  lemma CryptoAnswerGood(w: World, c: Client, p: Payload)
    requires GoodKeys(w) && GoodClient(w, c) && c.phase.AwaitCrypto? && GoodPayload(w, p)
    ensures GoodClient(w, OnCryptoAnswer(c, p).client)
  {
    var r := Read(p, ServerHelloCryptoKind);
    if id, n :| IsCryptoReply(w, p, id, n) {
      ReadWrite(ServerHelloCrypto(id, n, Sign(w.server.setup.identity, n)), ServerHelloCryptoKind);
      var c' := OnCryptoAnswer(c, p).client;
      if !c'.phase.Threw? {
        assert KeyedWith(w, c', n);
      }
    } else {
      var id, nonce: Nonce, m: Message :| IsSealedReply(w, p, id, nonce, m);
      ReadWrite(EncryptedWrapper(id, nonce + Seal(w.server.keys[id].tx, nonce, Write(m))), ServerHelloCryptoKind);
    }
  }

  lemma HelloAnswerGood(w: World, c: Client, p: Payload)
    requires GoodKeys(w) && GoodClient(w, c) && c.phase.AwaitHello? && p in w.tx && GoodPayload(w, p)
    ensures GoodClient(w, OnHelloAnswer(c, p).client)
  {
    var n :| KeyedWith(w, c, n);
    var c' := OnHelloAnswer(c, p).client;
    if !c'.phase.Threw? {
      OpensOnlyOwn(w, c, n, p);
      var m: Message :| Carries(w, c, p, m);
      ReadWrite(m, ServerHelloKind);
      assert KeyedWith(w, c', n);
    }
  }

  lemma ConcludeGood(w: World, c: Client)
    requires GoodKeys(w) && GoodClient(w, c) && c.phase.AwaitAck? && GoodPayload(w, c.response)
    ensures GoodClient(w, Conclude(c).client)
  {
    var n :| KeyedWith(w, c, n);
    var c' := Conclude(c).client;
    if !c'.phase.Threw? {
      OpensOnlyOwn(w, c, n, c.response);
      var m: Message :| Carries(w, c, c.response, m);
      ReadWrite(m, ServerAckKind);
      assert KeyedWith(w, c', n) && Carries(w, c', c'.response, m);
    }
  }

  lemma PollGood(w: World, i: nat, answer: Option<Payload>)
    requires Inv(w) && Enabled(w, ClientPolls(i, answer))
    ensures GoodClient(w, Poll(w.clients[i], answer).client)
  {
    var c := w.clients[i];
    if answer.Some? {
      assert answer.value in w.tx;
      match c.phase
      case AwaitCrypto(_) => CryptoAnswerGood(w, c, answer.value);
      case AwaitHello(_) => HelloAnswerGood(w, c, answer.value);
      case AwaitAck(_) =>
        var n :| KeyedWith(w, c, n);
        var d := c.(response := answer.value);
        assert KeyedWith(w, d, n);
        ConcludeGood(w, d);
    } else {
      EmptyPollGood(w, c);
    }
  }

  lemma EmptyPollGood(w: World, c: Client)
    requires GoodKeys(w) && GoodClient(w, c) && Waiting(c)
    requires forall p | p in w.tx :: GoodPayload(w, p)
    ensures GoodClient(w, Poll(c, None).client)
  {
    match c.phase
    case AwaitCrypto(k) =>
    case AwaitHello(k) =>
      var n :| KeyedWith(w, c, n);
      assert KeyedWith(w, c.(phase := AwaitHello(k + 1)), n);
    case AwaitAck(k) =>
      if k + 1 < MAX_TRIALS {
        AnotherTrial(w, c, k);
      } else {
        ConcludeGood(w, c);
      }
  }

  lemma AnotherTrial(w: World, c: Client, k: nat)
    requires GoodClient(w, c) && c.phase == AwaitAck(k)
    ensures GoodClient(w, c.(phase := AwaitAck(k + 1)))
  {
    var n :| KeyedWith(w, c, n);
    assert KeyedWith(w, c.(phase := AwaitAck(k + 1)), n);
  }

  // ---------- growth: what holds of a client or payload keeps holding ----------

  ghost predicate Grows(w: World, w': World) {
    && w'.server.setup == w.server.setup && Extends(w'.server.keys, w.server.keys)
    && w.tx <= w'.tx && w.offered <= w'.offered && w.activated <= w'.activated && w.drawn <= w'.drawn
    && (forall x | x in w'.server.keys && x !in w.server.keys :: w'.server.keys[x].tx.serverKey !in w.drawn)
  }

  lemma DrawnForGrows(w: World, w': World, n: nat, id: string)
    requires Grows(w, w') && DrawnFor(w, n, id)
    ensures DrawnFor(w', n, id)
  {
    forall x | x in w'.server.keys && w'.server.keys[x].tx.serverKey == n ensures x == id {
      assert x in w.server.keys;
    }
  }

  lemma ReplyForGrows(w: World, w': World, id: string, m: Message)
    requires Grows(w, w') && ReplyFor(w, id, m)
    ensures ReplyFor(w', id, m)
  {
    if m.ServerHello? {
      var o :| OfferFor(w, id, o) && m == ServerHelloOf(o);
      assert OfferFor(w', id, o);
    } else {
      var o :| ActivationFor(w, id, o) && m.handshakeId == o.handshakeId;
      assert ActivationFor(w', id, o);
    }
  }

  lemma PayloadGrows(w: World, w': World, p: Payload)
    requires Grows(w, w') && GoodPayload(w, p)
    ensures GoodPayload(w', p)
  {
    if id, n :| IsCryptoReply(w, p, id, n) {
      DrawnForGrows(w, w', n, id);
      assert IsCryptoReply(w', p, id, n);
    } else {
      var id, nonce: Nonce, m: Message :| IsSealedReply(w, p, id, nonce, m);
      ReplyForGrows(w, w', id, m);
      assert IsSealedReply(w', p, id, nonce, m);
    }
  }

  lemma AgreedGrows(w: World, w': World, c: Client)
    requires Grows(w, w') && Agreed(w, c)
    ensures Agreed(w', c)
  {
    var o :| OfferFor(w, c.baseId, o) && c.config == Adopt(BLANK, ServerHelloOf(o));
    assert OfferFor(w', c.baseId, o);
  }

  lemma ClientGrows(w: World, w': World, c: Client)
    requires Grows(w, w') && GoodClient(w, c)
    ensures GoodClient(w', c)
  {
    if c.phase.AwaitHello? || c.phase.AwaitAck? || c.phase.Configured? {
      var n :| KeyedWith(w, c, n);
      DrawnForGrows(w, w', n, c.baseId);
      assert KeyedWith(w', c, n);
      if !c.phase.AwaitHello? {
        AgreedGrows(w, w', c);
      }
      if c.phase.Configured? {
        var m: Message :| Carries(w, c, c.response, m) && m.handshakeId == c.seeds.handshakeId;
        ReplyForGrows(w, w', c.baseId, m);
        assert Carries(w', c, c.response, m);
      }
    }
  }

  // ---------- server moves ----------

  lemma ServerGrows(w: World, e: Event)
    requires Inv(w) && Enabled(w, ServerTakes(e))
    ensures Grows(w, Next(w, ServerTakes(e))) && GoodKeys(Next(w, ServerTakes(e)))
  {
    NewKey(w.server, e);
    assert Consume(w.server, e).server.setup == w.server.setup;
  }

  /** Whatever the server publishes is a good payload of the world it moves to. */
  lemma PublishedGood(w: World, e: Event)
    requires Inv(w) && Enabled(w, ServerTakes(e))
    ensures var w' := Next(w, ServerTakes(e));
            forall p | p in Consume(w.server, e).published :: GoodPayload(w', p)
  {
    var w' := Next(w, ServerTakes(e));
    ServerGrows(w, e);
    match CommandOf(w.server, e)
    case CryptoHello(_, _) => CryptoReplyGood(w, e);
    case Hello(_, _, _) => HelloReplyGood(w, e);
    case Ack(_, _) => AckReplyGood(w, e);
    case _ => Silent(w.server, CommandOf(w.server, e), e.draw);
  }

  lemma Silent(s: Server, c: Command, d: Draw)
    requires c.Terminate? || c.Unhandled? || c.Unreadable?
    ensures Execute(s, c, d).published == []
  {
  }

  lemma CryptoReplyGood(w: World, e: Event)
    requires Inv(w) && Enabled(w, ServerTakes(e)) && CommandOf(w.server, e).CryptoHello?
    ensures var w' := Next(w, ServerTakes(e));
            forall p | p in Consume(w.server, e).published :: GoodPayload(w', p)
  {
    var w' := Next(w, ServerTakes(e));
    var id, n := UniqueIdentifier(CommandOf(w.server, e).baseId, e.draw.clock), e.draw.ephemeral;
    assert DrawnFor(w', n, id);
    assert IsCryptoReply(w', Write(ServerHelloCrypto(id, n, Sign(w.server.setup.identity, n))), id, n);
  }

  lemma HelloReplyGood(w: World, e: Event)
    requires Inv(w) && Enabled(w, ServerTakes(e)) && CommandOf(w.server, e).Hello?
    ensures var w' := Next(w, ServerTakes(e));
            forall p | p in Consume(w.server, e).published :: GoodPayload(w', p)
  {
    var w' := Next(w, ServerTakes(e));
    if Consume(w.server, e).published != [] {
      var id := CommandOf(w.server, e).baseId;
      var o := OfferOf(w.server, e).value;
      assert OfferFor(w', id, o);
      assert ReplyFor(w', id, ServerHelloOf(o));
      assert IsSealedReply(w', Consume(w.server, e).published[0], id, e.draw.nonce, ServerHelloOf(o));
    }
  }

  lemma AckReplyGood(w: World, e: Event)
    requires Inv(w) && Enabled(w, ServerTakes(e)) && CommandOf(w.server, e).Ack?
    ensures var w' := Next(w, ServerTakes(e));
            forall p | p in Consume(w.server, e).published :: GoodPayload(w', p)
  {
    var w' := Next(w, ServerTakes(e));
    if Consume(w.server, e).published != [] {
      var id := CommandOf(w.server, e).clientId;
      var o := ActivationOf(w.server, e).value;
      assert ActivationFor(w', id, o);
      assert ReplyFor(w', id, ServerAck(o.handshakeId));
      assert IsSealedReply(w', Consume(w.server, e).published[0], id, e.draw.nonce, ServerAck(o.handshakeId));
    }
  }

  lemma ServerRecords(w: World, e: Event)
    requires Inv(w) && Enabled(w, ServerTakes(e))
    ensures Recorded(Next(w, ServerTakes(e)))
  {
    var w' := Next(w, ServerTakes(e));
    forall id | IsPending(w'.server.handshakes, id) ensures w'.server.handshakes[id] in w'.offered {
      OneStep(w.server, CommandOf(w.server, e), e.draw, id);
    }
    forall id | id in w'.server.active ensures w'.server.active[id] in w'.offered {
      OneStep(w.server, CommandOf(w.server, e), e.draw, id);
    }
  }

  lemma ServerMoved(w: World, e: Event)
    requires Inv(w) && Enabled(w, ServerTakes(e))
    ensures Inv(Next(w, ServerTakes(e))) && Grows(w, Next(w, ServerTakes(e)))
  {
    var w' := Next(w, ServerTakes(e));
    ConsumeSound(w.server, e);
    ServerGrows(w, e);
    ServerRecords(w, e);
    PublishedGood(w, e);
    Growth(w, w', set p | p in Consume(w.server, e).published);
  }

  /** Payloads and clients stay good in a world that grows by good payloads. */
  lemma Growth(w: World, w': World, more: set<Payload>)
    requires Inv(w) && Grows(w, w') && w'.tx == w.tx + more && forall p | p in more :: GoodPayload(w', p)
    requires w'.clients == w.clients
    ensures forall p | p in w'.tx :: GoodPayload(w', p)
    ensures forall i | i in w'.clients :: GoodClient(w', w'.clients[i])
  {
    forall p | p in w'.tx ensures GoodPayload(w', p) {
      if p in w.tx { PayloadGrows(w, w', p); }
    }
    forall i | i in w'.clients ensures GoodClient(w', w'.clients[i]) {
      ClientGrows(w, w', w.clients[i]);
    }
  }

  lemma NextInv(w: World, a: Action)
    requires Inv(w) && Enabled(w, a)
    ensures Inv(Next(w, a)) && Grows(w, Next(w, a))
  {
    match a
    case ServerTakes(e) => ServerMoved(w, e);
    case ClientBegins(i) =>
      BeginGood(w, i);
      ClientMoved(w, i, Begin(w.clients[i]));
    case ClientPolls(i, answer) =>
      PollGood(w, i, answer);
      SameSeeds(w.clients[i], answer);
      ClientMoved(w, i, Poll(w.clients[i], answer));
    case ClientStops(i) => ClientMoved(w, i, Stop(w.clients[i]));
  }

  lemma SameSeeds(c: Client, answer: Option<Payload>)
    ensures Poll(c, answer).client.seeds == c.seeds
  {
  }

  lemma ClientMoved(w: World, i: nat, m: Move)
    requires Inv(w) && i in w.clients && GoodClient(w, m.client) && m.client.seeds == w.clients[i].seeds
    ensures Inv(Deliver(w, i, m)) && Grows(w, Deliver(w, i, m))
  {
    var w' := Deliver(w, i, m);
    forall p | p in w'.tx ensures GoodPayload(w', p) { PayloadGrows(w, w', p); }
    forall j | j in w'.clients ensures GoodClient(w', w'.clients[j]) { ClientGrows(w, w', w'.clients[j]); }
  }

  lemma {:induction false} RunInv(ws: seq<World>, actions: seq<Action>, k: nat)
    requires IsRun(ws, actions) && k < |ws|
    ensures Inv(ws[k])
  {
    if k == 0 {
      var s := ws[0].server;
      var netIp, poolSize :| 1 <= poolSize <= MAX_SIZE && s == Initial(s.setup, netIp, poolSize);
      AlwaysSound(s.setup, netIp, poolSize, []);
    } else {
      RunInv(ws, actions, k - 1);
      NextInv(ws[k - 1], actions[k - 1]);
    }
  }

  // ---------- theorems ----------

  /** Agreement: in every run, whenever a client is configured, its id indexes a server key pair that mirrors its
      own, and its id, address, topics and session id are those of a record the server sent and stored for it. */
  lemma Agreement(ws: seq<World>, actions: seq<Action>, k: nat, i: nat)
    requires IsRun(ws, actions) && k < |ws| && i in ws[k].clients && ws[k].clients[i].phase.Configured?
    ensures var c, s := ws[k].clients[i], ws[k].server;
            && c.baseId in c.keys && c.baseId in s.keys
            && c.keys[c.baseId].rx == s.keys[c.baseId].tx && c.keys[c.baseId].tx == s.keys[c.baseId].rx
            && exists o :: o in ws[k].offered
                 && o.clientId == c.baseId == c.config.clientId
                 && o.clientAddress == c.config.clientAddress && o.serverAddress == c.config.serverAddress
                 && o.topicInbound == c.config.topicInbound && o.topicOutbound == c.config.topicOutbound
                 && o.sessionId == c.config.sessionId
  {
    RunInv(ws, actions, k);
    var c := ws[k].clients[i];
    var o :| OfferFor(ws[k], c.baseId, o) && c.config == Adopt(BLANK, ServerHelloOf(o));
  }

  /** Agreement with the active session: when the server sent only one record for the id of a configured client and has a
      session for that id, the client's config is that session's. */
  lemma AgreesWithSession(ws: seq<World>, actions: seq<Action>, k: nat, i: nat)
    requires IsRun(ws, actions) && k < |ws| && i in ws[k].clients && ws[k].clients[i].phase.Configured?
    requires var id := ws[k].clients[i].baseId;
             && id in ws[k].server.active
             && forall o, o' | o in ws[k].offered && o' in ws[k].offered && o.clientId == o'.clientId == id :: o == o'
    ensures var c := ws[k].clients[i];
            c.config == Adopt(BLANK, ServerHelloOf(ws[k].server.active[c.baseId]))
  {
    RunInv(ws, actions, k);
    var c := ws[k].clients[i];
    var o :| OfferFor(ws[k], c.baseId, o) && c.config == Adopt(BLANK, ServerHelloOf(o));
  }

  /** A client that verifies and has got as far as having keys has the server's identity pinned. */
  predicate TrustsRightly(w: World, c: Client) {
    !c.skipVerification && (c.phase.AwaitHello? || c.phase.AwaitAck? || c.phase.Configured? || c.phase.Stopped?)
    ==> c.pinned == Some(w.server.setup.identity)
  }

  lemma PollTrusts(w: World, c: Client, p: Payload)
    requires GoodPayload(w, p) && c.phase.AwaitCrypto?
    ensures TrustsRightly(w, OnCryptoAnswer(c, p).client)
  {
    if id, n :| IsCryptoReply(w, p, id, n) {
      ReadWrite(ServerHelloCrypto(id, n, Sign(w.server.setup.identity, n)), ServerHelloCryptoKind);
    } else {
      var id, nonce: Nonce, m: Message :| IsSealedReply(w, p, id, nonce, m);
      ReadWrite(EncryptedWrapper(id, nonce + Seal(w.server.keys[id].tx, nonce, Write(m))), ServerHelloCryptoKind);
    }
  }

  lemma NextTrusts(w: World, a: Action)
    requires Inv(w) && Enabled(w, a) && forall i | i in w.clients :: TrustsRightly(w, w.clients[i])
    ensures forall i | i in Next(w, a).clients :: TrustsRightly(Next(w, a), Next(w, a).clients[i])
  {
    match a
    case ServerTakes(e) => assert Consume(w.server, e).server.setup == w.server.setup;
    case ClientBegins(i) =>
    case ClientPolls(i, answer) => PollKeepsTrust(w, w.clients[i], answer);
    case ClientStops(i) =>
  }

  lemma PollKeepsTrust(w: World, c: Client, answer: Option<Payload>)
    requires TrustsRightly(w, c) && forall p | p in ToSet(answer) :: GoodPayload(w, p)
    requires Waiting(c) && c.encrypted
    ensures TrustsRightly(w, Poll(c, answer).client)
  {
    if answer.Some? && c.phase.AwaitCrypto? {
      PollTrusts(w, c, answer.value);
    }
  }

  lemma {:induction false} AlwaysTrusts(ws: seq<World>, actions: seq<Action>, k: nat)
    requires IsRun(ws, actions) && k < |ws|
    ensures forall i | i in ws[k].clients :: TrustsRightly(ws[k], ws[k].clients[i])
  {
    if k > 0 {
      AlwaysTrusts(ws, actions, k - 1);
      RunInv(ws, actions, k - 1);
      assert Enabled(ws[k - 1], actions[k - 1]) && ws[k] == Next(ws[k - 1], actions[k - 1]);
      NextTrusts(ws[k - 1], actions[k - 1]);
    }
  }

  /** In every run a configured client that verifies its server has pinned the identity of this server. */
  lemma ConfiguredTrusts(ws: seq<World>, actions: seq<Action>, k: nat, i: nat)
    requires IsRun(ws, actions) && k < |ws| && i in ws[k].clients
    requires ws[k].clients[i].phase.Configured? && !ws[k].clients[i].skipVerification
    ensures ws[k].clients[i].pinned == Some(ws[k].server.setup.identity)
  {
    AlwaysTrusts(ws, actions, k);
    assert TrustsRightly(ws[k], ws[k].clients[i]);
  }

  /** The server's tag on the payload that concluded the handshake. */
  function ConclusionTag(c: Client): Option<int> {
    match Unwrap(c, c.response)
    case Failure(_) => None
    case Success(text) => Header(text)
  }

  /** A configured client concluded on a ServerACK or on a ServerHello read again; a ServerACK means that the
      server did activate a session for this client's id and handshake. */
  lemma ConfiguredByAck(ws: seq<World>, actions: seq<Action>, k: nat, i: nat)
    requires IsRun(ws, actions) && k < |ws| && i in ws[k].clients && ws[k].clients[i].phase.Configured?
    ensures var c := ws[k].clients[i];
            && (ConclusionTag(c) == Some(SERVER_ACK) || ConclusionTag(c) == Some(SERVER_HELLO))
            && (ConclusionTag(c) == Some(SERVER_ACK) ==>
                  exists o :: o in ws[k].activated && o.clientId == c.baseId && o.handshakeId == c.seeds.handshakeId)
  {
    RunInv(ws, actions, k);
    var c := ws[k].clients[i];
    var m: Message :| Carries(ws[k], c, c.response, m) && m.handshakeId == c.seeds.handshakeId;
    ReadWrite(m, ServerAckKind);
    if m.ServerAck? {
      var o :| ActivationFor(ws[k], c.baseId, o) && m.handshakeId == o.handshakeId;
    }
  }

  /** No two configured clients have the same id. */
  lemma ConfiguredIdsDiffer(ws: seq<World>, actions: seq<Action>, k: nat, i: nat, j: nat)
    requires IsRun(ws, actions) && k < |ws| && i in ws[k].clients && j in ws[k].clients
    requires ws[k].clients[i].phase.Configured? && ws[k].clients[j].phase.Configured?
    requires ws[k].clients[i].baseId == ws[k].clients[j].baseId
    ensures i == j
  {
    RunInv(ws, actions, k);
    var c, d := ws[k].clients[i], ws[k].clients[j];
    var n :| KeyedWith(ws[k], c, n);
    var l :| KeyedWith(ws[k], d, l);
    assert ws[k].server.keys[c.baseId].tx.clientKey == c.seeds.ephemeral;
    assert ws[k].server.keys[d.baseId].tx.clientKey == d.seeds.ephemeral;
  }

  /** A client that took the ServerHelloCrypto meant for another one seals under keys the server does not have at that
      id, and the exception this raises ends the server's command loop, whatever it sealed and whatever else was sent. */
  lemma CrossTalkEndsServer(w: World, c: Client, n: nat, m: Message, e: Event)
    requires c.encrypted && KeyedWith(w, c, n) && !w.server.failed
    requires c.baseId in w.server.keys && GoodKeys(w) && w.server.keys[c.baseId].tx.clientKey != c.seeds.ephemeral
    requires Guard(c, Write(m), e.draw.nonce) == Success(e.payload)
    ensures Consume(w.server, e).server.failed
  {
    var id, k := c.baseId, w.server.keys[c.baseId];
    DecodeWrapped(w.server.keys, id, c.keys[id].tx, e.draw.nonce, m);
    assert k.rx.clientKey == k.tx.clientKey && c.keys[id].tx.clientKey == c.seeds.ephemeral;
  }
}

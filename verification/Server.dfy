/** The server's command loop on values: reading a message, carrying it out, and whole runs. */
module Server {
  import opened Common
  import opened Topics
  import opened Wire
  import opened Messages
  import opened Crypto
  import opened IpPool
  import opened Sessions

  /** What stays fixed while the server runs. The digest is get_sha256_string. */
  datatype Setup = Setup(channel: string, ownAddress: string, encrypted: bool, identity: nat, digest: string -> string)

  /** The server between two messages. Once failed, an exception has ended the command loop. */
  datatype Server = Server(
    setup: Setup,
    pool: Pool,
    handshakes: Table,
    active: Table,
    keys: KeyTable,
    subscriptions: set<string>,
    failed: bool)

  /** What one message draws from clock and random generator. */
  datatype Draw = Draw(clock: int, ephemeral: nat, nonce: Nonce)

  /** A message as the dispatch loop understands it. */
  datatype Command =
    | CryptoHello(baseId: string, clientKey: nat)
    | Hello(baseId: string, handshakeId: string, mode: int)
    | Ack(clientId: string, handshakeId: string)
    | Terminate(clientId: string)
    | Unhandled
    | Unreadable   // an exception while reading or decrypting

  /** The state after a message and what was published on the _TX topic. */
  datatype Step = Step(server: Server, published: seq<Payload>)

  // ---------- reading ----------

  function Decode(keys: KeyTable, payload: Payload): Command {
    match Header(payload)
    case None => Unreadable
    case Some(tag) =>
      if tag == SESSION_TERMINATION then
        match Read(payload, SessionTerminationKind)
        case None => Unreadable
        case Some(m) => Terminate(m.clientId)
      else if tag == ENCRYPTED_WRAPPER then
        match Read(payload, EncryptedWrapperKind)
        case None => Unreadable
        case Some(m) =>
          match Decrypt(keys, m.packet, m.clientId)
          case Failure(_) => Unreadable
          case Success(inner) =>
            match Header(inner)
            case None => Unreadable
            case Some(innerTag) => DecodeHandshake(inner, innerTag)
      else DecodeHandshake(payload, tag)
  }

  function DecodeHandshake(payload: Payload, tag: int): Command {
    if tag == CLIENT_HELLO_CRYPTO then
      match Read(payload, ClientHelloCryptoKind)
      case None => Unreadable
      case Some(m) => CryptoHello(m.clientBaseId, m.clientKey)
    else if tag == CLIENT_HELLO then
      match Read(payload, ClientHelloKind)
      case None => Unreadable
      case Some(m) => Hello(m.clientBaseId, m.handshakeId, m.mode)
    else if tag == CLIENT_ACK then
      match Read(payload, ClientAckKind)
      case None => Unreadable
      case Some(m) => Ack(m.clientId, m.handshakeId)
    else Unhandled
  }

  // ---------- carrying out ----------

  /** A handshake entry that waits for the client's ACK. */
  predicate IsPending(t: Table, id: string) { id in t && t[id].state.HandshakeClientAck? }

  /** With encryption on, a reply is sealed for its client and wrapped. */
  function Protect(setup: Setup, keys: KeyTable, id: string, text: Payload, nonce: Nonce): Result<Payload> {
    if !setup.encrypted then Success(text)
    else
      match Encrypt(keys, text, id, nonce)
      case Failure(e) => Failure(e)
      case Success(packet) => Success(Write(EncryptedWrapper(id, packet)))
  }

  /** operator[] of the handshake map followed by setting the state. */
  function Touch(t: Table, id: string): Table {
    t[id := (if id in t then t[id] else BLANK).(state := HandshakeClientHello)]
  }

  function OnCryptoHello(s: Server, baseId: string, clientKey: nat, d: Draw): Step {
    var id := UniqueIdentifier(baseId, d.clock);
    Step(s.(keys := Emplace(s.keys, id, ServerSessionKeys(FreshPair(d.ephemeral), clientKey)),
            handshakes := Touch(s.handshakes, id)),
         [Write(ServerHelloCrypto(id, d.ephemeral, Sign(s.setup.identity, d.ephemeral)))])
  }

  /** The record the server keeps for a ClientHello. */
  function Offer(setup: Setup, baseId: string, handshakeId: string, mode: int, address: string, clock: int): SessionConfig {
    SessionConfig(baseId, address, setup.ownAddress,
                  InboundTopic(setup.channel, baseId), OutboundTopic(setup.channel, baseId),
                  setup.digest(UniqueIdentifier(baseId, clock)), handshakeId, HandshakeClientAck, mode)
  }

  function ServerHelloOf(c: SessionConfig): Message {
    ServerHello(c.handshakeId, c.clientId, c.clientAddress, c.serverAddress, c.topicInbound, c.topicOutbound, c.sessionId)
  }

  function OnHello(s: Server, baseId: string, handshakeId: string, mode: int, d: Draw): Step
  {
    if baseId in s.handshakes && !s.handshakes[baseId].state.HandshakeClientHello? then Step(s, [])
    else
      var (pool, address) := Allocate(s.pool);
      var offer := Offer(s.setup, baseId, handshakeId, mode, address, d.clock);
      match Protect(s.setup, s.keys, baseId, Write(ServerHelloOf(offer)), d.nonce)
      case Failure(_) => Step(s.(pool := pool, failed := true), [])
      case Success(reply) => Step(s.(pool := pool, handshakes := s.handshakes[baseId := offer]), [reply])
  }

  function OnAck(s: Server, clientId: string, handshakeId: string, d: Draw): Step {
    if !IsPending(s.handshakes, clientId) then Step(s, [])
    else
      var c := s.handshakes[clientId];
      if handshakeId != c.handshakeId then Step(s.(failed := true), [])
      else
        match Protect(s.setup, s.keys, clientId, Write(ServerAck(c.handshakeId)), d.nonce)
        case Failure(_) => Step(s.(failed := true), [])
        case Success(reply) =>
          // the entry is erased and then read once more through operator[], which puts a blank one in its place
          Step(s.(active := s.active[c.clientId := c], handshakes := s.handshakes[clientId := BLANK],
                  subscriptions := s.subscriptions + {c.topicOutbound}),
               [reply])
  }

  function OnTerminate(s: Server, clientId: string): Step {
    if clientId !in s.active then Step(s, [])
    else
      var (pool, outcome) := Release(s.pool, s.active[clientId].clientAddress);
      Step(s.(pool := pool, active := s.active - {clientId}, failed := outcome.Thrown? || outcome.PastTheEnd?), [])
  }

  function Execute(s: Server, c: Command, d: Draw): (t: Step)
    ensures SameSetting(t.server, s)
  {
    match c
    case CryptoHello(baseId, key) => OnCryptoHello(s, baseId, key, d)
    case Hello(baseId, hid, mode) => OnHello(s, baseId, hid, mode, d)
    case Ack(id, hid) => OnAck(s, id, hid, d)
    case Terminate(id) => OnTerminate(s, id)
    case Unhandled => Step(s, [])
    case Unreadable => Step(s.(failed := true), [])
  }

  // ---------- runs ----------

  /** A message the server takes from its queue, together with what handling it draws. */
  datatype Event = Event(payload: Payload, draw: Draw)

  /** What the server understands of a message; a failed server reads nothing any more. */
  function CommandOf(s: Server, e: Event): Command {
    if s.failed then Unhandled else Decode(s.keys, e.payload)
  }

  function Consume(s: Server, e: Event): Step {
    Execute(s, CommandOf(s, e), e.draw)
  }

  /** Setup, pool base and pool size never change. */
  ghost predicate SameSetting(t: Server, s: Server) {
    t.setup == s.setup && t.pool.base == s.pool.base && |t.pool.usage| == |s.pool.usage|
  }

  /** The server at the start: pool from the network address, gateway address, nothing else. */
  function Initial(setup: Setup, netIp: string, poolSize: int): Server
    requires 1 <= poolSize <= MAX_SIZE
  {
    Server(setup.(ownAddress := BaseOf(netIp) + "1"), Pool(BaseOf(netIp), seq(poolSize, i => false)),
           map[], map[], map[], {}, false)
  }

  /** The server after a sequence of messages. Nothing is assumed of the messages: any order, loss,
      duplication or content the broker can produce is one of these sequences. */
  function After(s: Server, events: seq<Event>): (r: Server)
    ensures SameSetting(r, s)
    decreases |events|
  {
    if events == [] then s
    else Consume(After(s, events[..|events| - 1]), events[|events| - 1]).server
  }

  lemma {:induction false} AfterBothOneMore(s: Server, t: Server, joined: seq<Event>, before: seq<Event>, e: Event)
    requires After(s, joined) == After(t, before)
    ensures After(s, joined + [e]) == After(t, before + [e])
  {
    AfterOneMore(s, joined, e);
    AfterOneMore(t, before, e);
  }

  lemma {:induction false} AfterPrefix(s: Server, t: Server, first: seq<Event>, rest: seq<Event>, n: nat)
    requires t == After(s, first) && n <= |rest|
    ensures After(s, first + rest[..n]) == After(t, rest[..n])
  {
    if n == 0 {
      assert first + rest[..0] == first && After(t, rest[..0]) == t;
    } else {
      AfterPrefix(s, t, first, rest, n - 1);
      AfterBothOneMore(s, t, first + rest[..n - 1], rest[..n - 1], rest[n - 1]);
      Appended(first, rest, n);
    }
  }

  /** A run is the run of its first messages and then of the others; no message is left out. */
  lemma {:induction false} AfterParts(s: Server, first: seq<Event>, rest: seq<Event>)
    ensures After(s, first + rest) == After(After(s, first), rest)
  {
    AfterPrefix(s, After(s, first), first, rest, |rest|);
    assert rest[..|rest|] == rest;
  }

  lemma {:induction false} AfterNoneAndOne(s: Server, e: Event)
    ensures After(s, []) == s && After(s, [e]) == Consume(s, e).server
  {
    assert [] + [e] == [e];
    AfterOneMore(s, [], e);
  }

  lemma {:induction false} AfterOneMore(s: Server, events: seq<Event>, e: Event)
    ensures After(s, events + [e]) == Consume(After(s, events), e).server
  {
    assert (events + [e])[..|events|] == events;
  }
}

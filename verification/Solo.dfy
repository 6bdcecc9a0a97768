/** One client's handshake run alone with a server over lossless first-in first-out channels, under every
    schedule in which no polling loop of the client stays empty three times. */
module Solo {
  import opened Common
  import opened Wire
  import opened Messages
  import opened Crypto
  import opened IpPool
  import opened Sessions
  import opened Server
  import opened Ownership
  import opened Dispatch
  import opened Client

  /** Server, client and the two channels; taken counts the messages the server has consumed. */
  datatype Solo = Solo(server: Server, client: Client, up: seq<Payload>, down: seq<Payload>, taken: nat)

  datatype Party = TheServer | TheClient

  function Trials(p: Phase): nat {
    match p
    case AwaitCrypto(n) => n
    case AwaitHello(n) => n
    case AwaitAck(n) => n
    case _ => 0
  }

  predicate CanMove(x: Solo, p: Party) {
    match p
    case TheServer => x.up != []
    case TheClient =>
      x.client.phase.Idle? || (Waiting(x.client) && (x.down != [] || Trials(x.client.phase) + 1 < MAX_TRIALS))
  }

  function Advance(x: Solo, p: Party, draws: nat -> Draw): Solo
    requires CanMove(x, p)
  {
    match p
    case TheServer =>
      var t := Consume(x.server, Event(x.up[0], draws(x.taken)));
      x.(server := t.server, up := x.up[1..], down := x.down + t.published, taken := x.taken + 1)
    case TheClient =>
      if x.client.phase.Idle? then
        var m := Begin(x.client);
        x.(client := m.client, up := x.up + m.published)
      else
        var m := Poll(x.client, if x.down == [] then None else Some(x.down[0]));
        x.(client := m.client, up := x.up + m.published, down := if x.down == [] then [] else x.down[1..])
  }

  // ---------- the starting point ----------

  /** The server can accept a ClientHello for this id and has an address for it. */
  ghost predicate Ready(s: Server, id: string) {
    && Sound(s) && !s.failed && Allocate(s.pool).1 != ""
    && (id in s.handshakes ==> s.handshakes[id].state.HandshakeClientHello?)
  }

  /** Any sound running server with a free slot, any new client of the same mode. With encryption on, the id the
      server is going to generate is new and the client accepts the server's signature. */
  ghost predicate Start(x: Solo, draws: nat -> Draw) {
    && x.up == [] && x.down == [] && x.taken == 0
    && x.client == NewClient(x.client.baseId, x.client.encrypted, x.client.skipVerification, x.client.pinned,
                             x.client.mode, x.client.seeds)
    && x.client.encrypted == x.server.setup.encrypted
    && if x.client.encrypted then
         && Sound(x.server) && !x.server.failed && Allocate(x.server.pool).1 != ""
         && UniqueIdentifier(x.client.baseId, draws(0).clock) !in x.server.keys
         && (x.client.skipVerification || x.client.pinned == Some(x.server.setup.identity))
       else Ready(x.server, x.client.baseId)
  }

  // ---------- what holds in between ----------

  /** The text reaches the peer as itself in plain mode, else sealed under the sender's key for the id. */
  ghost predicate Sent(encrypted: bool, keys: KeyTable, id: string, m: Message, p: Payload) {
    if !encrypted then p == Write(m)
    else id in keys && exists nonce: Nonce :: p == Write(EncryptedWrapper(id, nonce + Seal(keys[id].tx, nonce, Write(m))))
  }

  /** Both ends hold mirrored keys under the client's id, or work in plain mode. */
  ghost predicate Linked(x: Solo) {
    var id := x.client.baseId;
    x.client.encrypted ==>
      id in x.client.keys && id in x.server.keys && Mirrors(x.client.keys[id], x.server.keys[id])
  }

  function HelloOf(c: Client): Message { ClientHello(c.baseId, false, "", c.seeds.handshakeId, c.mode) }

  /** The record is the server's offer to this client, with the address the pool had next. */
  ghost predicate OfferTo(s0: Server, c: Client, o: SessionConfig) {
    && IsOffer(s0.setup, o, c.baseId) && o.handshakeId == c.seeds.handshakeId && o.mode == c.mode
    && o.clientAddress == Allocate(s0.pool).1 != ""
  }

  ghost predicate Before(s0: Server, s: Server) { s.pool == s0.pool && s.active == s0.active }

  ghost predicate Offered(s0: Server, x: Solo) {
    && x.server.pool == Allocate(s0.pool).0 && x.server.active == s0.active
    && IsPending(x.server.handshakes, x.client.baseId) && OfferTo(s0, x.client, x.server.handshakes[x.client.baseId])
  }

  ghost predicate Activated(s0: Server, x: Solo) {
    && x.client.baseId in x.server.active && OfferTo(s0, x.client, x.server.active[x.client.baseId])
    && x.server.pool == Allocate(s0.pool).0
    && x.server.active == s0.active[x.client.baseId := x.server.active[x.client.baseId]]
    && x.client.baseId in x.server.handshakes && x.server.handshakes[x.client.baseId] == BLANK
  }

  ghost predicate CryptoStage(s0: Server, x: Solo, draws: nat -> Draw) {
    var c, id := x.client, UniqueIdentifier(x.client.baseId, draws(0).clock);
    && c.encrypted && c.ephemeral == FreshPair(c.seeds.ephemeral) && c.keys == map[] && c.config == BLANK
    && Before(s0, x.server)
    && (c.skipVerification || c.pinned == Some(x.server.setup.identity))
    && (|| (&& x.up == [Write(ClientHelloCrypto(c.baseId, c.seeds.ephemeral))] && x.down == [] && x.taken == 0
            && id !in x.server.keys && Allocate(x.server.pool).1 != "")
        || (&& x.up == [] && Ready(x.server, id) && id in x.server.keys
            && var n := draws(0).ephemeral;
               && x.down == [Write(ServerHelloCrypto(id, n, Sign(x.server.setup.identity, n)))]
               && x.server.keys[id] == ServerSessionKeys(FreshPair(n), c.seeds.ephemeral)))
  }

  ghost predicate HelloStage(s0: Server, x: Solo) {
    var c, s := x.client, x.server;
    && Linked(x) && c.config == BLANK
    && (|| (&& |x.up| == 1 && x.down == [] && Sent(c.encrypted, c.keys, c.baseId, HelloOf(c), x.up[0])
            && Before(s0, s) && Ready(s, c.baseId))
        || (&& x.up == [] && |x.down| == 1 && Offered(s0, x)
            && Sent(c.encrypted, s.keys, c.baseId, ServerHelloOf(s.handshakes[c.baseId]), x.down[0])))
  }

  ghost predicate AckStage(s0: Server, x: Solo) {
    var c, s := x.client, x.server;
    && Linked(x)
    && (|| (&& |x.up| == 1 && x.down == [] && Offered(s0, x)
            && c.config == Adopt(BLANK, ServerHelloOf(s.handshakes[c.baseId]))
            && Sent(c.encrypted, s.keys, c.baseId, ServerHelloOf(s.handshakes[c.baseId]), c.response)
            && Sent(c.encrypted, c.keys, c.baseId, ClientAck(c.baseId, c.seeds.handshakeId), x.up[0]))
        || (&& x.up == [] && |x.down| == 1 && Activated(s0, x)
            && c.config == Adopt(BLANK, ServerHelloOf(s.active[c.baseId]))
            && Sent(c.encrypted, s.keys, c.baseId, ServerAck(c.seeds.handshakeId), x.down[0])))
  }

  /** The goal: client configured, server session active, both configs equal, nothing left in the channels. */
  ghost predicate Done(s0: Server, x: Solo) {
    && x.client.phase.Configured? && !x.server.failed && x.up == [] && x.down == [] && Activated(s0, x)
    && x.client.config == Adopt(BLANK, ServerHelloOf(x.server.active[x.client.baseId]))
  }

  ghost predicate SoloInv(s0: Server, x: Solo, draws: nat -> Draw) {
    && Sound(x.server) && !x.server.failed && x.server.setup == s0.setup && x.client.encrypted == s0.setup.encrypted
    && Trials(x.client.phase) < MAX_TRIALS
    && match x.client.phase
       case Idle => Start(x, draws) && x.server == s0
       case AwaitCrypto(_) => CryptoStage(s0, x, draws)
       case AwaitHello(_) => HelloStage(s0, x)
       case AwaitAck(_) => AckStage(s0, x)
       case Configured => Done(s0, x)
       case _ => false
  }

  // ---------- messages arrive ----------

  /** What the client sends under its keys, the server reads as that message. */
  lemma ServerReads(keys: KeyTable, clientKeys: KeyTable, encrypted: bool, id: string, m: Message, p: Payload)
    requires Sent(encrypted, clientKeys, id, m, p) && !m.EncryptedWrapper? && !m.SessionTermination?
    requires encrypted ==> id in keys && id in clientKeys && Mirrors(clientKeys[id], keys[id])
    ensures Decode(keys, p) == HandshakeCommand(m)
  {
    if encrypted {
      var nonce: Nonce :| p == Write(EncryptedWrapper(id, nonce + Seal(clientKeys[id].tx, nonce, Write(m))));
      DecodeWrapped(keys, id, clientKeys[id].tx, nonce, m);
    } else {
      DecodeInClear(keys, m);
    }
  }

  /** What the server sends under its keys, the client unwraps to that message. */
  lemma ClientReads(x: Solo, m: Message, p: Payload)
    requires Sent(x.client.encrypted, x.server.keys, x.client.baseId, m, p) && Linked(x)
    ensures Unwrap(x.client, p) == Success(Write(m))
  {
    if x.client.encrypted {
      var id := x.client.baseId;
      var nonce: Nonce :| p == Write(EncryptedWrapper(id, nonce + Seal(x.server.keys[id].tx, nonce, Write(m))));
      ReadWrite(EncryptedWrapper(id, nonce + Seal(x.server.keys[id].tx, nonce, Write(m))), EncryptedWrapperKind);
      FramingRoundTrip(x.server.keys, x.client.keys, Write(m), id, id, nonce);
    }
  }

  lemma GuardSends(c: Client, m: Message, nonce: Nonce)
    requires c.encrypted ==> c.baseId in c.keys
    ensures Guard(c, Write(m), nonce).Success?
    ensures Sent(c.encrypted, c.keys, c.baseId, m, Guard(c, Write(m), nonce).value)
  {
  }

  lemma ProtectSends(setup: Setup, keys: KeyTable, id: string, m: Message, nonce: Nonce)
    requires setup.encrypted ==> id in keys
    ensures Protect(setup, keys, id, Write(m), nonce).Success?
    ensures Sent(setup.encrypted, keys, id, m, Protect(setup, keys, id, Write(m), nonce).value)
  {
  }

  // ---------- one move ----------

  lemma BeginMove(s0: Server, x: Solo, draws: nat -> Draw)
    requires SoloInv(s0, x, draws) && x.client.phase.Idle?
    ensures SoloInv(s0, Advance(x, TheClient, draws), draws)
  {
    if !x.client.encrypted {
      GuardSends(x.client, HelloOf(x.client), x.client.seeds.helloNonce);
    }
  }

  lemma ServerTakesCryptoHello(s0: Server, x: Solo, draws: nat -> Draw)
    requires SoloInv(s0, x, draws) && x.client.phase.AwaitCrypto? && x.up != []
    ensures SoloInv(s0, Advance(x, TheServer, draws), draws)
  {
    var c, d := x.client, draws(0);
    ReadWrite(ClientHelloCrypto(c.baseId, c.seeds.ephemeral), ClientHelloCryptoKind);
    OnCryptoHelloSound(x.server, c.baseId, c.seeds.ephemeral, d);
  }

  /** The server takes the only message that is under way. */
  lemma ServerAdvance(x: Solo, draws: nat -> Draw, c: Command) returns (t: Step)
    requires |x.up| == 1 && x.down == [] && CommandOf(x.server, Event(x.up[0], draws(x.taken))) == c
    ensures t == Execute(x.server, c, draws(x.taken))
    ensures Advance(x, TheServer, draws) == x.(server := t.server, up := [], down := t.published, taken := x.taken + 1)
  {
    t := Execute(x.server, c, draws(x.taken));
    assert [] + t.published == t.published;
  }

  lemma HelloAccepted(s: Server, id: string, handshakeId: string, mode: int, d: Draw)
    requires Ready(s, id) && (s.setup.encrypted ==> id in s.keys)
    ensures var o := Offer(s.setup, id, handshakeId, mode, Allocate(s.pool).1, d.clock);
            var t := OnHello(s, id, handshakeId, mode, d);
            && t.server == s.(pool := Allocate(s.pool).0, handshakes := s.handshakes[id := o])
            && |t.published| == 1 && Sent(s.setup.encrypted, s.keys, id, ServerHelloOf(o), t.published[0])
            && Sound(t.server)
  {
    ExecuteSound(s, Hello(id, handshakeId, mode), d);
    var o := Offer(s.setup, id, handshakeId, mode, Allocate(s.pool).1, d.clock);
    ProtectSends(s.setup, s.keys, id, ServerHelloOf(o), d.nonce);
  }

  lemma OfferStage(s0: Server, x: Solo, y: Solo, o: SessionConfig, draws: nat -> Draw)
    requires SoloInv(s0, x, draws) && x.client.phase.AwaitHello? && x.up != [] && OfferTo(s0, x.client, o)
    requires y.client == x.client && y.up == [] && |y.down| == 1 && Sound(y.server)
    requires y.server == x.server.(pool := Allocate(x.server.pool).0,
                                   handshakes := x.server.handshakes[x.client.baseId := o])
    requires Sent(x.client.encrypted, x.server.keys, x.client.baseId, ServerHelloOf(o), y.down[0])
    ensures SoloInv(s0, y, draws)
  {
  }

  /** The ClientHello is under way and the server can take it. */
  lemma BeforeHello(s0: Server, x: Solo, draws: nat -> Draw)
    requires SoloInv(s0, x, draws) && x.client.phase.AwaitHello? && x.up != []
    ensures var c, s := x.client, x.server;
            && |x.up| == 1 && x.down == [] && Sent(c.encrypted, c.keys, c.baseId, HelloOf(c), x.up[0]) && Linked(x)
            && Ready(s, c.baseId) && (s.setup.encrypted ==> c.baseId in s.keys)
            && forall clock ::
                 OfferTo(s0, c, Offer(s.setup, c.baseId, c.seeds.handshakeId, c.mode, Allocate(s.pool).1, clock))
  {
  }

  lemma ServerTakesHello(s0: Server, x: Solo, draws: nat -> Draw)
    requires SoloInv(s0, x, draws) && x.client.phase.AwaitHello? && x.up != []
    ensures SoloInv(s0, Advance(x, TheServer, draws), draws)
  {
    var c, s, d := x.client, x.server, draws(x.taken);
    BeforeHello(s0, x, draws);
    UnderstoodBy(x, HelloOf(c), d);
    var t := ServerAdvance(x, draws, Hello(c.baseId, c.seeds.handshakeId, c.mode));
    HelloAccepted(s, c.baseId, c.seeds.handshakeId, c.mode, d);
    var o := Offer(s.setup, c.baseId, c.seeds.handshakeId, c.mode, Allocate(s.pool).1, d.clock);
    var y := x.(server := t.server, up := [], down := t.published, taken := x.taken + 1);
    OfferStage(s0, x, y, o, draws);
  }

  lemma AckAccepted(s: Server, id: string, d: Draw)
    requires Sound(s) && !s.failed && IsPending(s.handshakes, id)
    ensures var o := s.handshakes[id];
            var t := OnAck(s, id, o.handshakeId, d);
            && t.server == s.(active := s.active[id := o], handshakes := s.handshakes[id := BLANK],
                              subscriptions := s.subscriptions + {o.topicOutbound})
            && |t.published| == 1 && Sent(s.setup.encrypted, s.keys, id, ServerAck(o.handshakeId), t.published[0])
            && Sound(t.server)
  {
    ExecuteSound(s, Ack(id, s.handshakes[id].handshakeId), d);
    ProtectSends(s.setup, s.keys, id, ServerAck(s.handshakes[id].handshakeId), d.nonce);
  }

  /** The server understands a linked client's message. */
  lemma UnderstoodBy(x: Solo, m: Message, d: Draw)
    requires Linked(x) && x.up != [] && Sent(x.client.encrypted, x.client.keys, x.client.baseId, m, x.up[0])
    requires !x.server.failed && (m.ClientHello? || m.ClientAck?)
    ensures CommandOf(x.server, Event(x.up[0], d)) == HandshakeCommand(m)
  {
    ServerReads(x.server.keys, x.client.keys, x.client.encrypted, x.client.baseId, m, x.up[0]);
  }

  lemma ServerTakesAck(s0: Server, x: Solo, draws: nat -> Draw)
    requires SoloInv(s0, x, draws) && x.client.phase.AwaitAck? && x.up != []
    ensures SoloInv(s0, Advance(x, TheServer, draws), draws)
  {
    var c, s, d := x.client, x.server, draws(x.taken);
    UnderstoodBy(x, ClientAck(c.baseId, c.seeds.handshakeId), d);
    var t := ServerAdvance(x, draws, Ack(c.baseId, c.seeds.handshakeId));
    AckAccepted(s, c.baseId, d);
  }

  lemma EmptyMove(s0: Server, x: Solo, draws: nat -> Draw)
    requires SoloInv(s0, x, draws) && Waiting(x.client) && x.down == [] && CanMove(x, TheClient)
    ensures SoloInv(s0, Advance(x, TheClient, draws), draws)
  {
    var x' := Advance(x, TheClient, draws);
    assert x' == x.(client := x.client.(phase := x'.client.phase)) && Trials(x'.client.phase) == Trials(x.client.phase) + 1;
  }

  lemma ClientTakesCrypto(s0: Server, x: Solo, draws: nat -> Draw)
    requires SoloInv(s0, x, draws) && x.client.phase.AwaitCrypto? && x.down != []
    ensures SoloInv(s0, Advance(x, TheClient, draws), draws)
  {
    var c, n := x.client, draws(0).ephemeral;
    var id := UniqueIdentifier(c.baseId, draws(0).clock);
    ReadWrite(ServerHelloCrypto(id, n, Sign(x.server.setup.identity, n)), ServerHelloCryptoKind);
    KeysMirror(c.seeds.ephemeral, n, n, c.seeds.ephemeral);
    var c' := c.(keys := map[id := ClientSessionKeys(c.ephemeral, n)], ephemeral := c.ephemeral.(secret := ZEROED),
                 baseId := id);
    assert Emplace(c.keys, id, ClientSessionKeys(c.ephemeral, n)) == c'.keys;
    GuardSends(c', HelloOf(c'), c.seeds.helloNonce);
  }

  /** What the client makes of the ServerHello that was sent for it. */
  lemma HelloAnswered(c: Client, p: Payload, m: Message) returns (ack: Payload)
    requires c.phase.AwaitHello? && m.ServerHello? && Unwrap(c, p) == Success(Write(m)) && m.clientId == c.baseId
    requires c.encrypted ==> c.baseId in c.keys
    ensures Sent(c.encrypted, c.keys, c.baseId, ClientAck(c.baseId, m.handshakeId), ack)
    ensures Poll(c, Some(p)) == Move(c.(response := p, config := Adopt(c.config, m), phase := AwaitAck(0)), [ack])
  {
    ReadWrite(m, ServerHelloKind);
    var c' := c.(response := p, config := Adopt(c.config, m));
    GuardSends(c', ClientAck(m.clientId, m.handshakeId), c.seeds.ackNonce);
    ack := Guard(c', Write(ClientAck(m.clientId, m.handshakeId)), c.seeds.ackNonce).value;
  }

  lemma ClientTakesHello(s0: Server, x: Solo, draws: nat -> Draw)
    requires SoloInv(s0, x, draws) && x.client.phase.AwaitHello? && x.down != []
    ensures SoloInv(s0, Advance(x, TheClient, draws), draws)
  {
    var m := ServerHelloOf(x.server.handshakes[x.client.baseId]);
    ClientReads(x, m, x.down[0]);
    var ack := HelloAnswered(x.client, x.down[0], m);
  }

  lemma ClientTakesAck(s0: Server, x: Solo, draws: nat -> Draw)
    requires SoloInv(s0, x, draws) && x.client.phase.AwaitAck? && x.down != []
    ensures SoloInv(s0, Advance(x, TheClient, draws), draws)
  {
    var m := ServerAck(x.client.seeds.handshakeId);
    ClientReads(x, m, x.down[0]);
    ReadWrite(m, ServerAckKind);
    assert Unwrap(x.client.(response := x.down[0]), x.down[0]) == Unwrap(x.client, x.down[0]);
  }

  lemma MoveInv(s0: Server, x: Solo, p: Party, draws: nat -> Draw)
    requires SoloInv(s0, x, draws) && CanMove(x, p)
    ensures SoloInv(s0, Advance(x, p, draws), draws)
    ensures Work(Advance(x, p, draws)) < Work(x)
  {
    if p.TheServer? {
      match x.client.phase
      case AwaitCrypto(_) => ServerTakesCryptoHello(s0, x, draws);
      case AwaitHello(_) => ServerTakesHello(s0, x, draws);
      case AwaitAck(_) => ServerTakesAck(s0, x, draws);
      case _ =>
    } else if x.client.phase.Idle? {
      BeginMove(s0, x, draws);
    } else if x.down == [] {
      EmptyMove(s0, x, draws);
    } else {
      match x.client.phase
      case AwaitCrypto(_) => ClientTakesCrypto(s0, x, draws);
      case AwaitHello(_) => ClientTakesHello(s0, x, draws);
      case AwaitAck(_) => ClientTakesAck(s0, x, draws);
      case _ =>
    }
    MoveWork(s0, x, p, draws);
  }

  /** An upper bound on the moves still possible. */
  function Work(x: Solo): int {
    (match x.client.phase
     case Idle => 40
     case AwaitCrypto(n) => 33 - n
     case AwaitHello(n) => 23 - n
     case AwaitAck(n) => 13 - n
     case _ => 0)
    + 4 * |x.up|
  }

  lemma MoveWork(s0: Server, x: Solo, p: Party, draws: nat -> Draw)
    requires SoloInv(s0, x, draws) && CanMove(x, p) && SoloInv(s0, Advance(x, p, draws), draws)
    ensures Work(Advance(x, p, draws)) < Work(x)
  {
    var x' := Advance(x, p, draws);
    ShortChannels(s0, x, draws);
    ShortChannels(s0, x', draws);
    if p.TheClient? {
      NextPhase(x.client, if x.down == [] then None else Some(x.down[0]));
    }
  }

  lemma ShortChannels(s0: Server, x: Solo, draws: nat -> Draw)
    requires SoloInv(s0, x, draws)
    ensures |x.up| <= 1 && (x.client.phase.Idle? ==> x.up == [])
    ensures !x.client.phase.GaveUp? && Trials(x.client.phase) < MAX_TRIALS
  {
  }

  lemma NextPhase(c: Client, answer: Option<Payload>)
    ensures var q := if c.phase.Idle? then Begin(c).client.phase else Poll(c, answer).client.phase;
            match c.phase
            case Idle => q in {AwaitCrypto(0), AwaitHello(0), Threw}
            case AwaitCrypto(n) => if answer.Some? then q in {AwaitHello(0), Threw} else q in {AwaitCrypto(n + 1), GaveUp}
            case AwaitHello(n) => if answer.Some? then q in {AwaitAck(0), Threw} else q in {AwaitHello(n + 1), GaveUp}
            case AwaitAck(n) => q in {Configured, Threw} || (answer.None? && q == AwaitAck(n + 1))
            case _ => q == c.phase
    ensures Waiting(c) && answer.None? && !c.phase.AwaitAck? ==> Poll(c, answer).published == []
  {
  }

  // ---------- whole runs ----------

  ghost predicate IsSoloRun(xs: seq<Solo>, moves: seq<Party>, draws: nat -> Draw) {
    && |xs| == |moves| + 1 && Start(xs[0], draws)
    && forall k :: 0 <= k < |moves| ==>
         CanMove(xs[k], moves[k]) && xs[k + 1] == Advance(xs[k], moves[k], draws)
  }

  lemma {:induction false} SoloRunInv(xs: seq<Solo>, moves: seq<Party>, draws: nat -> Draw, k: nat)
    requires IsSoloRun(xs, moves, draws) && k < |xs|
    ensures SoloInv(xs[0].server, xs[k], draws) && Work(xs[k]) + k <= 40
  {
    if k > 0 {
      SoloRunInv(xs, moves, draws, k - 1);
      MoveInv(xs[0].server, xs[k - 1], moves[k - 1], draws);
    }
  }

  /** Completion, in encrypted and in plain mode: under every schedule the exchange is over after at most 40 moves,
      and it stops only with the client configured, the server session active and both configs equal. */
  lemma HandshakeCompletes(xs: seq<Solo>, moves: seq<Party>, draws: nat -> Draw)
    requires IsSoloRun(xs, moves, draws)
    ensures |moves| <= 40
    ensures var x := xs[|moves|];
            (forall p :: !CanMove(x, p)) ==> Done(xs[0].server, x)
    ensures var x := xs[|moves|];
            x.client.phase.Configured? ==> Done(xs[0].server, x) && forall p :: !CanMove(x, p)
  {
    SoloRunInv(xs, moves, draws, |moves|);
    var x := xs[|moves|];
    assert !CanMove(x, TheServer) ==> x.up == [];
    assert !CanMove(x, TheClient) ==> !x.client.phase.Idle?;
    if Waiting(x.client) && x.up == [] {
      assert x.down != [];
      assert CanMove(x, TheClient);
    }
  }

  lemma FarewellRead(c: Client, s: Server, d: Draw)
    requires !s.failed
    ensures CommandOf(s, Event(Farewell(c), d)) == Terminate(c.config.clientId)
  {
    ReadWrite(SessionTermination(c.config.clientId, c.config.sessionId, "Client request"), SessionTerminationKind);
  }

  lemma TerminationUndoes(s0: Server, s: Server, id: string, o: SessionConfig)
    requires Sound(s0) && s0.pool.base != "" && !s.failed && id !in s0.active
    requires s.active == s0.active[id := o] && s.pool == Allocate(s0.pool).0 && o.clientAddress == Allocate(s0.pool).1 != ""
    ensures OnTerminate(s, id) == Step(s.(pool := s0.pool, active := s0.active), [])
  {
    ReleaseUndoesAllocate(s0.pool);
    assert Release(s.pool, o.clientAddress) == (s0.pool, Released);
    assert s0.active[id := o] - {id} == s0.active;
  }

  /** A handshake and the client's farewell leave pool and sessions as they were. */
  lemma HandshakeThenFarewell(s0: Server, x: Solo, d: Draw)
    requires Sound(s0) && s0.pool.base != "" && Done(s0, x) && x.client.baseId !in s0.active
    ensures var t := Consume(x.server, Event(Farewell(x.client), d));
            && !t.server.failed && t.published == []
            && t.server.pool == s0.pool && t.server.active == s0.active
  {
    FarewellRead(x.client, x.server, d);
    TerminationUndoes(s0, x.server, x.client.baseId, x.server.active[x.client.baseId]);
  }

  // ---------- runs in which every reply is taken at once ----------

  predicate SameIdentity(c: Client, d: Client) {
    c.keys == d.keys && c.baseId == d.baseId && c.seeds == d.seeds && c.mode == d.mode && c.encrypted == d.encrypted
  }

  lemma PollKeepsIdentity(c: Client, answer: Option<Payload>)
    requires !c.phase.AwaitCrypto?
    ensures SameIdentity(Poll(c, answer).client, c)
  {
  }

  lemma TakesOwnId(s0: Server, x: Solo, draws: nat -> Draw)
    requires SoloInv(s0, x, draws) && x.client.phase.AwaitCrypto? && x.down != []
    ensures Poll(x.client, Some(x.down[0])).client.baseId == UniqueIdentifier(x.client.baseId, draws(0).clock)
  {
    var n := draws(0).ephemeral;
    var id := UniqueIdentifier(x.client.baseId, draws(0).clock);
    ReadWrite(ServerHelloCrypto(id, n, Sign(x.server.setup.identity, n)), ServerHelloCryptoKind);
  }

  /** The server answers and the client takes the answer. */
  lemma ThereAndBack(s0: Server, x: Solo, draws: nat -> Draw) returns (z: Solo, y: Solo)
    requires SoloInv(s0, x, draws) && x.up != []
    requires x.client.phase in {AwaitCrypto(0), AwaitHello(0), AwaitAck(0)}
    ensures CanMove(x, TheServer) && z == Advance(x, TheServer, draws)
    ensures CanMove(z, TheClient) && y == Advance(z, TheClient, draws)
    ensures y.client.phase == if x.client.phase.AwaitCrypto? then AwaitHello(0)
                              else if x.client.phase.AwaitHello? then AwaitAck(0) else Configured
    ensures !y.client.phase.Configured? ==> y.up != []
    ensures if x.client.phase.AwaitCrypto? then y.client.baseId == UniqueIdentifier(x.client.baseId, draws(0).clock)
            else SameIdentity(y.client, x.client)
  {
    MoveInv(s0, x, TheServer, draws);
    z := Advance(x, TheServer, draws);
    ShortChannels(s0, x, draws);
    assert z.up == [] && z.client == x.client;
    MoveInv(s0, z, TheClient, draws);
    NextPhase(z.client, Some(z.down[0]));
    if x.client.phase.AwaitCrypto? {
      TakesOwnId(s0, z, draws);
    } else {
      PollKeepsIdentity(z.client, Some(z.down[0]));
    }
    y := Advance(z, TheClient, draws);
  }

  ghost predicate IsMove(x: Solo, p: Party, draws: nat -> Draw, y: Solo) { CanMove(x, p) && y == Advance(x, p, draws) }

  lemma MoveAt(xs: seq<Solo>, moves: seq<Party>, draws: nat -> Draw, k: nat)
    requires IsSoloRun(xs, moves, draws) && k < |moves|
    ensures IsMove(xs[k], moves[k], draws, xs[k + 1])
  {
  }

  lemma AppendMove(xs: seq<Solo>, moves: seq<Party>, draws: nat -> Draw, p: Party, y: Solo)
    requires IsSoloRun(xs, moves, draws) && IsMove(xs[|moves|], p, draws, y)
    ensures IsSoloRun(xs + [y], moves + [p], draws)
  {
    var ys, more := xs + [y], moves + [p];
    forall k | 0 <= k < |more| ensures CanMove(ys[k], more[k]) && ys[k + 1] == Advance(ys[k], more[k], draws) {
      if k < |moves| {
        assert ys[k] == xs[k] && ys[k + 1] == xs[k + 1] && more[k] == moves[k];
      }
    }
  }

  lemma AppendTwo(xs: seq<Solo>, moves: seq<Party>, draws: nat -> Draw, z: Solo, y: Solo)
    returns (ys: seq<Solo>, more: seq<Party>)
    requires IsSoloRun(xs, moves, draws) && IsMove(xs[|moves|], TheServer, draws, z) && IsMove(z, TheClient, draws, y)
    ensures IsSoloRun(ys, more, draws) && ys == xs + [z] + [y] && more == moves + [TheServer] + [TheClient]
  {
    AppendMove(xs, moves, draws, TheServer, z);
    AppendMove(xs + [z], moves + [TheServer], draws, TheClient, y);
    ys, more := xs + [z] + [y], moves + [TheServer] + [TheClient];
  }

  lemma RoundTrip(xs: seq<Solo>, moves: seq<Party>, draws: nat -> Draw) returns (ys: seq<Solo>, more: seq<Party>)
    requires IsSoloRun(xs, moves, draws) && xs[|moves|].up != []
    requires xs[|moves|].client.phase in {AwaitCrypto(0), AwaitHello(0), AwaitAck(0)}
    ensures IsSoloRun(ys, more, draws) && |more| == |moves| + 2 && ys[..|xs|] == xs
    ensures var x, y := xs[|moves|], ys[|more|];
            && y.client.phase == (if x.client.phase.AwaitCrypto? then AwaitHello(0)
                                  else if x.client.phase.AwaitHello? then AwaitAck(0) else Configured)
            && (!y.client.phase.Configured? ==> y.up != [])
            && if x.client.phase.AwaitCrypto? then y.client.baseId == UniqueIdentifier(x.client.baseId, draws(0).clock)
               else SameIdentity(y.client, x.client)
  {
    SoloRunInv(xs, moves, draws, |moves|);
    var z, y := ThereAndBack(xs[0].server, xs[|moves|], draws);
    ys, more := AppendTwo(xs, moves, draws, z, y);
  }

  /** From every starting point there is a run to the third wait with the ClientACK still under way. */
  lemma ReachesAckWait(x: Solo, draws: nat -> Draw) returns (xs: seq<Solo>, moves: seq<Party>)
    requires Start(x, draws)
    ensures IsSoloRun(xs, moves, draws) && xs[0] == x
    ensures var y := xs[|moves|]; y.client.phase == AwaitAck(0) && y.up != []
    ensures x.client.encrypted ==> xs[|moves|].client.baseId == UniqueIdentifier(x.client.baseId, draws(0).clock)
  {
    MoveInv(x.server, x, TheClient, draws);
    xs, moves := [x, Advance(x, TheClient, draws)], [TheClient];
    if xs[1].client.phase.AwaitCrypto? {
      xs, moves := RoundTrip(xs, moves, draws);
    }
    xs, moves := RoundTrip(xs, moves, draws);
  }

  // ---------- configured without a session ----------

  /** When the ServerACK does not come within three polls, the client reads the ServerHello once more, takes it for
      the ServerACK and is configured, while the server still waits for the ClientACK. */
  lemma ConfiguredWithoutSession(s0: Server, x: Solo, draws: nat -> Draw)
    requires SoloInv(s0, x, draws) && x.client.phase == AwaitAck(0) && x.up != []
    ensures var c := Poll(Poll(Poll(x.client, None).client, None).client, None).client;
            && c == x.client.(phase := Configured)
            && x.server.active == s0.active && IsPending(x.server.handshakes, c.baseId)
            && OfferTo(s0, c, x.server.handshakes[c.baseId])
            && c.config == Adopt(BLANK, ServerHelloOf(x.server.handshakes[c.baseId]))
  {
    var c := x.client.(phase := AwaitAck(2));
    var m := ServerHelloOf(x.server.handshakes[c.baseId]);
    ClientReads(x, m, c.response);
    ReadWrite(m, ServerAckKind);
    assert Poll(Poll(x.client, None).client, None).client == c;
    assert Unwrap(c, c.response) == Unwrap(x.client, c.response);
  }

  /** Exactly how the third wait ends over lossless channels: an arriving payload configures the client, and then
      the server's session is active; the third empty poll configures it too, with no new session at the server. */
  lemma ThirdWait(s0: Server, x: Solo, draws: nat -> Draw)
    requires SoloInv(s0, x, draws) && x.client.phase.AwaitAck?
    ensures var c := Poll(x.client, if x.down == [] then None else Some(x.down[0])).client;
            && (c.phase.Configured? <==> x.down != [] || Trials(x.client.phase) + 1 == MAX_TRIALS)
            && if x.down != [] then Activated(s0, x)
               else IsPending(x.server.handshakes, c.baseId) && x.server.active == s0.active
  {
    if x.down != [] {
      ClientTakesAck(s0, x, draws);
    } else if Trials(x.client.phase) + 1 == MAX_TRIALS {
      var m := ServerHelloOf(x.server.handshakes[x.client.baseId]);
      ClientReads(x, m, x.client.response);
      ReadWrite(m, ServerAckKind);
    }
  }
}

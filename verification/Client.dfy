/** The client's handshake on values: what it does with each answer of the broker to a poll. */
module Client {
  import opened Common
  import opened Wire
  import opened Messages
  import opened Crypto
  import opened Sessions

  /** What one handshake draws from the random generator. */
  datatype Seeds = Seeds(ephemeral: nat, handshakeId: string, helloNonce: Nonce, ackNonce: Nonce)

  /** Where setup_session stands: in which polling loop, after how many empty polls, or how it ended. */
  datatype Phase =
    | Idle
    | AwaitCrypto(trials: nat)
    | AwaitHello(trials: nat)
    | AwaitAck(trials: nat)
    | Configured
    | GaveUp   // exit after three empty polls
    | Threw    // an exception left setup_session
    | Stopped  // stop_tunnel was called after the session was set up

  datatype Client = Client(
    seeds: Seeds,
    encrypted: bool,
    skipVerification: bool,
    pinned: Option<nat>,
    mode: int,
    baseId: string,
    ephemeral: KeyPair,
    keys: KeyTable,
    config: SessionConfig,
    response: Payload,   // the variable the second and third loop share
    phase: Phase)

  datatype Move = Move(client: Client, published: seq<Payload>)

  const MAX_TRIALS := 3

  function NewClient(baseId: string, encrypted: bool, skipVerification: bool, pinned: Option<nat>, mode: int,
                     seeds: Seeds): Client
  {
    Client(seeds, encrypted, skipVerification, pinned, mode, baseId, KeyPair(ZEROED, ZEROED), map[], BLANK, [], Idle)
  }

  function Fail(c: Client): Move { Move(c.(phase := Threw), []) }

  /** Seals and wraps a message when encryption is on; the id is the client's own. */
  function Guard(c: Client, text: Payload, nonce: Nonce): Result<Payload> {
    if !c.encrypted then Success(text)
    else
      match Encrypt(c.keys, text, c.baseId, nonce)
      case Failure(e) => Failure(e)
      case Success(packet) => Success(Write(EncryptedWrapper(c.baseId, packet)))
  }

  /** Reads a payload of the _TX topic; with encryption on it has to be a wrapper for the client's own keys. */
  function Unwrap(c: Client, payload: Payload): Result<Payload> {
    if !c.encrypted then Success(payload)
    else
      match Read(payload, EncryptedWrapperKind)
      case None => Failure(NotReadable)
      case Some(m) => Decrypt(c.keys, m.packet, c.baseId)
  }

  function Begin(c: Client): Move {
    if c.encrypted then
      Move(c.(ephemeral := FreshPair(c.seeds.ephemeral), phase := AwaitCrypto(0)),
           [Write(ClientHelloCrypto(c.baseId, c.seeds.ephemeral))])
    else SendHello(c)
  }

  function SendHello(c: Client): Move {
    match Guard(c, Write(ClientHello(c.baseId, false, "", c.seeds.handshakeId, c.mode)), c.seeds.helloNonce)
    case Failure(_) => Fail(c)
    case Success(hello) => Move(c.(phase := AwaitHello(0)), [hello])
  }

  function OnCryptoAnswer(c: Client, payload: Payload): Move {
    match Read(payload, ServerHelloCryptoKind)
    case None => Fail(c)
    case Some(m) =>
      if !Accepts(c.skipVerification, c.pinned, m.serverKey, m.signature) then Fail(c)
      else SendHello(c.(keys := Emplace(c.keys, m.uniqueId, ClientSessionKeys(c.ephemeral, m.serverKey)),
                        ephemeral := c.ephemeral.(secret := ZEROED),
                        baseId := m.uniqueId))
  }

  /** What the client keeps of a ServerHello; the remaining fields of the record stay as they were. */
  function Adopt(config: SessionConfig, m: Message): SessionConfig
    requires m.ServerHello?
  {
    config.(clientId := m.clientId, clientAddress := m.clientIp, serverAddress := m.serverAddress,
            topicInbound := m.inbound, topicOutbound := m.outbound, sessionId := m.sessionId)
  }

  function OnHelloAnswer(c: Client, payload: Payload): Move {
    match Unwrap(c, payload)
    case Failure(_) => Fail(c.(response := payload))
    case Success(text) =>
      match Read(text, ServerHelloKind)
      case None => Fail(c.(response := payload))
      case Some(m) =>
        var c' := c.(response := payload, config := Adopt(c.config, m));
        match Guard(c', Write(ClientAck(m.clientId, m.handshakeId)), c.seeds.ackNonce)
        case Failure(_) => Fail(c')
        case Success(ack) => Move(c'.(phase := AwaitAck(0)), [ack])
  }

  /** Reads whatever response holds as a ServerACK. */
  function Conclude(c: Client): Move {
    match Unwrap(c, c.response)
    case Failure(_) => Fail(c)
    case Success(text) =>
      match Read(text, ServerAckKind)
      case None => Fail(c)
      case Some(m) =>
        if m.handshakeId != c.seeds.handshakeId then Fail(c) else Move(c.(phase := Configured), [])
  }

  /** One poll of the command queue and what follows from it. */
  function Poll(c: Client, answer: Option<Payload>): Move {
    match c.phase
    case AwaitCrypto(n) =>
      if answer.Some? then OnCryptoAnswer(c, answer.value)
      else Move(c.(phase := if n + 1 < MAX_TRIALS then AwaitCrypto(n + 1) else GaveUp), [])
    case AwaitHello(n) =>
      if answer.Some? then OnHelloAnswer(c, answer.value)
      else Move(c.(phase := if n + 1 < MAX_TRIALS then AwaitHello(n + 1) else GaveUp), [])
    case AwaitAck(n) =>
      if answer.Some? then Conclude(c.(response := answer.value))
      else if n + 1 < MAX_TRIALS then Move(c.(phase := AwaitAck(n + 1)), [])
      else Conclude(c)   // response still holds the ServerHello
    case _ => Move(c, [])
  }

  predicate Waiting(c: Client) { c.phase.AwaitCrypto? || c.phase.AwaitHello? || c.phase.AwaitAck? }

  // ---------- what the polls decide ----------

  /** Whether a client goes on with a server: it skips verification, or the pinned identity signed the server's key.
      Otherwise it throws and stores no key. */
  lemma ServerTrusted(c: Client, p: Payload, m: Message)
    requires c.phase.AwaitCrypto? && Read(p, ServerHelloCryptoKind) == Some(m)
    ensures var next := Poll(c, Some(p));
            if c.skipVerification || (c.pinned.Some? && m.signature == Signature(c.pinned.value, m.serverKey)) then
              && next.client.phase == AwaitHello(0) && next.client.baseId == m.uniqueId && m.uniqueId in next.client.keys
              && next.client.ephemeral.secret == ZEROED
            else
              next == Move(c.(phase := Threw), [])
  {
  }

  /** In the first two waits the third empty poll ends the client; until then an answer counts whenever it comes. */
  lemma GivesUpAfterThree(c: Client, answer: Payload)
    requires c.phase in {AwaitCrypto(0), AwaitHello(0)}
    ensures var c1 := Poll(c, None).client;
            var c2 := Poll(c1, None).client;
            && Waiting(c1) && Waiting(c2) && Poll(c2, None) == Move(c.(phase := GaveUp), [])
            && Poll(c1, Some(answer)) == Poll(c2, Some(answer)) == Poll(c, Some(answer))
  {
  }

  /** One more poll after a move. */
  function PollAfter(m: Move, answer: Option<Payload>): Move {
    var next := Poll(m.client, answer);
    Move(next.client, m.published + next.published)
  }

  function Answering(answers: nat -> Option<Payload>): (Move, nat) -> Move {
    (m: Move, i: nat) => PollAfter(m, answers(i))
  }

  /** The client and what it has published after the polls numbered from..upTo-1. */
  function Polls(m: Move, answers: nat -> Option<Payload>, from: nat, upTo: nat): Move {
    Iterate(Answering(answers), m, from, upTo)
  }

  lemma PollsCompose(m: Move, answers: nat -> Option<Payload>, i: nat, j: nat, k: nat)
    requires i <= j <= k
    ensures Polls(Polls(m, answers, i, j), answers, j, k) == Polls(m, answers, i, k)
  {
    IterateCompose(Answering(answers), m, i, j, k);
  }

  /** The message stop_tunnel sends. */
  function Farewell(c: Client): Payload {
    Write(SessionTermination(c.config.clientId, c.config.sessionId, "Client request"))
  }

  function Stop(c: Client): Move { Move(c.(phase := Stopped), [Farewell(c)]) }

  /** The topics of the data client: connect_data_channel runs once the session is set up. */
  function SubscriptionsOf(c: Client): set<string> {
    if c.phase.Configured? then {c.config.topicInbound} else {}
  }

  // ---------- the class ----------

  class TunnelClient {
    const seeds: Seeds
    const encryptionEnabled: bool
    const mode: int
    const cryptoManager: CryptoManager
    var clientBaseId: string
    var sessionConfig: SessionConfig
    var sessionConfigured: bool

    constructor (baseId: string, encrypted: bool, skipVerification: bool, pinned: Option<nat>, mode: int, seeds: Seeds)
      ensures fresh(cryptoManager) && !sessionConfigured
      ensures View([], Idle) == NewClient(baseId, encrypted, skipVerification, pinned, mode, seeds)
    {
      this.seeds, encryptionEnabled, this.mode := seeds, encrypted, mode;
      cryptoManager := new CryptoManager(0, pinned, skipVerification);
      clientBaseId, sessionConfig, sessionConfigured := baseId, BLANK, false;
    }

    /** The object as a value, given the local variable response and the place setup_session has reached. */
    ghost function View(response: Payload, phase: Phase): Client
      reads this, cryptoManager
    {
      Client(seeds, encryptionEnabled, cryptoManager.skipVerification, cryptoManager.pinned, mode, clientBaseId,
             cryptoManager.clientEphemeral, cryptoManager.sessionMap, sessionConfig, response, phase)
    }

    method GuardMessage(text: Payload, nonce: Nonce) returns (r: Result<Payload>)
      ensures r == Guard(View([], Idle), text, nonce)
    {
      if !encryptionEnabled {
        return Success(text);
      }
      var packet := cryptoManager.EncryptData(text, clientBaseId, nonce);
      match packet
      case Failure(e) => r := Failure(e);
      case Success(p) => r := Success(Write(EncryptedWrapper(clientBaseId, p)));
    }

    method UnwrapMessage(payload: Payload) returns (r: Result<Payload>)
      ensures r == Unwrap(View([], Idle), payload)
    {
      if !encryptionEnabled {
        return Success(payload);
      }
      var wrapper := Read(payload, EncryptedWrapperKind);
      if wrapper.None? {
        return Failure(NotReadable);
      }
      r := cryptoManager.DecryptData(wrapper.value.packet, clientBaseId);
    }

    /** One of the three polling loops: up to three attempts, numbered from where the previous loop ended. */
    method Wait(answers: nat -> Option<Payload>, start: nat) returns (response: Option<Payload>, next: nat)
      ensures start <= next <= start + 3
      ensures next > start && answers(next - 1) == response && (response.None? ==> next == start + 3)
      ensures forall i :: start <= i < next - 1 ==> answers(i).None?
    {
      var trials := 0;
      next := start;
      response := None;
      while trials < 3
        invariant 0 <= trials <= 3 && next == start + trials && response.None?
        invariant forall i :: start <= i < next ==> answers(i).None?
      {
        response := answers(next);
        next := next + 1;
        if response.Some? {
          return;
        }
        trials := trials + 1;
      }
    }

    /** Key exchange when encryption is on, then the ClientHello. */
    method SendClientHello(answers: nat -> Option<Payload>) returns (published: seq<Payload>, phase: Phase, at: nat)
      modifies this, cryptoManager
      ensures phase in {AwaitHello(0), GaveUp, Threw} && sessionConfigured == old(sessionConfigured)
      ensures Move(View([], phase), published) == Polls(Begin(old(View([], Idle))), answers, 0, at)
    {
      ghost var start := Begin(View([], Idle));
      published, at := [], 0;
      if encryptionEnabled {
        var cryptoHello := cryptoManager.GenerateClientHello(clientBaseId, seeds.ephemeral);
        published := [Write(cryptoHello)];
        var response;
        response, at := Wait(answers, 0);
        WaitPolls(start, answers, 0, response, at);
        if response.None? {
          phase := GaveUp;
          return;
        }
        var serverHello := Read(response.value, ServerHelloCryptoKind);
        if serverHello.None? {
          phase := Threw;
          return;
        }
        var ok := cryptoManager.EstablishClientSession(serverHello.value.uniqueId, serverHello.value.serverKey,
                                                       serverHello.value.signature);
        if !ok {
          phase := Threw;
          return;
        }
        clientBaseId := serverHello.value.uniqueId;
      }
      var hello := GuardMessage(Write(ClientHello(clientBaseId, false, "", seeds.handshakeId, mode)), seeds.helloNonce);
      if hello.Failure? {
        phase := Threw;
        return;
      }
      published := published + [hello.value];
      phase := AwaitHello(0);
    }

    /** The wait for the ServerHello, and the ClientACK. */
    method AnswerServerHello(answers: nat -> Option<Payload>, start: nat, sent: seq<Payload>)
      returns (response: Payload, published: seq<Payload>, phase: Phase, at: nat)
      modifies this
      ensures phase in {AwaitAck(0), GaveUp, Threw} && at >= start && sessionConfigured == old(sessionConfigured)
      ensures Move(View(response, phase), published)
              == Polls(Move(old(View([], AwaitHello(0))), sent), answers, start, at)
    {
      response, published := [], sent;
      ghost var begin := Move(View([], AwaitHello(0)), sent);
      var answer;
      answer, at := Wait(answers, start);
      WaitPolls(begin, answers, start, answer, at);
      if answer.None? {
        phase := GaveUp;
        return;
      }
      response := answer.value;
      var text := UnwrapMessage(response);
      if text.Failure? {
        phase := Threw;
        return;
      }
      var serverHello := Read(text.value, ServerHelloKind);
      if serverHello.None? {
        phase := Threw;
        return;
      }
      sessionConfig := Adopt(sessionConfig, serverHello.value);
      var ack := GuardMessage(Write(ClientAck(sessionConfig.clientId, serverHello.value.handshakeId)), seeds.ackNonce);
      if ack.Failure? {
        phase := Threw;
        return;
      }
      published := published + [ack.value];
      phase := AwaitAck(0);
    }

    /** The wait for the ServerACK; after three empty polls the old response is read again. */
    method AwaitServerAck(answers: nat -> Option<Payload>, start: nat, received: Payload, ghost sent: seq<Payload>)
      returns (response: Payload, phase: Phase, at: nat)
      requires !sessionConfigured
      modifies this
      ensures phase in {Configured, Threw} && at >= start && sessionConfigured == phase.Configured?
      ensures Move(View(response, phase), sent)
              == Polls(Move(old(View(received, AwaitAck(0))), sent), answers, start, at)
    {
      ghost var begin := Move(View(received, AwaitAck(0)), sent);
      response, phase := received, Threw;
      var answer;
      answer, at := Wait(answers, start);
      WaitPolls(begin, answers, start, answer, at);
      if answer.Some? {
        response := answer.value;
      }
      var text := UnwrapMessage(response);
      if text.Failure? {
        return;
      }
      var serverAck := Read(text.value, ServerAckKind);
      if serverAck.None? || serverAck.value.handshakeId != seeds.handshakeId {
        return;
      }
      sessionConfigured := true;
      phase := Configured;
    }

    /** setup_session against the broker's answers to its polls. Whatever they are, the object ends as the
        polling machine does, and sessionConfigured tells whether the handshake went through. */
    method SetupSession(answers: nat -> Option<Payload>)
      returns (published: seq<Payload>, response: Payload, phase: Phase, used: nat)
      requires !sessionConfigured
      modifies this, cryptoManager
      ensures phase in {Configured, GaveUp, Threw} && sessionConfigured == phase.Configured?
      ensures Move(View(response, phase), published) == Polls(Begin(old(View([], Idle))), answers, 0, used)
    {
      ghost var start := Begin(View([], Idle));
      var helloAt, ackAt;
      published, phase, helloAt := SendClientHello(answers);
      response, used := [], helloAt;
      if phase != AwaitHello(0) {
        return;
      }
      response, published, phase, ackAt := AnswerServerHello(answers, helloAt, published);
      PollsCompose(start, answers, 0, helloAt, ackAt);
      used := ackAt;
      if phase != AwaitAck(0) {
        return;
      }
      response, phase, used := AwaitServerAck(answers, ackAt, response, published);
      PollsCompose(start, answers, 0, ackAt, used);
    }
  }

  /** The phase after some empty polls in one loop. */
  function AfterEmpty(p: Phase, n: nat): Phase {
    match p
    case AwaitCrypto(_) => if n < MAX_TRIALS then AwaitCrypto(n) else GaveUp
    case AwaitHello(_) => if n < MAX_TRIALS then AwaitHello(n) else GaveUp
    case AwaitAck(_) => AwaitAck(n)
    case _ => p
  }

  lemma {:induction false} EmptyPolls(m: Move, answers: nat -> Option<Payload>, from: nat, n: nat, k: nat)
    requires m.client.phase in {AwaitCrypto(0), AwaitHello(0), AwaitAck(0)}
    requires k + n <= MAX_TRIALS && (m.client.phase.AwaitAck? ==> k + n < MAX_TRIALS)
    requires forall i :: from <= i < from + n ==> answers(i).None?
    ensures Polls(Waited(m, k), answers, from, from + n) == Waited(m, k + n)
    decreases n
  {
    if n > 0 {
      EmptyPoll(m.client, k);
      assert PollAfter(Waited(m, k), None) == Waited(m, k + 1);
      EmptyPolls(m, answers, from + 1, n - 1, k + 1);
    }
  }

  /** The same move with some empty polls behind it. */
  function Waited(m: Move, n: nat): Move { m.(client := m.client.(phase := AfterEmpty(m.client.phase, n))) }

  /** What one polling loop amounts to: empty polls and then the answer, or three empty polls. */
  lemma WaitPolls(m: Move, answers: nat -> Option<Payload>, from: nat, response: Option<Payload>, at: nat)
    requires m.client.phase in {AwaitCrypto(0), AwaitHello(0), AwaitAck(0)}
    requires from < at <= from + MAX_TRIALS && answers(at - 1) == response
    requires (response.None? ==> at == from + MAX_TRIALS) && forall i :: from <= i < at - 1 ==> answers(i).None?
    ensures Polls(m, answers, from, at) == PollAfter(Waited(m, at - 1 - from), response)
  {
    EmptyPolls(m, answers, from, at - 1 - from, 0);
    assert Waited(m, 0) == m;
    PollsCompose(m, answers, from, at - 1, at);
    OnePoll(Waited(m, at - 1 - from), answers, at - 1);
  }

  lemma OnePoll(m: Move, answers: nat -> Option<Payload>, i: nat)
    ensures Polls(m, answers, i, i + 1) == PollAfter(m, answers(i))
  {
    var f := Answering(answers);
    assert Iterate(f, f(m, i), i + 1, i + 1) == f(m, i);
  }

  lemma EmptyPoll(c: Client, n: nat)
    requires c.phase in {AwaitCrypto(0), AwaitHello(0), AwaitAck(0)}
    requires n < MAX_TRIALS && (c.phase.AwaitAck? ==> n + 1 < MAX_TRIALS)
    ensures Poll(c.(phase := AfterEmpty(c.phase, n)), None) == Move(c.(phase := AfterEmpty(c.phase, n + 1)), [])
  {
  }
}

/** The server class: its loop and handlers change maps, pool and key table in place and do what the step
    function says. */
module TunnelServerClass {
  import opened Common
  import opened Text
  import opened Wire
  import opened Messages
  import opened Crypto
  import opened IpPool
  import opened Sessions
  import opened Server

  class TunnelServer {
    const setup: Setup
    const ipPool: IPPool
    const activeClients: SessionMap
    const cryptoManager: CryptoManager
    var handshakeStates: Table
    var subscriptions: set<string>
    var failed: bool   // an exception has left the command loop

    ghost predicate Valid()
      reads this, ipPool.ipUsage
    {
      ipPool.Valid() && cryptoManager.identity == setup.identity
    }

    ghost function View(): Server
      reads this, ipPool.ipUsage, activeClients, cryptoManager
    {
      Server(setup, ipPool.View(), handshakeStates, activeClients.sessions, cryptoManager.sessionMap,
             subscriptions, failed)
    }

    constructor (setup: Setup, pool: IPPool, netIp: string, poolSize: int)
      requires pool.Valid() && 1 <= poolSize <= MAX_SIZE
      requires pool.View() == Pool(BaseOf(netIp), seq(poolSize, i => false))
      ensures Valid() && ipPool == pool && fresh(activeClients) && fresh(cryptoManager)
      ensures View() == Initial(setup, netIp, poolSize)
    {
      this.setup := setup.(ownAddress := pool.baseIp + "1");
      ipPool := pool;
      activeClients := new SessionMap();
      cryptoManager := new CryptoManager(setup.identity, None, false);
      handshakeStates, subscriptions, failed := map[], {}, false;
    }

    /** Seals and wraps a reply when encryption is on. */
    method ProtectReply(id: string, text: Payload, nonce: Nonce) returns (r: Result<Payload>)
      ensures r == Protect(setup, cryptoManager.sessionMap, id, text, nonce)
    {
      if !setup.encrypted {
        return Success(text);
      }
      var packet := cryptoManager.EncryptData(text, id, nonce);
      match packet
      case Failure(e) => r := Failure(e);
      case Success(p) => r := Success(Write(EncryptedWrapper(id, p)));
    }

    method HandleClientHelloCrypto(payload: Payload, d: Draw) returns (published: seq<Payload>)
      requires Valid() && !failed
      modifies this, cryptoManager
      ensures Valid()
      ensures Step(View(), published) == Execute(old(View()), DecodeHandshake(payload, CLIENT_HELLO_CRYPTO), d)
    {
      var hello := Read(payload, ClientHelloCryptoKind);
      if hello.None? {
        failed := true;
        return [];
      }
      var reply :=
        cryptoManager.EstablishServerSession(hello.value.clientBaseId, hello.value.clientKey, d.ephemeral, d.clock);
      published := [Write(reply)];
      var id := reply.uniqueId;
      if id !in handshakeStates {
        handshakeStates := handshakeStates[id := BLANK];
      }
      handshakeStates := handshakeStates[id := handshakeStates[id].(state := HandshakeClientHello)];
    }

    method HandleClientHello(payload: Payload, d: Draw) returns (published: seq<Payload>)
      requires Valid() && !failed
      modifies this, ipPool.ipUsage
      ensures Valid()
      ensures Step(View(), published) == Execute(old(View()), DecodeHandshake(payload, CLIENT_HELLO), d)
    {
      var hello := Read(payload, ClientHelloKind);
      if hello.None? {
        failed := true;
        return [];
      }
      var baseId := hello.value.clientBaseId;
      if baseId in handshakeStates && handshakeStates[baseId].state != HandshakeClientHello {
        return [];
      }
      var assignedIp := ipPool.AllocateIp();
      var inbound := setup.channel + "/" + baseId + "/A";
      var outbound := setup.channel + "/" + baseId + "/B";
      var sessionId := setup.digest(baseId + "_" + Decimal(d.clock));
      var config := SessionConfig(baseId, assignedIp, setup.ownAddress, inbound, outbound, sessionId,
                                  hello.value.handshakeId, HandshakeClientAck, hello.value.mode);
      var text := Write(ServerHello(hello.value.handshakeId, baseId, assignedIp, setup.ownAddress,
                                    inbound, outbound, sessionId));
      var reply := ProtectReply(baseId, text, d.nonce);
      if reply.Failure? {
        failed := true;
        return [];
      }
      published := [reply.value];
      handshakeStates := handshakeStates[baseId := config];
    }

    method HandleClientAck(payload: Payload, d: Draw) returns (published: seq<Payload>)
      requires Valid() && !failed
      modifies this, activeClients
      ensures Valid()
      ensures Step(View(), published) == Execute(old(View()), DecodeHandshake(payload, CLIENT_ACK), d)
    {
      var ack := Read(payload, ClientAckKind);
      if ack.None? {
        failed := true;
        return [];
      }
      var id := ack.value.clientId;
      if id !in handshakeStates || handshakeStates[id].state != HandshakeClientAck {
        return [];
      }
      if ack.value.handshakeId != handshakeStates[id].handshakeId {
        failed := true;
        return [];
      }
      var reply := ProtectReply(id, Write(ServerAck(handshakeStates[id].handshakeId)), d.nonce);
      if reply.Failure? {
        failed := true;
        return [];
      }
      published := [reply.value];
      subscriptions := subscriptions + {handshakeStates[id].topicOutbound};
      activeClients.AddSession(handshakeStates[id].clientId, handshakeStates[id]);
      handshakeStates := handshakeStates - {id};
      // the log line reads the entry through operator[]
      handshakeStates := handshakeStates[id := BLANK];
    }

    method HandleClientHandshake(payload: Payload, messageType: int, d: Draw) returns (published: seq<Payload>)
      requires Valid() && !failed
      modifies this, ipPool.ipUsage, activeClients, cryptoManager
      ensures Valid()
      ensures Step(View(), published) == Execute(old(View()), DecodeHandshake(payload, messageType), d)
    {
      if messageType == CLIENT_HELLO_CRYPTO {
        published := HandleClientHelloCrypto(payload, d);
      } else if messageType == CLIENT_HELLO {
        published := HandleClientHello(payload, d);
      } else if messageType == CLIENT_ACK {
        published := HandleClientAck(payload, d);
      } else {
        published := [];
      }
    }

    method HandleTermination(payload: Payload)
      requires Valid() && !failed && Header(payload) == Some(SESSION_TERMINATION)
      modifies this, ipPool.ipUsage, activeClients
      ensures Valid()
      ensures Step(View(), []) ==
              var c := Decode(old(cryptoManager.sessionMap), payload);
              if c.Terminate? then OnTerminate(old(View()), c.clientId) else Step(old(View()).(failed := true), [])
    {
      var term := Read(payload, SessionTerminationKind);
      if term.None? {
        failed := true;
        return;
      }
      var config := activeClients.GetSession(term.value.clientId);
      if config.None? {
        return;
      }
      activeClients.RemoveSession(term.value.clientId);
      var outcome := ipPool.ReleaseIp(config.value.clientAddress);
      failed := outcome.Thrown? || outcome.PastTheEnd?;
    }

    /** One message of the dispatch loop. */
    method ProcessMessage(e: Event) returns (published: seq<Payload>)
      requires Valid() && !failed
      modifies this, ipPool.ipUsage, activeClients, cryptoManager
      ensures Valid()
      ensures Step(View(), published) == Consume(old(View()), e)
    {
      var header := Header(e.payload);
      if header.None? {
        failed := true;
        return [];
      }
      if header.value == SESSION_TERMINATION {
        HandleTermination(e.payload);
        published := [];
      } else if header.value == ENCRYPTED_WRAPPER {
        var wrapper := Read(e.payload, EncryptedWrapperKind);
        if wrapper.None? {
          failed := true;
          return [];
        }
        var decrypted := cryptoManager.DecryptData(wrapper.value.packet, wrapper.value.clientId);
        if decrypted.Failure? {
          failed := true;
          return [];
        }
        var inner := Header(decrypted.value);
        if inner.None? {
          failed := true;
          return [];
        }
        published := HandleClientHandshake(decrypted.value, inner.value, e.draw);
      } else {
        published := HandleClientHandshake(e.payload, header.value, e.draw);
      }
    }

    /** The command loop over what each attempt to consume yields. It ends with the run or with an exception. */
    method StartServer(polls: seq<Option<Event>>) returns (published: seq<Payload>)
      requires Valid()
      modifies this, ipPool.ipUsage, activeClients, cryptoManager
      ensures Valid() && View() == After(old(View()), Consumed(polls))
      ensures published == Published(old(View()), Consumed(polls))
    {
      published := [];
      ghost var s0 := View();
      ghost var done: seq<Event> := [];
      var i := 0;
      while i < |polls| && !failed
        invariant 0 <= i <= |polls|
        invariant Valid() && done == Consumed(polls[..i])
        invariant View() == After(s0, done) && published == Published(s0, done)
      {
        assert polls[..i + 1][..i] == polls[..i];
        if polls[i].Some? {
          var replies := ProcessMessage(polls[i].value);
          ghost var next := done + [polls[i].value];
          assert next[..|done|] == done;
          done := next;
          published := published + replies;
        }
        i := i + 1;
      }
      if failed {
        FailedStays(s0, polls, i);
      } else {
        assert polls[..i] == polls;
      }
    }
  }

  /** The messages consumed by a sequence of attempts. */
  function Consumed(polls: seq<Option<Event>>): seq<Event> {
    if polls == [] then []
    else
      var last := polls[|polls| - 1];
      Consumed(polls[..|polls| - 1]) + if last.Some? then [last.value] else []
  }

  /** What the loop takes: nothing at an empty attempt, the message of every other, in order. */
  lemma {:induction false} ConsumedParts(first: seq<Option<Event>>, rest: seq<Option<Event>>)
    ensures Consumed(first + rest) == Consumed(first) + Consumed(rest)
    decreases |rest|
  {
    if rest == [] {
      assert first + rest == first;
    } else {
      var n := |rest| - 1;
      assert (first + rest)[..|first| + n] == first + rest[..n];
      ConsumedParts(first, rest[..n]);
    }
  }

  lemma {:induction false} ConsumedAll(polls: seq<Option<Event>>, events: seq<Event>)
    requires |polls| == |events| && forall i :: 0 <= i < |polls| ==> polls[i] == Some(events[i])
    ensures Consumed(polls) == events && Consumed([None]) == []
  {
    var one: seq<Option<Event>> := [None];
    assert one[..0] == [];
    if polls != [] {
      var n := |polls| - 1;
      ConsumedAll(polls[..n], events[..n]);
      assert events == events[..n] + [events[n]];
    }
  }

  /** Everything a run publishes, in order. */
  function Published(s: Server, events: seq<Event>): seq<Payload>
    decreases |events|
  {
    if events == [] then []
    else
      var before := events[..|events| - 1];
      Published(s, before) + Consume(After(s, before), events[|events| - 1]).published
  }

  lemma PublishedOneMore(s: Server, events: seq<Event>, e: Event) returns (replies: seq<Payload>)
    ensures replies == Consume(After(s, events), e).published
    ensures Published(s, events + [e]) == Published(s, events) + replies
  {
    assert (events + [e])[..|events|] == events;
    replies := Consume(After(s, events), e).published;
  }

  /** One more message after both parts is answered the same. */
  lemma ReplyToOneMore(s: Server, t: Server, first: seq<Event>, before: seq<Event>, e: Event)
    returns (replies: seq<Payload>)
    requires t == After(s, first)
    ensures Published(s, first + before + [e]) == Published(s, first + before) + replies
    ensures Published(t, before + [e]) == Published(t, before) + replies
  {
    AfterParts(s, first, before);
    replies := PublishedOneMore(s, first + before, e);
    var same := PublishedOneMore(t, before, e);
  }

  lemma {:induction false} PartsOneMore(s: Server, t: Server, first: seq<Event>, before: seq<Event>,
                                        joined: seq<Event>, e: Event)
    requires t == After(s, first) && joined == first + before
    requires Published(s, joined) == Published(s, first) + Published(t, before)
    ensures Published(s, joined + [e]) == Published(s, first) + Published(t, before + [e])
  {
    var replies := ReplyToOneMore(s, t, first, before, e);
    Regroup(Published(s, joined + [e]), Published(s, joined), Published(s, first),
            Published(t, before), Published(t, before + [e]), replies);
  }

  lemma {:induction false} PublishedPrefix(s: Server, t: Server, first: seq<Event>, rest: seq<Event>, n: nat)
    requires t == After(s, first) && n <= |rest|
    ensures Published(s, first + rest[..n]) == Published(s, first) + Published(t, rest[..n])
  {
    if n == 0 {
      PublishedNone(t);
      assert first + rest[..0] == first && rest[..0] == [];
    } else {
      PublishedPrefix(s, t, first, rest, n - 1);
      PartsOneMore(s, t, first, rest[..n - 1], first + rest[..n - 1], rest[n - 1]);
      Appended(first, rest, n);
    }
  }

  /** What a run publishes is what its first messages are answered with and then what the others are. */
  lemma {:induction false} PublishedParts(s: Server, first: seq<Event>, rest: seq<Event>)
    ensures Published(s, first + rest) == Published(s, first) + Published(After(s, first), rest)
  {
    PublishedPrefix(s, After(s, first), first, rest, |rest|);
    assert rest[..|rest|] == rest;
  }

  lemma {:induction false} PublishedNone(s: Server)
    ensures Published(s, []) == []
  {
  }

  lemma {:induction false} PublishedOne(s: Server, e: Event)
    ensures Published(s, []) == [] && Published(s, [e]) == Consume(s, e).published
  {
    assert [e][..0] == [];
    AfterNoneAndOne(s, e);
  }

  lemma FailedIgnores(s: Server, e: Event)
    requires s.failed
    ensures Consume(s, e) == Step(s, [])
  {
  }

  /** After an exception the remaining messages change nothing. */
  lemma {:induction false} FailedStays(s0: Server, polls: seq<Option<Event>>, i: nat)
    requires i <= |polls| && After(s0, Consumed(polls[..i])).failed
    ensures After(s0, Consumed(polls)) == After(s0, Consumed(polls[..i]))
    ensures Published(s0, Consumed(polls)) == Published(s0, Consumed(polls[..i]))
    decreases |polls|
  {
    if i == |polls| {
      assert polls[..i] == polls;
    } else {
      var before := polls[..|polls| - 1];
      assert before[..i] == polls[..i];
      FailedStays(s0, before, i);
      var last := polls[|polls| - 1];
      if last.Some? {
        assert Consumed(polls)[..|Consumed(before)|] == Consumed(before);
        FailedIgnores(After(s0, Consumed(before)), last.value);
      } else {
        assert Consumed(polls) == Consumed(before);
      }
    }
  }
}

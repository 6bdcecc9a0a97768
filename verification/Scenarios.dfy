/** Honest runs that show where the code departs from what one expects of it. */
module Scenarios {
  import opened Common
  import opened Wire
  import opened Messages
  import opened Crypto
  import opened IpPool
  import opened Sessions
  import opened Server
  import opened Ownership
  import opened Dispatch
  import opened Client
  import opened World
  import opened Honest
  import opened Solo
  import opened Runs
  import opened Packets
  import opened Delivery
  import opened Agreements
  import Stranding

  // ---------- cross-talk ----------

  lemma ClientBeginsIn(w: World, i: nat)
    requires i in w.clients && IsNew(w.clients[i])
    ensures var c, w' := w.clients[i], Next(w, ClientBegins(i));
            && w'.server == w.server && w'.drawn == w.drawn && w'.tx == w.tx
            && w'.clients == w.clients[i := c.(ephemeral := FreshPair(c.seeds.ephemeral), phase := AwaitCrypto(0))]
            && w'.rx == w.rx + {Mail(i, Write(ClientHelloCrypto(c.baseId, c.seeds.ephemeral)))}
  {
  }

  lemma ServerAnswersCrypto(s: Server, base: string, key: nat, d: Draw)
    requires !s.failed && UniqueIdentifier(base, d.clock) !in s.keys
    ensures var id, t := UniqueIdentifier(base, d.clock), Consume(s, Event(Write(ClientHelloCrypto(base, key)), d));
            && !t.server.failed && t.server.setup == s.setup
            && t.server.keys == s.keys[id := ServerSessionKeys(FreshPair(d.ephemeral), key)]
            && Write(ServerHelloCrypto(id, d.ephemeral, Sign(s.setup.identity, d.ephemeral))) in t.published
  {
    DecodeInClear(s.keys, ClientHelloCrypto(base, key));
  }

  lemma CryptoAnswered(c: Client, s: Server, id: string, n: nat) returns (hello: Payload)
    requires c.encrypted && c.keys == map[] && Trusts(c, s)
    ensures var m := OnCryptoAnswer(c, Write(ServerHelloCrypto(id, n, Sign(s.setup.identity, n))));
            m.published == [hello] && m.client.seeds == c.seeds
    ensures var r := Read(hello, EncryptedWrapperKind); r.Some? && r.value.clientId == id
  {
    ReadWrite(ServerHelloCrypto(id, n, Sign(s.setup.identity, n)), ServerHelloCryptoKind);
    var keys: KeyTable := map[id := ClientSessionKeys(c.ephemeral, n)];
    var x := ClientHello(id, false, "", c.seeds.handshakeId, c.mode);
    var packet := c.seeds.helloNonce + Seal(keys[id].tx, c.seeds.helloNonce, Write(x));
    hello := Write(EncryptedWrapper(id, packet));
    ReadWrite(EncryptedWrapper(id, packet), EncryptedWrapperKind);
  }

  lemma ClientTakesCrypto(w: World, i: nat, id: string, n: nat) returns (hello: Payload)
    requires i in w.clients && w.clients[i].phase.AwaitCrypto?
    requires w.clients[i].encrypted && w.clients[i].keys == map[] && Trusts(w.clients[i], w.server)
    requires Write(ServerHelloCrypto(id, n, Sign(w.server.setup.identity, n))) in w.tx
    ensures var p := Write(ServerHelloCrypto(id, n, Sign(w.server.setup.identity, n)));
            var w' := Next(w, ClientPolls(i, Some(p)));
            && w'.server == w.server && w'.rx == w.rx + {Mail(i, hello)}
            && w'.clients.Keys == w.clients.Keys && forall j | j in w.clients :: w'.clients[j].seeds == w.clients[j].seeds
    ensures var r := Read(hello, EncryptedWrapperKind); r.Some? && r.value.clientId == id
  {
    hello := CryptoAnswered(w.clients[i], w.server, id, n);
    var p := Write(ServerHelloCrypto(id, n, Sign(w.server.setup.identity, n)));
    assert Poll(w.clients[i], Some(p)) == OnCryptoAnswer(w.clients[i], p);
  }

  /** Two clients begin. */
  lemma TwoBegin(w0: World, i: nat, j: nat, draws: nat -> Draw) returns (w: World)
    requires Reached(w0, w0, draws, 0) && IsInitial(w0) && i in w0.clients && j in w0.clients && i != j
    ensures Reached(w0, w, draws, 0) && w.server == w0.server && w.clients.Keys == w0.clients.Keys
    ensures var c := w0.clients[i];
            && Mail(i, Write(ClientHelloCrypto(c.baseId, c.seeds.ephemeral))) in w.rx && w.clients[i].seeds == c.seeds
            && w.clients[j] == Begin(w0.clients[j]).client
  {
    ClientBeginsIn(w0, i);
    ClientActs(w0, w0, draws, 0, ClientBegins(i));
    var w1 := Next(w0, ClientBegins(i));
    ClientBeginsIn(w1, j);
    ClientActs(w0, w1, draws, 0, ClientBegins(j));
    w := Next(w1, ClientBegins(j));
  }

  /** The server answers a ClientHelloCrypto. */
  lemma AnswerGiven(w0: World, w: World, base: string, key: nat, draws: nat -> Draw) returns (u: World)
    requires Reached(w0, w, draws, 0) && !w.server.failed && w.server.keys == map[]
    requires exists i :: Mail(i, Write(ClientHelloCrypto(base, key))) in w.rx
    ensures var id, d := UniqueIdentifier(base, draws(0).clock), draws(0);
            && Reached(w0, u, draws, 1) && !u.server.failed && u.clients == w.clients && u.rx == w.rx
            && u.server.setup == w.server.setup && u.server.keys == map[id := ServerSessionKeys(FreshPair(d.ephemeral), key)]
            && Write(ServerHelloCrypto(id, d.ephemeral, Sign(u.server.setup.identity, d.ephemeral))) in u.tx
  {
    var p := Write(ClientHelloCrypto(base, key));
    ServerActs(w0, w, draws, 0, p);
    ServerAnswersCrypto(w.server, base, key, draws(0));
    NextTakes(w, Event(p, draws(0)));
    u := Next(w, ServerTakes(Event(p, draws(0))));
  }

  /** A client takes a ServerHelloCrypto, whoever it was meant for. */
  lemma AnswerTaken(w0: World, u: World, j: nat, id: string, n: nat, draws: nat -> Draw) returns (v: World, hello: Payload)
    requires Reached(w0, u, draws, 1) && j in u.clients && u.clients[j].phase.AwaitCrypto?
    requires u.clients[j].encrypted && u.clients[j].keys == map[] && Trusts(u.clients[j], u.server)
    requires Write(ServerHelloCrypto(id, n, Sign(u.server.setup.identity, n))) in u.tx
    ensures Reached(w0, v, draws, 1) && v.server == u.server && Mail(j, hello) in v.rx
    ensures v.clients.Keys == u.clients.Keys && forall i | i in u.clients :: v.clients[i].seeds == u.clients[i].seeds
    ensures var r := Read(hello, EncryptedWrapperKind); r.Some? && r.value.clientId == id
  {
    hello := ClientTakesCrypto(u, j, id, n);
    var a := ClientPolls(j, Some(Write(ServerHelloCrypto(id, n, Sign(u.server.setup.identity, n)))));
    ClientActs(w0, u, draws, 1, a);
    v := Next(u, a);
  }

  /** Two clients begin, the server answers the first, the second takes that answer and sends its ClientHello: the
      server is running before it takes this message and not after. */
  lemma CrossTalkHappens(w0: World, i: nat, j: nat, draws: nat -> Draw) returns (ws: seq<World>, actions: seq<Action>)
    requires IsInitial(w0) && i in w0.clients && j in w0.clients && i != j && Trusts(w0.clients[j], w0.server)
    requires GoodDraws(draws) && Undrawn(w0, draws, 0)
    ensures IsHonest(ws, actions) && ws[0] == w0 && actions != []
    ensures var n := |actions| - 1;
            && actions[n].ServerTakes? && !ws[n].server.failed && ws[n + 1].server.failed
            && IsCrossTalk(ws[n], actions[n].event.payload, j, i)
  {
    StartReached(w0, draws);
    var w := TwoBegin(w0, i, j, draws);
    var c, id := w0.clients[i], UniqueIdentifier(w0.clients[i].baseId, draws(0).clock);
    var u := AnswerGiven(w0, w, c.baseId, c.seeds.ephemeral, draws);
    var v, hello := AnswerTaken(w0, u, j, id, draws(0).ephemeral, draws);
    assert IsCrossTalk(v, hello, j, i);
    ws, actions := CrossTalkEnds(w0, v, draws, 1, hello, j, i);
  }

  lemma EndedBy(w: World, e: Event, i: nat, j: nat, w': World)
    requires Inv(w) && HonestInv(w) && !w.server.failed && IsCrossTalk(w, e.payload, i, j)
    requires IsTaking(w, e.payload, e.draw, w')
    ensures w'.server.failed
  {
    MailEnds(w, e, i);
    NextServer(w, ServerTakes(e));
  }

  /** A run that ends with the server taking this payload in w. */
  lemma RunThatTakes(w0: World, w: World, draws: nat -> Draw, k: nat, p: Payload)
    returns (ws: seq<World>, actions: seq<Action>, n: nat)
    requires Reached(w0, w, draws, k) && exists i :: Mail(i, p) in w.rx
    ensures IsHonest(ws, actions) && ws[0] == w0 && |actions| == n + 1 && ws[n] == w
    ensures actions[n] == ServerTakes(Event(p, draws(k))) && IsTaking(w, p, draws(k), ws[n + 1])
  {
    ServerActs(w0, w, draws, k, p);
    var vs, before :| Leads(vs, before, w0, w, draws(k).clock);
    n := |before|;
    ws, actions := OneMoreAction(vs, before, w0, w, draws(k).clock, ServerTakes(Event(p, draws(k))));
  }

  lemma CrossTalkEnds(w0: World, w: World, draws: nat -> Draw, k: nat, p: Payload, i: nat, j: nat)
    returns (ws: seq<World>, actions: seq<Action>)
    requires Reached(w0, w, draws, k) && !w.server.failed && IsCrossTalk(w, p, i, j)
    ensures IsHonest(ws, actions) && ws[0] == w0 && actions != []
    ensures var n := |actions| - 1;
            actions[n].ServerTakes? && ws[n] == w && ws[n + 1].server.failed && actions[n].event.payload == p
  {
    var n;
    ws, actions, n := RunThatTakes(w0, w, draws, k, p);
    ReachedInv(w0, w, draws, k);
    EndedBy(w, Event(p, draws(k)), i, j, ws[n + 1]);
  }

  // ---------- redelivery after the handshake ----------

  lemma ReadsHello(s: Server, c: Client, p: Payload, d: Draw)
    requires !s.failed && c.baseId in c.keys && c.baseId in s.keys && Mirrors(c.keys[c.baseId], s.keys[c.baseId])
    requires Sent(true, c.keys, c.baseId, HelloOf(c), p)
    ensures CommandOf(s, Event(p, d)) == Hello(c.baseId, c.seeds.handshakeId, c.mode)
  {
    ServerReads(s.keys, c.keys, true, c.baseId, HelloOf(c), p);
  }

  lemma ReadsAck(s: Server, c: Client, p: Payload, d: Draw)
    requires !s.failed && c.baseId in c.keys && c.baseId in s.keys && Mirrors(c.keys[c.baseId], s.keys[c.baseId])
    requires Sent(true, c.keys, c.baseId, ClientAck(c.baseId, c.seeds.handshakeId), p)
    ensures CommandOf(s, Event(p, d)) == Ack(c.baseId, c.seeds.handshakeId)
  {
    ServerReads(s.keys, c.keys, true, c.baseId, ClientAck(c.baseId, c.seeds.handshakeId), p);
  }

  /** A second handshake never gives the session the address it had. */
  lemma AnotherAddress(s: Server, id: string)
    requires Sound(s) && id in s.active && s.active[id].clientAddress != ""
    ensures Allocate(s.pool).1 != s.active[id].clientAddress
  {
    FreshAddress(s.pool);
    assert AddressAt(s, Live(id)) != "";
  }

  /** ClientHello and ClientACK of an active session, delivered again: the session gets another address. */
  lemma BothAgain(s: Server, c: Client, hello: Payload, ack: Payload, d1: Draw, d2: Draw, t: Server, u: Server)
    requires Sound(s) && !s.failed && c.baseId in c.keys && c.baseId in s.keys && Mirrors(c.keys[c.baseId], s.keys[c.baseId])
    requires AreSentBy(c, hello, ack) && c.baseId in s.active && s.active[c.baseId].clientAddress != ""
    requires c.baseId in s.handshakes && s.handshakes[c.baseId] == BLANK
    requires t == Consume(s, Event(hello, d1)).server && u == Consume(t, Event(ack, d2)).server
    ensures !u.failed && c.baseId in u.active && u.active[c.baseId].clientAddress != s.active[c.baseId].clientAddress
  {
    var id, h := c.baseId, c.seeds.handshakeId;
    ReadsHello(s, c, hello, d1);
    Stranding.SecondHello(s, id, h, c.mode, d1);
    ReadsAck(t, c, ack, d2);
    Stranding.SecondAck(s, t, id, h, d2);
    AnotherAddress(s, id);
  }

  // ---------- going on with a run ----------

  /** The run leads to w, with the draws from the k-th on still to come. */
  ghost predicate Stands(ws: seq<World>, actions: seq<Action>, w0: World, w: World, draws: nat -> Draw, k: nat) {
    Leads(ws, actions, w0, w, draws(k).clock) && Reached(w0, w, draws, k)
  }

  lemma ServerGoesOn(ws: seq<World>, actions: seq<Action>, w0: World, w: World, draws: nat -> Draw, k: nat, p: Payload,
                     d: Draw, l: nat)
    returns (ws': seq<World>, actions': seq<Action>, w': World)
    requires Stands(ws, actions, w0, w, draws, k) && (exists i :: Mail(i, p) in w.rx) && d == draws(k) && l == k + 1
    ensures Stands(ws', actions', w0, w', draws, l) && ws' == ws + [w'] && |actions'| == |actions| + 1
    ensures w'.clients == w.clients && w'.rx == w.rx && w'.server == Consume(w.server, Event(p, d)).server
  {
    ServerActs(w0, w, draws, k, p);
    NextTakes(w, Event(p, d));
    ws', actions' := OneMoreAction(ws, actions, w0, w, draws(k).clock, ServerTakes(Event(p, d)));
    w' := Next(w, ServerTakes(Event(p, d)));
    assert draws(k + 1).clock > draws(k).clock;
  }

  lemma ClientGoesOn(ws: seq<World>, actions: seq<Action>, w0: World, w: World, draws: nat -> Draw, k: nat, a: Action)
    returns (ws': seq<World>, actions': seq<Action>, w': World)
    requires Stands(ws, actions, w0, w, draws, k) && Enabled(w, a) && !a.ServerTakes?
    ensures Stands(ws', actions', w0, w', draws, k) && ws' == ws + [w'] && |actions'| == |actions| + 1
    ensures w' == Next(w, a)
  {
    ClientActs(w0, w, draws, k, a);
    ws', actions' := OneMoreAction(ws, actions, w0, w, draws(k).clock, a);
    w' := Next(w, a);
  }

  // ---------- the session is replaced ----------

  /** The server takes two more messages. */
  lemma TwoMore(ws: seq<World>, actions: seq<Action>, w0: World, w: World, draws: nat -> Draw, k: nat, l: nat, m: nat,
                p: Payload, d1: Draw, q: Payload, d2: Draw)
    returns (ws': seq<World>, actions': seq<Action>, t: Server, y: World)
    requires Stands(ws, actions, w0, w, draws, k) && l == k + 1 && m == l + 1 && d1 == draws(k) && d2 == draws(l)
    requires (exists i :: Mail(i, p) in w.rx) && exists i :: Mail(i, q) in w.rx
    ensures |ws'| == |ws| + 2 && ws'[|ws| - 1] == ws[|ws| - 1] && ws'[|ws| + 1] == y && |actions'| == |actions| + 2
    ensures Stands(ws', actions', w0, y, draws, m) && y.clients == w.clients
    ensures t == Consume(w.server, Event(p, d1)).server && y.server == Consume(t, Event(q, d2)).server
  {
    var x;
    ws', actions', x := ServerGoesOn(ws, actions, w0, w, draws, k, p, d1, l);
    ws', actions', y := ServerGoesOn(ws', actions', w0, x, draws, l, q, d2, m);
    t := x.server;
  }

  lemma SettledThenBoth(w: World, i: nat, hello: Payload, ack: Payload, d1: Draw, d2: Draw, t: Server, u: Server)
    requires Settled(w, i, hello, ack)
    requires t == Consume(w.server, Event(hello, d1)).server && u == Consume(t, Event(ack, d2)).server
    ensures var c := w.clients[i];
            !u.failed && c.baseId in u.active && u.active[c.baseId].clientAddress != c.config.clientAddress
  {
    BothAgain(w.server, w.clients[i], hello, ack, d1, d2, t, u);
  }

  lemma DisagreeAfterBoth(ws: seq<World>, actions: seq<Action>, w0: World, w: World, draws: nat -> Draw,
                          k: nat, l: nat, m: nat, i: nat, hello: Payload, d1: Draw, ack: Payload, d2: Draw)
    returns (ws': seq<World>, actions': seq<Action>, y: World)
    requires Stands(ws, actions, w0, w, draws, k) && l == k + 1 && m == l + 1 && d1 == draws(k) && d2 == draws(l)
    requires Settled(w, i, hello, ack)
    ensures |ws'| == |actions'| + 1 == |actions| + 3 && ws'[|actions|] == w && ws'[|actions| + 2] == y
    ensures IsHonest(ws', actions') && ws'[0] == w0 && y.clients == w.clients && !y.server.failed
    ensures var c := w.clients[i];
            c.baseId in y.server.active && y.server.active[c.baseId].clientAddress != c.config.clientAddress
  {
    var t;
    ws', actions', t, y := TwoMore(ws, actions, w0, w, draws, k, l, m, hello, d1, ack, d2);
    SettledThenBoth(w, i, hello, ack, d1, d2, t, y.server);
  }

  lemma SettledRun(w0: World, v: World, i: nat, draws: nat -> Draw, k: nat)
    returns (ws: seq<World>, actions: seq<Action>, w: World, m: nat, hello: Payload, ack: Payload)
    requires Reached(w0, v, draws, k) && CanShakeHands(v, i)
    ensures Stands(ws, actions, w0, w, draws, m) && Settled(w, i, hello, ack)
  {
    w, m, hello, ack := HandshakeSettles(w0, v, i, draws, k);
    ws, actions :| Leads(ws, actions, w0, w, draws(m).clock);
  }

  lemma DisagreeInRun(ws: seq<World>, actions: seq<Action>, w0: World, w: World, draws: nat -> Draw, k: nat,
                      i: nat, hello: Payload, ack: Payload, n: nat)
    returns (ws': seq<World>, actions': seq<Action>)
    requires Stands(ws, actions, w0, w, draws, k) && Settled(w, i, hello, ack) && n == |actions|
    ensures IsHonest(ws', actions') && ws'[0] == w0 && |actions'| == n + 2
    ensures i in ws'[n].clients && ws'[n].clients[i].phase.Configured? && ws'[n + 2].clients == ws'[n].clients
    ensures var c, s := ws'[n].clients[i], ws'[n + 2].server;
            && Agrees(ws'[n].server, c) && c.config.clientAddress != ""
            && !s.failed && c.baseId in s.active && s.active[c.baseId].clientAddress != c.config.clientAddress
  {
    var y;
    ws', actions', y := DisagreeAfterBoth(ws, actions, w0, w, draws, k, k + 1, k + 2, i, hello, draws(k), ack, draws(k + 1));
  }

  /** From every reachable world in which a client and the server can go through a handshake: a run on which the client is
      configured as its active session, and then, its ClientHello and ClientACK delivered once more, is not. */
  lemma SecondHandshakeDisagrees(w0: World, v: World, i: nat, draws: nat -> Draw, k: nat)
    returns (ws: seq<World>, actions: seq<Action>, n: nat)
    requires Reached(w0, v, draws, k) && CanShakeHands(v, i)
    ensures IsHonest(ws, actions) && ws[0] == w0 && |actions| == n + 2
    ensures i in ws[n].clients && ws[n].clients[i].phase.Configured? && ws[n + 2].clients == ws[n].clients
    ensures var c, s := ws[n].clients[i], ws[n + 2].server;
            && Agrees(ws[n].server, c) && c.config.clientAddress != ""
            && !s.failed && c.baseId in s.active && s.active[c.baseId].clientAddress != c.config.clientAddress
  {
    var w, m, hello, ack;
    ws, actions, w, m, hello, ack := SettledRun(w0, v, i, draws, k);
    n := |actions|;
    ws, actions := DisagreeInRun(ws, actions, w0, w, draws, m, i, hello, ack, n);
  }

  // ---------- the session is over ----------

  lemma FarewellEnds(s: Server, c: Client, d: Draw)
    requires Sound(s) && !s.failed && c.config.clientId in s.active
    ensures var t := Consume(s, Event(Farewell(c), d)).server;
            !t.failed && c.config.clientId !in t.active && t.keys == s.keys && t.subscriptions == s.subscriptions
            && t.setup == s.setup
  {
    FarewellRead(c, s, d);
    OnTerminateSound(s, c.config.clientId);
  }

  /** From every such world: a run on which the client has an active session and seals a packet, stops, and the server takes
      its farewell. The session is over, and the packet is still received and written if the id can be recovered. */
  lemma AcceptedAfterTermination(w0: World, v: World, i: nat, draws: nat -> Draw, k: nat, bytes: seq<byte>, nonce: Nonce)
    returns (ws: seq<World>, actions: seq<Action>, n: nat)
    requires Reached(w0, v, draws, k) && CanShakeHands(v, i) && |bytes| <= BUFFER_SIZE
    ensures IsHonest(ws, actions) && ws[0] == w0 && |actions| == n + 2
    ensures i in ws[n].clients && ws[n].clients[i].phase.Configured?
    ensures i in ws[n + 2].clients && ws[n + 2].clients[i] == Stop(ws[n].clients[i]).client
    ensures var c, s := ws[n].clients[i], ws[n + 2].server;
            var m := ClientPacket(true, c.keys, c.baseId, c.config.topicOutbound, bytes, nonce);
            && c.baseId in ws[n].server.active && m.Success?
            && !s.failed && c.baseId !in s.active && m.value.topic in s.subscriptions
            && Arrive(true, s.keys, m.value) == if Recoverable(s.setup.channel, c.baseId) then Some(Raws(bytes)) else None
  {
    var w, m, hello, ack := HandshakeSettles(w0, v, i, draws, k);
    ReachedInv(w0, w, draws, m);
    ws, actions :| Leads(ws, actions, w0, w, draws(m).clock);
    n := |actions|;
    var c := w.clients[i];
    FarewellEnds(w.server, c, draws(m));
    FromConfigured(w, c, w.server, bytes, nonce);
    var x, y;
    ws, actions, x := ClientGoesOn(ws, actions, w0, w, draws, m, ClientStops(i));
    assert Mail(i, Farewell(c)) in x.rx;
    ws, actions, y := ServerGoesOn(ws, actions, w0, x, draws, m, Farewell(c), draws(m), m + 1);
  }

  // ---------- no session yet ----------

  lemma EmptyPollIn(ws: seq<World>, actions: seq<Action>, w0: World, w: World, draws: nat -> Draw, k: nat, i: nat)
    returns (ws': seq<World>, actions': seq<Action>, w': World)
    requires Stands(ws, actions, w0, w, draws, k) && i in w.clients && Waiting(w.clients[i])
    ensures Stands(ws', actions', w0, w', draws, k) && w'.server == w.server
    ensures i in w'.clients && w'.clients[i] == Poll(w.clients[i], None).client
  {
    ws', actions', w' := ClientGoesOn(ws, actions, w0, w, draws, k, ClientPolls(i, None));
  }

  /** The client waits for the ServerACK while the server waits for the ClientACK. */
  ghost predicate BothWait(w: World, i: nat) {
    && i in w.clients && w.clients[i].phase == AwaitAck(0) && !w.server.failed
    && var c, s := w.clients[i], w.server;
       && IsPending(s.handshakes, c.baseId) && c.config == Adopt(BLANK, ServerHelloOf(s.handshakes[c.baseId]))
       && c.baseId !in s.active
       && Poll(Poll(Poll(c, None).client, None).client, None).client == c.(phase := Configured)
  }

  lemma GetsToWait(w0: World, v: World, i: nat, draws: nat -> Draw, k: nat) returns (w: World, m: nat)
    requires Reached(w0, v, draws, k) && CanShakeHands(v, i)
    ensures Reached(w0, w, draws, m) && BothWait(w, i) && w.server.active == v.server.active
  {
    var later := From(draws, k);
    CanStart(w0, v, i, draws, k, later);
    var xs, moves := ReachesAckWait(Solo(v.server, v.clients[i], [], [], 0), later);
    w, m := SoloRunShown(w0, v, i, draws, k, xs, moves, later, |moves|);
    SoloRunInv(xs, moves, later, |moves|);
    ConfiguredWithoutSession(v.server, xs[|moves|], later);
    NextIdFresh(w0, v, draws, k, v.clients[i].baseId);
    ReachedInv(w0, v, draws, k);
  }

  lemma ThreePolls(ws: seq<World>, actions: seq<Action>, w0: World, w: World, draws: nat -> Draw, k: nat, i: nat)
    returns (ws': seq<World>, actions': seq<Action>, y: World)
    requires Stands(ws, actions, w0, w, draws, k) && BothWait(w, i)
    ensures Stands(ws', actions', w0, y, draws, k) && y.server == w.server
    ensures i in y.clients && y.clients[i] == w.clients[i].(phase := Configured)
  {
    var x;
    ws', actions', x := EmptyPollIn(ws, actions, w0, w, draws, k, i);
    ws', actions', x := EmptyPollIn(ws', actions', w0, x, draws, k, i);
    ws', actions', y := EmptyPollIn(ws', actions', w0, x, draws, k, i);
  }

  /** From every such world: a run that ends with the client configured by the record of the pending entry of its id, and
      with no session for that id. */
  lemma ConfiguredBeforeSession(w0: World, v: World, i: nat, draws: nat -> Draw, k: nat)
    returns (ws: seq<World>, actions: seq<Action>)
    requires Reached(w0, v, draws, k) && CanShakeHands(v, i)
    ensures IsHonest(ws, actions) && ws[0] == w0
    ensures var w := ws[|actions|];
            && i in w.clients && w.clients[i].phase.Configured? && !w.server.failed
            && var c, s := w.clients[i], w.server;
               && IsPending(s.handshakes, c.baseId) && c.config == Adopt(BLANK, ServerHelloOf(s.handshakes[c.baseId]))
               && c.baseId !in s.active && s.active == v.server.active
  {
    var w, m := GetsToWait(w0, v, i, draws, k);
    ws, actions :| Leads(ws, actions, w0, w, draws(m).clock);
    var y;
    ws, actions, y := ThreePolls(ws, actions, w0, w, draws, m, i);
  }
}

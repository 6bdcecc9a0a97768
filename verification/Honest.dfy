/** Runs in which the server takes only what its clients published, in any order, any number of times or never, under a
    strictly increasing clock: what can end the command loop then. */
module Honest {
  import opened Common
  import opened Wire
  import opened Messages
  import opened Crypto
  import opened IpPool
  import opened Sessions
  import opened Server
  import opened Ownership
  import opened History
  import opened Dispatch
  import opened Client
  import opened World

  /** The messages the server took, in order. */
  function EventsOf(actions: seq<Action>): seq<Event>
    decreases |actions|
  {
    if actions == [] then []
    else
      var n := |actions| - 1;
      EventsOf(actions[..n]) + if actions[n].ServerTakes? then [actions[n].event] else []
  }

  ghost predicate IsHonest(ws: seq<World>, actions: seq<Action>) {
    && IsRun(ws, actions) && ClocksIncrease(EventsOf(actions))
    && forall k :: 0 <= k < |actions| && actions[k].ServerTakes? ==> Delivered(ws[k], actions[k].event)
  }

  ghost predicate Delivered(w: World, e: Event) { exists i :: Mail(i, e.payload) in w.rx }

  // ---------- the server of a world's run is a server's run ----------

  lemma EventsOneMore(actions: seq<Action>, k: nat)
    requires k < |actions|
    ensures EventsOf(actions[..k + 1]) ==
            EventsOf(actions[..k]) + if actions[k].ServerTakes? then [actions[k].event] else []
  {
    assert actions[..k + 1][..k] == actions[..k];
  }

  lemma NextServer(w: World, a: Action)
    requires Enabled(w, a)
    ensures Next(w, a).server == if a.ServerTakes? then Consume(w.server, a.event).server else w.server
  {
  }

  lemma {:induction false} NextIsAfter(w: World, a: Action, s0: Server, events: seq<Event>)
    requires Enabled(w, a) && w.server == After(s0, events)
    ensures Next(w, a).server == After(s0, events + if a.ServerTakes? then [a.event] else [])
  {
    NextServer(w, a);
    if a.ServerTakes? {
      AfterOneMore(s0, events, a.event);
    } else {
      assert events + [] == events;
    }
  }

  lemma {:induction false} ServerIsAfter(ws: seq<World>, actions: seq<Action>, k: nat)
    requires IsRun(ws, actions) && k < |ws|
    ensures ws[k].server == After(ws[0].server, EventsOf(actions[..k]))
  {
    if k == 0 {
      assert After(ws[0].server, []) == ws[0].server;
    } else {
      ServerIsAfter(ws, actions, k - 1);
      EventsOneMore(actions, k - 1);
      assert Enabled(ws[k - 1], actions[k - 1]) && ws[k] == Next(ws[k - 1], actions[k - 1]);
      NextIsAfter(ws[k - 1], actions[k - 1], ws[0].server, EventsOf(actions[..k - 1]));
    }
  }

  lemma {:induction false} EventsPrefix(actions: seq<Action>, k: nat)
    requires k <= |actions|
    ensures EventsOf(actions[..k]) <= EventsOf(actions)
    decreases |actions|
  {
    if k < |actions| {
      var n := |actions| - 1;
      EventsPrefix(actions[..n], k);
      assert actions[..n][..k] == actions[..k];
    } else {
      assert actions[..k] == actions;
    }
  }

  /** The id the server generates for a ClientHelloCrypto is new. */
  lemma FreshId(ws: seq<World>, actions: seq<Action>, k: nat, base: string)
    requires IsHonest(ws, actions) && k < |actions| && actions[k].ServerTakes?
    ensures UniqueIdentifier(base, actions[k].event.draw.clock) !in ws[k].server.keys
  {
    var events := EventsOf(actions[..k + 1]);
    EventsOneMore(actions, k);
    EventsPrefix(actions, k + 1);
    ServerIsAfter(ws, actions, k);
    var s := ws[0].server;
    var netIp, poolSize :| 1 <= poolSize <= MAX_SIZE && s == Initial(s.setup, netIp, poolSize);
    GeneratedIdFresh(s.setup, netIp, poolSize, events, base);
    assert events[..|events| - 1] == EventsOf(actions[..k]);
  }

  // ---------- what holds in these runs ----------

  /** The key pair at this id was made for this client. */
  ghost predicate KeyOf(w: World, id: string, i: nat) {
    id in w.server.keys && i in w.clients && w.server.keys[id].tx.clientKey == w.clients[i].seeds.ephemeral
  }

  /** The record answers the ClientHello of this client, for whom the keys of its id were made. */
  ghost predicate RecordOf(w: World, o: SessionConfig, i: nat) {
    KeyOf(w, o.clientId, i) && o.handshakeId == w.clients[i].seeds.handshakeId
  }

  /** A ServerHelloCrypto names an id of the key table and the server key used there. */
  predicate NamesKey(w: World, p: Payload) {
    var r := Read(p, ServerHelloCryptoKind);
    r.Some? ==> r.value.uniqueId in w.server.keys && w.server.keys[r.value.uniqueId].tx.serverKey == r.value.serverKey
  }

  /** The key the client at seeds sends with under an id of the server's key table. */
  function SendingKey(w: World, i: nat, id: string): SessionKey
    requires i in w.clients && id in w.server.keys
  {
    ClientSessionKeys(FreshPair(w.clients[i].seeds.ephemeral), w.server.keys[id].tx.serverKey).tx
  }

  /** While it waits for a reply, the client's keys are made with the server key of its id. */
  ghost predicate HasServerKey(w: World, i: nat)
    requires i in w.clients
  {
    var c := w.clients[i];
    c.phase.AwaitHello? || c.phase.AwaitAck? ==>
      c.baseId in w.server.keys
      && c.keys == map[c.baseId := ClientSessionKeys(FreshPair(c.seeds.ephemeral), w.server.keys[c.baseId].tx.serverKey)]
  }

  /** A client's messages in the clear. */
  ghost predicate ClearMail(w: World, m: Mail, x: Message) {
    m.payload == Write(x) && m.who in w.clients
    && (x.SessionTermination? || (x.ClientHelloCrypto? && x.clientKey == w.clients[m.who].seeds.ephemeral))
  }

  /** A client's sealed messages: its ClientHello, and its ClientACK once it has opened a reply. */
  ghost predicate SealedMail(w: World, m: Mail, id: string, nonce: Nonce, x: Message) {
    && m.who in w.clients && id in w.server.keys
    && m.payload == Write(EncryptedWrapper(id, nonce + Seal(SendingKey(w, m.who, id), nonce, Write(x))))
    && ((x.ClientHello? && x.clientBaseId == id) || (x.ClientAck? && x.clientId == id && KeyOf(w, id, m.who)))
    && x.handshakeId == w.clients[m.who].seeds.handshakeId
  }

  ghost predicate GoodMail(w: World, m: Mail) {
    || (exists x :: ClearMail(w, m, x))
    || (exists id, nonce: Nonce, x :: SealedMail(w, m, id, nonce, x))
  }

  ghost predicate HonestInv(w: World) {
    && (forall p | p in w.tx :: NamesKey(w, p))
    && (forall i | i in w.clients :: HasServerKey(w, i))
    && (forall m | m in w.rx :: GoodMail(w, m))
    && (forall o | o in w.offered :: exists i :: RecordOf(w, o, i))
    && (forall id | id in w.server.keys :: exists i :: KeyOf(w, id, i))
  }

  // ---------- what the server makes of a client's message ----------

  lemma ClearMailRead(w: World, m: Mail, x: Message)
    requires ClearMail(w, m, x)
    ensures Decode(w.server.keys, m.payload) == if x.SessionTermination? then Terminate(x.clientId) else HandshakeCommand(x)
    ensures Read(m.payload, EncryptedWrapperKind).None?
  {
    DecodeInClear(w.server.keys, x);
    ReadWrite(x, EncryptedWrapperKind);
  }

  /** A sealed message is read if and only if the keys of its id were made for its sender. */
  lemma SealedMailRead(w: World, m: Mail, id: string, nonce: Nonce, x: Message)
    requires GoodKeys(w) && SealedMail(w, m, id, nonce, x)
    ensures Decode(w.server.keys, m.payload) == if KeyOf(w, id, m.who) then HandshakeCommand(x) else Unreadable
    ensures var r := Read(m.payload, EncryptedWrapperKind); r.Some? && r.value.clientId == id
  {
    var key, k := SendingKey(w, m.who, id), w.server.keys[id];
    DecodeWrapped(w.server.keys, id, key, nonce, x);
    ReadWrite(EncryptedWrapper(id, nonce + Seal(key, nonce, Write(x))), EncryptedWrapperKind);
    KeysMirror(w.clients[m.who].seeds.ephemeral, k.tx.serverKey, k.tx.serverKey, k.tx.clientKey);
    assert k.rx == key <==> k.tx.clientKey == w.clients[m.who].seeds.ephemeral;
  }

  /** Client i sealed the payload for an id whose keys were made for another client j. */
  ghost predicate IsCrossTalk(w: World, p: Payload, i: nat, j: nat) {
    && i != j && Mail(i, p) in w.rx
    && var r := Read(p, EncryptedWrapperKind); r.Some? && KeyOf(w, r.value.clientId, j)
  }

  /** A message that a client published ends the command loop exactly if it is cross-talk. */
  lemma MailEnds(w: World, e: Event, i: nat)
    requires Inv(w) && HonestInv(w) && !w.server.failed && Mail(i, e.payload) in w.rx
    ensures Consume(w.server, e).server.failed <==> exists j :: IsCrossTalk(w, e.payload, i, j)
  {
    var m := Mail(i, e.payload);
    if x :| ClearMail(w, m, x) {
      FailsExactly(w.server, e);
      ClearMailRead(w, m, x);
    } else {
      var id, nonce: Nonce, x :| SealedMail(w, m, id, nonce, x);
      SealedMailEnds(w, e, m, id, nonce, x);
    }
  }

  lemma SealedMailEnds(w: World, e: Event, m: Mail, id: string, nonce: Nonce, x: Message)
    requires Inv(w) && HonestInv(w) && !w.server.failed && m in w.rx && m.payload == e.payload
    requires SealedMail(w, m, id, nonce, x)
    ensures Consume(w.server, e).server.failed <==> exists j :: IsCrossTalk(w, e.payload, m.who, j)
  {
    SealedMailRead(w, m, id, nonce, x);
    FailsExactly(w.server, e);
    if KeyOf(w, id, m.who) {
      OwnMailPasses(w, m, id, nonce, x);
    } else {
      var j :| KeyOf(w, id, j);
      assert IsCrossTalk(w, e.payload, m.who, j);
    }
  }

  /** The ClientACK of the client for whom the keys were made names the handshake of the pending entry. */
  lemma OwnMailPasses(w: World, m: Mail, id: string, nonce: Nonce, x: Message)
    requires Inv(w) && HonestInv(w) && SealedMail(w, m, id, nonce, x) && KeyOf(w, id, m.who)
    ensures x.ClientAck? && IsPending(w.server.handshakes, id) ==> x.handshakeId == w.server.handshakes[id].handshakeId
    ensures forall j :: KeyOf(w, id, j) ==> j == m.who
  {
    if x.ClientAck? && IsPending(w.server.handshakes, id) {
      var i :| RecordOf(w, w.server.handshakes[id], i);
    }
  }

  // ---------- what keeps holding ----------

  /** Keys and records stay, and clients keep what they drew. */
  ghost predicate Later(w: World, w': World) {
    && Grows(w, w') && w'.clients.Keys == w.clients.Keys
    && forall i | i in w.clients :: w'.clients[i].seeds == w.clients[i].seeds
  }

  lemma KeyOfLater(w: World, w': World, id: string, i: nat)
    requires Later(w, w') && id in w.server.keys
    ensures KeyOf(w', id, i) <==> KeyOf(w, id, i)
  {
  }

  lemma GoodMailLater(w: World, w': World, m: Mail)
    requires Later(w, w') && GoodMail(w, m)
    ensures GoodMail(w', m)
  {
    if x :| ClearMail(w, m, x) {
      assert ClearMail(w', m, x);
    } else {
      var id, nonce: Nonce, x :| SealedMail(w, m, id, nonce, x);
      KeyOfLater(w, w', id, m.who);
      assert SealedMail(w', m, id, nonce, x);
    }
  }

  /** What holds of the payloads, messages, records and keys of a world holds of them in a later one. */
  lemma HonestLater(w: World, w': World)
    requires Later(w, w') && HonestInv(w)
    ensures forall p | p in w.tx :: NamesKey(w', p)
    ensures forall m | m in w.rx :: GoodMail(w', m)
    ensures forall o | o in w.offered :: exists i :: RecordOf(w', o, i)
    ensures forall id | id in w.server.keys :: exists i :: KeyOf(w', id, i)
  {
    forall m | m in w.rx ensures GoodMail(w', m) { GoodMailLater(w, w', m); }
    forall o | o in w.offered ensures exists i :: RecordOf(w', o, i) {
      var i :| RecordOf(w, o, i);
      assert RecordOf(w', o, i);
    }
    forall id | id in w.server.keys ensures exists i :: KeyOf(w', id, i) {
      var i :| KeyOf(w, id, i);
      assert KeyOf(w', id, i);
    }
  }

  // ---------- client moves ----------

  /** A move of client i to c, which publishes this. */
  ghost predicate GoodMove(w: World, i: nat, m: Move)
    requires i in w.clients
  {
    && m.client.seeds == w.clients[i].seeds && HasServerKey(Deliver(w, i, m), i)
    && forall p | p in m.published :: GoodMail(w, Mail(i, p))
  }

  lemma MovedHonest(w: World, i: nat, m: Move)
    requires HonestInv(w) && i in w.clients && GoodMove(w, i, m)
    ensures HonestInv(Deliver(w, i, m))
  {
    var w' := Deliver(w, i, m);
    HonestLater(w, w');
    forall j | j in w'.clients ensures HasServerKey(w', j) {
      assert HasServerKey(w, j);
    }
    forall x | x in w'.rx ensures GoodMail(w', x) {
      if x !in w.rx { GoodMailLater(w, w', x); }
    }
  }

  lemma BeginHonest(w: World, i: nat)
    requires Inv(w) && i in w.clients && w.clients[i].phase.Idle?
    ensures GoodMove(w, i, Begin(w.clients[i]))
  {
    var c := w.clients[i];
    var m := Begin(c);
    assert ClearMail(w, Mail(i, m.published[0]), ClientHelloCrypto(c.baseId, c.seeds.ephemeral));
  }

  lemma StopHonest(w: World, i: nat)
    requires i in w.clients
    ensures GoodMove(w, i, Stop(w.clients[i]))
  {
    var c := w.clients[i];
    assert ClearMail(w, Mail(i, Farewell(c)), SessionTermination(c.config.clientId, c.config.sessionId, "Client request"));
  }

  lemma CryptoAnswerHonest(w: World, i: nat, p: Payload)
    requires Inv(w) && HonestInv(w) && i in w.clients && w.clients[i].phase.AwaitCrypto? && NamesKey(w, p)
    ensures GoodMove(w, i, OnCryptoAnswer(w.clients[i], p))
  {
    var c := w.clients[i];
    var m := OnCryptoAnswer(c, p);
    var r := Read(p, ServerHelloCryptoKind);
    if m.published != [] {
      var x := ClientHello(m.client.baseId, false, "", c.seeds.handshakeId, c.mode);
      assert SealedMail(w, Mail(i, m.published[0]), m.client.baseId, c.seeds.helloNonce, x);
    }
  }

  /** The ServerHello a client opens is the reply to its own ClientHello. */
  lemma OpensOwnReply(w: World, i: nat, p: Payload) returns (x: Message)
    requires Inv(w) && HonestInv(w) && i in w.clients && w.clients[i].phase.AwaitHello? && p in w.tx
    requires Unwrap(w.clients[i], p).Success? && Read(Unwrap(w.clients[i], p).value, ServerHelloKind).Some?
    ensures Read(Unwrap(w.clients[i], p).value, ServerHelloKind) == Some(x)
    ensures x.ServerHello? && x.clientId == w.clients[i].baseId && x.handshakeId == w.clients[i].seeds.handshakeId
    ensures KeyOf(w, w.clients[i].baseId, i)
  {
    var c := w.clients[i];
    var n :| KeyedWith(w, c, n);
    OpensOnlyOwn(w, c, n, p);
    x :| Carries(w, c, p, x);
    ReadWrite(x, ServerHelloKind);
    var o :| OfferFor(w, c.baseId, o) && x == ServerHelloOf(o);
    var j :| RecordOf(w, o, j);
    assert KeyOf(w, c.baseId, i) && j == i;
  }

  lemma HelloAnswerHonest(w: World, i: nat, p: Payload)
    requires Inv(w) && HonestInv(w) && i in w.clients && w.clients[i].phase.AwaitHello? && p in w.tx
    ensures GoodMove(w, i, OnHelloAnswer(w.clients[i], p))
  {
    var c := w.clients[i];
    assert HasServerKey(w, i);
    var m := OnHelloAnswer(c, p);
    if m.published != [] {
      var x := OpensOwnReply(w, i, p);
      AckIsSealedMail(w, i, m.client, m.published[0], x.handshakeId);
    }
  }

  lemma AckIsSealedMail(w: World, i: nat, c: Client, p: Payload, handshakeId: string)
    requires KeyOf(w, c.baseId, i) && c.encrypted && c.seeds == w.clients[i].seeds && handshakeId == c.seeds.handshakeId
    requires c.baseId in c.keys && c.keys[c.baseId].tx == SendingKey(w, i, c.baseId)
    requires Guard(c, Write(ClientAck(c.baseId, handshakeId)), c.seeds.ackNonce) == Success(p)
    ensures GoodMail(w, Mail(i, p))
  {
    assert SealedMail(w, Mail(i, p), c.baseId, c.seeds.ackNonce, ClientAck(c.baseId, handshakeId));
  }

  /** A poll without answer and the last poll publish nothing and leave the keys. */
  lemma QuietPoll(c: Client, answer: Option<Payload>)
    requires Waiting(c) && (answer.None? || c.phase.AwaitAck?)
    ensures var m := Poll(c, answer);
            && m.published == [] && m.client.seeds == c.seeds && m.client.baseId == c.baseId && m.client.keys == c.keys
            && (m.client.phase.AwaitHello? ==> c.phase.AwaitHello?) && (m.client.phase.AwaitAck? ==> c.phase.AwaitAck?)
  {
  }

  lemma PollHonest(w: World, i: nat, answer: Option<Payload>)
    requires Inv(w) && HonestInv(w) && Enabled(w, ClientPolls(i, answer))
    ensures GoodMove(w, i, Poll(w.clients[i], answer))
  {
    var c := w.clients[i];
    if answer.None? || c.phase.AwaitAck? {
      QuietPoll(c, answer);
      assert HasServerKey(w, i);
    } else {
      assert answer.value in w.tx;
      if c.phase.AwaitCrypto? {
        CryptoAnswerHonest(w, i, answer.value);
      } else {
        HelloAnswerHonest(w, i, answer.value);
      }
    }
  }

  // ---------- server moves ----------

  /** Only the reply to a ClientHelloCrypto reads as a ServerHelloCrypto. */
  lemma PublishedNames(s: Server, c: Command, d: Draw, p: Payload, w': World)
    requires s.setup.encrypted && w'.server == Execute(s, c, d).server && p in Execute(s, c, d).published
    requires c.CryptoHello? ==> UniqueIdentifier(c.baseId, d.clock) !in s.keys
    ensures NamesKey(w', p)
  {
    match c
    case CryptoHello(base, _) =>
      ReadWrite(ServerHelloCrypto(UniqueIdentifier(base, d.clock), d.ephemeral, Sign(s.setup.identity, d.ephemeral)),
                ServerHelloCryptoKind);
    case Hello(id, _, _) => WrapperNamesNothing(p, s, id);
    case Ack(id, _) => WrapperNamesNothing(p, s, id);
    case _ => Silent(s, c, d);
  }

  lemma WrapperNamesNothing(p: Payload, s: Server, id: string)
    requires exists text, nonce: Nonce :: Protect(s.setup, s.keys, id, text, nonce) == Success(p)
    requires s.setup.encrypted
    ensures Read(p, ServerHelloCryptoKind).None?
  {
    var text, nonce: Nonce :| Protect(s.setup, s.keys, id, text, nonce) == Success(p);
    ReadWrite(EncryptedWrapper(id, Encrypt(s.keys, text, id, nonce).value), ServerHelloCryptoKind);
  }

  /** A command that stands for a client's message: keys are made for a client, and a ClientHello that is answered is
      that of the client for whom the keys were made. */
  ghost predicate HonestCommand(w: World, c: Command) {
    match c
    case CryptoHello(_, key) => exists i :: i in w.clients && w.clients[i].seeds.ephemeral == key
    case Hello(id, hid, _) => exists i :: KeyOf(w, id, i) && hid == w.clients[i].seeds.handshakeId
    case _ => true
  }

  lemma MailCommand(w: World, e: Event, i: nat)
    requires GoodKeys(w) && GoodMail(w, Mail(i, e.payload))
    ensures HonestCommand(w, CommandOf(w.server, e))
  {
    var m := Mail(i, e.payload);
    if x :| ClearMail(w, m, x) {
      ClearMailRead(w, m, x);
    } else {
      var id, nonce: Nonce, x :| SealedMail(w, m, id, nonce, x);
      SealedMailRead(w, m, id, nonce, x);
    }
  }

  lemma ServerHonest(w: World, e: Event)
    requires Inv(w) && HonestInv(w) && Enabled(w, ServerTakes(e)) && Delivered(w, e)
    requires forall base :: UniqueIdentifier(base, e.draw.clock) !in w.server.keys
    ensures HonestInv(Next(w, ServerTakes(e)))
  {
    var w', c := Next(w, ServerTakes(e)), CommandOf(w.server, e);
    var i :| Mail(i, e.payload) in w.rx;
    MailCommand(w, e, i);
    ServerGrows(w, e);
    HonestLater(w, w');
    forall p | p in w'.tx ensures NamesKey(w', p) {
      if p !in w.tx { PublishedNames(w.server, c, e.draw, p, w'); }
    }
    forall j | j in w'.clients ensures HasServerKey(w', j) {
      assert HasServerKey(w, j);
    }
    NewRecords(w, w', c, e.draw);
    NewKeys(w, w', e);
  }

  lemma NewRecords(w: World, w': World, c: Command, d: Draw)
    requires RecordsSound(w.server) && Later(w, w') && HonestCommand(w, c)
    ensures forall o | o in ToSet(OfferBy(w.server, c, d)) :: exists i :: RecordOf(w', o, i)
  {
    forall o | o in ToSet(OfferBy(w.server, c, d)) ensures exists i :: RecordOf(w', o, i) {
      var i :| KeyOf(w, c.baseId, i) && c.handshakeId == w.clients[i].seeds.handshakeId;
      assert RecordOf(w', o, i);
    }
  }

  lemma NewKeys(w: World, w': World, e: Event)
    requires Later(w, w') && HonestCommand(w, CommandOf(w.server, e)) && w'.server == Consume(w.server, e).server
    ensures forall id | id in w'.server.keys && id !in w.server.keys :: exists i :: KeyOf(w', id, i)
  {
    NewKey(w.server, e);
    forall id | id in w'.server.keys && id !in w.server.keys ensures exists i :: KeyOf(w', id, i) {
      var i :| i in w.clients && w.clients[i].seeds.ephemeral == CommandOf(w.server, e).clientKey;
      assert KeyOf(w', id, i);
    }
  }

  // ---------- every honest run ----------

  lemma NextHonest(ws: seq<World>, actions: seq<Action>, k: nat)
    requires IsHonest(ws, actions) && k < |actions| && HonestInv(ws[k])
    ensures HonestInv(ws[k + 1])
  {
    RunInv(ws, actions, k);
    var w, a := ws[k], actions[k];
    assert Enabled(w, a) && ws[k + 1] == Next(w, a);
    match a
    case ServerTakes(e) =>
      forall base ensures UniqueIdentifier(base, e.draw.clock) !in w.server.keys {
        FreshId(ws, actions, k, base);
      }
      ServerHonest(w, e);
    case ClientBegins(i) =>
      BeginHonest(w, i);
      MovedHonest(w, i, Begin(w.clients[i]));
    case ClientPolls(i, answer) =>
      PollHonest(w, i, answer);
      MovedHonest(w, i, Poll(w.clients[i], answer));
    case ClientStops(i) =>
      StopHonest(w, i);
      MovedHonest(w, i, Stop(w.clients[i]));
  }

  lemma {:induction false} AlwaysHonest(ws: seq<World>, actions: seq<Action>, k: nat)
    requires IsHonest(ws, actions) && k < |ws|
    ensures HonestInv(ws[k])
  {
    if k > 0 {
      AlwaysHonest(ws, actions, k - 1);
      NextHonest(ws, actions, k - 1);
    }
  }

  /** Exactly what ends the command loop when only its clients send to the server: a message that a client sealed for an id
      whose keys the server made for another client, so one that took the other's ServerHelloCrypto. */
  lemma OnlyCrossTalkEndsServer(ws: seq<World>, actions: seq<Action>, k: nat)
    requires IsHonest(ws, actions) && k < |actions| && actions[k].ServerTakes? && !ws[k].server.failed
    ensures ws[k + 1].server.failed <==> exists i, j :: IsCrossTalk(ws[k], actions[k].event.payload, i, j)
  {
    RunInv(ws, actions, k);
    AlwaysHonest(ws, actions, k);
    var w, e := ws[k], actions[k].event;
    assert Delivered(w, e) && Enabled(w, actions[k]) && ws[k + 1] == Next(w, actions[k]);
    NextServer(w, actions[k]);
    var i :| Mail(i, e.payload) in w.rx;
    MailEnds(w, e, i);
    if i', j :| IsCrossTalk(w, e.payload, i', j) {
      MailEnds(w, e, i');
    }
  }
}

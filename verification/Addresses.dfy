/** In honest runs no two configured clients use the same tunnel address. */
module Addresses {
  import opened Common
  import opened Wire
  import opened Messages
  import opened Crypto
  import opened IpPool
  import opened Sessions
  import opened Server
  import opened Ownership
  import opened History
  import opened Client
  import opened World
  import opened Honest

  // ---------- who can end a session ----------

  /** A SessionTermination comes from a client that has stopped and names the id whose keys were made for it. */
  ghost predicate OwnFarewell(w: World, m: Mail) {
    var r := Read(m.payload, SessionTerminationKind);
    r.Some? ==> KeyOf(w, r.value.clientId, m.who) && w.clients[m.who].phase.Stopped?
  }

  /** The client this id belongs to has not stopped. */
  ghost predicate InUse(w: World, id: string) { exists i :: KeyOf(w, id, i) && !w.clients[i].phase.Stopped? }

  /** Nobody but this id holds the address of the record, and its slot is used. */
  ghost predicate Reserved(s: Server, o: SessionConfig) {
    o.clientAddress != "" ==>
      && Issued(s.pool, o.clientAddress)
      && forall h | AddressAt(s, h) == o.clientAddress :: h.id == o.clientId
  }

  ghost predicate AddressesInv(w: World) {
    && (forall m | m in w.rx :: OwnFarewell(w, m))
    && (forall o | o in w.offered :: o.clientId in w.server.keys)
    && (forall o | o in w.offered && InUse(w, o.clientId) :: Reserved(w.server, o))
    && (forall o, o' | o in w.offered && o' in w.offered && InUse(w, o.clientId) && InUse(w, o'.clientId)
          && o.clientAddress == o'.clientAddress != "" :: o.clientId == o'.clientId)
  }

  // ---------- one message ----------

  lemma ReservedByHello(s: Server, c: Command, d: Draw, o: SessionConfig)
    requires AddressesSound(s) && Reserved(s, o) && c.Hello?
    ensures Reserved(Execute(s, c, d).server, o)
    ensures OfferBy(s, c, d).Some? && o.clientAddress != "" ==> OfferBy(s, c, d).value.clientAddress != o.clientAddress
  {
    HelloPuts(s, c.baseId, c.handshakeId, c.mode, d);
    FreshAddress(s.pool);
    var s' := Execute(s, c, d).server;
    if s' != s && o.clientAddress != "" {
      forall h | AddressAt(s', h) == o.clientAddress ensures h.id == o.clientId {
        assert h != Pending(c.baseId) ==> AddressAt(s', h) == AddressAt(s, h);
      }
    }
  }

  lemma ReservedByAck(s: Server, c: Command, d: Draw, o: SessionConfig)
    requires Sound(s) && Reserved(s, o) && c.Ack?
    ensures Reserved(Execute(s, c, d).server, o)
  {
    AckMoves(s, c.clientId, c.handshakeId, d);
    var s' := Execute(s, c, d).server;
    if o.clientAddress != "" {
      forall h | AddressAt(s', h) == o.clientAddress ensures h.id == o.clientId {
        assert h != Live(c.clientId) && h != Pending(c.clientId) ==> AddressAt(s', h) == AddressAt(s, h);
      }
    }
  }

  lemma ReservedAfterDrop(s: Server, s': Server, from: Holder, o: SessionConfig)
    requires AddressesSound(s) && Reserved(s, o) && from.id != o.clientId && s'.pool == Release(s.pool, AddressAt(s, from)).0
    requires AddressAt(s', from) == "" && forall h | h != from :: AddressAt(s', h) == AddressAt(s, h)
    ensures Reserved(s', o)
  {
    ReleaseInBounds(s.pool, AddressAt(s, from));
  }

  lemma ReservedByTerminate(s: Server, c: Command, d: Draw, o: SessionConfig)
    requires AddressesSound(s) && Reserved(s, o) && c.Terminate? && c.clientId != o.clientId
    ensures Reserved(Execute(s, c, d).server, o)
  {
    var s' := Execute(s, c, d).server;
    TerminateMoves(s, c.clientId);
    if c.clientId in s.active {
      ReservedAfterDrop(s, s', Live(c.clientId), o);
    }
  }

  lemma ReservedBy(s: Server, c: Command, d: Draw, o: SessionConfig)
    requires Sound(s) && Reserved(s, o) && (c.Terminate? ==> c.clientId != o.clientId)
    ensures Reserved(Execute(s, c, d).server, o)
  {
    match c
    case Hello(_, _, _) => ReservedByHello(s, c, d, o);
    case Ack(_, _) => ReservedByAck(s, c, d, o);
    case Terminate(_) => ReservedByTerminate(s, c, d, o);
    case _ => OthersMoveNothing(s, c, d);
  }

  /** The address of a new record was free, and now its entry alone holds it. */
  lemma NewlyReserved(s: Server, c: Command, d: Draw)
    requires Sound(s) && OfferBy(s, c, d).Some?
    ensures Reserved(Execute(s, c, d).server, OfferBy(s, c, d).value)
  {
    HelloPuts(s, c.baseId, c.handshakeId, c.mode, d);
    FreshAddress(s.pool);
    var s', o := Execute(s, c, d).server, OfferBy(s, c, d).value;
    forall h | AddressAt(s', h) == o.clientAddress != "" ensures h.id == o.clientId {
      assert h != Pending(c.baseId) ==> AddressAt(s', h) == AddressAt(s, h);
    }
  }

  // ---------- one action ----------

  ghost predicate StopsStay(w: World, w': World) {
    Later(w, w') && forall i | i in w.clients && w.clients[i].phase.Stopped? :: w'.clients[i].phase.Stopped?
  }

  lemma InUseBefore(w: World, w': World, id: string)
    requires StopsStay(w, w') && id in w.server.keys && InUse(w', id)
    ensures InUse(w, id)
  {
    var i :| KeyOf(w', id, i) && !w'.clients[i].phase.Stopped?;
    KeyOfLater(w, w', id, i);
    assert KeyOf(w, id, i);
  }

  lemma FarewellLater(w: World, w': World, m: Mail)
    requires StopsStay(w, w') && OwnFarewell(w, m)
    ensures OwnFarewell(w', m)
  {
  }

  /** A record that is not new keeps its address while its client runs. */
  lemma ReservedLater(w: World, w': World, o: SessionConfig)
    requires StopsStay(w, w') && AddressesInv(w) && o in w.offered && InUse(w', o.clientId)
    ensures InUse(w, o.clientId) && Reserved(w.server, o)
  {
    InUseBefore(w, w', o.clientId);
  }

  /** An action of client i that publishes p, if any, and stops it if p is a farewell. */
  lemma ClientKeeps(w: World, i: nat, m: Move)
    requires AddressesInv(w) && i in w.clients && m.client.seeds == w.clients[i].seeds
    requires w.clients[i].phase.Stopped? ==> m.client.phase.Stopped?
    requires forall p | p in m.published :: OwnFarewell(Deliver(w, i, m), Mail(i, p))
    ensures AddressesInv(Deliver(w, i, m))
  {
    var w' := Deliver(w, i, m);
    forall x | x in w'.rx ensures OwnFarewell(w', x) {
      if x in w.rx { FarewellLater(w, w', x); }
    }
    forall o | o in w'.offered && InUse(w', o.clientId) ensures InUse(w, o.clientId) && Reserved(w'.server, o) {
      ReservedLater(w, w', o);
    }
  }

  /** Before it stops, a client publishes nothing that reads as a SessionTermination. */
  lemma NoFarewell(c: Client, answer: Option<Payload>)
    requires c.encrypted
    ensures forall p | p in Begin(c).published + Poll(c, answer).published :: Read(p, SessionTerminationKind).None?
  {
    ReadWrite(ClientHelloCrypto(c.baseId, c.seeds.ephemeral), SessionTerminationKind);
    forall p | p in Poll(c, answer).published ensures Read(p, SessionTerminationKind).None? {
      var id, packet := PublishesWrapper(c, answer, p);
      ReadWrite(EncryptedWrapper(id, packet), SessionTerminationKind);
    }
  }

  lemma PublishesWrapper(c: Client, answer: Option<Payload>, p: Payload) returns (id: string, packet: Payload)
    requires c.encrypted && p in Poll(c, answer).published
    ensures p == Write(EncryptedWrapper(id, packet))
  {
    if c.phase.AwaitCrypto? {
      var m := Read(answer.value, ServerHelloCryptoKind).value;
      var keys := Emplace(c.keys, m.uniqueId, ClientSessionKeys(c.ephemeral, m.serverKey));
      var hello := Write(ClientHello(m.uniqueId, false, "", c.seeds.handshakeId, c.mode));
      id, packet := m.uniqueId, Encrypt(keys, hello, m.uniqueId, c.seeds.helloNonce).value;
    } else {
      var m := Read(Unwrap(c, answer.value).value, ServerHelloKind).value;
      id, packet := c.baseId, Encrypt(c.keys, Write(ClientAck(m.clientId, m.handshakeId)), c.baseId, c.seeds.ackNonce).value;
    }
  }

  /** The farewell of a configured client names the id its keys were made for. */
  lemma FarewellIsOwn(w: World, i: nat)
    requires Inv(w) && i in w.clients && w.clients[i].phase.Configured?
    ensures OwnFarewell(Deliver(w, i, Stop(w.clients[i])), Mail(i, Farewell(w.clients[i])))
  {
    var c := w.clients[i];
    ReadWrite(SessionTermination(c.config.clientId, c.config.sessionId, "Client request"), SessionTerminationKind);
    var n :| KeyedWith(w, c, n);
    var o :| OfferFor(w, c.baseId, o) && c.config == Adopt(BLANK, ServerHelloOf(o));
    assert KeyOf(w, c.baseId, i);
  }

  /** A message that ends the session of an id comes from a client that has stopped. */
  lemma TerminateIsFarewell(w: World, e: Event)
    requires DistinctSeeds(w) && AddressesInv(w) && Delivered(w, e) && CommandOf(w.server, e).Terminate?
    ensures !InUse(w, CommandOf(w.server, e).clientId)
  {
    var i :| Mail(i, e.payload) in w.rx;
    assert OwnFarewell(w, Mail(i, e.payload));
  }

  lemma ServerKeeps(w: World, e: Event)
    requires Inv(w) && AddressesInv(w) && Enabled(w, ServerTakes(e)) && Delivered(w, e)
    ensures AddressesInv(Next(w, ServerTakes(e)))
  {
    ServerGrows(w, e);
    MessageKeeps(w, e, Next(w, ServerTakes(e)));
  }

  lemma MessageKeeps(w: World, e: Event, w': World)
    requires Inv(w) && AddressesInv(w) && Delivered(w, e) && StopsStay(w, w') && w'.rx == w.rx
    requires w'.server == Consume(w.server, e).server && w'.offered == w.offered + ToSet(OfferOf(w.server, e))
    ensures AddressesInv(w')
  {
    forall m | m in w'.rx ensures OwnFarewell(w', m) { FarewellLater(w, w', m); }
    forall o | o in w'.offered ensures o.clientId in w'.server.keys {
      if o !in w.offered { OfferHasKeys(w.server, CommandOf(w.server, e), e.draw); }
    }
    RecordsKept(w, e, w');
    OwnersKept(w, e, w');
  }

  lemma OfferHasKeys(s: Server, c: Command, d: Draw)
    requires s.setup.encrypted && OfferBy(s, c, d).Some?
    ensures OfferBy(s, c, d).value.clientId in s.keys
  {
  }

  lemma RecordsKept(w: World, e: Event, w': World)
    requires Inv(w) && AddressesInv(w) && Delivered(w, e) && StopsStay(w, w')
    requires w'.server == Consume(w.server, e).server && w'.offered == w.offered + ToSet(OfferOf(w.server, e))
    ensures forall o | o in w'.offered && InUse(w', o.clientId) :: Reserved(w'.server, o)
  {
    forall o | o in w'.offered && InUse(w', o.clientId) ensures Reserved(w'.server, o) {
      KeptOrNew(w, w', e, o);
    }
  }

  lemma OwnersKept(w: World, e: Event, w': World)
    requires AddressesSound(w.server) && AddressesInv(w) && StopsStay(w, w')
    requires w'.offered == w.offered + ToSet(OfferOf(w.server, e))
    ensures forall o, o' | o in w'.offered && o' in w'.offered && InUse(w', o.clientId) && InUse(w', o'.clientId)
              && o.clientAddress == o'.clientAddress != "" :: o.clientId == o'.clientId
  {
    var offer := OfferOf(w.server, e);
    forall o, o' | o in w'.offered && o' in w'.offered && InUse(w', o.clientId) && InUse(w', o'.clientId)
                   && o.clientAddress == o'.clientAddress != ""
      ensures o.clientId == o'.clientId
    {
      SameOwner(w, w', e, offer, o, o');
    }
  }

  lemma SameOwner(w: World, w': World, e: Event, offer: Option<SessionConfig>, o: SessionConfig, o': SessionConfig)
    requires AddressesSound(w.server) && AddressesInv(w) && StopsStay(w, w') && offer == OfferOf(w.server, e)
    requires InUse(w', o.clientId) && InUse(w', o'.clientId) && o.clientAddress == o'.clientAddress != ""
    requires o in w.offered || offer == Some(o)
    requires o' in w.offered || offer == Some(o')
    ensures o.clientId == o'.clientId
  {
    if o in w.offered && o' in w.offered {
      BothOld(w, w', o, o');
    } else if o in w.offered {
      OldDiffersFromNew(w, w', e, o, o');
    } else if o' in w.offered {
      OldDiffersFromNew(w, w', e, o', o);
    }
  }

  lemma BothOld(w: World, w': World, o: SessionConfig, o': SessionConfig)
    requires AddressesInv(w) && StopsStay(w, w') && o in w.offered && o' in w.offered
    requires InUse(w', o.clientId) && InUse(w', o'.clientId) && o.clientAddress == o'.clientAddress != ""
    ensures o.clientId == o'.clientId
  {
    ReservedLater(w, w', o);
    ReservedLater(w, w', o');
  }

  lemma OldDiffersFromNew(w: World, w': World, e: Event, o: SessionConfig, o': SessionConfig)
    requires AddressesSound(w.server) && AddressesInv(w) && StopsStay(w, w') && InUse(w', o.clientId)
    requires o in w.offered && OfferOf(w.server, e) == Some(o') && o.clientAddress != ""
    ensures o.clientAddress != o'.clientAddress
  {
    ReservedLater(w, w', o);
    ReservedByHello(w.server, CommandOf(w.server, e), e.draw, o);
  }

  lemma KeptOrNew(w: World, w': World, e: Event, o: SessionConfig)
    requires Inv(w) && AddressesInv(w) && Delivered(w, e) && StopsStay(w, w') && InUse(w', o.clientId)
    requires o in w.offered + ToSet(OfferOf(w.server, e))
    ensures Reserved(Consume(w.server, e).server, o)
    ensures o in w.offered ==> InUse(w, o.clientId) && Reserved(w.server, o)
  {
    var c := CommandOf(w.server, e);
    if o in w.offered {
      ReservedLater(w, w', o);
      if c.Terminate? { TerminateIsFarewell(w, e); }
      ReservedBy(w.server, c, e.draw, o);
    } else {
      NewlyReserved(w.server, c, e.draw);
    }
  }

  // ---------- every honest run ----------

  lemma NextAddresses(w: World, a: Action)
    requires Inv(w) && AddressesInv(w) && Enabled(w, a)
    requires a.ServerTakes? ==> Delivered(w, a.event)
    ensures AddressesInv(Next(w, a))
  {
    match a
    case ServerTakes(e) => ServerKeeps(w, e);
    case ClientBegins(i) =>
      NoFarewell(w.clients[i], None);
      ClientKeeps(w, i, Begin(w.clients[i]));
    case ClientPolls(i, answer) =>
      NoFarewell(w.clients[i], answer);
      SameSeeds(w.clients[i], answer);
      ClientKeeps(w, i, Poll(w.clients[i], answer));
    case ClientStops(i) =>
      FarewellIsOwn(w, i);
      ClientKeeps(w, i, Stop(w.clients[i]));
  }

  lemma NextAddressesAt(ws: seq<World>, actions: seq<Action>, k: nat)
    requires IsHonest(ws, actions) && k < |actions| && AddressesInv(ws[k])
    ensures AddressesInv(ws[k + 1])
  {
    RunInv(ws, actions, k);
    assert Enabled(ws[k], actions[k]) && ws[k + 1] == Next(ws[k], actions[k]);
    NextAddresses(ws[k], actions[k]);
  }

  lemma {:induction false} AlwaysAddresses(ws: seq<World>, actions: seq<Action>, k: nat)
    requires IsHonest(ws, actions) && k < |ws|
    ensures AddressesInv(ws[k])
  {
    if k > 0 {
      AlwaysAddresses(ws, actions, k - 1);
      NextAddressesAt(ws, actions, k - 1);
    }
  }

  /** In every honest run no two configured clients have the same non-empty tunnel address, whatever handshakes were
      repeated, whatever was stranded and whoever has stopped; and no entry of another id holds it. */
  lemma ConfiguredAddressesDiffer(ws: seq<World>, actions: seq<Action>, k: nat, i: nat)
    requires IsHonest(ws, actions) && k < |ws| && i in ws[k].clients && ws[k].clients[i].phase.Configured?
    requires ws[k].clients[i].config.clientAddress != ""
    ensures forall j | j in ws[k].clients && ws[k].clients[j].phase.Configured? ::
              ws[k].clients[j].config.clientAddress == ws[k].clients[i].config.clientAddress ==> j == i
    ensures var c, s := ws[k].clients[i], ws[k].server;
            Issued(s.pool, c.config.clientAddress)
            && forall h | AddressAt(s, h) == c.config.clientAddress :: h.id == c.baseId
  {
    RunInv(ws, actions, k);
    AlwaysAddresses(ws, actions, k);
    var w := ws[k];
    var o := RecordInUse(w, i);
    forall j | j in w.clients && w.clients[j].phase.Configured?
               && w.clients[j].config.clientAddress == w.clients[i].config.clientAddress
      ensures j == i
    {
      var o' := RecordInUse(w, j);
      ConfiguredIdsDiffer(ws, actions, k, i, j);
    }
  }

  lemma RecordInUse(w: World, i: nat) returns (o: SessionConfig)
    requires Inv(w) && i in w.clients && w.clients[i].phase.Configured?
    ensures o in w.offered && o.clientId == w.clients[i].baseId && o.clientAddress == w.clients[i].config.clientAddress
    ensures InUse(w, o.clientId)
  {
    var c := w.clients[i];
    var n :| KeyedWith(w, c, n);
    o :| OfferFor(w, c.baseId, o) && c.config == Adopt(BLANK, ServerHelloOf(o));
    assert KeyOf(w, c.baseId, i);
  }
}

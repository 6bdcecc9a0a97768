/** What must have happened earlier in a run for its present state to be as it is. */
module History {
  import opened Common
  import opened Wire
  import opened Crypto
  import opened IpPool
  import opened Sessions
  import opened Server
  import opened Ownership

  // ---------- steps of a run ----------

  /** The record a step sends and stores as a ServerHello. */
  function OfferBy(s: Server, c: Command, d: Draw): Option<SessionConfig> {
    var t := Execute(s, c, d);
    if c.Hello? && t.published != [] && c.baseId in t.server.handshakes
    then Some(t.server.handshakes[c.baseId]) else None
  }

  function OfferOf(s: Server, e: Event): Option<SessionConfig> { OfferBy(s, CommandOf(s, e), e.draw) }

  /** The record a step turns into an active session after sending a ServerACK. */
  function ActivationBy(s: Server, c: Command, d: Draw): Option<SessionConfig> {
    if c.Ack? && Execute(s, c, d).published != [] && c.clientId in s.handshakes
    then Some(s.handshakes[c.clientId]) else None
  }

  function ActivationOf(s: Server, e: Event): Option<SessionConfig> { ActivationBy(s, CommandOf(s, e), e.draw) }

  /** Whether a step resets a pending entry because it generated the id of that entry again. */
  predicate ResetsBy(s: Server, c: Command, d: Draw, id: string) {
    c.CryptoHello? && UniqueIdentifier(c.baseId, d.clock) == id && IsPending(s.handshakes, id)
  }

  predicate ResetsPending(s: Server, e: Event, id: string) { ResetsBy(s, CommandOf(s, e), e.draw, id) }

  /** The state before the k-th message. */
  function StateAt(s0: Server, events: seq<Event>, k: nat): Server
    requires k <= |events|
  {
    After(s0, events[..k])
  }

  predicate OfferedAt(s0: Server, events: seq<Event>, k: int, c: SessionConfig)
  {
    0 <= k < |events| && OfferOf(StateAt(s0, events, k), events[k]) == Some(c)
  }

  /** The k-th message is a ClientACK for the id with the record's handshake identifier, and activates the record. */
  predicate ActivatedAt(s0: Server, events: seq<Event>, k: int, id: string, c: SessionConfig) {
    && 0 <= k < |events| && ActivationOf(StateAt(s0, events, k), events[k]) == Some(c)
    && CommandOf(StateAt(s0, events, k), events[k]) == Ack(id, c.handshakeId)
  }

  lemma Earlier(s0: Server, events: seq<Event>, k: int, id: string, c: SessionConfig)
    requires events != []
    ensures var before := events[..|events| - 1];
            && (OfferedAt(s0, before, k, c) ==> OfferedAt(s0, events, k, c))
            && (ActivatedAt(s0, before, k, id, c) ==> ActivatedAt(s0, events, k, id, c))
  {
    var before := events[..|events| - 1];
    if 0 <= k < |before| {
      assert before[..k] == events[..k];
    }
  }

  // ---------- activation ----------

  ghost predicate WasOffered(s0: Server, events: seq<Event>, c: SessionConfig)
  {
    exists j :: OfferedAt(s0, events, j, c)
  }

  ghost predicate WasActivated(s0: Server, events: seq<Event>, id: string, c: SessionConfig)
  {
    exists j, k :: OfferedAt(s0, events, j, c) && j < k && ActivatedAt(s0, events, k, id, c)
  }

  lemma OneStep(s: Server, c: Command, d: Draw, id: string)
    requires RecordsSound(s)
    ensures var t := Execute(s, c, d).server;
            && (IsPending(t.handshakes, id) ==>
                  (IsPending(s.handshakes, id) && t.handshakes[id] == s.handshakes[id])
                  || OfferBy(s, c, d) == Some(t.handshakes[id]))
            && (id in t.active ==>
                  (id in s.active && t.active[id] == s.active[id])
                  || (ActivationBy(s, c, d) == Some(t.active[id]) && IsPending(s.handshakes, id)
                      && s.handshakes[id] == t.active[id] && c == Ack(id, t.active[id].handshakeId)))
  {
  }

  /** In every run each pending record is an earlier ServerHello, and each active session is the record of an
      earlier ServerHello for its id after which a ClientACK with its handshake identifier was consumed. */
  lemma {:induction false} ActivationHistory(setup: Setup, netIp: string, poolSize: int, events: seq<Event>, id: string)
    requires 1 <= poolSize <= MAX_SIZE
    ensures var s0 := Initial(setup, netIp, poolSize);
            var s := After(s0, events);
            && (IsPending(s.handshakes, id) ==> WasOffered(s0, events, s.handshakes[id]))
            && (id in s.active ==> WasActivated(s0, events, id, s.active[id]))
    decreases |events|
  {
    var s0 := Initial(setup, netIp, poolSize);
    if events != [] {
      var n := |events| - 1;
      var before := events[..n];
      ActivationHistory(setup, netIp, poolSize, before, id);
      AlwaysSound(setup, netIp, poolSize, before);
      var s := After(s0, before);
      OneStep(s, CommandOf(s, events[n]), events[n].draw, id);
      KeepsOffered(s0, events);
      KeepsActivated(s0, events, id);
      var t := After(s0, events);
      if IsPending(t.handshakes, id) && OfferOf(s, events[n]) == Some(t.handshakes[id]) {
        assert OfferedAt(s0, events, n, t.handshakes[id]);
      }
      if id in t.active && !(id in s.active && t.active[id] == s.active[id]) {
        var j :| OfferedAt(s0, events, j, t.active[id]) && j < n;
        assert ActivatedAt(s0, events, n, id, t.active[id]);
      }
    }
  }

  lemma KeepsOffered(s0: Server, events: seq<Event>)
    requires events != []
    ensures var before := events[..|events| - 1];
            forall c :: WasOffered(s0, before, c) ==>
              WasOffered(s0, events, c) && exists j :: OfferedAt(s0, events, j, c) && j < |before|
  {
    var before := events[..|events| - 1];
    forall c | WasOffered(s0, before, c) ensures exists j :: OfferedAt(s0, events, j, c) && j < |before| {
      var j :| OfferedAt(s0, before, j, c);
      Earlier(s0, events, j, "", c);
    }
  }

  lemma KeepsActivated(s0: Server, events: seq<Event>, id: string)
    requires events != []
    ensures var before := events[..|events| - 1];
            forall c :: WasActivated(s0, before, id, c) ==> WasActivated(s0, events, id, c)
  {
    var before := events[..|events| - 1];
    forall c | WasActivated(s0, before, id, c) ensures WasActivated(s0, events, id, c) {
      var j, k :| OfferedAt(s0, before, j, c) && j < k && ActivatedAt(s0, before, k, id, c);
      Earlier(s0, events, j, id, c);
      Earlier(s0, events, k, id, c);
    }
  }

  /** Every non-empty address a termination releases was handed out by allocate_ip in an earlier step, from the
      slot that is written now; that slot lies inside the vector. */
  lemma {:induction false} ReleasedWasAllocated(setup: Setup, netIp: string, poolSize: int, events: seq<Event>, id: string)
    requires 1 <= poolSize <= MAX_SIZE
    requires var s := After(Initial(setup, netIp, poolSize), events);
             !s.failed && '.' in netIp && id in s.active && s.active[id].clientAddress != ""
    ensures var s0 := Initial(setup, netIp, poolSize);
            var s := After(s0, events);
            var t := OnTerminate(s, id).server;
            exists j :: OfferedAt(s0, events, j, s.active[id])
              && var slot := LeastFree(StateAt(s0, events, j).pool.usage, 1);
                 && Allocate(StateAt(s0, events, j).pool).1 == s.active[id].clientAddress
                 && 1 <= slot < poolSize && s.pool.usage[slot] && t.pool.usage == s.pool.usage[slot := false]
  {
    var s0 := Initial(setup, netIp, poolSize);
    var s := After(s0, events);
    AlwaysSound(setup, netIp, poolSize, events);
    ActivationHistory(setup, netIp, poolSize, events, id);
    var c := s.active[id];
    var j :| OfferedAt(s0, events, j, c);
    var p := StateAt(s0, events, j).pool;
    OfferAddress(StateAt(s0, events, j), events[j]);
    TerminateReleasesOwnSlot(s, id);
    var k :| 1 <= k < |s.pool.usage| && s.pool.usage[k] && c.clientAddress == Address(s.pool.base, k)
             && OnTerminate(s, id).server.pool.usage == s.pool.usage[k := false];
    AddressInjective(s.pool.base, k, LeastFree(p.usage, 1));
  }

  lemma OfferAddress(s: Server, e: Event)
    requires OfferOf(s, e).Some?
    ensures OfferOf(s, e).value.clientAddress == Allocate(s.pool).1
  {
  }

  // ---------- counting hellos and acknowledgements ----------

  function CountOffers(s0: Server, events: seq<Event>, id: string): nat
    decreases |events|
  {
    if events == [] then 0
    else
      var before := events[..|events| - 1];
      var o := OfferOf(After(s0, before), events[|events| - 1]);
      CountOffers(s0, before, id) + if o.Some? && o.value.clientId == id then 1 else 0
  }

  function CountActivations(s0: Server, events: seq<Event>, id: string): nat
    decreases |events|
  {
    if events == [] then 0
    else
      var before := events[..|events| - 1];
      var o := ActivationOf(After(s0, before), events[|events| - 1]);
      CountActivations(s0, before, id) + if o.Some? && o.value.clientId == id then 1 else 0
  }

  function CountResets(s0: Server, events: seq<Event>, id: string): nat
    decreases |events|
  {
    if events == [] then 0
    else
      var before := events[..|events| - 1];
      CountResets(s0, before, id) + if ResetsPending(After(s0, before), events[|events| - 1], id) then 1 else 0
  }

  lemma CountStep(s: Server, c: Command, d: Draw, id: string)
    requires RecordsSound(s)
    ensures var offer, activation := OfferBy(s, c, d), ActivationBy(s, c, d);
            (if offer.Some? && offer.value.clientId == id then 1 else 0) + (if IsPending(s.handshakes, id) then 1 else 0)
            == (if activation.Some? && activation.value.clientId == id then 1 else 0)
               + (if ResetsBy(s, c, d, id) then 1 else 0)
               + (if IsPending(Execute(s, c, d).server.handshakes, id) then 1 else 0)
  {
  }

  /** ServerHellos sent for an id = ServerACKs sent for it + entries for it reset + 1 while one is pending. */
  lemma {:induction false} HelloAckBalance(setup: Setup, netIp: string, poolSize: int, events: seq<Event>, id: string)
    requires 1 <= poolSize <= MAX_SIZE
    ensures var s0 := Initial(setup, netIp, poolSize);
            CountOffers(s0, events, id) == CountActivations(s0, events, id) + CountResets(s0, events, id)
                                           + if IsPending(After(s0, events).handshakes, id) then 1 else 0
    decreases |events|
  {
    if events != [] {
      var before := events[..|events| - 1];
      HelloAckBalance(setup, netIp, poolSize, before, id);
      AlwaysSound(setup, netIp, poolSize, before);
      var s, e := After(Initial(setup, netIp, poolSize), before), events[|events| - 1];
      CountStep(s, CommandOf(s, e), e.draw, id);
    }
  }

  // ---------- keys ----------

  ghost predicate Extends(larger: KeyTable, smaller: KeyTable) {
    forall id | id in smaller :: id in larger && larger[id] == smaller[id]
  }

  /** No message replaces or removes a key pair. */
  lemma {:induction false} KeysNeverChange(s: Server, events: seq<Event>)
    ensures Extends(After(s, events).keys, s.keys)
    decreases |events|
  {
    if events != [] {
      KeysNeverChange(s, events[..|events| - 1]);
      NewKey(After(s, events[..|events| - 1]), events[|events| - 1]);
    }
  }

  /** With more keys a message that was readable means the same. */
  lemma DecodeMonotone(smaller: KeyTable, larger: KeyTable, payload: Payload)
    requires Extends(larger, smaller) && Decode(smaller, payload) != Unreadable
    ensures Decode(larger, payload) == Decode(smaller, payload)
  {
  }

  predicate ClocksIncrease(events: seq<Event>) {
    forall j, k :: 0 <= j < k < |events| ==> events[j].draw.clock < events[k].draw.clock
  }

  ghost predicate Dated(keys: KeyTable, events: seq<Event>) {
    forall id | id in keys :: exists base, j :: 0 <= j < |events| && id == UniqueIdentifier(base, events[j].draw.clock)
  }

  lemma {:induction false} KeysDated(setup: Setup, netIp: string, poolSize: int, events: seq<Event>)
    requires 1 <= poolSize <= MAX_SIZE
    ensures Dated(After(Initial(setup, netIp, poolSize), events).keys, events)
    decreases |events|
  {
    if events != [] {
      var n := |events| - 1;
      KeysDated(setup, netIp, poolSize, events[..n]);
      var s := After(Initial(setup, netIp, poolSize), events[..n]);
      NewKey(s, events[n]);
      DatedStep(s.keys, Consume(s, events[n]).server.keys, CommandOf(s, events[n]), events);
    }
  }

  lemma DatedStep(keys: KeyTable, keys': KeyTable, c: Command, events: seq<Event>)
    requires events != [] && Dated(keys, events[..|events| - 1])
    requires forall id | id in keys' && id !in keys ::
               c.CryptoHello? && id == UniqueIdentifier(c.baseId, events[|events| - 1].draw.clock)
    ensures Dated(keys', events)
  {
    var n := |events| - 1;
    forall id | id in keys'
      ensures exists base, j :: 0 <= j < |events| && id == UniqueIdentifier(base, events[j].draw.clock)
    {
      if id in keys {
        var base, j :| 0 <= j < n && id == UniqueIdentifier(base, events[..n][j].draw.clock);
        assert id == UniqueIdentifier(base, events[j].draw.clock);
      } else {
        assert id == UniqueIdentifier(c.baseId, events[n].draw.clock);
      }
    }
  }

  /** A message adds at most the one key pair it generates. */
  lemma NewKey(s: Server, e: Event)
    ensures Extends(Consume(s, e).server.keys, s.keys)
    ensures forall id | id in Consume(s, e).server.keys && id !in s.keys ::
              var c := CommandOf(s, e);
              && c.CryptoHello? && id == UniqueIdentifier(c.baseId, e.draw.clock)
              && Consume(s, e).server.keys[id] == ServerSessionKeys(FreshPair(e.draw.ephemeral), c.clientKey)
  {
    NewKeyBy(s, CommandOf(s, e), e.draw);
  }

  lemma NewKeyBy(s: Server, c: Command, d: Draw)
    ensures var keys := Execute(s, c, d).server.keys;
            if c.CryptoHello?
            then keys == Emplace(s.keys, UniqueIdentifier(c.baseId, d.clock),
                                 ServerSessionKeys(FreshPair(d.ephemeral), c.clientKey))
            else keys == s.keys
  {
  }

  /** Under a strictly increasing clock a generated session id is new to the key table. */
  lemma GeneratedIdFresh(setup: Setup, netIp: string, poolSize: int, events: seq<Event>, base: string)
    requires 1 <= poolSize <= MAX_SIZE && events != [] && ClocksIncrease(events)
    ensures var n := |events| - 1;
            UniqueIdentifier(base, events[n].draw.clock) !in After(Initial(setup, netIp, poolSize), events[..n]).keys
  {
    var n := |events| - 1;
    var before := events[..n];
    KeysDated(setup, netIp, poolSize, before);
    var id := UniqueIdentifier(base, events[n].draw.clock);
    if id in After(Initial(setup, netIp, poolSize), before).keys {
      var b, j :| 0 <= j < |before| && id == UniqueIdentifier(b, before[j].draw.clock);
      assert events[j] == before[j];
      UniqueIdentifierInjective(b, before[j].draw.clock, base, events[n].draw.clock);
    }
  }

  function CountCryptoHellos(s0: Server, events: seq<Event>): nat
    decreases |events|
  {
    if events == [] then 0
    else
      var before := events[..|events| - 1];
      CountCryptoHellos(s0, before) + if CommandOf(After(s0, before), events[|events| - 1]).CryptoHello? then 1 else 0
  }

  /** So emplace never drops a key pair: there is one entry for every ClientHelloCrypto processed. */
  lemma {:induction false} OneKeyPerHello(setup: Setup, netIp: string, poolSize: int, events: seq<Event>)
    requires 1 <= poolSize <= MAX_SIZE && ClocksIncrease(events)
    ensures var s0 := Initial(setup, netIp, poolSize);
            |After(s0, events).keys| == CountCryptoHellos(s0, events)
    decreases |events|
  {
    if events != [] {
      var n := |events| - 1;
      var before := events[..n];
      OneKeyPerHello(setup, netIp, poolSize, before);
      var s := After(Initial(setup, netIp, poolSize), before);
      var c := CommandOf(s, events[n]);
      NewKeyBy(s, c, events[n].draw);
      if c.CryptoHello? {
        GeneratedIdFresh(setup, netIp, poolSize, events, c.baseId);
      }
    }
  }

  /** With encryption on and a strictly increasing clock no entry is ever reset, so the ServerHellos for an id
      are its ServerACKs and the pending one. */
  lemma {:induction false} NoResets(setup: Setup, netIp: string, poolSize: int, events: seq<Event>, id: string)
    requires 1 <= poolSize <= MAX_SIZE && setup.encrypted && ClocksIncrease(events)
    ensures var s0 := Initial(setup, netIp, poolSize);
            && CountResets(s0, events, id) == 0
            && CountOffers(s0, events, id) == CountActivations(s0, events, id)
                                              + if IsPending(After(s0, events).handshakes, id) then 1 else 0
    decreases |events|
  {
    HelloAckBalance(setup, netIp, poolSize, events, id);
    if events != [] {
      var n := |events| - 1;
      var before := events[..n];
      NoResets(setup, netIp, poolSize, before, id);
      AlwaysSound(setup, netIp, poolSize, before);
      var s := After(Initial(setup, netIp, poolSize), before);
      if ResetsPending(s, events[n], id) {
        GeneratedIdFresh(setup, netIp, poolSize, events, CommandOf(s, events[n]).baseId);
      }
    }
  }

  /** Under a strictly increasing clock and a digest without collisions, no two ServerHellos of a run carry the
      same session id. */
  lemma SessionIdsDiffer(setup: Setup, netIp: string, poolSize: int, events: seq<Event>, j: int, k: int,
                         c: SessionConfig, d: SessionConfig)
    requires 1 <= poolSize <= MAX_SIZE && ClocksIncrease(events) && j < k
    requires forall x, y :: setup.digest(x) == setup.digest(y) ==> x == y
    requires var s0 := Initial(setup, netIp, poolSize); OfferedAt(s0, events, j, c) && OfferedAt(s0, events, k, d)
    ensures c.sessionId != d.sessionId
  {
    var s0 := Initial(setup, netIp, poolSize);
    OfferDigest(StateAt(s0, events, j), events[j]);
    OfferDigest(StateAt(s0, events, k), events[k]);
    if c.sessionId == d.sessionId {
      UniqueIdentifierInjective(c.clientId, events[j].draw.clock, d.clientId, events[k].draw.clock);
    }
  }

  lemma OfferDigest(s: Server, e: Event)
    requires OfferOf(s, e).Some?
    ensures var o := OfferOf(s, e).value; o.sessionId == s.setup.digest(UniqueIdentifier(o.clientId, e.draw.clock))
  {
  }

  // ---------- redelivery ----------

  /** The k-th message is not answered with a ServerHello for this id. */
  predicate NoOfferAt(s0: Server, events: seq<Event>, k: nat, id: string)
    requires k < |events|
  {
    var o := OfferOf(StateAt(s0, events, k), events[k]);
    o.Some? ==> o.value.clientId != id
  }

  lemma PendingStep(s: Server, c: Command, d: Draw, id: string)
    requires !IsPending(s.handshakes, id)
    requires OfferBy(s, c, d).Some? ==> OfferBy(s, c, d).value.clientId != id
    ensures !IsPending(Execute(s, c, d).server.handshakes, id)
  {
  }

  lemma {:induction false} StaysNotPending(s: Server, events: seq<Event>, id: string)
    requires !IsPending(s.handshakes, id)
    requires forall i :: 0 <= i < |events| ==> NoOfferAt(s, events, i, id)
    ensures !IsPending(After(s, events).handshakes, id)
    decreases |events|
  {
    if events != [] {
      var n := |events| - 1;
      var before := events[..n];
      forall i | 0 <= i < n ensures NoOfferAt(s, before, i, id) {
        assert NoOfferAt(s, events, i, id) && before[..i] == events[..i];
      }
      StaysNotPending(s, before, id);
      var t := After(s, before);
      assert NoOfferAt(s, events, n, id) && StateAt(s, events, n) == t;
      PendingStep(t, CommandOf(t, events[n]), events[n].draw, id);
    }
  }

  lemma ActivationEndsPending(s: Server, c: Command, d: Draw)
    requires RecordsSound(s) && ActivationBy(s, c, d).Some?
    ensures c.Ack? && ActivationBy(s, c, d).value.clientId == c.clientId
    ensures !IsPending(Execute(s, c, d).server.handshakes, c.clientId)
  {
  }

  /** A ClientACK delivered again changes nothing at all and is not answered, as long as the server has not
      sent another ServerHello for that id in between. */
  lemma {:induction false} RedeliveredAck(s: Server, first: Event, between: seq<Event>, again: Draw)
    requires Sound(s) && ActivationOf(s, first).Some?
    requires forall i :: 0 <= i < |between| ==>
               NoOfferAt(Consume(s, first).server, between, i, ActivationOf(s, first).value.clientId)
    ensures var t := After(Consume(s, first).server, between);
            Consume(t, Event(first.payload, again)) == Step(t, [])
  {
    var c := CommandOf(s, first);
    ActivationEndsPending(s, c, first.draw);
    var u := Consume(s, first).server;
    StaysNotPending(u, between, c.clientId);
    NewKey(s, first);
    KeysNeverChange(u, between);
    var t := After(u, between);
    SameCommand(s, t, first, again);
    AckIgnored(t, c, again);
  }

  lemma SameCommand(s: Server, t: Server, e: Event, again: Draw)
    requires Extends(t.keys, s.keys) && CommandOf(s, e).Ack?
    ensures CommandOf(t, Event(e.payload, again)) == if t.failed then Unhandled else CommandOf(s, e)
  {
    DecodeMonotone(s.keys, t.keys, e.payload);
  }

  lemma AckIgnored(t: Server, c: Command, d: Draw)
    requires c.Ack? && !IsPending(t.handshakes, c.clientId)
    ensures Execute(t, c, d) == Execute(t, Unhandled, d) == Step(t, [])
  {
  }
}

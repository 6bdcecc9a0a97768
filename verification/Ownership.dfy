/** Who owns which address: what every message keeps, whatever it is. */
module Ownership {
  import opened Common
  import opened Text
  import opened Topics
  import opened Wire
  import opened Crypto
  import opened IpPool
  import opened Sessions
  import opened Server

  /** A place that can hold an address: an entry of the handshake map or of the active sessions. */
  datatype Holder = Pending(id: string) | Live(id: string)

  function AddressAt(s: Server, h: Holder): string {
    match h
    case Pending(id) => if id in s.handshakes then s.handshakes[id].clientAddress else ""
    case Live(id) => if id in s.active then s.active[id].clientAddress else ""
  }

  /** The address belongs to a slot of the pool that is marked used. */
  ghost predicate Issued(p: Pool, a: string) {
    exists k :: 1 <= k < |p.usage| && p.usage[k] && a == Address(p.base, k)
  }

  /** Every address held comes from a used slot, and no two entries hold the same one. */
  ghost predicate AddressesSound(s: Server) {
    && ValidPool(s.pool)
    && (forall h :: AddressAt(s, h) != "" ==> Issued(s.pool, AddressAt(s, h)))
    && (forall h1, h2 :: AddressAt(s, h1) == AddressAt(s, h2) != "" ==> h1 == h2)
  }

  /** A record the server made for this id. */
  predicate IsOffer(setup: Setup, c: SessionConfig, id: string) {
    && c.clientId == id && c.serverAddress == setup.ownAddress && c.state.HandshakeClientAck?
    && c.topicInbound == InboundTopic(setup.channel, id)
    && c.topicOutbound == OutboundTopic(setup.channel, id)
  }

  /** Pending and active records are the server's own, have their keys and, once active, their subscription. */
  predicate RecordsSound(s: Server) {
    && (forall id | id in s.handshakes && s.handshakes[id].state.HandshakeClientAck? ::
          IsOffer(s.setup, s.handshakes[id], id) && (s.setup.encrypted ==> id in s.keys))
    && (forall id | id in s.active ::
          && IsOffer(s.setup, s.active[id], id) && (s.setup.encrypted ==> id in s.keys)
          && s.active[id].topicOutbound in s.subscriptions)
  }

  ghost predicate Sound(s: Server) { AddressesSound(s) && RecordsSound(s) }

  // ---------- one message ----------

  lemma IssuedWith(p: Pool, k: nat)
    requires 1 <= k < |p.usage| && !p.usage[k]
    ensures var p' := p.(usage := p.usage[k := true]);
            && !Issued(p, Address(p.base, k))
            && forall b :: Issued(p', b) <==> Issued(p, b) || b == Address(p.base, k)
  {
    var p', a := p.(usage := p.usage[k := true]), Address(p.base, k);
    assert p'.usage[k];
    if Issued(p, a) {
      var j :| 1 <= j < |p.usage| && p.usage[j] && a == Address(p.base, j);
      AddressInjective(p.base, j, k);
    }
    forall b | Issued(p, b) ensures Issued(p', b) {
      var j :| 1 <= j < |p.usage| && p.usage[j] && b == Address(p.base, j);
      assert p'.usage[j];
    }
    forall b | Issued(p', b) && b != a ensures Issued(p, b) {
      var j :| 1 <= j < |p.usage| && p'.usage[j] && b == Address(p.base, j);
      assert p.usage[j];
    }
  }

  lemma IssuedWithout(p: Pool, k: nat)
    requires 1 <= k < |p.usage|
    ensures var p' := p.(usage := p.usage[k := false]);
            forall b :: Issued(p', b) <==> Issued(p, b) && b != Address(p.base, k)
  {
    var p', a := p.(usage := p.usage[k := false]), Address(p.base, k);
    forall b | Issued(p, b) && b != a ensures Issued(p', b) {
      var j :| 1 <= j < |p.usage| && p.usage[j] && b == Address(p.base, j);
      assert p'.usage[j];
    }
    forall b | Issued(p', b) ensures Issued(p, b) && b != a {
      var j :| 1 <= j < |p.usage| && p'.usage[j] && b == Address(p.base, j);
      assert p.usage[j] && j != k;
      if b == a { AddressInjective(p.base, j, k); }
    }
  }

  lemma FreshAddress(p: Pool)
    requires ValidPool(p)
    ensures var (p', a) := Allocate(p);
            && ValidPool(p') && (a == "" ==> p' == p)
            && (a != "" ==> !Issued(p, a) && Issued(p', a))
            && forall b :: Issued(p', b) <==> Issued(p, b) || (b == a && a != "")
  {
    var k := LeastFree(p.usage, 1);
    if k < |p.usage| {
      IssuedWith(p, k);
    }
  }

  lemma {:induction false} NoDot(a: string, n: nat)
    requires a == "" + Natural(n)
    ensures RFind(a, '.') == -1
  {
    var r := RFind(a, '.');
    assert r >= 0 ==> !IsDigit(a[r]);
  }

  /** Releasing a held address writes inside the vector, and exactly the slot of that address. */
  lemma ReleaseInBounds(p: Pool, a: string)
    requires ValidPool(p) && (a != "" ==> Issued(p, a))
    ensures var (p', outcome) := Release(p, a);
            && ValidPool(p')
            && (a == "" || p.base == "" ==> p' == p && outcome == Refused)
            && (a != "" && p.base != "" ==>
                  && outcome == Released
                  && exists k :: 1 <= k < |p.usage| && p.usage[k] && a == Address(p.base, k)
                                 && p' == p.(usage := p.usage[k := false]))
            && forall b :: Issued(p', b) <==> Issued(p, b) && (b != a || outcome == Refused)
  {
    if a != "" {
      var k :| 1 <= k < |p.usage| && p.usage[k] && a == Address(p.base, k);
      if p.base == "" {
        NoDot(a, k + 1);
      } else {
        ReleaseAddress(p, k);
        IssuedWithout(p, k);
      }
    }
  }

  /** Nothing moves. */
  lemma SamePlaces(s: Server, s': Server)
    requires AddressesSound(s) && s'.pool == s.pool
    requires forall h :: AddressAt(s', h) == AddressAt(s, h)
    ensures AddressesSound(s')
  {
  }

  /** A fresh address, or none, goes to one place. */
  lemma PutAddress(s: Server, s': Server, to: Holder)
    requires AddressesSound(s) && s'.pool == Allocate(s.pool).0
    requires AddressAt(s', to) == Allocate(s.pool).1 || AddressAt(s', to) == AddressAt(s, to)
    requires forall h | h != to :: AddressAt(s', h) == AddressAt(s, h)
    ensures AddressesSound(s')
  {
    FreshAddress(s.pool);
    var a := Allocate(s.pool).1;
    assert forall h :: AddressAt(s, h) == a ==> a == "";
    assert forall h :: AddressAt(s', h) == AddressAt(s, h) || (h == to && AddressAt(s', h) == a);
  }

  /** An address moves from one place to another. */
  lemma MoveAddress(s: Server, s': Server, from: Holder, to: Holder)
    requires AddressesSound(s) && s'.pool == s.pool && from != to
    requires AddressAt(s', to) == AddressAt(s, from) && AddressAt(s', from) == ""
    requires forall h | h != from && h != to :: AddressAt(s', h) == AddressAt(s, h)
    ensures AddressesSound(s')
  {
    forall h1, h2 | AddressAt(s', h1) == AddressAt(s', h2) != "" ensures h1 == h2 {
      var g1, g2 := if h1 == to then from else h1, if h2 == to then from else h2;
      assert AddressAt(s, g1) == AddressAt(s, g2);
    }
  }

  /** The address of one place is released. */
  lemma DropAddress(s: Server, s': Server, from: Holder)
    requires AddressesSound(s) && s'.pool == Release(s.pool, AddressAt(s, from)).0
    requires AddressAt(s', from) == ""
    requires forall h | h != from :: AddressAt(s', h) == AddressAt(s, h)
    ensures AddressesSound(s')
    ensures Release(s.pool, AddressAt(s, from)).1 == Released || Release(s.pool, AddressAt(s, from)).1 == Refused
  {
    ReleaseInBounds(s.pool, AddressAt(s, from));
  }

  lemma OnCryptoHelloSound(s: Server, baseId: string, clientKey: nat, d: Draw)
    requires Sound(s)
    ensures Sound(OnCryptoHello(s, baseId, clientKey, d).server)
  {
    SamePlaces(s, OnCryptoHello(s, baseId, clientKey, d).server);
  }

  /** Where a ClientHello that is not ignored puts the address it allocates. */
  lemma HelloPuts(s: Server, baseId: string, handshakeId: string, mode: int, d: Draw)
    ensures var s' := OnHello(s, baseId, handshakeId, mode, d).server;
            || s' == s
            || (&& s'.pool == Allocate(s.pool).0
                && (AddressAt(s', Pending(baseId)) == Allocate(s.pool).1
                    || (s'.failed && AddressAt(s', Pending(baseId)) == AddressAt(s, Pending(baseId))))
                && (!s.failed && s'.failed ==> AddressAt(s', Pending(baseId)) == AddressAt(s, Pending(baseId)))
                && forall h | h != Pending(baseId) :: AddressAt(s', h) == AddressAt(s, h))
  {
  }

  /** A ClientACK either moves the address of its entry to the session or moves nothing. */
  lemma AckMoves(s: Server, clientId: string, handshakeId: string, d: Draw)
    requires RecordsSound(s)
    ensures var s' := OnAck(s, clientId, handshakeId, d).server;
            && s'.pool == s.pool
            && (forall h | h != Live(clientId) && h != Pending(clientId) :: AddressAt(s', h) == AddressAt(s, h))
            && if s'.handshakes == s.handshakes
               then AddressAt(s', Live(clientId)) == AddressAt(s, Live(clientId))
                    && AddressAt(s', Pending(clientId)) == AddressAt(s, Pending(clientId))
               else AddressAt(s', Live(clientId)) == AddressAt(s, Pending(clientId))
                    && AddressAt(s', Pending(clientId)) == ""
  {
  }

  /** A termination drops the address of its session and moves nothing else. */
  lemma TerminateMoves(s: Server, clientId: string)
    ensures var s' := OnTerminate(s, clientId).server;
            && (forall h | h != Live(clientId) :: AddressAt(s', h) == AddressAt(s, h))
            && AddressAt(s', Live(clientId)) == ""
            && s'.pool == if clientId in s.active then Release(s.pool, AddressAt(s, Live(clientId))).0 else s.pool
  {
  }

  /** All other commands leave every address where it is. */
  lemma OthersMoveNothing(s: Server, c: Command, d: Draw)
    requires c.CryptoHello? || c.Unhandled? || c.Unreadable?
    ensures var s' := Execute(s, c, d).server;
            s'.pool == s.pool && forall h :: AddressAt(s', h) == AddressAt(s, h)
  {
  }

  lemma OnHelloAddresses(s: Server, baseId: string, handshakeId: string, mode: int, d: Draw)
    requires AddressesSound(s)
    ensures AddressesSound(OnHello(s, baseId, handshakeId, mode, d).server)
  {
    var s' := OnHello(s, baseId, handshakeId, mode, d).server;
    HelloPuts(s, baseId, handshakeId, mode, d);
    if s' != s {
      PutAddress(s, s', Pending(baseId));
    }
  }

  /** A ClientHello touches one entry, which becomes an offer when its reply can be sealed. */
  lemma HelloRecords(s: Server, baseId: string, handshakeId: string, mode: int, d: Draw)
    ensures var s' := OnHello(s, baseId, handshakeId, mode, d).server;
            && s'.setup == s.setup && s'.active == s.active && s'.keys == s.keys && s'.subscriptions == s.subscriptions
            && var o := Offer(s.setup, baseId, handshakeId, mode, Allocate(s.pool).1, d.clock);
               && IsOffer(s.setup, o, baseId)
               && (s'.handshakes == s.handshakes
                   || (s'.handshakes == s.handshakes[baseId := o] && (s.setup.encrypted ==> baseId in s.keys)))
  {
  }

  lemma OnHelloRecords(s: Server, baseId: string, handshakeId: string, mode: int, d: Draw)
    requires RecordsSound(s)
    ensures RecordsSound(OnHello(s, baseId, handshakeId, mode, d).server)
  {
    HelloRecords(s, baseId, handshakeId, mode, d);
  }

  lemma OnAckAddresses(s: Server, clientId: string, handshakeId: string, d: Draw)
    requires Sound(s)
    ensures AddressesSound(OnAck(s, clientId, handshakeId, d).server)
  {
    var s' := OnAck(s, clientId, handshakeId, d).server;
    AckMoves(s, clientId, handshakeId, d);
    if s'.handshakes != s.handshakes {
      MoveAddress(s, s', Pending(clientId), Live(clientId));
    } else {
      SamePlaces(s, s');
    }
  }

  lemma OnAckRecords(s: Server, clientId: string, handshakeId: string, d: Draw)
    requires RecordsSound(s)
    ensures RecordsSound(OnAck(s, clientId, handshakeId, d).server)
  {
  }

  lemma OnTerminateSound(s: Server, clientId: string)
    requires Sound(s) && !s.failed
    ensures Sound(OnTerminate(s, clientId).server)
    ensures !OnTerminate(s, clientId).server.failed
  {
    if clientId in s.active {
      DropAddress(s, OnTerminate(s, clientId).server, Live(clientId));
    }
  }

  lemma ExecuteSound(s: Server, c: Command, d: Draw)
    requires Sound(s) && (s.failed ==> c.Unhandled?)
    ensures Sound(Execute(s, c, d).server)
  {
    match c
    case CryptoHello(baseId, key) => OnCryptoHelloSound(s, baseId, key, d);
    case Hello(baseId, hid, mode) =>
      OnHelloAddresses(s, baseId, hid, mode, d);
      OnHelloRecords(s, baseId, hid, mode, d);
    case Ack(id, hid) =>
      OnAckAddresses(s, id, hid, d);
      OnAckRecords(s, id, hid, d);
    case Terminate(id) => OnTerminateSound(s, id);
    case Unhandled =>
    case Unreadable => SamePlaces(s, s.(failed := true));
  }

  lemma ConsumeSound(s: Server, e: Event)
    requires Sound(s)
    ensures Sound(Consume(s, e).server)
  {
    ExecuteSound(s, CommandOf(s, e), e.draw);
  }

  // ---------- every run ----------

  lemma {:induction false} SoundAfter(s: Server, events: seq<Event>)
    requires Sound(s)
    ensures Sound(After(s, events))
    decreases |events|
  {
    if events != [] {
      SoundAfter(s, events[..|events| - 1]);
      ConsumeSound(After(s, events[..|events| - 1]), events[|events| - 1]);
    }
  }

  /** Over every run, whatever messages arrive: each address held by a handshake or a session has its slot
      marked used, no two entries share one, and records, keys and subscriptions fit together. */
  lemma {:induction false} AlwaysSound(setup: Setup, netIp: string, poolSize: int, events: seq<Event>)
    requires 1 <= poolSize <= MAX_SIZE
    ensures Sound(After(Initial(setup, netIp, poolSize), events))
  {
    SoundAfter(Initial(setup, netIp, poolSize), events);
  }

  // ---------- consequences ----------

  /** In a sound state the first-match scan by address finds the one active session that holds it. */
  lemma ReverseIndex(s: Server, a: string)
    requires Sound(s) && a != ""
    ensures forall id | id in s.active :: s.active[id].clientAddress == a <==> FindByIp(s.active, a) == Some(s.active[id])
    ensures FindByIp(s.active, a).Some? <==>
            exists id :: id in s.active && Holders(s.active, a) == {id} && FindByIp(s.active, a) == Some(s.active[id])
  {
    forall i, j | i in s.active && j in s.active && s.active[i].clientAddress == s.active[j].clientAddress != ""
      ensures i == j
    {
      assert AddressAt(s, Live(i)) == AddressAt(s, Live(j));
    }
    FindByIpInverts(s.active, a);
  }

  /** So in every run the lookup is the inverse of the map from ids to addresses: it finds the session that holds
      a non-empty address, which is the only one, and finds none when no session holds it. */
  lemma {:induction false} ReverseIndexAlways(setup: Setup, netIp: string, poolSize: int, events: seq<Event>, a: string)
    requires 1 <= poolSize <= MAX_SIZE && a != ""
    ensures var t := After(Initial(setup, netIp, poolSize), events).active;
            && (forall id | id in t :: t[id].clientAddress == a <==> FindByIp(t, a) == Some(t[id]))
            && (FindByIp(t, a).None? <==> forall id | id in t :: t[id].clientAddress != a)
            && (FindByIp(t, a).Some? ==> exists id :: id in t && Holders(t, a) == {id} && FindByIp(t, a) == Some(t[id]))
  {
    AlwaysSound(setup, netIp, poolSize, events);
    ReverseIndex(After(Initial(setup, netIp, poolSize), events), a);
  }

  /** With encryption on, in every run, sealing for an entry that awaits its ClientACK or for an active session
      cannot fail. */
  lemma {:induction false} KeyAvailability(setup: Setup, netIp: string, poolSize: int, events: seq<Event>, id: string,
                        plain: Payload, nonce: Nonce)
    requires 1 <= poolSize <= MAX_SIZE && setup.encrypted
    requires var s := After(Initial(setup, netIp, poolSize), events); IsPending(s.handshakes, id) || id in s.active
    ensures var s := After(Initial(setup, netIp, poolSize), events);
            id in s.keys && Encrypt(s.keys, plain, id, nonce).Success?
  {
    AlwaysSound(setup, netIp, poolSize, events);
  }

  /** The address of a terminated session is released inside the vector: the slot is one of 1..size-1, it was
      marked used, it is the slot the address was issued for, and it is free afterwards. */
  lemma TerminateReleasesOwnSlot(s: Server, id: string)
    requires Sound(s) && !s.failed && s.pool.base != "" && id in s.active && s.active[id].clientAddress != ""
    ensures var s' := OnTerminate(s, id).server;
            && !s'.failed && id !in s'.active
            && exists k :: 1 <= k < |s.pool.usage| && s.pool.usage[k]
                           && s.active[id].clientAddress == Address(s.pool.base, k)
                           && s'.pool.usage == s.pool.usage[k := false]
  {
    assert AddressAt(s, Live(id)) != "";
    ReleaseInBounds(s.pool, s.active[id].clientAddress);
  }
}

/** Where every used slot of the pool went: it is held, or it was stranded at a known step. */
module Accounting {
  import opened Common
  import opened IpPool
  import opened Server
  import opened Ownership

  // ---------- what one message strands ----------

  function NonEmpty(a: string): set<string> { if a == "" then {} else {a} }

  /** The addresses no entry holds any more after a message although their slot stays used: that of an
      entry the message overwrites, one allocated just before sealing the reply fails, and one whose pool has
      no dot in its base so that release_ip cannot parse it. */
  ghost function Lost(s: Server, e: Event): set<string>
  {
    LostBy(s, CommandOf(s, e), e.draw)
  }

  ghost function LostBy(s: Server, c: Command, d: Draw): set<string>
  {
    var s' := Execute(s, c, d).server;
    match c
    case Hello(baseId, _, _) =>
      if s' == s then {}
      else if s'.failed then NonEmpty(Allocate(s.pool).1)
      else NonEmpty(AddressAt(s, Pending(baseId)))
    case Ack(id, _) => if s'.handshakes == s.handshakes then {} else NonEmpty(AddressAt(s, Live(id)))
    case Terminate(id) => if s.pool.base != "" then {} else NonEmpty(AddressAt(s, Live(id)))
    case _ => {}
  }

  /** Everything stranded in a run. */
  ghost function Stranded(s: Server, events: seq<Event>): set<string>
    decreases |events|
  {
    if events == [] then {}
    else
      var before := events[..|events| - 1];
      Stranded(s, before) + Lost(After(s, before), events[|events| - 1])
  }

  // ---------- the balance ----------

  ghost predicate IsHeld(s: Server, a: string) { a != "" && exists h :: AddressAt(s, h) == a }

  /** The used slots are those of the held and of the stranded addresses, and no address is both. */
  ghost predicate Balanced(s: Server, stranded: set<string>) {
    && (forall a :: Issued(s.pool, a) <==> IsHeld(s, a) || a in stranded)
    && (forall a :: !(IsHeld(s, a) && a in stranded))
  }

  lemma IssuedNonEmpty(p: Pool)
    ensures !Issued(p, "")
  {
  }

  lemma PutHeld(s: Server, s': Server, to: Holder, a: string)
    requires AddressesSound(s) && AddressAt(s', to) == a && !IsHeld(s, a)
    requires forall h | h != to :: AddressAt(s', h) == AddressAt(s, h)
    ensures forall b :: IsHeld(s', b) <==> (IsHeld(s, b) && b != AddressAt(s, to)) || (b == a && a != "")
  {
    var lost := AddressAt(s, to);
    forall b ensures IsHeld(s', b) <==> (IsHeld(s, b) && b != lost) || (b == a && a != "") {
      if IsHeld(s, b) && b != lost {
        var h :| AddressAt(s, h) == b;
        assert AddressAt(s', h) == b;
      }
      if IsHeld(s', b) && b != a {
        var h :| AddressAt(s', h) == b;
        assert AddressAt(s, h) == b;
      }
    }
  }

  lemma PutBalance(s: Server, s': Server, to: Holder, stranded: set<string>)
    requires AddressesSound(s) && Balanced(s, stranded) && s'.pool == Allocate(s.pool).0
    requires AddressAt(s', to) == Allocate(s.pool).1
    requires forall h | h != to :: AddressAt(s', h) == AddressAt(s, h)
    ensures Balanced(s', stranded + NonEmpty(AddressAt(s, to)))
  {
    FreshAddress(s.pool);
    IssuedNonEmpty(s.pool);
    PutHeld(s, s', to, Allocate(s.pool).1);
    assert AddressAt(s, to) != "" ==> IsHeld(s, AddressAt(s, to));
  }

  /** The allocation happened and nothing holds the address: the server failed before storing it. */
  lemma LeakBalance(s: Server, s': Server, stranded: set<string>)
    requires AddressesSound(s) && Balanced(s, stranded) && s'.pool == Allocate(s.pool).0
    requires forall h :: AddressAt(s', h) == AddressAt(s, h)
    ensures Balanced(s', stranded + NonEmpty(Allocate(s.pool).1))
  {
    FreshAddress(s.pool);
    assert forall b :: IsHeld(s', b) <==> IsHeld(s, b);
  }

  lemma MoveBalance(s: Server, s': Server, from: Holder, to: Holder, stranded: set<string>)
    requires AddressesSound(s) && Balanced(s, stranded) && s'.pool == s.pool && from != to
    requires AddressAt(s', to) == AddressAt(s, from) && AddressAt(s', from) == ""
    requires forall h | h != from && h != to :: AddressAt(s', h) == AddressAt(s, h)
    ensures Balanced(s', stranded + NonEmpty(AddressAt(s, to)))
  {
    var lost := AddressAt(s, to);
    forall b ensures IsHeld(s', b) <==> IsHeld(s, b) && b != lost {
      if IsHeld(s, b) && b != lost {
        var h :| AddressAt(s, h) == b;
        assert AddressAt(s', if h == from then to else h) == b;
      }
      if IsHeld(s', b) {
        var h :| AddressAt(s', h) == b;
        var g := if h == to then from else h;
        assert AddressAt(s, g) == b;
      }
    }
  }

  lemma DropHeld(s: Server, s': Server, from: Holder)
    requires AddressesSound(s) && AddressAt(s', from) == ""
    requires forall h | h != from :: AddressAt(s', h) == AddressAt(s, h)
    ensures forall b :: IsHeld(s', b) <==> IsHeld(s, b) && b != AddressAt(s, from)
  {
    var a := AddressAt(s, from);
    forall b ensures IsHeld(s', b) <==> IsHeld(s, b) && b != a {
      if IsHeld(s, b) && b != a {
        var h :| AddressAt(s, h) == b;
        assert AddressAt(s', h) == b;
      }
      if IsHeld(s', b) {
        var h :| AddressAt(s', h) == b;
        assert AddressAt(s, h) == b;
      }
    }
  }

  lemma DropBalance(s: Server, s': Server, from: Holder, stranded: set<string>)
    requires AddressesSound(s) && Balanced(s, stranded)
    requires forall b :: Issued(s'.pool, b) <==> Issued(s.pool, b) && (b != AddressAt(s, from) || s.pool.base == "")
    requires AddressAt(s', from) == ""
    requires forall h | h != from :: AddressAt(s', h) == AddressAt(s, h)
    ensures Balanced(s', stranded + if s.pool.base != "" then {} else NonEmpty(AddressAt(s, from)))
  {
    DropHeld(s, s', from);
    IssuedNonEmpty(s.pool);
    assert AddressAt(s, from) != "" ==> IsHeld(s, AddressAt(s, from));
  }

  lemma StillBalance(s: Server, s': Server, stranded: set<string>)
    requires Balanced(s, stranded) && s'.pool == s.pool
    requires forall h :: AddressAt(s', h) == AddressAt(s, h)
    ensures Balanced(s', stranded + {})
  {
    assert forall b :: IsHeld(s', b) <==> IsHeld(s, b);
  }

  lemma HelloBalance(s: Server, c: Command, d: Draw, stranded: set<string>)
    requires Sound(s) && !s.failed && Balanced(s, stranded) && c.Hello?
    ensures Balanced(Execute(s, c, d).server, stranded + LostBy(s, c, d))
  {
    var s' := Execute(s, c, d).server;
    HelloPuts(s, c.baseId, c.handshakeId, c.mode, d);
    if s' == s {
      StillBalance(s, s', stranded);
    } else if s'.failed {
      LeakBalance(s, s', stranded);
    } else {
      PutBalance(s, s', Pending(c.baseId), stranded);
    }
  }

  lemma AckBalance(s: Server, c: Command, d: Draw, stranded: set<string>)
    requires Sound(s) && !s.failed && Balanced(s, stranded) && c.Ack?
    ensures Balanced(Execute(s, c, d).server, stranded + LostBy(s, c, d))
  {
    var s' := Execute(s, c, d).server;
    AckMoves(s, c.clientId, c.handshakeId, d);
    if s'.handshakes == s.handshakes {
      StillBalance(s, s', stranded);
    } else {
      MoveBalance(s, s', Pending(c.clientId), Live(c.clientId), stranded);
    }
  }

  lemma TerminateBalance(s: Server, c: Command, d: Draw, stranded: set<string>)
    requires Sound(s) && !s.failed && Balanced(s, stranded) && c.Terminate?
    ensures Balanced(Execute(s, c, d).server, stranded + LostBy(s, c, d))
  {
    var s' := Execute(s, c, d).server;
    if c.clientId in s.active {
      assert AddressAt(s', Live(c.clientId)) == "";
      assert forall h | h != Live(c.clientId) :: AddressAt(s', h) == AddressAt(s, h);
      ReleaseInBounds(s.pool, AddressAt(s, Live(c.clientId)));
      IssuedNonEmpty(s.pool);
      DropBalance(s, s', Live(c.clientId), stranded);
    } else {
      StillBalance(s, s', stranded);
    }
  }

  lemma ExecuteBalance(s: Server, c: Command, d: Draw, stranded: set<string>)
    requires Sound(s) && (s.failed ==> c.Unhandled?) && Balanced(s, stranded)
    ensures Balanced(Execute(s, c, d).server, stranded + LostBy(s, c, d))
  {
    match c
    case Hello(_, _, _) => HelloBalance(s, c, d, stranded);
    case Ack(_, _) => AckBalance(s, c, d, stranded);
    case Terminate(_) => TerminateBalance(s, c, d, stranded);
    case _ => StillBalance(s, Execute(s, c, d).server, stranded);
  }

  /** Over every run the used slots are exactly those of the held and the stranded addresses. */
  lemma {:induction false} AlwaysBalanced(setup: Setup, netIp: string, poolSize: int, events: seq<Event>)
    requires 1 <= poolSize <= MAX_SIZE
    ensures var s := Initial(setup, netIp, poolSize);
            Balanced(After(s, events), Stranded(s, events))
    decreases |events|
  {
    var s := Initial(setup, netIp, poolSize);
    if events == [] {
      assert forall h :: AddressAt(s, h) == "";
    } else {
      var before, e := events[..|events| - 1], events[|events| - 1];
      AlwaysBalanced(setup, netIp, poolSize, before);
      AlwaysSound(setup, netIp, poolSize, before);
      var t := After(s, before);
      ExecuteBalance(t, CommandOf(t, e), e.draw, Stranded(s, before));
    }
  }

  // ---------- counting ----------

  /** The places that hold a non-empty address. */
  function HoldersOf(s: Server): (hs: set<Holder>)
    ensures forall h :: h in hs <==> AddressAt(s, h) != ""
  {
    (set id | id in s.handshakes && s.handshakes[id].clientAddress != "" :: Pending(id))
    + (set id | id in s.active && s.active[id].clientAddress != "" :: Live(id))
  }

  /** As many issued addresses as used slots, because printing octets is injective. */
  lemma IssuedCount(p: Pool, issued: set<string>)
    requires ValidPool(p) && forall a :: a in issued <==> Issued(p, a)
    ensures |issued| == CountUsed(p.usage)
  {
    forall a ensures a in issued <==> exists o :: o in Taken(p) && Address(p.base, o - 1) == a {
      if a in issued {
        var k :| 1 <= k < |p.usage| && p.usage[k] && a == Address(p.base, k);
        assert k + 1 in Taken(p);
      }
    }
    var printed := (o: int) => if o >= 1 then Address(p.base, o - 1) else "";
    forall o, o' | o in Taken(p) && o' in Taken(p) && printed(o) == printed(o') ensures o == o' {
      AddressInjective(p.base, o - 1, o' - 1);
    }
    forall a ensures a in issued <==> exists o :: o in Taken(p) && printed(o) == a {
      if a in issued {
        var o :| o in Taken(p) && Address(p.base, o - 1) == a;
        assert printed(o) == a;
      }
    }
    ImageSize(printed, Taken(p), issued);
    CountTaken(p);
  }

  /** At all times count_allocated() is the number of entries with an address plus the number of stranded ones. */
  lemma {:induction false} ExactAccounting(setup: Setup, netIp: string, poolSize: int, events: seq<Event>)
    requires 1 <= poolSize <= MAX_SIZE
    ensures var s0 := Initial(setup, netIp, poolSize);
            var s := After(s0, events);
            CountUsed(s.pool.usage) == |HoldersOf(s)| + |Stranded(s0, events)|
  {
    var s0 := Initial(setup, netIp, poolSize);
    var s := After(s0, events);
    AlwaysSound(setup, netIp, poolSize, events);
    AlwaysBalanced(setup, netIp, poolSize, events);
    Reconcile(s, Stranded(s0, events));
  }

  lemma Reconcile(s: Server, stranded: set<string>)
    requires AddressesSound(s) && Balanced(s, stranded)
    ensures CountUsed(s.pool.usage) == |HoldersOf(s)| + |stranded|
  {
    var held := set h | h in HoldersOf(s) :: AddressAt(s, h);
    forall a ensures a in held <==> IsHeld(s, a) {
      if IsHeld(s, a) {
        var h :| AddressAt(s, h) == a;
        assert h in HoldersOf(s);
      }
    }
    var at := (h: Holder) => AddressAt(s, h);
    forall a ensures a in held <==> exists h :: h in HoldersOf(s) && at(h) == a {
      if a in held {
        var h :| h in HoldersOf(s) && AddressAt(s, h) == a;
        assert at(h) == a;
      }
    }
    ImageSize(at, HoldersOf(s), held);
    IssuedCount(s.pool, held + stranded);
    assert held !! stranded;
  }

  /** The pool is completely free exactly when no entry has an address and the run has stranded none. */
  lemma {:induction false} PoolDrains(setup: Setup, netIp: string, poolSize: int, events: seq<Event>)
    requires 1 <= poolSize <= MAX_SIZE
    ensures var s0 := Initial(setup, netIp, poolSize);
            var s := After(s0, events);
            CountUsed(s.pool.usage) == 0 <==> Stranded(s0, events) == {} && forall h :: AddressAt(s, h) == ""
  {
    var s0 := Initial(setup, netIp, poolSize);
    ExactAccounting(setup, netIp, poolSize, events);
    if forall h :: AddressAt(After(s0, events), h) == "" {
      assert HoldersOf(After(s0, events)) == {};
    }
  }
}

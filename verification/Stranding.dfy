/** Exactly which messages strand an address of the pool, and when the pool of an idle server is free again. */
module Stranding {
  import opened Messages
  import opened Crypto
  import opened IpPool
  import opened Sessions
  import opened Server
  import opened Ownership
  import opened Accounting
  import opened History
  import opened Dispatch
  import opened Solo

  // ---------- one message ----------

  /** The server does not ignore a ClientHello for this id. */
  predicate TakesHello(s: Server, id: string) {
    id in s.handshakes ==> s.handshakes[id].state.HandshakeClientHello?
  }

  /** A ClientACK with this handshake identifier activates the entry of this id over a session that holds an address. */
  predicate Reactivates(s: Server, id: string, handshakeId: string) {
    && IsPending(s.handshakes, id) && handshakeId == s.handshakes[id].handshakeId
    && id in s.active && s.active[id].clientAddress != ""
  }

  /** A ClientHello is taken, an address is allocated for it, and there is no key to seal the reply. */
  predicate Leaks(s: Server, id: string) {
    s.setup.encrypted && id !in s.keys && Allocate(s.pool).1 != "" && TakesHello(s, id)
  }

  /** Exactly what a message strands, for every sound running server: a ClientHello the address allocated for it when
      its reply cannot be sealed, else the address left in a reset entry; a ClientACK that of the session it activates
      over; a termination that of its session when the pool base has no dot. */
  lemma LostExactly(s: Server, e: Event)
    requires Sound(s) && !s.failed
    ensures Lost(s, e) ==
            match CommandOf(s, e)
            case Hello(id, _, _) =>
              if Leaks(s, id) then {Allocate(s.pool).1}
              else if TakesHello(s, id) && (s.setup.encrypted ==> id in s.keys) then NonEmpty(AddressAt(s, Pending(id)))
              else {}
            case Ack(id, hid) => if Reactivates(s, id, hid) then {s.active[id].clientAddress} else {}
            case Terminate(id) => if s.pool.base == "" && id in s.active then NonEmpty(s.active[id].clientAddress) else {}
            case _ => {}
  {
  }

  // ---------- entries that are not pending ----------

  /** An entry that is not pending holds no address. */
  predicate NoStale(s: Server) {
    forall id | id in s.handshakes && !s.handshakes[id].state.HandshakeClientAck? :: s.handshakes[id].clientAddress == ""
  }

  lemma NoStaleStep(s: Server, c: Command, d: Draw)
    requires NoStale(s) && forall id :: !ResetsBy(s, c, d, id)
    ensures NoStale(Execute(s, c, d).server)
  {
    if c.CryptoHello? {
      assert !ResetsBy(s, c, d, UniqueIdentifier(c.baseId, d.clock));
    }
  }

  lemma NoResetNow(setup: Setup, netIp: string, poolSize: int, events: seq<Event>, id: string)
    requires 1 <= poolSize <= MAX_SIZE && setup.encrypted && ClocksIncrease(events) && events != []
    ensures !ResetsPending(After(Initial(setup, netIp, poolSize), events[..|events| - 1]), events[|events| - 1], id)
  {
    NoResets(setup, netIp, poolSize, events, id);
  }

  /** No message of the run generates the id of a pending entry again. */
  ghost predicate NoResetIn(s0: Server, events: seq<Event>) {
    forall k, id | 0 <= k < |events| :: !ResetsPending(StateAt(s0, events, k), events[k], id)
  }

  lemma {:induction false} NoStaleWithoutResets(s0: Server, events: seq<Event>)
    requires NoStale(s0) && NoResetIn(s0, events)
    ensures NoStale(After(s0, events))
    decreases |events|
  {
    if events != [] {
      var n := |events| - 1;
      var before := events[..n];
      forall k, id | 0 <= k < n ensures !ResetsPending(StateAt(s0, before, k), before[k], id) {
        assert before[..k] == events[..k];
        assert !ResetsPending(StateAt(s0, events, k), events[k], id);
      }
      NoStaleWithoutResets(s0, before);
      var s := After(s0, before);
      forall id ensures !ResetsBy(s, CommandOf(s, events[n]), events[n].draw, id) {
        assert !ResetsPending(StateAt(s0, events, n), events[n], id);
      }
      NoStaleStep(s, CommandOf(s, events[n]), events[n].draw);
    }
  }

  lemma {:induction false} NeverResets(setup: Setup, netIp: string, poolSize: int, events: seq<Event>)
    requires 1 <= poolSize <= MAX_SIZE && setup.encrypted && ClocksIncrease(events)
    ensures NoResetIn(Initial(setup, netIp, poolSize), events)
  {
    forall k, id | 0 <= k < |events|
      ensures !ResetsPending(StateAt(Initial(setup, netIp, poolSize), events, k), events[k], id)
    {
      assert events[..k + 1][..k] == events[..k];
      NoResetNow(setup, netIp, poolSize, events[..k + 1], id);
    }
  }

  lemma {:induction false} AlwaysNoStale(setup: Setup, netIp: string, poolSize: int, events: seq<Event>)
    requires 1 <= poolSize <= MAX_SIZE && setup.encrypted && ClocksIncrease(events)
    ensures NoStale(After(Initial(setup, netIp, poolSize), events))
  {
    NeverResets(setup, netIp, poolSize, events);
    NoStaleWithoutResets(Initial(setup, netIp, poolSize), events);
  }

  // ---------- every run ----------

  predicate Strands(s: Server, c: Command) {
    (c.Ack? && Reactivates(s, c.clientId, c.handshakeId)) || (c.Hello? && Leaks(s, c.baseId))
  }

  predicate StrandsAt(s0: Server, events: seq<Event>, k: nat)
    requires k < |events|
  {
    Strands(StateAt(s0, events, k), CommandOf(StateAt(s0, events, k), events[k]))
  }

  /** With encryption on, a strictly increasing clock and a dotted pool base, a message strands an address if and only
      if it is a ClientACK that activates over a session with an address, or a ClientHello for an id without keys that
      is taken while the pool has a free slot; the second ends the command loop. */
  lemma {:induction false} StrandsExactly(setup: Setup, netIp: string, poolSize: int, events: seq<Event>, e: Event)
    requires 1 <= poolSize <= MAX_SIZE && setup.encrypted && ClocksIncrease(events) && '.' in netIp
    ensures var s := After(Initial(setup, netIp, poolSize), events);
            var c := CommandOf(s, e);
            && (Lost(s, e) != {} <==> Strands(s, c))
            && (c.Ack? && Reactivates(s, c.clientId, c.handshakeId) ==>
                  Lost(s, e) == {s.active[c.clientId].clientAddress} && !Consume(s, e).server.failed)
            && (c.Hello? && Leaks(s, c.baseId) ==>
                  Lost(s, e) == {Allocate(s.pool).1} && Consume(s, e).server.failed)
  {
    var s := After(Initial(setup, netIp, poolSize), events);
    AlwaysNoStale(setup, netIp, poolSize, events);
    AlwaysSound(setup, netIp, poolSize, events);
    if !s.failed {
      LostExactly(s, e);
      FailsExactly(s, e);
    }
  }

  ghost function LostAt(s0: Server, events: seq<Event>, k: nat): set<string>
    requires k < |events|
  {
    Lost(StateAt(s0, events, k), events[k])
  }

  lemma {:induction false} StrandedLast(s0: Server, events: seq<Event>)
    requires events != []
    ensures Stranded(s0, events) == Stranded(s0, events[..|events| - 1]) + LostAt(s0, events, |events| - 1)
  {
  }

  lemma LostBefore(s0: Server, events: seq<Event>, k: nat)
    requires k < |events| - 1
    ensures LostAt(s0, events, k) == LostAt(s0, events[..|events| - 1], k)
  {
    assert events[..|events| - 1][..k] == events[..k];
  }

  lemma {:induction false} StrandedHas(s0: Server, events: seq<Event>, k: nat)
    requires k < |events|
    ensures LostAt(s0, events, k) <= Stranded(s0, events)
    decreases |events|
  {
    StrandedLast(s0, events);
    if k < |events| - 1 {
      StrandedHas(s0, events[..|events| - 1], k);
      LostBefore(s0, events, k);
    }
  }

  lemma {:induction false} StrandedOnly(s0: Server, events: seq<Event>)
    requires forall k :: 0 <= k < |events| ==> LostAt(s0, events, k) == {}
    ensures Stranded(s0, events) == {}
    decreases |events|
  {
    if events != [] {
      var before := events[..|events| - 1];
      StrandedLast(s0, events);
      forall k | 0 <= k < |before| ensures LostAt(s0, before, k) == {} {
        LostBefore(s0, events, k);
      }
      StrandedOnly(s0, before);
    }
  }

  /** So a run has stranded nothing exactly when none of its messages was of those two kinds. */
  lemma {:induction false} StrandedNothing(setup: Setup, netIp: string, poolSize: int, events: seq<Event>)
    requires 1 <= poolSize <= MAX_SIZE && setup.encrypted && ClocksIncrease(events) && '.' in netIp
    ensures var s0 := Initial(setup, netIp, poolSize);
            Stranded(s0, events) == {} <==> forall k :: 0 <= k < |events| ==> !StrandsAt(s0, events, k)
  {
    var s0 := Initial(setup, netIp, poolSize);
    forall k | 0 <= k < |events| ensures StrandsAt(s0, events, k) <==> LostAt(s0, events, k) != {} {
      StrandsExactly(setup, netIp, poolSize, events[..k], events[k]);
    }
    if Stranded(s0, events) == {} {
      forall k | 0 <= k < |events| ensures LostAt(s0, events, k) == {} {
        StrandedHas(s0, events, k);
      }
    } else if forall k :: 0 <= k < |events| ==> LostAt(s0, events, k) == {} {
      StrandedOnly(s0, events);
    }
  }

  /** Nothing pending and no session active. */
  ghost predicate Quiet(s: Server) { s.active == map[] && forall id :: !IsPending(s.handshakes, id) }

  /** Once no handshake is pending and every session is terminated, the pool is completely free if and only if the run
      stranded nothing, in every mode and under every clock, provided that no pending entry was reset. */
  lemma {:induction false} PoolFreeWithoutResets(setup: Setup, netIp: string, poolSize: int, events: seq<Event>)
    requires 1 <= poolSize <= MAX_SIZE && NoResetIn(Initial(setup, netIp, poolSize), events)
    requires Quiet(After(Initial(setup, netIp, poolSize), events))
    ensures var s0 := Initial(setup, netIp, poolSize);
            CountUsed(After(s0, events).pool.usage) == 0 <==> Stranded(s0, events) == {}
  {
    var s := After(Initial(setup, netIp, poolSize), events);
    PoolDrains(setup, netIp, poolSize, events);
    NoStaleWithoutResets(Initial(setup, netIp, poolSize), events);
    forall h ensures AddressAt(s, h) == "" {
      if h.Pending? && h.id in s.handshakes {
        assert !IsPending(s.handshakes, h.id);
      }
    }
  }

  /** With encryption on and an increasing clock nothing is reset; with a dotted base too, the pool of a quiet server is free
      exactly when no ClientACK activated over a session with an address and no ClientHello for an id without keys
      ended the loop. */
  lemma {:induction false} PoolFreeWhenQuiet(setup: Setup, netIp: string, poolSize: int, events: seq<Event>)
    requires 1 <= poolSize <= MAX_SIZE && setup.encrypted && ClocksIncrease(events)
    requires Quiet(After(Initial(setup, netIp, poolSize), events))
    ensures var s0 := Initial(setup, netIp, poolSize);
            var s := After(s0, events);
            && (CountUsed(s.pool.usage) == 0 <==> Stranded(s0, events) == {})
            && ('.' in netIp ==>
                  (CountUsed(s.pool.usage) == 0 <==> forall k :: 0 <= k < |events| ==> !StrandsAt(s0, events, k)))
  {
    NeverResets(setup, netIp, poolSize, events);
    PoolFreeWithoutResets(setup, netIp, poolSize, events);
    if '.' in netIp {
      StrandedNothing(setup, netIp, poolSize, events);
    }
  }

  // ---------- where it happens ----------

  /** A second handshake for an active session: the ClientHello is accepted because the entry is back in its first
      state, the ClientACK activates the new record, and the address of the session is stranded. */
  lemma SecondHandshakeStrands(s: Server, id: string, handshakeId: string, mode: int, d1: Draw, d2: Draw)
    requires Sound(s) && !s.failed && id in s.active && s.active[id].clientAddress != ""
    requires id in s.handshakes && s.handshakes[id].state.HandshakeClientHello?
    ensures var hello, ack := Hello(id, handshakeId, mode), Ack(id, handshakeId);
            var t := Execute(s, hello, d1).server;
            var u := Execute(t, ack, d2).server;
            && !t.failed && LostBy(s, hello, d1) == NonEmpty(s.handshakes[id].clientAddress)
            && !u.failed && LostBy(t, ack, d2) == {s.active[id].clientAddress}
            && u.active[id].clientAddress == Allocate(s.pool).1
  {
    SecondHello(s, id, handshakeId, mode, d1);
    SecondAck(s, Execute(s, Hello(id, handshakeId, mode), d1).server, id, handshakeId, d2);
  }

  lemma SecondHello(s: Server, id: string, handshakeId: string, mode: int, d: Draw)
    requires RecordsSound(s) && !s.failed && id in s.active
    requires id in s.handshakes && s.handshakes[id].state.HandshakeClientHello?
    ensures var t := Execute(s, Hello(id, handshakeId, mode), d).server;
            && !t.failed && t.setup == s.setup && t.keys == s.keys && t.active == s.active
            && IsPending(t.handshakes, id) && t.handshakes[id].handshakeId == handshakeId && t.handshakes[id].clientId == id
            && t.handshakes[id].clientAddress == Allocate(s.pool).1
            && LostBy(s, Hello(id, handshakeId, mode), d) == NonEmpty(s.handshakes[id].clientAddress)
  {
  }

  lemma SecondAck(s: Server, t: Server, id: string, handshakeId: string, d: Draw)
    requires RecordsSound(s) && id in s.active && s.active[id].clientAddress != ""
    requires !t.failed && t.setup == s.setup && t.keys == s.keys && t.active == s.active
    requires IsPending(t.handshakes, id) && t.handshakes[id].handshakeId == handshakeId && t.handshakes[id].clientId == id
    ensures var u := Execute(t, Ack(id, handshakeId), d).server;
            && !u.failed && LostBy(t, Ack(id, handshakeId), d) == {s.active[id].clientAddress}
            && id in u.active && u.active[id] == t.handshakes[id]
  {
  }

  // ---------- whole runs in which it happens ----------

  function ClearCommand(m: Message): Command {
    if m.SessionTermination? then Terminate(m.clientId) else HandshakeCommand(m)
  }

  /** Messages in the clear, what handling each of them drew, the states before and after each of them, and what was
      stranded up to each of these states. */
  datatype Trace = Trace(messages: seq<Message>, draws: seq<Draw>, states: seq<Server>, lost: seq<set<string>>)

  ghost predicate IsTrace(t: Trace) {
    var n := |t.messages|;
    && |t.draws| == n && |t.states| == |t.lost| == n + 1 && t.lost[0] == {}
    && forall k :: 0 <= k < n ==> ClearStep(t, k)
  }

  ghost predicate ClearStep(t: Trace, k: nat)
    requires k < |t.messages| == |t.draws| && |t.states| == |t.lost| == |t.messages| + 1
  {
    var s, c, d := t.states[k], ClearCommand(t.messages[k]), t.draws[k];
    && !t.messages[k].EncryptedWrapper? && !s.failed
    && t.states[k + 1] == Execute(s, c, d).server && t.lost[k + 1] == t.lost[k] + LostBy(s, c, d)
  }

  function LastState(t: Trace): Server
    requires t.states != []
  {
    t.states[|t.states| - 1]
  }

  function LastLost(t: Trace): set<string>
    requires t.lost != []
  {
    t.lost[|t.lost| - 1]
  }

  /** One more message. */
  lemma Then(t: Trace, m: Message, d: Draw) returns (u: Trace)
    requires IsTrace(t) && !m.EncryptedWrapper? && !LastState(t).failed
    ensures IsTrace(u) && u.states[0] == t.states[0] && u.messages == t.messages + [m] && u.draws == t.draws + [d]
    ensures LastState(u) == Execute(LastState(t), ClearCommand(m), d).server
    ensures LastLost(u) == LastLost(t) + LostBy(LastState(t), ClearCommand(m), d)
  {
    var s, c := LastState(t), ClearCommand(m);
    u := Trace(t.messages + [m], t.draws + [d], t.states + [Execute(s, c, d).server],
               t.lost + [LastLost(t) + LostBy(s, c, d)]);
    forall k | 0 <= k < |u.messages| ensures ClearStep(u, k) {
      assert k < |t.messages| ==> ClearStep(t, k);
    }
  }

  function EventsOf(t: Trace): (events: seq<Event>)
    requires |t.messages| == |t.draws|
    ensures |events| == |t.messages| && forall k :: 0 <= k < |events| ==> events[k].draw == t.draws[k]
  {
    seq(|t.messages|, k requires 0 <= k < |t.messages| => Event(Write(t.messages[k]), t.draws[k]))
  }

  lemma {:induction false} TraceIsRun(t: Trace, n: nat)
    requires IsTrace(t) && n <= |t.messages|
    ensures After(t.states[0], EventsOf(t)[..n]) == t.states[n] && Stranded(t.states[0], EventsOf(t)[..n]) == t.lost[n]
  {
    if n > 0 {
      var events := EventsOf(t)[..n];
      assert events[..n - 1] == EventsOf(t)[..n - 1];
      TraceIsRun(t, n - 1);
      assert ClearStep(t, n - 1);
      DecodeInClear(t.states[n - 1].keys, t.messages[n - 1]);
      assert CommandOf(t.states[n - 1], events[n - 1]) == ClearCommand(t.messages[n - 1]);
      StrandedLast(t.states[0], events);
    }
  }

  /** Nothing is pending and no session is active after the run, it stranded the given addresses, and one slot of the
      pool is still used. */
  ghost predicate QuietYetUsed(s0: Server, events: seq<Event>, lost: set<string>) {
    var s := After(s0, events);
    !s.failed && Quiet(s) && Stranded(s0, events) == lost && CountUsed(s.pool.usage) == 1
  }

  lemma TraceEnds(setup: Setup, netIp: string, poolSize: int, t: Trace) returns (events: seq<Event>)
    requires 1 <= poolSize <= MAX_SIZE && IsTrace(t) && t.states[0] == Initial(setup, netIp, poolSize)
    requires !LastState(t).failed && Quiet(LastState(t)) && |HoldersOf(LastState(t))| + |LastLost(t)| == 1
    ensures |events| == |t.draws| && forall k :: 0 <= k < |events| ==> events[k].draw == t.draws[k]
    ensures QuietYetUsed(Initial(setup, netIp, poolSize), events, LastLost(t))
  {
    events := EventsOf(t);
    TraceIsRun(t, |t.messages|);
    assert events[..|t.messages|] == events;
    ExactAccounting(setup, netIp, poolSize, events);
  }

  /** A running server with an entry for one id only. */
  ghost predicate OneEntry(s: Server, id: string) { !s.failed && s.handshakes.Keys == {id} && id in s.keys }

  lemma TraceSound(setup: Setup, netIp: string, poolSize: int, t: Trace)
    requires 1 <= poolSize <= MAX_SIZE && IsTrace(t) && t.states[0] == Initial(setup, netIp, poolSize)
    ensures Sound(LastState(t)) && LastState(t).pool.base == BaseOf(netIp)
  {
    TraceIsRun(t, |t.messages|);
    AlwaysSound(setup, netIp, poolSize, EventsOf(t)[..|t.messages|]);
  }

  /** The first ClientHelloCrypto. */
  lemma FirstId(setup: Setup, netIp: string, poolSize: int, base: string, key: nat, d: Draw) returns (t: Trace)
    requires 2 <= poolSize <= MAX_SIZE
    ensures IsTrace(t) && t.draws == [d] && t.states[0] == Initial(setup, netIp, poolSize)
    ensures var id, s := UniqueIdentifier(base, d.clock), LastState(t);
            && OneEntry(s, id) && s.active == map[] && LastLost(t) == {} && s.handshakes[id] == BLANK
            && Allocate(s.pool).1 == Address(BaseOf(netIp), 1)
  {
    t := Then(Trace([], [], [Initial(setup, netIp, poolSize)], [{}]), ClientHelloCrypto(base, key), d);
  }

  /** From the start to the first record of an id. */
  lemma FirstRecord(setup: Setup, netIp: string, poolSize: int, base: string, key: nat, h: string, mode: int,
                    d1: Draw, d2: Draw)
    returns (t: Trace)
    requires 2 <= poolSize <= MAX_SIZE
    ensures IsTrace(t) && t.draws == [d1, d2] && t.states[0] == Initial(setup, netIp, poolSize)
    ensures var id := UniqueIdentifier(base, d1.clock);
            var s := LastState(t);
            && OneEntry(s, id) && s.active == map[] && LastLost(t) == {} && IsPending(s.handshakes, id)
            && s.handshakes[id].clientAddress == Address(BaseOf(netIp), 1)
  {
    var first := FirstId(setup, netIp, poolSize, base, key, d1);
    t := HelloInTrace(setup, netIp, poolSize, first, UniqueIdentifier(base, d1.clock), h, mode, d2);
  }

  /** The ClientACK for the pending entry of the only id. */
  lemma AckInTrace(setup: Setup, netIp: string, poolSize: int, t: Trace, id: string, d: Draw) returns (u: Trace)
    requires 1 <= poolSize <= MAX_SIZE && IsTrace(t) && t.states[0] == Initial(setup, netIp, poolSize)
    requires OneEntry(LastState(t), id) && LastState(t).active.Keys <= {id} && IsPending(LastState(t).handshakes, id)
    ensures IsTrace(u) && u.states[0] == t.states[0] && u.draws == t.draws + [d]
    ensures var s, s' := LastState(t), LastState(u);
            && OneEntry(s', id) && s'.handshakes[id] == BLANK && s'.active == map[id := s.handshakes[id]]
            && LastLost(u) == LastLost(t) + NonEmpty(AddressAt(s, Live(id)))
  {
    TraceSound(setup, netIp, poolSize, t);
    var s := LastState(t);
    AckAccepted(s, id, d);
    u := Then(t, ClientAck(id, s.handshakes[id].handshakeId), d);
    assert s.active[id := s.handshakes[id]] == map[id := s.handshakes[id]];
  }

  /** A ClientHello under the only id, whose entry is blank. */
  lemma HelloInTrace(setup: Setup, netIp: string, poolSize: int, t: Trace, id: string, h: string, mode: int, d: Draw)
    returns (u: Trace)
    requires 1 <= poolSize <= MAX_SIZE && IsTrace(t) && t.states[0] == Initial(setup, netIp, poolSize)
    requires OneEntry(LastState(t), id) && LastState(t).handshakes[id] == BLANK
    ensures IsTrace(u) && u.states[0] == t.states[0] && u.draws == t.draws + [d]
    ensures var s, s' := LastState(t), LastState(u);
            && OneEntry(s', id) && IsPending(s'.handshakes, id) && s'.active == s.active && LastLost(u) == LastLost(t)
            && s'.handshakes[id].clientAddress == Allocate(s.pool).1
  {
    u := Then(t, ClientHello(id, false, "", h, mode), d);
  }

  /** The only session ends. */
  lemma LastSessionEnds(setup: Setup, netIp: string, poolSize: int, t: Trace, id: string, d: Draw) returns (u: Trace)
    requires 1 <= poolSize <= MAX_SIZE && IsTrace(t) && t.states[0] == Initial(setup, netIp, poolSize) && '.' in netIp
    requires OneEntry(LastState(t), id) && LastState(t).active.Keys == {id} && LastState(t).handshakes[id] == BLANK
    ensures IsTrace(u) && u.states[0] == t.states[0] && u.draws == t.draws + [d] && LastLost(u) == LastLost(t)
    ensures !LastState(u).failed && Quiet(LastState(u)) && HoldersOf(LastState(u)) == {}
  {
    TraceSound(setup, netIp, poolSize, t);
    var s := LastState(t);
    OnTerminateSound(s, id);
    u := Then(t, SessionTermination(id, "", ""), d);
    assert LastState(u).active == map[] && LastState(u).handshakes == s.handshakes;
  }

  /** A first and a second handshake under one id. */
  lemma TwoSessions(setup: Setup, netIp: string, poolSize: int, base: string, key: nat, h: string, mode: int,
                    draws: seq<Draw>)
    returns (t: Trace)
    requires 2 <= poolSize <= MAX_SIZE && '.' in netIp && |draws| == 5
    ensures IsTrace(t) && t.draws == draws && t.states[0] == Initial(setup, netIp, poolSize)
    ensures var id, s := UniqueIdentifier(base, draws[0].clock), LastState(t);
            OneEntry(s, id) && s.active.Keys == {id} && s.handshakes[id] == BLANK
    ensures LastLost(t) == {Address(BaseOf(netIp), 1)}
  {
    var id := UniqueIdentifier(base, draws[0].clock);
    t := FirstRecord(setup, netIp, poolSize, base, key, h, mode, draws[0], draws[1]);
    t := AckInTrace(setup, netIp, poolSize, t, id, draws[2]);
    t := HelloInTrace(setup, netIp, poolSize, t, id, h, mode, draws[3]);
    t := AckInTrace(setup, netIp, poolSize, t, id, draws[4]);
  }

  lemma TwoSessionsEnd(setup: Setup, netIp: string, poolSize: int, base: string, key: nat, h: string, mode: int,
                       draws: seq<Draw>)
    returns (t: Trace)
    requires 2 <= poolSize <= MAX_SIZE && '.' in netIp && |draws| == 6
    ensures IsTrace(t) && t.draws == draws && t.states[0] == Initial(setup, netIp, poolSize)
    ensures !LastState(t).failed && Quiet(LastState(t)) && HoldersOf(LastState(t)) == {}
    ensures LastLost(t) == {Address(BaseOf(netIp), 1)}
  {
    var two := TwoSessions(setup, netIp, poolSize, base, key, h, mode, draws[..5]);
    t := LastSessionEnds(setup, netIp, poolSize, two, UniqueIdentifier(base, draws[0].clock), draws[5]);
  }

  /** From the initial server: after two handshakes under one id and one termination the server is quiet, the first
      address is stranded, and the pool is not free. */
  lemma StrandedByTwoHandshakes(setup: Setup, netIp: string, poolSize: int, base: string, key: nat, h: string, mode: int,
                                draws: seq<Draw>)
    returns (events: seq<Event>)
    requires 2 <= poolSize <= MAX_SIZE && '.' in netIp && |draws| == 6
    ensures |events| == 6 && forall k :: 0 <= k < 6 ==> events[k].draw == draws[k]
    ensures QuietYetUsed(Initial(setup, netIp, poolSize), events, {Address(BaseOf(netIp), 1)})
  {
    var t := TwoSessionsEnd(setup, netIp, poolSize, base, key, h, mode, draws);
    events := TraceEnds(setup, netIp, poolSize, t);
  }

  /** The only id is generated again while its entry is pending. */
  lemma ResetInTrace(t: Trace, base: string, key: nat, d: Draw) returns (u: Trace)
    requires IsTrace(t) && LastState(t).active == map[]
    requires var s, id := LastState(t), UniqueIdentifier(base, d.clock);
             OneEntry(s, id) && IsPending(s.handshakes, id) && s.handshakes[id].clientAddress != ""
    ensures IsTrace(u) && u.states[0] == t.states[0] && u.draws == t.draws + [d] && LastLost(u) == LastLost(t)
    ensures !LastState(u).failed && Quiet(LastState(u))
    ensures HoldersOf(LastState(u)) == {Pending(UniqueIdentifier(base, d.clock))}
  {
    u := Then(t, ClientHelloCrypto(base, key), d);
  }

  lemma ResetTrace(setup: Setup, netIp: string, poolSize: int, base: string, key: nat, h: string, mode: int,
                   draws: seq<Draw>)
    returns (t: Trace)
    requires 2 <= poolSize <= MAX_SIZE && |draws| == 3 && draws[2].clock == draws[0].clock
    ensures IsTrace(t) && t.draws == draws && t.states[0] == Initial(setup, netIp, poolSize)
    ensures !LastState(t).failed && Quiet(LastState(t)) && |HoldersOf(LastState(t))| == 1 && LastLost(t) == {}
  {
    t := FirstRecord(setup, netIp, poolSize, base, key, h, mode, draws[0], draws[1]);
    t := ResetInTrace(t, base, key, draws[2]);
  }

  /** The clock matters: when the same id is generated again, the pending entry is reset and keeps its address. Nothing
      is pending, active or stranded, and yet the pool is not free. */
  lemma ResetEntryKeepsAddress(setup: Setup, netIp: string, poolSize: int, base: string, key: nat, h: string, mode: int,
                               draws: seq<Draw>)
    returns (events: seq<Event>)
    requires 2 <= poolSize <= MAX_SIZE && |draws| == 3 && draws[2].clock == draws[0].clock
    ensures |events| == 3 && forall k :: 0 <= k < 3 ==> events[k].draw == draws[k]
    ensures QuietYetUsed(Initial(setup, netIp, poolSize), events, {})
  {
    var t := ResetTrace(setup, netIp, poolSize, base, key, h, mode, draws);
    events := TraceEnds(setup, netIp, poolSize, t);
  }
}

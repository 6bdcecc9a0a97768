/** When a configured client and its active session come to disagree. */
module Agreements {
  import opened IpPool
  import opened Sessions
  import opened Server
  import opened Ownership
  import opened History
  import opened Client
  import opened World
  import Stranding

  /** The server has a session for the client's id, and the client's config is that session's. */
  predicate Agrees(s: Server, c: Client) {
    c.baseId in s.active && c.config == Adopt(BLANK, ServerHelloOf(s.active[c.baseId]))
  }

  /** The message activates another record over the session of this id. */
  predicate ReplacedBy(s: Server, c: Command, id: string) {
    c.Ack? && c.clientId == id && Stranding.Reactivates(s, id, c.handshakeId)
  }

  // ---------- one message ----------

  /** Exactly what makes a client that agrees with its session disagree with it: a ClientACK that activates the pending
      record of its id over that session. */
  lemma DisagreesBy(s: Server, c: Command, d: Draw, client: Client)
    requires Sound(s) && Agrees(s, client) && client.config.clientAddress != ""
    ensures var t := Execute(s, c, d).server;
            client.baseId in t.active && !Agrees(t, client) <==> ReplacedBy(s, c, client.baseId)
  {
    var id := client.baseId;
    OneStep(s, c, d, id);
    if ReplacedBy(s, c, id) {
      assert AddressAt(s, Live(id)) == client.config.clientAddress;
      assert AddressAt(s, Pending(id)) != AddressAt(s, Live(id));
    }
  }

  /** No entry holds the address, and its slot stays used: it is never issued again. */
  ghost predicate Gone(s: Server, a: string) {
    Issued(s.pool, a) && forall h :: AddressAt(s, h) != a
  }

  lemma GoneByHello(s: Server, c: Command, d: Draw, a: string)
    requires AddressesSound(s) && Gone(s, a) && a != "" && c.Hello?
    ensures Gone(Execute(s, c, d).server, a)
  {
    HelloPuts(s, c.baseId, c.handshakeId, c.mode, d);
    FreshAddress(s.pool);
    var s' := Execute(s, c, d).server;
    if s' != s {
      forall h ensures AddressAt(s', h) != a {
        assert h != Pending(c.baseId) ==> AddressAt(s', h) == AddressAt(s, h);
      }
    }
  }

  lemma GoneByAck(s: Server, c: Command, d: Draw, a: string)
    requires Sound(s) && Gone(s, a) && a != "" && c.Ack?
    ensures Gone(Execute(s, c, d).server, a)
  {
    AckMoves(s, c.clientId, c.handshakeId, d);
    var s' := Execute(s, c, d).server;
    forall h ensures AddressAt(s', h) != a {
      assert h != Live(c.clientId) && h != Pending(c.clientId) ==> AddressAt(s', h) == AddressAt(s, h);
    }
  }

  lemma GoneAfterDrop(s: Server, s': Server, from: Holder, a: string)
    requires AddressesSound(s) && Gone(s, a) && a != "" && s'.pool == Release(s.pool, AddressAt(s, from)).0
    requires AddressAt(s', from) == "" && forall h | h != from :: AddressAt(s', h) == AddressAt(s, h)
    ensures Gone(s', a)
  {
    ReleaseInBounds(s.pool, AddressAt(s, from));
  }

  lemma GoneByTerminate(s: Server, c: Command, d: Draw, a: string)
    requires AddressesSound(s) && Gone(s, a) && a != "" && c.Terminate?
    ensures Gone(Execute(s, c, d).server, a)
  {
    var s' := Execute(s, c, d).server;
    TerminateMoves(s, c.clientId);
    if c.clientId in s.active {
      GoneAfterDrop(s, s', Live(c.clientId), a);
    }
  }

  lemma GoneBy(s: Server, c: Command, d: Draw, a: string)
    requires Sound(s) && Gone(s, a) && a != ""
    ensures Gone(Execute(s, c, d).server, a)
  {
    match c
    case Hello(_, _, _) => GoneByHello(s, c, d, a);
    case Ack(_, _) => GoneByAck(s, c, d, a);
    case Terminate(_) => GoneByTerminate(s, c, d, a);
    case _ => OthersMoveNothing(s, c, d);
  }

  /** The replaced session's address is gone. */
  lemma ReplacedIsGone(s: Server, c: Command, d: Draw, id: string)
    requires Sound(s) && ReplacedBy(s, c, id)
    ensures Gone(Execute(s, c, d).server, s.active[id].clientAddress)
  {
    var a, s' := s.active[id].clientAddress, Execute(s, c, d).server;
    AckMoves(s, id, c.handshakeId, d);
    assert AddressAt(s, Live(id)) == a;
    forall h ensures AddressAt(s', h) != a {
      if h == Live(id) {
        assert AddressAt(s, Pending(id)) != AddressAt(s, Live(id));
      } else if h != Pending(id) {
        assert AddressAt(s', h) == AddressAt(s, h) != AddressAt(s, Live(id));
      }
    }
  }

  // ---------- runs ----------

  /** The l-th action activates another record over the session of this id. */
  ghost predicate ReplacedAt(ws: seq<World>, actions: seq<Action>, l: nat, id: string)
    requires l < |actions| < |ws|
  {
    actions[l].ServerTakes? && ReplacedBy(ws[l].server, CommandOf(ws[l].server, actions[l].event), id)
  }

  lemma ConfigStep(w: World, a: Action, i: nat)
    requires Enabled(w, a) && i in w.clients && w.clients[i].phase in {Configured, Stopped}
    ensures var w' := Next(w, a);
            i in w'.clients && w'.clients[i].phase in {Configured, Stopped}
            && w'.clients[i].(phase := Configured) == w.clients[i].(phase := Configured)
  {
  }

  lemma ConfigStepAt(ws: seq<World>, actions: seq<Action>, k: nat, i: nat)
    requires IsRun(ws, actions) && k < |actions| && i in ws[k].clients && ws[k].clients[i].phase in {Configured, Stopped}
    ensures i in ws[k + 1].clients && ws[k + 1].clients[i].phase in {Configured, Stopped}
    ensures ws[k + 1].clients[i].(phase := Configured) == ws[k].clients[i].(phase := Configured)
  {
    assert Enabled(ws[k], actions[k]) && ws[k + 1] == Next(ws[k], actions[k]);
    ConfigStep(ws[k], actions[k], i);
  }

  /** A configured client keeps its config and its id, also when it stops. */
  lemma {:induction false} ConfigStays(ws: seq<World>, actions: seq<Action>, n: nat, m: nat, i: nat)
    requires IsRun(ws, actions) && n <= m < |ws| && i in ws[n].clients && ws[n].clients[i].phase.Configured?
    ensures i in ws[m].clients && ws[m].clients[i].phase in {Configured, Stopped}
    ensures ws[m].clients[i].(phase := Configured) == ws[n].clients[i]
    decreases m - n
  {
    if n < m {
      ConfigStays(ws, actions, n, m - 1, i);
      ConfigStepAt(ws, actions, m - 1, i);
    }
  }

  /** One action of the world, for a client that agreed with its session at some time. */
  lemma AgreementStep(w: World, a: Action, c: Client)
    requires Inv(w) && Enabled(w, a) && c.config.clientAddress != "" && c.baseId in Next(w, a).server.active
    requires Agrees(w.server, c) || (c.baseId in w.server.active && Gone(w.server, c.config.clientAddress))
    ensures var replaced := a.ServerTakes? && ReplacedBy(w.server, CommandOf(w.server, a.event), c.baseId);
            var s := Next(w, a).server;
            if Agrees(w.server, c) && !replaced then Agrees(s, c) else Gone(s, c.config.clientAddress) && !Agrees(s, c)
  {
    var s, a0 := w.server, c.config.clientAddress;
    if a.ServerTakes? {
      var command := CommandOf(s, a.event);
      if Agrees(s, c) {
        DisagreesBy(s, command, a.event.draw, c);
        if ReplacedBy(s, command, c.baseId) {
          ReplacedIsGone(s, command, a.event.draw, c.baseId);
        }
      } else {
        GoneBy(s, command, a.event.draw, a0);
      }
    }
    NotGoneIfAgrees(Next(w, a).server, c);
    NotGoneIfAgrees(s, c);
  }

  lemma NotGoneIfAgrees(s: Server, c: Client)
    requires c.config.clientAddress != ""
    ensures !(Agrees(s, c) && Gone(s, c.config.clientAddress))
  {
    if Agrees(s, c) {
      assert AddressAt(s, Live(c.baseId)) == c.config.clientAddress;
    }
  }

  ghost predicate AgreesAt(ws: seq<World>, k: nat, c: Client)
    requires k < |ws|
  {
    Agrees(ws[k].server, c)
  }

  ghost predicate GoneAt(ws: seq<World>, k: nat, c: Client)
    requires k < |ws|
  {
    Gone(ws[k].server, c.config.clientAddress) && !Agrees(ws[k].server, c)
  }

  lemma AgreementAt(ws: seq<World>, actions: seq<Action>, k: nat, c: Client)
    requires IsRun(ws, actions) && k < |actions| && c.config.clientAddress != ""
    requires c.baseId in ws[k].server.active && c.baseId in ws[k + 1].server.active
    ensures AgreesAt(ws, k, c) && !ReplacedAt(ws, actions, k, c.baseId) ==> AgreesAt(ws, k + 1, c)
    ensures AgreesAt(ws, k, c) && ReplacedAt(ws, actions, k, c.baseId) ==> GoneAt(ws, k + 1, c)
    ensures GoneAt(ws, k, c) ==> GoneAt(ws, k + 1, c)
  {
    RunInv(ws, actions, k);
    assert Enabled(ws[k], actions[k]) && ws[k + 1] == Next(ws[k], actions[k]);
    if AgreesAt(ws, k, c) || GoneAt(ws, k, c) {
      AgreementStep(ws[k], actions[k], c);
    }
  }

  /** From a time at which a configured client with an address agrees with its session, for as long as the server has a
      session for its id: the two agree if and only if no ClientACK has activated another record over the session. */
  lemma AgreesExactly(ws: seq<World>, actions: seq<Action>, n: nat, m: nat, i: nat)
    requires IsRun(ws, actions) && n <= m < |ws| && i in ws[n].clients && ws[n].clients[i].phase.Configured?
    requires ws[n].clients[i].config.clientAddress != "" && Agrees(ws[n].server, ws[n].clients[i])
    requires forall l :: n <= l <= m ==> ws[n].clients[i].baseId in ws[l].server.active
    ensures i in ws[m].clients && ws[m].clients[i].config == ws[n].clients[i].config
    ensures var c := ws[n].clients[i];
            Agrees(ws[m].server, c) <==> forall l :: n <= l < m ==> !ReplacedAt(ws, actions, l, c.baseId)
  {
    ConfigStays(ws, actions, n, m, i);
    assert AgreesAt(ws, n, ws[n].clients[i]);
    AgreesOrGone(ws, actions, n, m, ws[n].clients[i]);
    assert AgreesAt(ws, m, ws[n].clients[i]) <==> Agrees(ws[m].server, ws[n].clients[i]);
  }

  /** From a state of the first kind, the run stays there until the first step of kind r, which leads to the second kind
      for good. */
  lemma {:induction false} UntilFirst(first: nat -> bool, second: nat -> bool, r: nat -> bool, n: nat, m: nat)
    requires n <= m && first(n)
    requires forall k :: n <= k < m ==> (first(k) && !r(k) ==> first(k + 1)) && (first(k) && r(k) ==> second(k + 1))
    requires forall k :: n <= k < m ==> (second(k) ==> second(k + 1))
    ensures if forall l :: n <= l < m ==> !r(l) then first(m) else second(m)
    decreases m - n
  {
    if n < m {
      UntilFirst(first, second, r, n, m - 1);
      assert first(m - 1) || second(m - 1);
    }
  }

  lemma AgreesOrGone(ws: seq<World>, actions: seq<Action>, n: nat, m: nat, c: Client)
    requires IsRun(ws, actions) && n <= m < |ws| && c.config.clientAddress != "" && AgreesAt(ws, n, c)
    requires forall l :: n <= l <= m ==> c.baseId in ws[l].server.active
    ensures if forall l :: n <= l < m ==> !ReplacedAt(ws, actions, l, c.baseId) then AgreesAt(ws, m, c) else GoneAt(ws, m, c)
  {
    var first := (k: nat) => k < |ws| && AgreesAt(ws, k, c);
    var second := (k: nat) => k < |ws| && GoneAt(ws, k, c);
    var r := (k: nat) => k < |actions| && ReplacedAt(ws, actions, k, c.baseId);
    forall k | n <= k < m
      ensures (first(k) && !r(k) ==> first(k + 1)) && (first(k) && r(k) ==> second(k + 1))
      ensures second(k) ==> second(k + 1)
    {
      AgreementAt(ws, actions, k, c);
    }
    UntilFirst(first, second, r, n, m);
    assert forall l :: n <= l < m ==> (r(l) <==> ReplacedAt(ws, actions, l, c.baseId));
  }

  /** One message, from the state before it: a configured client with an address that agrees with its session does not agree
      with it after the message, although the session is still there, if and only if the message is a ClientACK that
      activates the pending record of its id over that session. */
  lemma DisagreementStep(ws: seq<World>, actions: seq<Action>, k: nat, i: nat)
    requires IsRun(ws, actions) && k < |actions| && actions[k].ServerTakes?
    requires i in ws[k].clients && ws[k].clients[i].phase.Configured? && ws[k].clients[i].config.clientAddress != ""
    requires Agrees(ws[k].server, ws[k].clients[i])
    ensures var c := ws[k].clients[i];
            && ws[k + 1].clients[i] == c
            && (c.baseId in ws[k + 1].server.active && !Agrees(ws[k + 1].server, c) <==>
                ReplacedBy(ws[k].server, CommandOf(ws[k].server, actions[k].event), c.baseId))
  {
    RunInv(ws, actions, k);
    assert Enabled(ws[k], actions[k]) && ws[k + 1] == Next(ws[k], actions[k]);
    DisagreesBy(ws[k].server, CommandOf(ws[k].server, actions[k].event), actions[k].event.draw, ws[k].clients[i]);
  }
}

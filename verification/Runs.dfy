/** Building honest runs of the world action by action; every exchange of one client alone is part of such a run. */
module Runs {
  import opened Common
  import opened Wire
  import opened Messages
  import opened Crypto
  import opened IpPool
  import opened Sessions
  import opened Server
  import opened Ownership
  import opened History
  import opened Client
  import opened World
  import opened Honest
  import opened Solo

  // ---------- building runs ----------

  /** What the server draws for its messages: the clock increases, no ephemeral key is drawn twice. */
  ghost predicate GoodDraws(draws: nat -> Draw) {
    forall k: nat, l: nat | k < l :: draws(k).clock < draws(l).clock && draws(k).ephemeral != draws(l).ephemeral
  }

  ghost predicate Leads(ws: seq<World>, actions: seq<Action>, w0: World, w: World, t: int) {
    && IsHonest(ws, actions) && ws[0] == w0 && ws[|actions|] == w
    && forall e | e in EventsOf(actions) :: e.draw.clock < t
  }

  ghost predicate Led(w0: World, w: World, t: int) { exists ws, actions :: Leads(ws, actions, w0, w, t) }

  ghost predicate Undrawn(w: World, draws: nat -> Draw, k: nat) { forall l: nat | l >= k :: draws(l).ephemeral !in w.drawn }

  /** An honest run leads from w0 to w, and the server drew nothing that is still to come at k or later. */
  ghost predicate Reached(w0: World, w: World, draws: nat -> Draw, k: nat) {
    GoodDraws(draws) && Led(w0, w, draws(k).clock) && Undrawn(w, draws, k)
  }

  lemma StartReached(w: World, draws: nat -> Draw)
    requires IsInitial(w) && GoodDraws(draws) && forall l: nat :: draws(l).ephemeral !in w.drawn
    ensures Reached(w, w, draws, 0)
  {
    assert Leads([w], [], w, w, draws(0).clock);
  }

  lemma ReachedInv(w0: World, w: World, draws: nat -> Draw, k: nat)
    requires Reached(w0, w, draws, k)
    ensures Inv(w) && HonestInv(w)
  {
    var ws, actions :| Leads(ws, actions, w0, w, draws(k).clock);
    RunInv(ws, actions, |actions|);
    AlwaysHonest(ws, actions, |actions|);
  }

  lemma OneMoreStep(ws: seq<World>, actions: seq<Action>, a: Action, w: World)
    requires IsRun(ws, actions) && Enabled(ws[|actions|], a) && w == Next(ws[|actions|], a)
    ensures IsRun(ws + [w], actions + [a])
  {
    var ws', actions' := ws + [w], actions + [a];
    forall k | 0 <= k < |actions'| ensures Enabled(ws'[k], actions'[k]) && ws'[k + 1] == Next(ws'[k], actions'[k]) {
      if k < |actions| {
        assert ws'[k] == ws[k] && ws'[k + 1] == ws[k + 1] && actions'[k] == actions[k];
      }
    }
  }

  lemma {:induction false} OneMoreEvent(actions: seq<Action>, a: Action, t: int)
    requires ClocksIncrease(EventsOf(actions)) && forall e | e in EventsOf(actions) :: e.draw.clock < t
    requires a.ServerTakes? ==> a.event.draw.clock >= t
    ensures ClocksIncrease(EventsOf(actions + [a]))
    ensures forall e | e in EventsOf(actions + [a]) :: e.draw.clock < if a.ServerTakes? then a.event.draw.clock + 1 else t
  {
    var more := actions + [a];
    EventsOneMore(more, |actions|);
    assert more[..|actions|] == actions && more[..|actions| + 1] == more;
  }

  /** One more action at the end of an honest run. */
  lemma OneMoreAction(ws: seq<World>, actions: seq<Action>, w0: World, w: World, t: int, a: Action)
    returns (ws': seq<World>, actions': seq<Action>)
    requires Leads(ws, actions, w0, w, t) && Enabled(w, a)
    requires a.ServerTakes? ==> Delivered(w, a.event) && a.event.draw.clock >= t
    ensures ws' == ws + [Next(w, a)] && actions' == actions + [a]
    ensures Leads(ws', actions', w0, Next(w, a), if a.ServerTakes? then a.event.draw.clock + 1 else t)
  {
    ws', actions' := ws + [Next(w, a)], actions + [a];
    OneMoreStep(ws, actions, a, Next(w, a));
    OneMoreEvent(actions, a, t);
  }

  lemma ClientActs(w0: World, w: World, draws: nat -> Draw, k: nat, a: Action)
    requires Reached(w0, w, draws, k) && Enabled(w, a) && !a.ServerTakes?
    ensures Reached(w0, Next(w, a), draws, k)
  {
    var ws, actions :| Leads(ws, actions, w0, w, draws(k).clock);
    var ws', actions' := OneMoreAction(ws, actions, w0, w, draws(k).clock, a);
    assert Leads(ws', actions', w0, Next(w, a), draws(k).clock);
  }

  lemma ServerActs(w0: World, w: World, draws: nat -> Draw, k: nat, p: Payload)
    requires Reached(w0, w, draws, k) && exists i :: Mail(i, p) in w.rx
    ensures Enabled(w, ServerTakes(Event(p, draws(k))))
    ensures Reached(w0, Next(w, ServerTakes(Event(p, draws(k)))), draws, k + 1)
  {
    var a := ServerTakes(Event(p, draws(k)));
    var ws, actions :| Leads(ws, actions, w0, w, draws(k).clock);
    var ws', actions' := OneMoreAction(ws, actions, w0, w, draws(k).clock, a);
    assert draws(k + 1).clock > draws(k).clock;
    assert Leads(ws', actions', w0, Next(w, a), draws(k + 1).clock);
  }

  lemma NextTakes(w: World, e: Event)
    requires Enabled(w, ServerTakes(e))
    ensures var w', t := Next(w, ServerTakes(e)), Consume(w.server, e);
            && w'.server == t.server && w'.clients == w.clients && w'.rx == w.rx
            && w.tx <= w'.tx && forall p | p in t.published :: p in w'.tx
  {
  }

  ghost predicate IsTaking(w: World, p: Payload, d: Draw, w': World) {
    var a := ServerTakes(Event(p, d)); Enabled(w, a) && w' == Next(w, a)
  }

  lemma ServerTakesNext(w0: World, w: World, draws: nat -> Draw, k: nat, p: Payload) returns (w': World)
    requires Reached(w0, w, draws, k) && exists i :: Mail(i, p) in w.rx
    ensures IsTaking(w, p, draws(k), w') && Reached(w0, w', draws, k + 1) && w'.rx == w.rx
  {
    ServerActs(w0, w, draws, k, p);
    NextTakes(w, Event(p, draws(k)));
    w' := Next(w, ServerTakes(Event(p, draws(k))));
  }

  // ---------- exchanges of one client alone ----------

  /** The exchange of one client with the server, seen in a world. */
  ghost predicate Shows(w: World, i: nat, x: Solo) {
    && i in w.clients && x.client == w.clients[i] && x.server == w.server
    && (forall p | p in x.up :: Mail(i, p) in w.rx) && (forall p | p in x.down :: p in w.tx)
  }

  /** The draws from the k-th on. */
  ghost predicate Shifted(draws: nat -> Draw, k: nat, later: nat -> Draw) { forall n: nat :: later(n) == draws(k + n) }

  function From(draws: nat -> Draw, k: nat): (later: nat -> Draw)
    ensures Shifted(draws, k, later)
  {
    (n: nat) => draws(k + n)
  }

  lemma ShowsTaking(w: World, i: nat, x: Solo, later: nat -> Draw, w': World)
    requires Shows(w, i, x) && x.up != [] && IsTaking(w, x.up[0], later(x.taken), w')
    ensures Shows(w', i, Advance(x, TheServer, later))
  {
    NextTakes(w, Event(x.up[0], later(x.taken)));
  }

  lemma ServerMoves(w0: World, w: World, i: nat, x: Solo, p: Payload, draws: nat -> Draw, n: nat, later: nat -> Draw)
    returns (w': World)
    requires Reached(w0, w, draws, n) && Shows(w, i, x) && x.up != [] && p == x.up[0] && draws(n) == later(x.taken)
    ensures Reached(w0, w', draws, n + 1) && Shows(w', i, Advance(x, TheServer, later)) && w'.rx == w.rx
  {
    assert p in x.up && Mail(i, p) in w.rx;
    w' := ServerTakesNext(w0, w, draws, n, p);
    ShowsTaking(w, i, x, later, w');
  }

  lemma AdvanceTaken(x: Solo, p: Party, later: nat -> Draw)
    requires CanMove(x, p)
    ensures Advance(x, p, later).taken == if p.TheServer? then x.taken + 1 else x.taken
  {
  }

  lemma ClientMoves(w0: World, w: World, i: nat, x: Solo, answer: Option<Payload>, draws: nat -> Draw, n: nat,
                    later: nat -> Draw)
    returns (w': World)
    requires Reached(w0, w, draws, n) && Shows(w, i, x) && CanMove(x, TheClient)
    requires answer == if x.down == [] then None else Some(x.down[0])
    ensures Reached(w0, w', draws, n) && Shows(w', i, Advance(x, TheClient, later)) && w.rx <= w'.rx
  {
    var a := if x.client.phase.Idle? then ClientBegins(i) else ClientPolls(i, answer);
    assert answer.Some? ==> answer.value in x.down;
    ClientActs(w0, w, draws, n, a);
    w' := Next(w, a);
  }

  /** Every move of the exchange is an action in the world. */
  lemma OneMove(w0: World, w: World, i: nat, x: Solo, p: Party, draws: nat -> Draw, n: nat, later: nat -> Draw)
    returns (w': World)
    requires Reached(w0, w, draws, n) && Shows(w, i, x) && CanMove(x, p) && draws(n) == later(x.taken)
    ensures Reached(w0, w', draws, if p.TheServer? then n + 1 else n)
    ensures Shows(w', i, Advance(x, p, later)) && w.rx <= w'.rx
  {
    if p.TheServer? {
      w' := ServerMoves(w0, w, i, x, x.up[0], draws, n, later);
    } else {
      w' := ClientMoves(w0, w, i, x, if x.down == [] then None else Some(x.down[0]), draws, n, later);
    }
  }

  /** Everything in this client's channel up to the k-th move has been published in the world. */
  ghost predicate Posted(w: World, i: nat, xs: seq<Solo>, k: nat)
    requires k < |xs|
  {
    forall j, p | 0 <= j <= k && p in xs[j].up :: Mail(i, p) in w.rx
  }

  lemma PostedNext(v: World, w: World, i: nat, xs: seq<Solo>, k: nat)
    requires k + 1 < |xs| && Posted(v, i, xs, k) && v.rx <= w.rx && Shows(w, i, xs[k + 1])
    ensures Posted(w, i, xs, k + 1)
  {
    forall j, p | 0 <= j <= k + 1 && p in xs[j].up ensures Mail(i, p) in w.rx {
      if j <= k { assert Mail(i, p) in v.rx; }
    }
  }

  lemma MoveShown(w0: World, v: World, i: nat, x: Solo, p: Party, y: Solo, draws: nat -> Draw, m: nat, later: nat -> Draw)
    returns (w: World, m': nat)
    requires Reached(w0, v, draws, m) && Shows(v, i, x) && IsMove(x, p, later, y) && draws(m) == later(x.taken)
    ensures Reached(w0, w, draws, m') && Shows(w, i, y) && v.rx <= w.rx && m' - m == y.taken - x.taken
  {
    m' := if p.TheServer? then m + 1 else m;
    AdvanceTaken(x, p, later);
    w := OneMove(w0, v, i, x, p, draws, m, later);
  }

  lemma ShiftedAt(draws: nat -> Draw, k: nat, later: nat -> Draw, n: nat, l: nat)
    requires Shifted(draws, k, later) && l == k + n
    ensures draws(l) == later(n)
  {
    assert later(n) == draws(k + n);
  }

  lemma NextShown(w0: World, u: World, i: nat, draws: nat -> Draw, k: nat, l: nat,
                  x: Solo, p: Party, y: Solo, later: nat -> Draw)
    returns (w: World, m: nat)
    requires Reached(w0, u, draws, l) && Shows(u, i, x) && IsMove(x, p, later, y)
    requires Shifted(draws, k, later) && l == k + x.taken
    ensures Reached(w0, w, draws, m) && Shows(w, i, y) && u.rx <= w.rx && m == k + y.taken
  {
    ShiftedAt(draws, k, later, x.taken, l);
    w, m := MoveShown(w0, u, i, x, p, y, draws, l, later);
  }

  /** Every exchange of one client alone over lossless channels that begins in a reachable world continues the run that
      led there. */
  lemma {:induction false} SoloRunShown(w0: World, v: World, i: nat, draws: nat -> Draw, k: nat,
                                        xs: seq<Solo>, moves: seq<Party>, later: nat -> Draw, n: nat)
    returns (w: World, m: nat)
    requires Reached(w0, v, draws, k) && IsSoloRun(xs, moves, later) && n < |xs|
    requires Shifted(draws, k, later) && i in v.clients && xs[0].client == v.clients[i] && xs[0].server == v.server
    ensures m == k + xs[n].taken
    ensures Reached(w0, w, draws, m) && Shows(w, i, xs[n]) && Posted(w, i, xs, n)
    decreases n
  {
    if n == 0 {
      w, m := v, k;
    } else {
      var u, l := SoloRunShown(w0, v, i, draws, k, xs, moves, later, n - 1);
      MoveAt(xs, moves, later, n - 1);
      w, m := NextShown(w0, u, i, draws, k, l, xs[n - 1], moves[n - 1], xs[n], later);
      PostedNext(u, w, i, xs, n - 1);
    }
  }

  // ---------- one exchange from start to end ----------

  /** The messages of a configured client, as it sent them. */
  ghost predicate AreSentBy(c: Client, hello: Payload, ack: Payload) {
    && Sent(true, c.keys, c.baseId, HelloOf(c), hello)
    && Sent(true, c.keys, c.baseId, ClientAck(c.baseId, c.seeds.handshakeId), ack)
  }

  lemma SevenMoves(x: Solo, draws: nat -> Draw) returns (xs: seq<Solo>, moves: seq<Party>)
    requires Start(x, draws) && x.client.encrypted
    ensures IsSoloRun(xs, moves, draws) && xs[0] == x && |moves| == 7
    ensures xs[3].client.phase == AwaitHello(0) && xs[3].up != [] && SameIdentity(xs[5].client, xs[3].client)
    ensures xs[5].client.phase == AwaitAck(0) && xs[5].up != [] && SameIdentity(xs[7].client, xs[5].client)
    ensures xs[7].client.phase.Configured?
  {
    MoveInv(x.server, x, TheClient, draws);
    var x1 := Advance(x, TheClient, draws);
    var xs3, moves3 := RoundTrip([x, x1], [TheClient], draws);
    var xs5, moves5 := RoundTrip(xs3, moves3, draws);
    xs, moves := RoundTrip(xs5, moves5, draws);
    assert xs[3] == xs5[3] == xs3[3] && xs[5] == xs5[5] && xs[0] == xs5[0] == xs3[0];
  }

  lemma SentAt(s0: Server, x: Solo, draws: nat -> Draw)
    requires SoloInv(s0, x, draws) && x.client.encrypted && x.up != []
    ensures var c := x.client;
            && (c.phase.AwaitHello? ==> Sent(true, c.keys, c.baseId, HelloOf(c), x.up[0]))
            && (c.phase.AwaitAck? ==> Sent(true, c.keys, c.baseId, ClientAck(c.baseId, c.seeds.handshakeId), x.up[0]))
  {
  }

  lemma FullExchange(x: Solo, draws: nat -> Draw) returns (xs: seq<Solo>, moves: seq<Party>)
    requires Start(x, draws) && x.client.encrypted
    ensures IsSoloRun(xs, moves, draws) && xs[0] == x && |moves| == 7 && Done(x.server, xs[7])
    ensures xs[3].up != [] && xs[5].up != [] && AreSentBy(xs[7].client, xs[3].up[0], xs[5].up[0])
  {
    xs, moves := SevenMoves(x, draws);
    SoloRunInv(xs, moves, draws, 3);
    SentAt(x.server, xs[3], draws);
    SoloRunInv(xs, moves, draws, 5);
    SentAt(x.server, xs[5], draws);
    HandshakeCompletes(xs, moves, draws);
  }

  // ---------- a handshake in a reachable world ----------

  /** Whether a client accepts this server's signature. */
  predicate Trusts(c: Client, s: Server) { c.skipVerification || c.pinned == Some(s.setup.identity) }

  /** A server that runs and has a free slot, and a client that has not begun and accepts its signature. */
  ghost predicate CanShakeHands(w: World, i: nat) {
    && i in w.clients && w.clients[i].phase.Idle? && Trusts(w.clients[i], w.server)
    && !w.server.failed && Allocate(w.server.pool).1 != ""
  }

  /** The id the server generates next is new to it. */
  lemma NextIdFresh(w0: World, w: World, draws: nat -> Draw, k: nat, base: string)
    requires Reached(w0, w, draws, k)
    ensures UniqueIdentifier(base, draws(k).clock) !in w.server.keys
  {
    var ws, actions :| Leads(ws, actions, w0, w, draws(k).clock);
    var s := w0.server;
    var netIp, poolSize :| 1 <= poolSize <= MAX_SIZE && s == Initial(s.setup, netIp, poolSize);
    var events := EventsOf(actions) + [Event([], draws(k))];
    GeneratedIdFresh(s.setup, netIp, poolSize, events, base);
    ServerIsAfter(ws, actions, |actions|);
    assert actions[..|actions|] == actions && events[..|events| - 1] == EventsOf(actions);
  }

  lemma CanStart(w0: World, v: World, i: nat, draws: nat -> Draw, k: nat, later: nat -> Draw)
    requires Reached(w0, v, draws, k) && CanShakeHands(v, i) && Shifted(draws, k, later)
    ensures Start(Solo(v.server, v.clients[i], [], [], 0), later) && v.clients[i].encrypted
  {
    ReachedInv(w0, v, draws, k);
    assert GoodClient(v, v.clients[i]) && IsNew(v.clients[i]);
    assert later(0) == draws(k + 0);
    NextIdFresh(w0, v, draws, k, v.clients[i].baseId);
  }

  /** A client is configured as its active session is, and its messages are still under way. */
  ghost predicate Settled(w: World, i: nat, hello: Payload, ack: Payload) {
    && i in w.clients && w.clients[i].phase.Configured? && !w.server.failed && Sound(w.server)
    && Mail(i, hello) in w.rx && Mail(i, ack) in w.rx && AreSentBy(w.clients[i], hello, ack)
    && var c, s := w.clients[i], w.server;
       && c.baseId in c.keys && c.baseId in s.keys && Mirrors(c.keys[c.baseId], s.keys[c.baseId])
       && c.baseId in s.handshakes && s.handshakes[c.baseId] == BLANK
       && c.baseId in s.active && c.config == Adopt(BLANK, ServerHelloOf(s.active[c.baseId])) && c.config.clientAddress != ""
  }

  lemma DoneIsSettled(s0: Server, w: World, i: nat, x: Solo, hello: Payload, ack: Payload)
    requires Inv(w) && Shows(w, i, x) && Done(s0, x) && AreSentBy(x.client, hello, ack)
    requires Mail(i, hello) in w.rx && Mail(i, ack) in w.rx
    ensures Settled(w, i, hello, ack)
  {
    assert GoodClient(w, w.clients[i]);
  }

  lemma ExchangeFrom(w0: World, v: World, i: nat, draws: nat -> Draw, k: nat, later: nat -> Draw)
    returns (xs: seq<Solo>, moves: seq<Party>)
    requires Reached(w0, v, draws, k) && CanShakeHands(v, i) && Shifted(draws, k, later)
    ensures IsSoloRun(xs, moves, later) && xs[0].client == v.clients[i] && xs[0].server == v.server && |moves| == 7
    ensures xs[3].up != [] && xs[5].up != [] && AreSentBy(xs[7].client, xs[3].up[0], xs[5].up[0])
    ensures Done(v.server, xs[7])
  {
    CanStart(w0, v, i, draws, k, later);
    xs, moves := FullExchange(Solo(v.server, v.clients[i], [], [], 0), later);
  }

  /** From every reachable world in which they can, a client and the server go through a handshake that leaves the client
      configured as its active session. */
  lemma HandshakeSettles(w0: World, v: World, i: nat, draws: nat -> Draw, k: nat)
    returns (w: World, n: nat, hello: Payload, ack: Payload)
    requires Reached(w0, v, draws, k) && CanShakeHands(v, i)
    ensures Reached(w0, w, draws, n) && Settled(w, i, hello, ack)
  {
    var later := From(draws, k);
    var xs, moves := ExchangeFrom(w0, v, i, draws, k, later);
    w, n := SoloRunShown(w0, v, i, draws, k, xs, moves, later, 7);
    hello, ack := xs[3].up[0], xs[5].up[0];
    assert hello in xs[3].up && ack in xs[5].up;
    ReachedInv(w0, w, draws, n);
    DoneIsSettled(v.server, w, i, xs[7], hello, ack);
  }
}

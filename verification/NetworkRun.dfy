/** Every circuit of a network, built through the managers of the nodes it passes and sharing them and their
    connections with any number of others, goes through a run of module `CircuitRun`. */
module NetworkRun {
  import opened Wrappers
  import opened Bytes
  import opened Circuit
  import opened Ntor
  import opened ExtendCodec
  import opened Flow
  import opened CircuitState
  import opened CircuitRun
  import opened ManagerTables
  import opened Network
  import opened NetworkView
  import opened NetworkFrame
  import opened NetworkElsewhere
  import opened NetworkOwn
  import opened NetworkGrow
  import opened NetworkTables
  import R = CircuitRun
  import F = ForwardPipe
  import B = BackwardPipe

  function ViewOf(n: Net): View {
    View(n.home, n.path, n.client, n.relays, n.down, n.up, n.create, n.created, None)
  }

  // ── Finding the circuit ─────────────────────────────────────────────

  /** At a node the circuit passes, the tables lead to its own entries and to nothing else. */
  lemma RoutesDown(g: Mesh, v: View, i: nat)
    requires Shows(g, v) && i < |v.relays|
    ensures i < |v.path|
    ensures var m := At(g, v.path[i].peer);
            && v.path[i].circ !in m.origins && Back(v, i) !in m.relayByNext
            && Back(v, i) in m.relays && m.relays[Back(v, i)] == v.relays[i]
            && (v.partner.None? ==> Back(v, i) !in m.rendezvousBridges)
  {
    FormedSizes(v);
    hide Formed, LinksShown;
    ShownNode(g, v, i);
  }

  lemma RoutesUp(g: Mesh, v: View, i: nat)
    requires Shows(g, v) && AllSane(g) && 0 < i < |v.path|
    ensures i <= |v.relays|
    ensures var m := At(g, Before(v, i));
            && v.path[i].circ !in m.origins && v.path[i] in m.relayByNext && m.relayByNext[v.path[i]] == Back(v, i - 1)
            && Back(v, i - 1) in m.relays && m.relays[Back(v, i - 1)] == v.relays[i - 1]
  {
    FormedSizes(v);
    hide Formed, LinksShown, Sane;
    ShownNode(g, v, i);
    ShownNode(g, v, i - 1);
    assert Sane(At(g, v.path[i - 1].peer));
    OwnNext(v, i, At(g, v.path[i - 1].peer));
  }

  lemma RoutesHome(g: Mesh, v: View)
    requires Shows(g, v)
    ensures v.path != [] && v.path[0] == Leg(v.origin.peer, v.origin.id)
    ensures v.origin.id in At(g, v.home).origins && At(g, v.home).origins[v.origin.id] == v.origin
  {
    FormedParts(v);
    hide Formed, LinksShown;
    assert ShownAt(v, v.home, At(g, v.home));
  }

  // ── Each handler ────────────────────────────────────────────────────

  lemma PopAt(g: Mesh, x: PeerId, y: PeerId, id: PeerId)
    requires Link(g, x, y) != []
    ensures At(Pop(g, x, y), id) == At(g, id)
  {
  }

  /** A node that changes nothing in its tables. */
  lemma ShowsIdle(g: Mesh, v: View, x: PeerId)
    requires Shows(g, v)
    ensures Shows(WithMgr(g, x, At(g, x)), v)
  {
    hide Formed, ShownAt, LinksShown;
    FormedParts(v);
    LinksSame(g, WithMgr(g, x, At(g, x)), v);
    forall y
      ensures ShownAt(v, y, At(WithMgr(g, x, At(g, x)), y))
    {
      assert ShownAt(v, y, At(g, y));
    }
  }

  /** `handle_create` at the node the client meant. */
  lemma CreateRoutes(w: World, g: Mesh, n: Net, i: nat, draws: Draws)
    requires Shows(g, ViewOf(n)) && n.create.Some? && n.created.None? && i == |n.relays| < |n.path|
    requires Link(g, Before(ViewOf(n), i), n.path[i].peer) != []
    requires Link(g, Before(ViewOf(n), i), n.path[i].peer)[0].circId == n.path[i].circ
    ensures Shows(DoDeliver(w, g, Before(ViewOf(n), i), n.path[i].peer, draws),
                  ViewOf(CreateAtNode(w, n, draws.yPriv, draws.now)))
  {
    hide Shows, RelayCreated, Push, Pop, WithMgr, Link, At, StaticPub;
    var v := ViewOf(n);
    var x, y := Before(v, i), n.path[i].peer;
    var cell, m := Link(g, x, y)[0], At(g, y);
    PopCreate(g, v, i);
    PopAt(g, x, y, y);
    var g1, v1 := Pop(g, x, y), v.(create := None);
    FromIsBack(n, i);
    var r := RelayCreated(w.d, w.l, Back(v, i), y, StaticPub(w, y), w.nodes(y).bSecret, n.create.value, draws.yPriv, draws.now);
    RelayCreatedKeys(w, Back(v, i), y, n.create.value, draws.yPriv, draws.now);
    if r.Ok? {
      ShownLinks(g, v, i);
      GrowRelay(g1, v1, r.value.0);
      var g2 := WithMgr(g1, y, m.(relays := m.relays[Back(v, i) := r.value.0]));
      RelayCreatedCell(w, Back(v, i), y, n.create.value, draws.yPriv, draws.now);
      PushCreated(g2, WithRelay(v1, r.value.0), i, r.value.1, r.value.1.payload[..SERVER_HANDSHAKE_LEN]);
    } else {
      ShowsIdle(g1, v1, y);
    }
  }

  lemma FromIsBack(n: Net, i: nat)
    requires i < |n.path|
    ensures From(n, i) == Back(ViewOf(n), i) && Back(ViewOf(n), i).peer == Before(ViewOf(n), i)
    ensures Back(ViewOf(n), i).circ == n.path[i].circ
  {
  }

  lemma RelayCreatedCell(w: World, from: Leg, me: PeerId, msg: ClientMsg, yPriv: Key32, now: Instant)
    ensures var r := RelayCreated(w.d, w.l, from, me, StaticPub(w, me), w.nodes(me).bSecret, msg, yPriv, now);
            r.Ok? ==> IsCreated(r.value.1, r.value.1.payload[..SERVER_HANDSHAKE_LEN])
  {
    hide ServerHandshake, HopFromNtor;
  }

  /** `handle_created` at the client. */
  lemma CreatedRoutesHome(w: World, g: Mesh, n: Net, draws: Draws)
    requires Shows(g, ViewOf(n)) && B.Shape(Bwd(n)) && n.path != []
    requires Link(g, n.path[0].peer, n.home) != []
    requires var cell := Link(g, n.path[0].peer, n.home)[0]; cell.circId == n.path[0].circ && cell.command.Created?
    ensures n.created.Some? && Shows(DoDeliver(w, g, n.path[0].peer, n.home, draws), ViewOf(DeliverCreated(w, n)))
  {
    hide Shows, OriginCreated, Push, Pop, WithMgr, Link, At, RelayExtended, B.Shape;
    var v, x := ViewOf(n), n.path[0].peer;
    var cell := Link(g, x, n.home)[0];
    PopCreated(g, v, 0);
    PopAt(g, x, n.home, n.home);
    RoutesHome(g, v);
    OriginKeeps(w, n.client, n.created.value);
    SetOrigin(Pop(g, x, n.home), v.(created := None), OriginCreated(w.d, w.l, n.client, n.created.value).0);
  }

  /** `handle_created_from_next` at the relay that extended the circuit, found in `relay_by_next`. */
  lemma CreatedRoutesBack(w: World, g: Mesh, n: Net, i: nat, draws: Draws)
    requires Shows(g, ViewOf(n)) && AllSane(g) && B.Shape(Bwd(n)) && 0 < i < |n.path|
    requires Link(g, n.path[i].peer, n.path[i - 1].peer) != []
    requires var cell := Link(g, n.path[i].peer, n.path[i - 1].peer)[0]; cell.circId == n.path[i].circ && cell.command.Created?
    ensures n.created.Some?
    ensures Shows(DoDeliver(w, g, n.path[i].peer, n.path[i - 1].peer, draws), ViewOf(DeliverCreated(w, n)))
  {
    hide Shows, OriginCreated, Push, Pop, WithMgr, Link, At, RelayExtended, B.Shape, AllSane, OriginCreated;
    var v, x, y := ViewOf(n), n.path[i].peer, n.path[i - 1].peer;
    var cell, m := Link(g, x, y)[0], At(g, y);
    PopCreated(g, v, i);
    PopAt(g, x, y, y);
    RoutesUp(g, v, i);
    var r := RelayExtended(w.s, n.relays[i - 1], n.created.value);
    ExtendedKeeps(w.s, n.relays[i - 1], n.created.value);
    var g1, v1 := Pop(g, x, y), v.(created := None);
    RelayKeys(g, v, i - 1);
    if r.Ok? {
      SetRelay(g1, v1, i - 1, r.value.0);
      ShownLinks(g, v, i);
      ExtendedCell(w.s, n.relays[i - 1], n.created.value);
      PushUp(WithMgr(g1, y, m.(relays := m.relays[Back(v, i - 1) := r.value.0])),
             v1.(relays := v1.relays[i - 1 := r.value.0]), i - 1, r.value.1);
    } else {
      ShowsIdle(g1, v1, y);
    }
  }

  lemma RelayKeys(g: Mesh, v: View, i: nat)
    requires Shows(g, v) && i < |v.relays|
    ensures i < |v.path| && Leg(v.relays[i].prevPeer, v.relays[i].prevCircId) == Back(v, i)
    ensures i + 1 < |v.path| ==> v.relays[i].Next() == Some(v.path[i + 1])
    ensures i + 1 == |v.path| ==> v.relays[i].nextPeer.None?
  {
  }

  lemma ExtendedCell(s: Suite, r: RelayCircuit, reply: ServerMsg)
    ensures var x := RelayExtended(s, r, reply);
            x.Ok? ==> IsRelay(x.value.1)
  {
    hide StampDigest, OnionBackward;
  }

  /** `handle_origin_relay` at the client. */
  lemma ReceiveShows(w: World, g: Mesh, v: View, draws: Draws)
    requires Shows(g, v) && v.path != [] && Link(g, v.path[0].peer, v.home) != []
    requires var cell := Link(g, v.path[0].peer, v.home)[0]; cell.circId == v.path[0].circ && !cell.command.Created?
    ensures 0 < |v.up| && v.up[0] != []
    ensures Shows(DoDeliver(w, g, v.path[0].peer, v.home, draws),
                  v.(origin := OriginRelay(w.s, w.d, w.l, v.origin, v.up[0][0], draws.now).0, up := v.up[0 := v.up[0][1..]]))
  {
    hide Shows, OriginRelay, Push, Pop, WithMgr, Link, At;
    var x := v.path[0].peer;
    var cell := Link(g, x, v.home)[0];
    PopUp(g, v, 0);
    PopAt(g, x, v.home, v.home);
    RoutesHome(g, v);
    OriginRelayKeeps(w, v.origin, v.up[0][0], draws.now);
    SetOrigin(Pop(g, x, v.home), v.(up := v.up[0 := v.up[0][1..]]), OriginRelay(w.s, w.d, w.l, v.origin, v.up[0][0], draws.now).0);
  }

  lemma ReceiveRoutes(w: World, g: Mesh, n: Net, draws: Draws)
    requires Shows(g, ViewOf(n)) && B.Shape(Bwd(n)) && n.path != []
    requires Link(g, n.path[0].peer, n.home) != []
    requires var cell := Link(g, n.path[0].peer, n.home)[0]; cell.circId == n.path[0].circ && !cell.command.Created?
    ensures 0 < |n.up| && n.up[0] != []
    ensures Shows(DoDeliver(w, g, n.path[0].peer, n.home, draws), ViewOf(ReceiveAtClient(w, n, draws.now)))
  {
    hide Shows, OriginRelay, DecryptInbound, DoDeliver, Link, B.Shape, B.Receive;
    ReceiveShows(w, g, ViewOf(n), draws);
  }

  lemma DispatchBackward(w: World, me: PeerId, m: Mgr, leg: Leg, cell: Cell, draws: Draws)
    requires IsRelay(cell) && leg.circ !in m.origins && leg in m.relayByNext && m.relayByNext[leg] in m.relays
    ensures var key := m.relayByNext[leg];
            var (r, q) := RelayBackward(w.s, m.relays[key], cell.payload);
            Dispatch(w, me, m, leg, cell, draws)
            == (m.(relays := m.relays[key := r]), Some((r.prevPeer, Cell(r.prevCircId, cell.command, q))))
  {
    hide RelayBackward;
  }

  lemma DispatchForward(w: World, me: PeerId, m: Mgr, leg: Leg, cell: Cell, draws: Draws, next: Leg)
    requires IsRelay(cell) && leg.circ !in m.origins && leg !in m.relayByNext && leg in m.relays
    requires m.relays[leg].Next() == Some(next) && RelayPeel(w.s, m.relays[leg], cell.payload, draws.now).2.None?
    ensures var (r, q, mine) := RelayPeel(w.s, m.relays[leg], cell.payload, draws.now);
            Dispatch(w, me, m, leg, cell, draws)
            == (m.(relays := m.relays[leg := r]), Some((next.peer, Cell(next.circ, cell.command, q))))
  {
    hide RelayPeel, RelayBackward;
    PeelKeeps(w.s, m.relays[leg], cell.payload, draws.now);
  }

  lemma DispatchExtend(w: World, me: PeerId, m: Mgr, leg: Leg, cell: Cell, draws: Draws)
    requires IsRelay(cell) && leg.circ !in m.origins && leg !in m.relayByNext && leg in m.relays
    requires var (r, q, mine) := RelayPeel(w.s, m.relays[leg], cell.payload, draws.now);
             mine.Some? && mine.value.command == Extend2 && ExtendOnward(w.net, r, draws.nextCirc, mine.value.data).Ok?
    ensures var (r, q, mine) := RelayPeel(w.s, m.relays[leg], cell.payload, draws.now);
            var (r', next, create) := ExtendOnward(w.net, r, draws.nextCirc, mine.value.data).value;
            && Dispatch(w, me, m, leg, cell, draws) == (NextMgr(m, leg, r', next), Some((next.peer, create)))
            && DrawnLeg(w, m, leg, cell, draws) == Some(next)
            && r.nextPeer.None? && r'.prevPeer == r.prevPeer && r'.prevCircId == r.prevCircId && r'.Next() == Some(next)
            && create.circId == next.circ && IsCreate(create, create.payload[..CLIENT_HANDSHAKE_LEN])
  {
    hide RelayPeel, RelayBackward, Extend2Of;
    var (r, q, mine) := RelayPeel(w.s, m.relays[leg], cell.payload, draws.now);
    var (r', next, create) := ExtendOnward(w.net, r, draws.nextCirc, mine.value.data).value;
    assert m.relays[leg := r][leg := r'] == m.relays[leg := r'];
    DrawnIs(w, m, leg, cell, draws, next);
  }

  /** `handle_backward_relay` at a relay on the way, found in `relay_by_next`. */
  lemma BackwardShows(w: World, g: Mesh, v: View, i: nat, draws: Draws)
    requires Shows(g, v) && AllSane(g) && 0 < i < |v.path| && Link(g, v.path[i].peer, v.path[i - 1].peer) != []
    requires var cell := Link(g, v.path[i].peer, v.path[i - 1].peer)[0]; cell.circId == v.path[i].circ && !cell.command.Created?
    ensures i < |v.up| == |v.relays| && v.up[i] != []
    ensures var (r, q) := RelayBackward(w.s, v.relays[i - 1], v.up[i][0]);
            Shows(DoDeliver(w, g, v.path[i].peer, v.path[i - 1].peer, draws),
                  v.(relays := v.relays[i - 1 := r], up := v.up[i := v.up[i][1..]][i - 1 := v.up[i - 1] + [q]]))
  {
    hide Shows, Push, Pop, WithMgr, Link, At, RelayBackward, AllSane, Dispatch;
    var x, y := v.path[i].peer, v.path[i - 1].peer;
    var cell, m := Link(g, x, y)[0], At(g, y);
    PopUp(g, v, i);
    PopAt(g, x, y, y);
    RoutesUp(g, v, i);
    DispatchBackward(w, y, m, v.path[i], cell, draws);
    var (r, q) := RelayBackward(w.s, v.relays[i - 1], cell.payload);
    BackwardKeeps(w.s, v.relays[i - 1], cell.payload);
    RelayKeys(g, v, i - 1);
    var g1, v1 := Pop(g, x, y), v.(up := v.up[i := v.up[i][1..]]);
    SetRelay(g1, v1, i - 1, r);
    ShownLinks(g, v, i);
    PushUp(WithMgr(g1, y, m.(relays := m.relays[Back(v, i - 1) := r])), v1.(relays := v1.relays[i - 1 := r]), i - 1,
           Cell(r.prevCircId, cell.command, q));
  }

  lemma BackwardRoutes(w: World, g: Mesh, n: Net, i: nat, draws: Draws)
    requires Shows(g, ViewOf(n)) && AllSane(g) && B.Shape(Bwd(n)) && 0 < i < |n.path|
    requires Link(g, n.path[i].peer, n.path[i - 1].peer) != []
    requires var cell := Link(g, n.path[i].peer, n.path[i - 1].peer)[0]; cell.circId == n.path[i].circ && !cell.command.Created?
    ensures i < |n.up| && n.up[i] != []
    ensures Shows(DoDeliver(w, g, n.path[i].peer, n.path[i - 1].peer, draws), ViewOf(PassBack(w, n, i - 1)))
  {
    hide Shows, RelayBackward, B.Shape, AllSane, B.RelayWrap, DoDeliver, Link;
    BackwardShows(w, g, ViewOf(n), i, draws);
  }

  // ── A cell on its way out ───────────────────────────────────────────

  /** A relay cell of the circuit is about to be handled by its `i`-th node. */
  ghost predicate Arriving(g: Mesh, v: View, i: nat) {
    && Shows(g, v) && i < |v.relays| && i < |v.path|
    && Link(g, Before(v, i), v.path[i].peer) != [] && Link(g, Before(v, i), v.path[i].peer)[0].circId == v.path[i].circ
  }

  lemma ArrivingParts(g: Mesh, v: View, i: nat) returns (cell: Cell)
    requires Arriving(g, v, i)
    ensures cell == Link(g, Before(v, i), v.path[i].peer)[0] && IsRelay(cell)
    ensures |v.down| == |v.up| == |v.relays| && v.down[i] != [] && cell.payload == v.down[i][0]
    ensures Shows(Pop(g, Before(v, i), v.path[i].peer), v.(down := v.down[i := v.down[i][1..]]))
    ensures At(Pop(g, Before(v, i), v.path[i].peer), v.path[i].peer) == At(g, v.path[i].peer)
    ensures var m := At(g, v.path[i].peer);
            && v.path[i].circ !in m.origins && Back(v, i) !in m.relayByNext
            && Back(v, i) in m.relays && m.relays[Back(v, i)] == v.relays[i]
            && (v.partner.None? ==> Back(v, i) !in m.rendezvousBridges)
    ensures Leg(v.relays[i].prevPeer, v.relays[i].prevCircId) == Back(v, i)
    ensures i + 1 < |v.path| ==> v.relays[i].Next() == Some(v.path[i + 1])
    ensures i + 1 == |v.path| ==> v.relays[i].nextPeer.None?
  {
    hide Shows, Push, Pop;
    cell := Link(g, Before(v, i), v.path[i].peer)[0];
    ShownLinks(g, v, i);
    PopDown(g, v, i);
    PopAt(g, Before(v, i), v.path[i].peer, v.path[i].peer);
    RoutesDown(g, v, i);
    RelayKeys(g, v, i);
  }

  /** The cell is sent on to the next node. */
  lemma ForwardRoutes(w: World, g: Mesh, v: View, i: nat, draws: Draws)
    requires Arriving(g, v, i) && i + 1 < |v.relays| && |v.down| == |v.relays| && v.down[i] != []
    requires RelayPeel(w.s, v.relays[i], v.down[i][0], draws.now).2.None?
    ensures var (r, q, mine) := RelayPeel(w.s, v.relays[i], v.down[i][0], draws.now);
            var down1 := v.down[i := v.down[i][1..]];
            Shows(DoDeliver(w, g, Before(v, i), v.path[i].peer, draws),
                  v.(relays := v.relays[i := r], down := down1[i + 1 := down1[i + 1] + [q]]))
  {
    hide Shows, Push, Pop, WithMgr, Link, At, RelayPeel, Dispatch;
    var cell := ArrivingParts(g, v, i);
    var x, y := Before(v, i), v.path[i].peer;
    var m := At(g, y);
    var (r, q, mine) := RelayPeel(w.s, v.relays[i], cell.payload, draws.now);
    PeelKeeps(w.s, v.relays[i], cell.payload, draws.now);
    ShownLinks(g, v, i);
    DispatchForward(w, y, m, Back(v, i), cell, draws, v.path[i + 1]);
    var g1, v1 := Pop(g, x, y), v.(down := v.down[i := v.down[i][1..]]);
    SetRelay(g1, v1, i, r);
    PushDown(WithMgr(g1, y, m.(relays := m.relays[Back(v, i) := r])), v1.(relays := v1.relays[i := r]), i + 1,
             Cell(v.path[i + 1].circ, cell.command, q));
  }

  /** The relay keeps the cell. */
  lemma KeepRoutes(w: World, g: Mesh, v: View, i: nat, draws: Draws)
    requires Arriving(g, v, i) && |v.down| == |v.relays| && v.down[i] != []
    requires var mine := RelayPeel(w.s, v.relays[i], v.down[i][0], draws.now).2;
             mine.Some? && (mine.value.command == Extend2 ==>
               ExtendOnward(w.net, RelayPeel(w.s, v.relays[i], v.down[i][0], draws.now).0, draws.nextCirc, mine.value.data).Err?)
    ensures var r := RelayPeel(w.s, v.relays[i], v.down[i][0], draws.now).0;
            Shows(DoDeliver(w, g, Before(v, i), v.path[i].peer, draws),
                  v.(relays := v.relays[i := r], down := v.down[i := v.down[i][1..]]))
  {
    hide Shows, Push, Pop, WithMgr, Link, At, RelayPeel, RelayBackward, RelayExtend, Extend2Of;
    var cell := ArrivingParts(g, v, i);
    var x, y := Before(v, i), v.path[i].peer;
    var m := At(g, y);
    var r := RelayPeel(w.s, v.relays[i], cell.payload, draws.now).0;
    PeelKeeps(w.s, v.relays[i], cell.payload, draws.now);
    SetRelay(Pop(g, x, y), v.(down := v.down[i := v.down[i][1..]]), i, r);
  }

  lemma ExtendShows(g: Mesh, v: View, i: nat, r: RelayCircuit, next: Leg, create: Cell)
    requires Arriving(g, v, i) && |v.down| == |v.relays| && v.down[i] != []
    requires i + 1 == |v.relays| == |v.path| && NextFits(v, r, next)
    requires FreshBetween(g, v.path[i].peer, next.peer, next.circ)
    requires create.circId == next.circ && IsCreate(create, create.payload[..CLIENT_HANDSHAKE_LEN])
    ensures var x, y := Before(v, i), v.path[i].peer;
            Shows(Push(WithMgr(Pop(g, x, y), y, NextMgr(At(g, y), Back(v, i), r, next)), y, next.peer, create),
                  v.(relays := v.relays[i := r], path := v.path + [next], down := v.down[i := v.down[i][1..]],
                     create := Some(create.payload[..CLIENT_HANDSHAKE_LEN])))
  {
    hide Shows, Push, Pop, WithMgr, Link, At, FreshBetween, IsCreate, NextMgr;
    var cell := ArrivingParts(g, v, i);
    var x, y := Before(v, i), v.path[i].peer;
    var g1, v1 := Pop(g, x, y), v.(down := v.down[i := v.down[i][1..]]);
    FreshPopped(g, x, y, y, next.peer, next.circ);
    GrowNext(g1, v1, r, next, create, create.payload[..CLIENT_HANDSHAKE_LEN]);
  }

  /** The relay keeps an EXTEND2 and asks the node named in it. */
  lemma ExtendRoutes(w: World, g: Mesh, v: View, i: nat, draws: Draws)
    requires Arriving(g, v, i) && |v.down| == |v.relays| && v.down[i] != [] && v.partner.None?
    requires Cautious(w, g, Deliver(Before(v, i), v.path[i].peer, draws))
    requires var (r, q, mine) := RelayPeel(w.s, v.relays[i], v.down[i][0], draws.now);
             mine.Some? && mine.value.command == Extend2 && ExtendOnward(w.net, r, draws.nextCirc, mine.value.data).Ok?
    ensures var (r, q, mine) := RelayPeel(w.s, v.relays[i], v.down[i][0], draws.now);
            var (r', next, create) := ExtendOnward(w.net, r, draws.nextCirc, mine.value.data).value;
            && i + 1 == |v.relays| == |v.path|
            && Shows(DoDeliver(w, g, Before(v, i), v.path[i].peer, draws),
                     v.(relays := v.relays[i := r'], path := v.path + [next], down := v.down[i := v.down[i][1..]],
                        create := Some(create.payload[..CLIENT_HANDSHAKE_LEN])))
  {
    hide Shows, Push, Pop, WithMgr, Link, At, RelayPeel, FreshBetween, CreateFresh, DrawnLeg, Dispatch, ExtendOnward, IsCreate, NextMgr;
    var cell := ArrivingParts(g, v, i);
    var x, y, leg := Before(v, i), v.path[i].peer, Back(v, i);
    var m := At(g, y);
    var (r, q, mine) := RelayPeel(w.s, v.relays[i], cell.payload, draws.now);
    var (r', next, create) := ExtendOnward(w.net, r, draws.nextCirc, mine.value.data).value;
    PeelKeeps(w.s, v.relays[i], cell.payload, draws.now);
    ShownLinks(g, v, i);
    FormedCreate(v);
    DispatchExtend(w, y, m, leg, cell, draws);
    ExtendShows(g, v, i, r', next, create);
  }

  lemma FormedCreate(v: View)
    requires Formed(v)
    ensures |v.path| == |v.relays| ==> v.create.None?
  {
  }

  lemma FreshPopped(g: Mesh, from: PeerId, to: PeerId, x: PeerId, y: PeerId, circ: CircuitId)
    requires Link(g, from, to) != [] && FreshBetween(g, x, y, circ)
    ensures FreshBetween(Pop(g, from, to), x, y, circ)
  {
  }

  /** A cell that its relay does not keep has a next relay to go to. */
  lemma PassedHasNext(w: World, n: Net, i: nat, now: Instant)
    requires Steady(w, n) && i < |n.down| && n.down[i] != [] && F.NotMistaken(w.s, Fwd(n), i)
    ensures F.Shape(Fwd(n)) && i < |n.relays| == |n.down|
    ensures RelayPeel(w.s, n.relays[i], n.down[i][0], now).2.None? ==> i + 1 < |n.relays|
  {
    SteadyShape(w, n);
    TakeIsStep(w, n, i, now);
    hide RelayPeel, F.RelayStep, Steady, F.NotMistaken;
  }

  lemma TakeView(w: World, n: Net, i: nat, nextCirc: CircuitId, now: Instant)
    requires F.Shape(Fwd(n)) && i < |n.relays| == |n.down| && n.down[i] != []
    ensures var (r, q, mine) := RelayPeel(w.s, n.relays[i], n.down[i][0], now);
            var v, v' := ViewOf(n), ViewOf(TakeAtRelay(w, n, i, nextCirc, now));
            var down1 := v.down[i := v.down[i][1..]];
            if mine.None? then
              r.Next().Some? && i + 1 < |n.relays| ==>
                v' == v.(relays := v.relays[i := r], down := down1[i + 1 := down1[i + 1] + [q]])
            else if mine.value.command == Extend2 && ExtendOnward(w.net, r, nextCirc, mine.value.data).Ok? then
              var (r', next, create) := ExtendOnward(w.net, r, nextCirc, mine.value.data).value;
              v' == v.(relays := v.relays[i := r'], path := v.path + [next], down := down1,
                       create := Some(create.payload[..CLIENT_HANDSHAKE_LEN]))
            else v' == v.(relays := v.relays[i := r], down := down1)
  {
    hide RelayPeel, F.RelayStep, ExtendOnward, F.Shape;
  }

  /** `handle_forward_relay`, and what the node does with what it keeps. */
  lemma TakeRoutes(w: World, g: Mesh, n: Net, i: nat, draws: Draws)
    requires Arriving(g, ViewOf(n), i) && Cautious(w, g, Deliver(Before(ViewOf(n), i), n.path[i].peer, draws))
    requires Steady(w, n) && i < |n.down| && n.down[i] != [] && F.NotMistaken(w.s, Fwd(n), i)
    ensures F.Shape(Fwd(n))
    ensures Shows(DoDeliver(w, g, Before(ViewOf(n), i), n.path[i].peer, draws),
                  ViewOf(TakeAtRelay(w, n, i, draws.nextCirc, draws.now)))
  {
    hide Shows, RelayPeel, ExtendOnward, Steady, Arriving, DoDeliver, Cautious, F.NotMistaken, F.Shape, TakeAtRelay, Link;
    PassedHasNext(w, n, i, draws.now);
    TakeView(w, n, i, draws.nextCirc, draws.now);
    var v := ViewOf(n);
    var cell := ArrivingParts(g, v, i);
    var (r, q, mine) := RelayPeel(w.s, n.relays[i], n.down[i][0], draws.now);
    PeelKeeps(w.s, n.relays[i], n.down[i][0], draws.now);
    if mine.None? {
      ForwardRoutes(w, g, v, i, draws);
      ArrivingSizes(g, v, i);
    } else if mine.value.command == Extend2 && ExtendOnward(w.net, r, draws.nextCirc, mine.value.data).Ok? {
      ExtendRoutes(w, g, v, i, draws);
    } else {
      KeepRoutes(w, g, v, i, draws);
    }
  }

  lemma ArrivingSizes(g: Mesh, v: View, i: nat)
    requires Arriving(g, v, i)
    ensures |v.relays| <= |v.path|
  {
    hide Shows;
    ShownLinks(g, v, i);
  }

  // ── What the client and the relays start ────────────────────────────

  lemma ExtendSends(w: World, g: Mesh, n: Net, next: PeerId, xPriv: Key32, now: Instant)
    requires Shows(g, ViewOf(n)) && n.client.hops != [] && |n.down| > 0 && |n.log.fbook| > 0
    ensures Shows(DoExtend(w, g, n.home, n.client.id, next, xPriv, now), ViewOf(ExtendFromClient(w, n, next, xPriv, now)))
  {
    hide Shows, OriginExtend, Push, WithMgr, F.SendTo, BuildExtend2;
    var v := ViewOf(n);
    RoutesHome(g, v);
    ShownLinks(g, v, 0);
    var (o, r) := OriginExtend(w.s, w.d, w.net, n.client, SpecOf(w, next), xPriv, now);
    ExtendKeepsOrigin(w, n.client, SpecOf(w, next), xPriv, now);
    ExtendCommand(w, n.client, SpecOf(w, next), xPriv, now);
    SetOrigin(g, v, o);
    if r.Ok? {
      var m := At(g, n.home);
      PushDown(WithMgr(g, n.home, m.(origins := m.origins[n.client.id := o])), v.(origin := o), 0, r.value);
    }
  }

  lemma ExtendCommand(w: World, o: Origin, spec: LinkSpec, xPriv: Key32, now: Instant)
    ensures var r := OriginExtend(w.s, w.d, w.net, o, spec, xPriv, now).1;
            r.Ok? ==> IsRelay(r.value)
  {
    hide EncryptOutbound, BuildExtend2, ClientHandshakeStart;
  }

  lemma SendShows(w: World, g: Mesh, v: View, target: nat, rc: RelayCell, now: Instant)
    requires Shows(g, v) && |v.down| == |v.relays| > 0 && EncryptOutbound(w.s, v.origin, target, rc, now).1.Ok?
    ensures var (o, r) := EncryptOutbound(w.s, v.origin, target, rc, now);
            Shows(DoSend(w, g, v.home, v.origin.id, target, rc, now),
                  v.(origin := o, down := v.down[0 := v.down[0] + [r.value]]))
  {
    hide Shows, EncryptOutbound, Push, WithMgr;
    RoutesHome(g, v);
    ShownLinks(g, v, 0);
    var (o, r) := EncryptOutbound(w.s, v.origin, target, rc, now);
    EncryptKeeps(w.s, v.origin, target, rc, now);
    SetOrigin(g, v, o);
    var m := At(g, v.home);
    PushDown(WithMgr(g, v.home, m.(origins := m.origins[v.origin.id := o])), v.(origin := o), 0,
             Cell(v.origin.id, CellCommand.Relay, r.value));
  }

  lemma ClientSendsRoutes(w: World, g: Mesh, n: Net, target: nat, rc: RelayCell, now: Instant)
    requires Shows(g, ViewOf(n)) && target < |n.client.hops| && |n.down| == |n.relays| > 0 && |n.log.fbook| > 0
    ensures Shows(DoSend(w, g, n.home, n.client.id, target, rc, now), ViewOf(SendFromClient(w, n, target, rc, now)))
  {
    SendsOk(w, n.client, target, rc, now);
    hide Shows, EncryptOutbound, DoSend, F.SendTo;
    SendShows(w, g, ViewOf(n), target, rc, now);
  }

  lemma SendsOk(w: World, o: Origin, target: nat, rc: RelayCell, now: Instant)
    requires target < |o.hops|
    ensures EncryptOutbound(w.s, o, target, rc, now).1.Ok?
  {
    hide StampDigest, ToPayload, Layer;
  }

  lemma ReplyShows(w: World, g: Mesh, v: View, o: nat, rc: RelayCell)
    requires Shows(g, v) && o < |v.relays| && o < |v.path| && |v.up| == |v.relays|
    ensures var (r, cell) := OwnCell(w.s, v.relays[o], rc);
            Shows(DoReply(w, g, v.path[o].peer, Back(v, o), rc),
                  v.(relays := v.relays[o := r], up := v.up[o := v.up[o] + [cell.payload]]))
  {
    hide Shows, OwnCell, Push, WithMgr;
    RoutesDown(g, v, o);
    RelayKeys(g, v, o);
    ShownLinks(g, v, o);
    OwnCellKeeps(w.s, v.relays[o], rc);
    var (r, cell) := OwnCell(w.s, v.relays[o], rc);
    SetRelay(g, v, o, r);
    var x := v.path[o].peer;
    var m := At(g, x);
    PushUp(WithMgr(g, x, m.(relays := m.relays[Back(v, o) := r])), v.(relays := v.relays[o := r]), o, cell);
  }

  lemma ReplyRoutes(w: World, g: Mesh, n: Net, o: nat, rc: RelayCell)
    requires Shows(g, ViewOf(n)) && o < |n.relays| == |n.up| == |n.log.bbook| && o < |n.path|
    ensures Shows(DoReply(w, g, n.path[o].peer, Back(ViewOf(n), o), rc), ViewOf(SendFromRelay(w, n, o, rc)))
  {
    hide Shows, StampDigest, OnionBackward, B.EmitOwn, DoReply;
    ReplyShows(w, g, ViewOf(n), o, rc);
  }

  // ── The circuit's part in an event ──────────────────────────────────

  /** The first connection of the circuit, from the `i`-th on, that leads away from the client from `x` to `y`
      under this id; the path's length if there is none. */
  function FindDown(v: View, x: PeerId, y: PeerId, circ: CircuitId, i: nat): (k: nat)
    requires i <= |v.path|
    ensures i <= k <= |v.path|
    ensures k < |v.path| ==> Before(v, k) == x && v.path[k].peer == y && v.path[k].circ == circ
    ensures forall j :: i <= j < k ==> !(Before(v, j) == x && v.path[j].peer == y && v.path[j].circ == circ)
    decreases |v.path| - i
  {
    if i == |v.path| || (Before(v, i) == x && v.path[i].peer == y && v.path[i].circ == circ) then i
    else FindDown(v, x, y, circ, i + 1)
  }

  function DeliveryStep(n: Net, from: PeerId, p: PeerId, cell: Cell, draws: Draws): Option<R.Step> {
    var down, up := FindDown(ViewOf(n), from, p, cell.circId, 0), FindDown(ViewOf(n), p, from, cell.circId, 0);
    if down < |n.path| then
      if down < |n.relays| then Some(RelayTakes(down, draws.nextCirc, draws.now)) else Some(NodeCreates(draws.yPriv, draws.now))
    else if up < |n.path| then
      if cell.command.Created? then Some(CreatedArrives)
      else if up == 0 then Some(ClientReceives(draws.now))
      else Some(RelayPassesBack(up - 1))
    else None
  }

  /** What an event in the network is for the circuit: a step of its own, or nothing. */
  function StepOf(g: Mesh, n: Net, event: Event): Option<R.Step> {
    match event
    case Extend(p, cid, next, xPriv, now) =>
      if p == n.home && cid == n.client.id then Some(ClientExtends(next, xPriv, now)) else None
    case Send(p, cid, target, rc, now) =>
      if p == n.home && cid == n.client.id then Some(ClientSends(target, rc, now)) else None
    case Reply(p, leg, rc) =>
      var o := FindDown(ViewOf(n), leg.peer, p, leg.circ, 0);
      if o < |n.relays| && o < |n.path| then Some(RelaySends(o, rc)) else None
    case Deliver(from, p, draws) =>
      var cells := Link(g, from, p);
      if cells == [] then None else DeliveryStep(n, from, p, cells[0], draws)
    case _ => None
  }

  lemma NotFound(v: View, x: PeerId, y: PeerId, circ: CircuitId)
    requires FindDown(v, x, y, circ, 0) == |v.path| && FindDown(v, y, x, circ, 0) == |v.path|
    ensures forall i: nat :: !Passes(v, i, x, y, circ)
  {
  }

  /** A cell that is on no connection of the circuit under its id is not reserved for it. */
  lemma NotFoundForeign(g: Mesh, v: View, from: PeerId, p: PeerId)
    requires Shows(g, v) && Link(g, from, p) != []
    requires var circ := Link(g, from, p)[0].circId;
             FindDown(v, from, p, circ, 0) == |v.path| && FindDown(v, p, from, circ, 0) == |v.path|
    ensures !Reserved(v, p, Leg(from, Link(g, from, p)[0].circId))
  {
    var circ := Link(g, from, p)[0].circId;
    FormedParts(v);
    NotFound(v, p, from, circ);
    hide Formed, TablesShown, LinksAt, FindDown;
    assert !Passes(v, 0, p, from, circ);
  }

  /** An event that is no step of the circuit leaves it alone. */
  lemma IdleSpares(g: Mesh, n: Net, event: Event)
    requires Shows(g, ViewOf(n)) && StepOf(g, n, event).None?
    requires event.Close? || event.Local? ==> Spares(g, ViewOf(n), event)
    ensures Spares(g, ViewOf(n), event) || (event.Reply? && event.leg !in At(g, event.p).relays)
  {
    hide Shows, FindDown, OpSpares, Reserved;
    match event
    case Deliver(from, p, draws) =>
      if Link(g, from, p) != [] {
        NotFoundForeign(g, ViewOf(n), from, p);
      }
    case Reply(p, leg, rc) =>
      if leg in At(g, p).relays && Reserved(ViewOf(n), p, leg) {
        OwnReply(g, ViewOf(n), p, leg);
      }
    case _ =>
  }

  lemma OwnReply(g: Mesh, v: View, p: PeerId, leg: Leg)
    requires Shows(g, v) && leg in At(g, p).relays && Reserved(v, p, leg)
    ensures var o := FindDown(v, leg.peer, p, leg.circ, 0); o < |v.relays| && o < |v.path|
  {
    FormedParts(v);
    hide Formed, LinksShown, Reserved;
    assert ShownAt(v, p, At(g, p));
    var i := ReservedRelay(v, p, At(g, p), leg);
  }

  // ── One event ───────────────────────────────────────────────────────

  /** What a run of the network asks of this circuit: its client extends and sends, and its relays answer,
      as honest ones do, and nobody takes a cell of it for its own but the addressee. */
  ghost predicate Honest(w: World, g: Mesh, n: Net, event: Event) {
    var step := StepOf(g, n, event);
    step.Some? ==>
      && (event.Deliver? || Enabled(w, n, step.value))
      && (Enabled(w, n, step.value) && F.Shape(Fwd(n)) && B.Shape(Bwd(n)) ==> NoMistake(w, n, step.value))
  }

  /** Nobody closes the circuit, sweeps it out or bridges it. */
  ghost predicate Undisturbed(g: Mesh, n: Net, event: Event) {
    event.Close? || event.Local? ==> Spares(g, ViewOf(n), event)
  }

  function Advance(w: World, g: Mesh, n: Net, event: Event): Net {
    var step := StepOf(g, n, event);
    if step.Some? && Enabled(w, n, step.value) && F.Shape(Fwd(n)) && B.Shape(Bwd(n)) then Next(w, n, step.value) else n
  }

  lemma GoodShapes(w: World, n: Net)
    requires Good(w, n)
    ensures F.Shape(Fwd(n)) && B.Shape(Bwd(n)) && Steady(w, n)
    ensures |n.down| == |n.up| == |n.relays| == |n.log.fbook| == |n.log.bbook| && |n.client.hops| <= |n.relays| <= |n.path|
  {
    SteadyShape(w, n);
    SteadyLinks(w, n);
    hide Steady, AtStage;
  }

  lemma CreateAlone(w: World, n: Net)
    requires Good(w, n) && n.create.Some?
    ensures n.created.None?
  {
    hide Steady, R.Answer, Genuine, ExtendsInFlight, ExtendedsInFlight, Word;
    var stage :| AtStage(w, n, stage);
  }

  /** What is delivered down the path. */
  lemma DownRoutes(w: World, g: Mesh, n: Net, i: nat, draws: Draws)
    requires Shows(g, ViewOf(n)) && Good(w, n) && i < |n.path|
    requires var from, p := Before(ViewOf(n), i), n.path[i].peer;
             && Link(g, from, p) != [] && Link(g, from, p)[0].circId == n.path[i].circ
             && Cautious(w, g, Deliver(from, p, draws))
    requires var step := if i < |n.relays| then RelayTakes(i, draws.nextCirc, draws.now) else NodeCreates(draws.yPriv, draws.now);
             Enabled(w, n, step) && F.Shape(Fwd(n)) && B.Shape(Bwd(n)) ==> NoMistake(w, n, step)
    ensures var step := if i < |n.relays| then RelayTakes(i, draws.nextCirc, draws.now) else NodeCreates(draws.yPriv, draws.now);
            && F.Shape(Fwd(n)) && B.Shape(Bwd(n)) && Enabled(w, n, step)
            && Shows(DoDeliver(w, g, Before(ViewOf(n), i), n.path[i].peer, draws), ViewOf(Next(w, n, step)))
  {
    hide Shows, Good, Cautious, DoDeliver, F.NotMistaken, B.NotMistaken, F.Shape, B.Shape, TakeAtRelay, CreateAtNode, Link,
         Steady, RelayPeel;
    GoodShapes(w, n);
    var v := ViewOf(n);
    if i < |n.relays| {
      assert Arriving(g, v, i);
      var cell := ArrivingParts(g, v, i);
      TakeRoutes(w, g, n, i, draws);
    } else {
      ShownLinks(g, v, i);
      PopCreate(g, v, i);
      CreateAlone(w, n);
      CreateRoutes(w, g, n, i, draws);
    }
  }

  /** What is delivered up the path. */
  lemma UpRoutes(w: World, g: Mesh, n: Net, i: nat, draws: Draws)
    requires Shows(g, ViewOf(n)) && AllSane(g) && Good(w, n) && i < |n.path|
    requires Link(g, n.path[i].peer, Before(ViewOf(n), i)) != []
    requires Link(g, n.path[i].peer, Before(ViewOf(n), i))[0].circId == n.path[i].circ
    ensures var from, p := n.path[i].peer, Before(ViewOf(n), i);
            var step := if Link(g, from, p)[0].command.Created? then CreatedArrives
                        else if i == 0 then ClientReceives(draws.now) else RelayPassesBack(i - 1);
            && F.Shape(Fwd(n)) && B.Shape(Bwd(n)) && Enabled(w, n, step)
            && Shows(DoDeliver(w, g, from, p, draws), ViewOf(Next(w, n, step)))
  {
    hide Shows, Good, AllSane, DoDeliver, F.NotMistaken, B.NotMistaken, F.Shape, B.Shape, DeliverCreated, ReceiveAtClient,
         PassBack, Link, Steady;
    GoodShapes(w, n);
    var v := ViewOf(n);
    var cell := Link(g, n.path[i].peer, Before(v, i))[0];
    if cell.command.Created? {
      if i == 0 {
        CreatedRoutesHome(w, g, n, draws);
      } else {
        CreatedRoutesBack(w, g, n, i, draws);
      }
    } else if i == 0 {
      ReceiveRoutes(w, g, n, draws);
    } else {
      BackwardRoutes(w, g, n, i, draws);
    }
  }

  lemma DeliverAdvances(w: World, g: Mesh, n: Net, from: PeerId, p: PeerId, draws: Draws)
    requires Shows(g, ViewOf(n)) && AllSane(g) && Good(w, n)
    requires var event := Deliver(from, p, draws);
             Cautious(w, g, event) && Honest(w, g, n, event) && StepOf(g, n, event).Some?
    ensures var event := Deliver(from, p, draws);
            && F.Shape(Fwd(n)) && B.Shape(Bwd(n)) && Enabled(w, n, StepOf(g, n, event).value)
            && Shows(Do(w, g, event), ViewOf(Next(w, n, StepOf(g, n, event).value)))
  {
    hide Shows, Good, AllSane, Cautious, DoDeliver, NoMistake, Enabled, F.Shape, B.Shape, Next, Link;
    var cell := Link(g, from, p)[0];
    var down, up := FindDown(ViewOf(n), from, p, cell.circId, 0), FindDown(ViewOf(n), p, from, cell.circId, 0);
    if down < |n.path| {
      DownRoutes(w, g, n, down, draws);
    } else {
      UpRoutes(w, g, n, up, draws);
    }
  }

  lemma StartedAdvances(w: World, g: Mesh, n: Net, event: Event)
    requires Shows(g, ViewOf(n)) && Good(w, n) && !event.Deliver?
    requires StepOf(g, n, event).Some? && Enabled(w, n, StepOf(g, n, event).value)
    ensures F.Shape(Fwd(n)) && B.Shape(Bwd(n))
    ensures Shows(Do(w, g, event), ViewOf(Next(w, n, StepOf(g, n, event).value)))
  {
    hide Shows, Good, F.Shape, B.Shape, DoExtend, DoSend, DoReply, ExtendFromClient, SendFromClient, SendFromRelay, Steady;
    GoodShapes(w, n);
    match event
    case Extend(p, cid, next, xPriv, now) => ExtendSends(w, g, n, next, xPriv, now);
    case Send(p, cid, target, rc, now) => ClientSendsRoutes(w, g, n, target, rc, now);
    case Reply(p, leg, rc) =>
      var o := FindDown(ViewOf(n), leg.peer, p, leg.circ, 0);
      FromIsBack(n, o);
      ReplyRoutes(w, g, n, o, rc);
  }

  /** Whatever happens in the network, on shared managers and connections: it shows the circuit either as it
      was, or after one step of its own. */
  lemma EventAdvances(w: World, g: Mesh, n: Net, event: Event)
    requires DhLaw(w.d) && Shows(g, ViewOf(n)) && AllSane(g) && Good(w, n)
    requires Cautious(w, g, event) && Undisturbed(g, n, event) && Honest(w, g, n, event)
    ensures var n' := Advance(w, g, n, event);
            Shows(Do(w, g, event), ViewOf(n')) && Good(w, n') && AllSane(Do(w, g, event))
    ensures StepOf(g, n, event).Some? ==>
      var step := StepOf(g, n, event).value;
      && F.Shape(Fwd(n)) && B.Shape(Bwd(n)) && Enabled(w, n, step) && NoMistake(w, n, step)
      && Advance(w, g, n, event) == Next(w, n, step)
  {
    hide Shows, Good, AllSane, Cautious, Do, NoMistake, Enabled, F.Shape, B.Shape, Next, StepOf, Spares;
    EventSane(w, g, event);
    var step := StepOf(g, n, event);
    if step.None? {
      IdleSpares(g, n, event);
      if Spares(g, ViewOf(n), event) {
        SparedStep(w, g, ViewOf(n), event);
      } else {
        NoReply(w, g, event);
      }
    } else {
      if event.Deliver? {
        DeliverAdvances(w, g, n, event.from, event.p, event.draws);
      } else {
        StartedAdvances(w, g, n, event);
      }
      StepGood(w, n, step.value);
    }
  }

  lemma NoReply(w: World, g: Mesh, event: Event)
    requires event.Reply? && event.leg !in At(g, event.p).relays
    ensures Do(w, g, event) == g
  {
  }

  // ── Whole runs ──────────────────────────────────────────────────────

  /** `events` take the network from `g` to `g'`, every node being careful; of this circuit they make
      `steps`, which take it from `n` to `n'`. */
  ghost predicate Follows(w: World, g: Mesh, n: Net, events: seq<Event>, g': Mesh, n': Net)
    decreases events
  {
    if events == [] then g' == g && n' == n
    else
      && Cautious(w, g, events[0]) && Undisturbed(g, n, events[0]) && Honest(w, g, n, events[0])
      && Follows(w, Do(w, g, events[0]), Advance(w, g, n, events[0]), events[1..], g', n')
  }

  function StepsOf(w: World, g: Mesh, n: Net, events: seq<Event>): seq<R.Step>
    decreases events
  {
    if events == [] then []
    else
      var step, rest := StepOf(g, n, events[0]), StepsOf(w, Do(w, g, events[0]), Advance(w, g, n, events[0]), events[1..]);
      if step.Some? then [step.value] + rest else rest
  }

  /** A run of the network is, for each circuit in it, a run of that circuit. */
  lemma {:induction false} NetworkRefines(w: World, g: Mesh, n: Net, events: seq<Event>, g': Mesh, n': Net)
    requires DhLaw(w.d) && Shows(g, ViewOf(n)) && AllSane(g) && Good(w, n) && Follows(w, g, n, events, g', n')
    ensures Shows(g', ViewOf(n')) && AllSane(g') && Good(w, n')
    ensures R.Run(w, n, StepsOf(w, g, n, events), n')
    decreases events
  {
    hide Shows, Good, AllSane, Cautious, Do, NoMistake, Enabled, F.Shape, B.Shape, Next, StepOf, Advance, Undisturbed, Honest;
    if events != [] {
      var g1, n1 := Do(w, g, events[0]), Advance(w, g, n, events[0]);
      EventAdvances(w, g, n, events[0]);
      NetworkRefines(w, g1, n1, events[1..], g', n');
      AdvanceIdle(w, g, n, events[0]);
      var step := StepOf(g, n, events[0]);
      if step.Some? {
        var steps := StepsOf(w, g, n, events);
        assert steps[0] == step.value && steps[1..] == StepsOf(w, g1, n1, events[1..]);
      }
    }
  }

  lemma AdvanceIdle(w: World, g: Mesh, n: Net, event: Event)
    ensures StepOf(g, n, event).None? ==> Advance(w, g, n, event) == n
  {
    hide StepOf;
  }

  /** `start_circuit` with a fresh id. */
  lemma StartShows(w: World, g: Mesh, p: PeerId, guard: PeerId, xPriv: Key32, now: Instant)
    requires AllSane(g) && Cautious(w, g, Start(p, guard, xPriv, now))
    ensures Shows(DoStart(w, g, p, guard, xPriv, now), ViewOf(R.Begin(w, At(g, p).nextOriginId, p, guard, xPriv, now)))
  {
    hide Shows, FreshOrigin, ClientHandshakeStart, StaticPub;
    var cid := At(g, p).nextOriginId;
    var (m, (c, create)) := MgrStart(w.d, At(g, p), guard, guard, StaticPub(w, guard), xPriv, now);
    var (hs, msg) := ClientHandshakeStart(w.d, guard, StaticPub(w, guard), xPriv);
    var o := NewOrigin(cid, guard, now).(pending := Some(hs));
    var g1 := WithMgr(g, p, m);
    BornShows(g, g1, p, o);
    assert create.payload[..CLIENT_HANDSHAKE_LEN] == msg;
    PushCreate(g1, Born(p, o), 0, create, msg);
  }
}

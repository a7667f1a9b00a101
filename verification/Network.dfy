/** Nodes, each with its `CircuitManager`, and the connections between them: first-in first-out, of whole
    cells, shared by every circuit that passes. What a node does with a cell is the dispatch of
    `phinet-core/src/node.rs:1794-2367`, which finds the circuit in the manager's tables. */
module Network {
  import opened Wrappers
  import opened Bytes
  import opened Circuit
  import opened Ntor
  import opened ExtendCodec
  import opened CircuitState
  import opened CircuitRun
  import opened ManagerTables

  datatype Conn = Conn(from: PeerId, to: PeerId)

  datatype Mesh = Mesh(mgrs: map<PeerId, Mgr>, links: map<Conn, seq<Cell>>)

  const EMPTY: Mesh := Mesh(map[], map[])

  /** A node nobody has met yet has a new manager. */
  function At(g: Mesh, id: PeerId): Mgr {
    if id in g.mgrs then g.mgrs[id] else NEW_MGR
  }

  /** The cells on their way from one node to another, oldest first. */
  function Link(g: Mesh, from: PeerId, to: PeerId): seq<Cell> {
    if Conn(from, to) in g.links then g.links[Conn(from, to)] else []
  }

  function WithMgr(g: Mesh, id: PeerId, m: Mgr): Mesh {
    g.(mgrs := g.mgrs[id := m])
  }

  function WithLink(g: Mesh, from: PeerId, to: PeerId, cells: seq<Cell>): Mesh {
    g.(links := g.links[Conn(from, to) := cells])
  }

  function Push(g: Mesh, from: PeerId, to: PeerId, cell: Cell): Mesh {
    WithLink(g, from, to, Link(g, from, to) + [cell])
  }

  function Pop(g: Mesh, from: PeerId, to: PeerId): Mesh
    requires Link(g, from, to) != []
  {
    WithLink(g, from, to, Link(g, from, to)[1..])
  }

  // ── What a node does with a cell ────────────────────────────────────

  /** What the node draws and reads while it handles a cell. */
  datatype Draws = Draws(yPriv: Key32, nextCirc: CircuitId, now: Instant)

  type Out = Option<(PeerId, Cell)>

  function OnCreate(w: World, me: PeerId, m: Mgr, leg: Leg, cell: Cell, draws: Draws): (Mgr, Out) {
    var (m', r) := MgrCreate(w.d, w.l, m, leg, me, StaticPub(w, me), w.nodes(me).bSecret,
                             cell.payload[..CLIENT_HANDSHAKE_LEN], draws.yPriv, draws.now);
    (m', match r case Ok(reply) => Some((leg.peer, reply)) case Err(_) => None)
  }

  /** An origin circuit of that id comes first, whoever sent the cell. */
  function OnCreated(w: World, m: Mgr, leg: Leg, cell: Cell): (Mgr, Out) {
    var reply := cell.payload[..SERVER_HANDSHAKE_LEN];
    if leg.circ in m.origins then
      (m.(origins := m.origins[leg.circ := OriginCreated(w.d, w.l, m.origins[leg.circ], reply).0]), None)
    else
      var (m', r) := MgrCreatedFromNext(w.s, m, leg, reply);
      (m', match r case Ok(out) => Some(out) case Err(_) => None)
  }

  /** A cell that is this relay's own: only an EXTEND2 concerns the circuit. What the node does about
      other commands are steps of their own. */
  function OnHandle(w: World, m: Mgr, leg: Leg, rc: RelayCell, draws: Draws): (Mgr, Out) {
    if rc.command != Extend2 then (m, None)
    else
      match Extend2Of(w.net, rc.data)
      case Err(_) => (m, None)
      case Ok((spec, _)) =>
        var (m', r) := MgrExtend(w.net, m, leg, Leg(spec.nodeId, draws.nextCirc), rc.data);
        (m', match r case Ok(create) => Some((spec.nodeId, create)) case Err(_) => None)
  }

  /** The tables tell which way a relay cell is going: an origin circuit of that id comes first, then a
      circuit extended over this leg, then one that came in over it. */
  function OnRelay(w: World, m: Mgr, leg: Leg, cell: Cell, draws: Draws): (Mgr, Out) {
    if leg.circ in m.origins then
      (m.(origins := m.origins[leg.circ := OriginRelay(w.s, w.d, w.l, m.origins[leg.circ], cell.payload, draws.now).0]), None)
    else if leg in m.relayByNext then MgrBackward(w.s, m, leg, cell)
    else if leg in m.relays then
      var (m', action) := MgrForward(w.s, m, leg, cell, draws.now);
      match action
      case Handle(rc) => OnHandle(w, m', leg, rc, draws)
      case Forward(peer, onward) => (m', Some((peer, onward)))
      case Drop => (m', None)
    else (m, None)
  }

  function DestroyCell(circ: CircuitId): Cell {
    Cell(circ, Destroy, Zeros(CELL_PAYLOAD))
  }

  /** A bridged partner is told. */
  function OnDestroy(m: Mgr, leg: Leg): (Mgr, Out) {
    (MgrDestroy(m, leg),
     if leg in m.rendezvousBridges
     then var partner := m.rendezvousBridges[leg]; Some((partner.peer, DestroyCell(partner.circ)))
     else None)
  }

  function Dispatch(w: World, me: PeerId, m: Mgr, leg: Leg, cell: Cell, draws: Draws): (Mgr, Out) {
    match cell.command
    case Create => OnCreate(w, me, m, leg, cell, draws)
    case Created => OnCreated(w, m, leg, cell)
    case Relay => OnRelay(w, m, leg, cell, draws)
    case RelayEarly => OnRelay(w, m, leg, cell, draws)
    case Destroy => OnDestroy(m, leg)
    case _ => (m, None)
  }

  // ── Steps ───────────────────────────────────────────────────────────

  /** Operations on the tables that no cell of a circuit asks for directly. */
  datatype TableOp =
    | RegisterCookie(cookie: Cookie, from: Leg)
    | ConsumeCookie(cookie: Cookie)
    | RegisterPending(cookie: Cookie, pending: PendingRendezvous)
    | BridgeLegs(client: Leg, hs: Leg)
    | UnbridgeLeg(from: Leg)
    | CompleteRendezvous(cookie: Cookie, y: Key32, auth: Key32)
    | InstallE2E(cid: CircuitId, keys: E2EKeys)
    | EvictIdle(now: Instant, order: seq<Leg>)

  datatype Event =
    | Start(p: PeerId, guard: PeerId, xPriv: Key32, now: Instant)
    | Extend(p: PeerId, cid: CircuitId, next: PeerId, xPriv: Key32, now: Instant)
    | Send(p: PeerId, cid: CircuitId, target: nat, rc: RelayCell, now: Instant)
    | Reply(p: PeerId, leg: Leg, rc: RelayCell)
    | Close(p: PeerId, cid: CircuitId)
    | Deliver(from: PeerId, p: PeerId, draws: Draws)
    | Local(p: PeerId, op: TableOp)

  /** A hidden service installs the end-to-end layer on its own circuit to the rendezvous point. */
  function Installed(m: Mgr, cid: CircuitId, keys: E2EKeys): Mgr {
    var origins :=
      if cid in m.origins then m.origins[cid := m.origins[cid].(e2e := Some(HopFromE2E(keys, false)))] else m.origins;
    m.(origins := origins, e2eKeys := m.e2eKeys[cid := keys])
  }

  function DoTableOp(w: World, m: Mgr, op: TableOp): Mgr {
    match op
    case RegisterCookie(cookie, from) => m.(rendezvousCookies := m.rendezvousCookies[cookie := from])
    case ConsumeCookie(cookie) => m.(rendezvousCookies := m.rendezvousCookies - {cookie})
    case RegisterPending(cookie, pending) => m.(pendingRendezvous := m.pendingRendezvous[cookie := pending])
    case BridgeLegs(client, hs) => m.(rendezvousBridges := Bridge(m.rendezvousBridges, client, hs))
    case UnbridgeLeg(from) => m.(rendezvousBridges := Unbridge(m.rendezvousBridges, from))
    case CompleteRendezvous(cookie, y, auth) => MgrCompleteRendezvous(w.d, w.l, m, cookie, y, auth).0
    case InstallE2E(cid, keys) => Installed(m, cid, keys)
    case EvictIdle(now, order) => Evict(m, now, order)
  }

  function SendOut(g: Mesh, from: PeerId, out: Out): Mesh {
    if out.None? then g else Push(g, from, out.value.0, out.value.1)
  }

  /** A relay puts a cell of its own on a circuit, toward the client. */
  function OwnCell(s: Suite, r: RelayCircuit, rc: RelayCell): (RelayCircuit, Cell) {
    var (rc', digest') := StampDigest(s, rc, r.hop.backward.digest);
    var (hop, p) := OnionBackward(s, r.hop.(backward := r.hop.backward.(digest := digest')), ToPayload(rc'));
    (r.(hop := hop), Cell(r.prevCircId, CellCommand.Relay, p))
  }

  function DoStart(w: World, g: Mesh, p: PeerId, guard: PeerId, xPriv: Key32, now: Instant): Mesh {
    var (m, (cid, create)) := MgrStart(w.d, At(g, p), guard, guard, StaticPub(w, guard), xPriv, now);
    Push(WithMgr(g, p, m), p, guard, create)
  }

  function DoExtend(w: World, g: Mesh, p: PeerId, cid: CircuitId, next: PeerId, xPriv: Key32, now: Instant): Mesh {
    var m := At(g, p);
    if cid !in m.origins then g
    else
      var (o, r) := OriginExtend(w.s, w.d, w.net, m.origins[cid], SpecOf(w, next), xPriv, now);
      var g' := WithMgr(g, p, m.(origins := m.origins[cid := o]));
      match r case Ok(cell) => Push(g', p, o.peer, cell) case Err(_) => g'
  }

  function DoSend(w: World, g: Mesh, p: PeerId, cid: CircuitId, target: nat, rc: RelayCell, now: Instant): Mesh {
    var m := At(g, p);
    if cid !in m.origins then g
    else
      var (o, r) := EncryptOutbound(w.s, m.origins[cid], target, rc, now);
      var g' := WithMgr(g, p, m.(origins := m.origins[cid := o]));
      match r case Ok(payload) => Push(g', p, o.peer, Cell(cid, CellCommand.Relay, payload)) case Err(_) => g'
  }

  function DoReply(w: World, g: Mesh, p: PeerId, leg: Leg, rc: RelayCell): Mesh {
    var m := At(g, p);
    if leg !in m.relays then g
    else
      var (r, cell) := OwnCell(w.s, m.relays[leg], rc);
      Push(WithMgr(g, p, m.(relays := m.relays[leg := r])), p, r.prevPeer, cell)
  }

  function DoClose(g: Mesh, p: PeerId, cid: CircuitId): Mesh {
    var m := At(g, p);
    if cid !in m.origins then g
    else
      var guard := m.origins[cid].peer;
      Push(WithMgr(g, p, MgrDestroy(m, Leg(guard, cid))), p, guard, DestroyCell(cid))
  }

  function DoDeliver(w: World, g: Mesh, from: PeerId, p: PeerId, draws: Draws): Mesh {
    var cells := Link(g, from, p);
    if cells == [] then g
    else
      var (m, out) := Dispatch(w, p, At(g, p), Leg(from, cells[0].circId), cells[0], draws);
      SendOut(WithMgr(Pop(g, from, p), p, m), p, out)
  }

  function Do(w: World, g: Mesh, event: Event): Mesh {
    match event
    case Start(p, guard, xPriv, now) => DoStart(w, g, p, guard, xPriv, now)
    case Extend(p, cid, next, xPriv, now) => DoExtend(w, g, p, cid, next, xPriv, now)
    case Send(p, cid, target, rc, now) => DoSend(w, g, p, cid, target, rc, now)
    case Reply(p, leg, rc) => DoReply(w, g, p, leg, rc)
    case Close(p, cid) => DoClose(g, p, cid)
    case Deliver(from, p, draws) => DoDeliver(w, g, from, p, draws)
    case Local(p, op) => WithMgr(g, p, DoTableOp(w, At(g, p), op))
  }

  // ── Ids are fresh ───────────────────────────────────────────────────

  predicate NoCells(cells: seq<Cell>, circ: CircuitId) {
    forall k :: 0 <= k < |cells| ==> cells[k].circId != circ
  }

  /** The leg is in no table of the manager that routes cells. */
  predicate LegFree(m: Mgr, leg: Leg) {
    leg !in m.relays && leg !in m.relayByNext && leg !in m.rendezvousBridges
  }

  /** Nothing at the two nodes or between them uses the id on their connection. */
  predicate ConnFree(g: Mesh, x: PeerId, y: PeerId, circ: CircuitId) {
    && LegFree(At(g, x), Leg(y, circ)) && LegFree(At(g, y), Leg(x, circ))
    && NoCells(Link(g, x, y), circ) && NoCells(Link(g, y, x), circ)
  }

  /** An id drawn for the connection from `x` to `y`. Neither node may have an origin circuit of that id:
      those are found by id alone. */
  predicate FreshBetween(g: Mesh, x: PeerId, y: PeerId, circ: CircuitId) {
    && x != y && ConnFree(g, x, y, circ)
    && circ !in At(g, x).origins && circ !in At(g, y).origins
  }

  /** An id for an origin circuit of `x`, free on every connection `x` has. */
  ghost predicate FreshOrigin(g: Mesh, x: PeerId, circ: CircuitId) {
    && circ !in At(g, x).origins
    && forall y :: ConnFree(g, x, y, circ) && (circ in At(g, y).origins ==> At(g, y).origins[circ].peer != x)
  }

  /** The onward leg a node draws when the cell it is given makes it extend a circuit. */
  function DrawnLeg(w: World, m: Mgr, leg: Leg, cell: Cell, draws: Draws): Option<Leg> {
    if !cell.command.Relay? && !cell.command.RelayEarly? then None
    else if leg.circ in m.origins || leg in m.relayByNext || leg !in m.relays then None
    else
      var (m', action) := MgrForward(w.s, m, leg, cell, draws.now);
      if !action.Handle? || action.cell.command != Extend2 then None
      else
        match Extend2Of(w.net, action.cell.data)
        case Err(_) => None
        case Ok((spec, _)) =>
          var next := Leg(spec.nodeId, draws.nextCirc);
          if MgrExtend(w.net, m', leg, next, action.cell.data).1.Ok? then Some(next) else None
  }

  /** Where a CREATE is taken, its leg is not in use. */
  predicate CreateFresh(w: World, me: PeerId, m: Mgr, leg: Leg, cell: Cell, draws: Draws) {
    cell.command.Create? && OnCreate(w, me, m, leg, cell, draws).1.Some? ==>
      leg in m.relays ==> m.relays[leg].Next().None?
  }

  /** What is asked of every node: ids are drawn fresh, legs are bridged in pairs, and no leg over which
      another circuit came in is taken again. */
  ghost predicate Cautious(w: World, g: Mesh, event: Event) {
    match event
    case Start(p, guard, _, _) =>
      var circ := At(g, p).nextOriginId;
      p != guard && FreshOrigin(g, p, circ) && circ !in At(g, guard).origins
    case Deliver(from, p, draws) =>
      var cells, m := Link(g, from, p), At(g, p);
      cells != [] ==>
        var leg := Leg(from, cells[0].circId);
        && CreateFresh(w, p, m, leg, cells[0], draws)
        && var next := DrawnLeg(w, m, leg, cells[0], draws);
        next.Some? ==> FreshBetween(g, p, next.value.peer, next.value.circ)
    case Local(p, BridgeLegs(client, hs)) => MayBridge(At(g, p).rendezvousBridges, client, hs)
    case Local(p, EvictIdle(now, order)) => Elements(order) == DeadRelays(At(g, p), now)
    case _ => true
  }

  // ── Every manager is in order ───────────────────────────────────────

  /** Entries know their own keys. */
  ghost predicate Named(m: Mgr) {
    && (forall leg :: leg in m.relays ==> Leg(m.relays[leg].prevPeer, m.relays[leg].prevCircId) == leg)
    && (forall c :: c in m.origins ==> m.origins[c].id == c)
  }

  ghost predicate Sane(m: Mgr) {
    Consistent(m) && Named(m)
  }

  ghost predicate AllSane(g: Mesh) {
    forall id :: Sane(At(g, id))
  }
}

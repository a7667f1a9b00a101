/** One circuit as the network shows it: its entries in the managers' tables, and its cells on the
    connections it shares with others. */
module NetworkView {
  import opened Wrappers
  import opened Bytes
  import opened Circuit
  import opened Ntor
  import opened ExtendCodec
  import opened CircuitState
  import opened CircuitRun
  import opened ManagerTables
  import opened Network

  /** `path[i]` is the leg on which the node before reaches the `i`-th node. There is one relay circuit for
      each node of the path, but for a last one the CREATE has not reached. `partner` is the leg the last
      relay circuit is bridged to. */
  datatype View = View(
    home: PeerId, path: seq<Leg>, origin: Origin, relays: seq<RelayCircuit>, down: seq<seq<Payload>>, up: seq<seq<Payload>>,
    create: Option<ClientMsg>, created: Option<ServerMsg>, partner: Option<Leg>)

  /** The node before the `i`-th, the client's for the first. */
  function Before(v: View, i: nat): PeerId
    requires i < |v.path|
  {
    if i == 0 then v.home else v.path[i - 1].peer
  }

  /** The leg on which the `i`-th node sees the circuit. */
  function Back(v: View, i: nat): Leg
    requires i < |v.path|
  {
    Leg(Before(v, i), v.path[i].circ)
  }

  /** The circuit passes between the two nodes under this id on its way to its `i`-th node. */
  predicate Passes(v: View, i: nat, x: PeerId, y: PeerId, circ: CircuitId) {
    && i < |v.path| && v.path[i].circ == circ
    && ((x == Before(v, i) && y == v.path[i].peer) || (x == v.path[i].peer && y == Before(v, i)))
  }

  /** The leg at node `x` is the circuit's, or must stay unused because the client finds its circuit by
      the id alone. */
  ghost predicate Reserved(v: View, x: PeerId, leg: Leg) {
    || (exists i :: Passes(v, i, x, leg.peer, leg.circ))
    || ((x == v.home || leg.peer == v.home) && leg.circ == v.origin.id)
  }

  /** A node the circuit passes must not find an origin circuit under the same id. */
  ghost predicate ReservedOrigin(v: View, x: PeerId, circ: CircuitId) {
    exists i, y :: Passes(v, i, x, y, circ)
  }

  // ── What is in the circuit itself ───────────────────────────────────

  predicate Sized(v: View) {
    && |v.relays| <= |v.path| <= |v.relays| + 1 && |v.down| == |v.up| == |v.relays|
    && v.path != [] && v.path[0] == Leg(v.origin.peer, v.origin.id)
    && (v.create.Some? ==> |v.path| == |v.relays| + 1) && (v.created.Some? ==> v.relays != [])
    && (v.partner.Some? ==> |v.path| == |v.relays|)
  }

  /** No two of its connections have the same ends and id. */
  predicate Apart(v: View) {
    && (forall i :: 0 <= i < |v.path| ==> Before(v, i) != v.path[i].peer)
    && (forall i, j :: 0 <= i < j < |v.path| ==> !Passes(v, j, Before(v, i), v.path[i].peer, v.path[i].circ))
  }

  /** Each relay circuit knows its two legs. */
  predicate Keyed(v: View) {
    |v.relays| <= |v.path| &&
    forall i :: 0 <= i < |v.relays| ==>
      && Leg(v.relays[i].prevPeer, v.relays[i].prevCircId) == Back(v, i)
      && (if i + 1 < |v.path| then v.relays[i].Next() == Some(v.path[i + 1]) else v.relays[i].nextPeer.None?)
  }

  predicate Formed(v: View) {
    Sized(v) && Apart(v) && Keyed(v)
  }

  // ── In the tables ───────────────────────────────────────────────────

  /** What the manager of the `i`-th node holds. Entries of `relay_by_next` follow from those of the relay
      circuits; what must be said is where there is none. */
  ghost predicate AtNode(v: View, i: nat, m: Mgr)
    requires i < |v.path|
  {
    && (if i < |v.relays| then Holds(m.relays, Back(v, i), v.relays[i]) else Back(v, i) !in m.relays)
    && Back(v, i) !in m.relayByNext
    && v.path[i].circ !in m.origins
    && (if i + 1 == |v.relays| && v.partner.Some? then Holds(m.rendezvousBridges, Back(v, i), v.partner.value)
        else Back(v, i) !in m.rendezvousBridges)
  }

  /** What the manager of the node before holds of the leg onward. */
  ghost predicate AtBefore(v: View, i: nat, m: Mgr)
    requires i < |v.path|
  {
    && v.path[i] !in m.relays && v.path[i] !in m.rendezvousBridges
    && (if i == 0 then v.path[i] !in m.relayByNext else v.path[i].circ !in m.origins)
  }

  /** The client's id is not used on any other connection of the client. */
  ghost predicate AtHome(v: View, m: Mgr)
    requires v.path != []
  {
    && Holds(m.origins, v.origin.id, v.origin)
    && forall y :: y != v.path[0].peer ==> LegFree(m, Leg(y, v.origin.id))
  }

  ghost predicate AtOther(v: View, x: PeerId, m: Mgr)
    requires v.path != []
  {
    && (x != v.path[0].peer ==> LegFree(m, Leg(v.home, v.origin.id)))
    && (x != v.home && v.origin.id in m.origins ==> m.origins[v.origin.id].peer != v.home)
  }

  ghost predicate ShownAt(v: View, x: PeerId, m: Mgr)
    requires v.path != []
  {
    && (forall i :: 0 <= i < |v.path| && x == v.path[i].peer ==> AtNode(v, i, m))
    && (forall i :: 0 <= i < |v.path| && x == Before(v, i) ==> AtBefore(v, i, m))
    && (x == v.home ==> AtHome(v, m))
    && AtOther(v, x, m)
  }

  // ── On the connections ──────────────────────────────────────────────

  /** The cells of one circuit id, in order. */
  function On(cells: seq<Cell>, circ: CircuitId): (r: seq<Cell>)
    ensures forall c :: c in r ==> c in cells && c.circId == circ
    decreases |cells|
  {
    if cells == [] then []
    else (if cells[0].circId == circ then [cells[0]] else []) + On(cells[1..], circ)
  }

  predicate IsRelay(c: Cell) {
    c.command.Relay? || c.command.RelayEarly?
  }

  /** The cells are relay cells with these payloads. */
  predicate Carries(cells: seq<Cell>, payloads: seq<Payload>) {
    && |cells| == |payloads|
    && forall k :: 0 <= k < |cells| ==> IsRelay(cells[k]) && cells[k].payload == payloads[k]
  }

  predicate IsCreate(c: Cell, msg: ClientMsg) {
    c.command.Create? && c.payload[..CLIENT_HANDSHAKE_LEN] == msg
  }

  predicate IsCreated(c: Cell, reply: ServerMsg) {
    c.command.Created? && c.payload[..SERVER_HANDSHAKE_LEN] == reply
  }

  predicate DownAt(v: View, i: nat, cells: seq<Cell>)
    requires Formed(v) && i < |v.path|
  {
    if i < |v.relays| then Carries(cells, v.down[i])
    else if v.create.Some? then |cells| == 1 && IsCreate(cells[0], v.create.value)
    else cells == []
  }

  predicate UpAt(v: View, i: nat, cells: seq<Cell>)
    requires Formed(v) && i < |v.path|
  {
    if i >= |v.relays| then cells == []
    else if i + 1 == |v.relays| && v.created.Some? then
      cells != [] && IsCreated(cells[0], v.created.value) && Carries(cells[1..], v.up[i])
    else Carries(cells, v.up[i])
  }

  predicate LinksAt(g: Mesh, v: View, i: nat)
    requires Formed(v) && i < |v.path|
  {
    && DownAt(v, i, On(Link(g, Before(v, i), v.path[i].peer), v.path[i].circ))
    && UpAt(v, i, On(Link(g, v.path[i].peer, Before(v, i)), v.path[i].circ))
  }

  ghost predicate LinksShown(g: Mesh, v: View)
    requires Formed(v)
  {
    && (forall i :: 0 <= i < |v.path| ==> LinksAt(g, v, i))
    && forall y :: y != v.path[0].peer ==>
      NoCells(Link(g, v.home, y), v.origin.id) && NoCells(Link(g, y, v.home), v.origin.id)
  }

  ghost predicate TablesShown(g: Mesh, v: View)
    requires Formed(v)
  {
    forall x :: ShownAt(v, x, At(g, x))
  }

  /** The network holds the circuit, and nothing that could be mistaken for it. */
  ghost predicate Shows(g: Mesh, v: View) {
    Formed(v) && TablesShown(g, v) && LinksShown(g, v)
  }

  // ── Cells of one id ─────────────────────────────────────────────────

  lemma {:induction false} OnConcat(a: seq<Cell>, b: seq<Cell>, circ: CircuitId)
    ensures On(a + b, circ) == On(a, circ) + On(b, circ)
  {
    if a == [] {
      assert a + b == b;
    } else {
      assert (a + b)[1..] == a[1..] + b;
      OnConcat(a[1..], b, circ);
    }
  }

  lemma OnSnoc(a: seq<Cell>, c: Cell, circ: CircuitId)
    ensures On(a + [c], circ) == if c.circId == circ then On(a, circ) + [c] else On(a, circ)
  {
    OnConcat(a, [c], circ);
  }

  lemma OnTail(a: seq<Cell>, circ: CircuitId)
    requires a != []
    ensures a[0].circId == circ ==> On(a, circ) != [] && On(a, circ)[0] == a[0] && On(a[1..], circ) == On(a, circ)[1..]
    ensures a[0].circId != circ ==> On(a[1..], circ) == On(a, circ)
  {
  }

  lemma {:induction false} OnNone(a: seq<Cell>, circ: CircuitId)
    ensures NoCells(a, circ) <==> On(a, circ) == []
  {
    if a != [] {
      OnNone(a[1..], circ);
    }
  }

  // ── Whose leg ───────────────────────────────────────────────────────

  /** What a manager holds of a reserved leg. */
  lemma ReservedAt(v: View, x: PeerId, m: Mgr, leg: Leg)
    requires Formed(v) && ShownAt(v, x, m) && Reserved(v, x, leg)
    ensures || (exists i: nat :: i < |v.path| && x == v.path[i].peer && leg == Back(v, i) && AtNode(v, i, m))
            || (exists i: nat :: i < |v.path| && x == Before(v, i) && leg == v.path[i] && AtBefore(v, i, m))
            || LegFree(m, leg)
  {
    hide AtNode, AtBefore;
    if k: nat :| Passes(v, k, x, leg.peer, leg.circ) {
      if x == v.path[k].peer && leg.peer == Before(v, k) {
        assert AtNode(v, k, m);
      } else {
        assert AtBefore(v, k, m);
      }
    } else {
      assert !Passes(v, 0, x, leg.peer, leg.circ);
      assert leg == Leg(leg.peer, v.origin.id);
    }
  }

  /** A reserved leg over which some circuit came in is one of this circuit's. */
  lemma ReservedRelay(v: View, x: PeerId, m: Mgr, leg: Leg) returns (i: nat)
    requires Formed(v) && ShownAt(v, x, m) && Reserved(v, x, leg) && leg in m.relays
    ensures i < |v.relays| && x == v.path[i].peer && leg == Back(v, i)
  {
    ReservedAt(v, x, m, leg);
    i :| i < |v.path| && x == v.path[i].peer && leg == Back(v, i) && AtNode(v, i, m);
  }

  /** A reserved leg over which some circuit goes on is one of this circuit's. */
  lemma ReservedNext(v: View, x: PeerId, m: Mgr, leg: Leg) returns (i: nat)
    requires Formed(v) && ShownAt(v, x, m) && Reserved(v, x, leg) && leg in m.relayByNext
    ensures 0 < i < |v.path| && x == Before(v, i) && leg == v.path[i]
  {
    ReservedAt(v, x, m, leg);
    i :| i < |v.path| && x == Before(v, i) && leg == v.path[i] && AtBefore(v, i, m);
  }

  /** A reserved leg that is bridged is this circuit's last. */
  lemma ReservedBridge(v: View, x: PeerId, m: Mgr, leg: Leg)
    requires Formed(v) && ShownAt(v, x, m) && Reserved(v, x, leg) && leg in m.rendezvousBridges
    ensures v.partner.Some? && v.relays != [] && x == v.path[|v.relays| - 1].peer && leg == Back(v, |v.relays| - 1)
    ensures m.rendezvousBridges[leg] == v.partner.value
  {
    ReservedAt(v, x, m, leg);
    var i: nat :| i < |v.path| && x == v.path[i].peer && leg == Back(v, i) && AtNode(v, i, m);
  }

  lemma ReservedBothWays(v: View, x: PeerId, y: PeerId, circ: CircuitId)
    ensures Reserved(v, x, Leg(y, circ)) <==> Reserved(v, y, Leg(x, circ))
  {
    forall i
      ensures Passes(v, i, x, y, circ) <==> Passes(v, i, y, x, circ)
    {
    }
  }
}

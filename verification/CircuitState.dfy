/** What each operation of `phinet-core/src/circuit_mgr.rs` does, as functions on the values the
    manager stores. The classes of module `CircuitMgr` are verified against these functions, and the
    properties of circuits are proved about them. */
module CircuitState {
  import opened Wrappers
  import opened Bytes
  import opened Circuit
  import opened Ntor
  import opened ExtendCodec
  import opened Flow

  type PeerId = Key32

  /** Circuit ids are local to a connection, so tables are keyed by both. */
  datatype Leg = Leg(peer: PeerId, circ: CircuitId)

  type Cookie = c: bytes | |c| == 20 witness Zeros(20)

  /** Nanoseconds; `Instant::duration_since` saturates at zero. */
  type Instant = nat

  const IDLE_TIMEOUT: nat := 3_600_000_000_000

  predicate IsIdle(lastActivity: Instant, now: Instant) {
    now > lastActivity && now - lastActivity > IDLE_TIMEOUT
  }

  datatype CircuitError =
    | UnknownCircuit | NoPending | AuthFailed | NoHops | BudgetExhausted | BadTarget | TooLarge
    | BadReply | WrongAddressee | AlreadyExtended | BadExtend | NotExpected | NoCookie

  // ── Both directions of every hop ────────────────────────────────────

  function Forwards(hops: seq<HopState>): (r: seq<Half>)
    ensures |r| == |hops|
  {
    seq(|hops|, i requires 0 <= i < |hops| => hops[i].forward)
  }

  function Backwards(hops: seq<HopState>): (r: seq<Half>)
    ensures |r| == |hops|
  {
    seq(|hops|, i requires 0 <= i < |hops| => hops[i].backward)
  }

  function WithForwards(hops: seq<HopState>, hs: seq<Half>): (r: seq<HopState>)
    requires |hs| == |hops|
    ensures Forwards(r) == hs && Backwards(r) == Backwards(hops)
  {
    seq(|hops|, i requires 0 <= i < |hops| => hops[i].(forward := hs[i]))
  }

  function WithBackwards(hops: seq<HopState>, hs: seq<Half>): (r: seq<HopState>)
    requires |hs| == |hops|
    ensures Backwards(r) == hs && Forwards(r) == Forwards(hops)
  {
    seq(|hops|, i requires 0 <= i < |hops| => hops[i].(backward := hs[i]))
  }

  lemma HopsByHalves(a: seq<HopState>, b: seq<HopState>)
    requires Forwards(a) == Forwards(b) && Backwards(a) == Backwards(b)
    ensures a == b
  {
    assert |a| == |Forwards(a)| == |Forwards(b)| == |b|;
    forall i | 0 <= i < |a|
      ensures a[i] == b[i]
    {
      assert Forwards(a)[i] == Forwards(b)[i] && Backwards(a)[i] == Backwards(b)[i];
    }
  }

  // ── Origin circuits ─────────────────────────────────────────────────

  /** The value of an `OriginCircuit`. */
  datatype Origin = Origin(
    id: CircuitId, peer: PeerId, hops: seq<HopState>, pending: Option<ClientHandshake>,
    relayEarlyUsed: nat, e2e: Option<HopState>, lastActivity: Instant)

  function NewOrigin(id: CircuitId, peer: PeerId, now: Instant): Origin {
    Origin(id, peer, [], None, 0, None, now)
  }

  function EncryptOutbound(s: Suite, o: Origin, target: nat, rc: RelayCell, now: Instant): (Origin, Result<Payload, CircuitError>) {
    if target >= |o.hops| then (o, Err(BadTarget))
    else if o.e2e.Some? then
      var e := o.e2e.value;
      var (rc', digest') := StampDigest(s, rc, e.forward.digest);
      var (h, p) := Crypt(s, e.forward.(digest := digest'), ToPayload(rc'));
      var (hs, p') := WrapAll(s, Forwards(o.hops), target + 1, p);
      (o.(e2e := Some(e.(forward := h)), hops := WithForwards(o.hops, hs), lastActivity := now), Ok(p'))
    else
      var hs0 := Forwards(o.hops);
      var (rc', digest') := StampDigest(s, rc, hs0[target].digest);
      var (hs, p') := WrapAll(s, hs0[target := hs0[target].(digest := digest')], target + 1, ToPayload(rc'));
      (o.(hops := WithForwards(o.hops, hs), lastActivity := now), Ok(p'))
  }

  /** Who an inbound cell is from: a hop of the path, or the far end of a rendezvous (the source's
      sentinel `usize::MAX`). */
  datatype Source = FromHop(hop: nat) | FromFarEnd

  function DecryptInbound(s: Suite, o: Origin, p: Payload, now: Instant): (Origin, Option<(Source, RelayCell)>) {
    var r := Peel(s, Backwards(o.hops), 0, p);
    var o1 := o.(hops := WithBackwards(o.hops, r.hops));
    if r.recognized then
      (o1.(lastActivity := now), Some((FromHop(r.hop), FromPayload(r.payload).value)))
    else if o.e2e.None? then (o1, None)
    else
      var (h, q) := Crypt(s, o.e2e.value.backward, r.payload);
      if RecognizedPayload(s, q, h.digest) then
        (o1.(e2e := Some(o.e2e.value.(backward := h.(digest := h.digest + Blank(q)))), lastActivity := now),
         Some((FromFarEnd, FromPayload(q).value)))
      else
        (o1.(e2e := Some(o.e2e.value.(backward := h))), None)
  }

  /** `handle_created`: the pending handshake is spent whether or not it succeeds. */
  function OriginCreated(d: Dh, l: Labels, o: Origin, reply: ServerMsg): (Origin, Result<(), CircuitError>) {
    if o.pending.None? then (o, Err(NoPending))
    else
      match ClientHandshakeFinish(d, l, o.pending.value, reply)
      case Err(_) => (o.(pending := None), Err(AuthFailed))
      case Ok(keys) => (o.(pending := None, hops := o.hops + [HopFromNtor(keys)]), Ok(()))
  }

  /** `extend_circuit`; `xPriv` is the fresh ephemeral secret. */
  function OriginExtend(s: Suite, d: Dh, net: Dotted, o: Origin, next: LinkSpec, xPriv: Key32, now: Instant)
    : (Origin, Result<Cell, CircuitError>)
  {
    if o.hops == [] then (o, Err(NoHops))
    else if o.relayEarlyUsed >= MAX_RELAY_EARLY then (o, Err(BudgetExhausted))
    else
      var (hs, msg) := ClientHandshakeStart(d, next.nodeId, next.staticPub, xPriv);
      var o1 := o.(pending := Some(hs));
      var rc := RelayCell(Extend2, 0, 0, 0, BuildExtend2(net, next, msg));
      var (o2, p) := EncryptOutbound(s, o1, |o.hops| - 1, rc, now);
      match p
      case Err(e) => (o2, Err(e))
      case Ok(payload) =>
        (o2.(relayEarlyUsed := o.relayEarlyUsed + 1), Ok(Cell(o.id, RelayEarly, payload)))
  }

  /** `handle_origin_relay`: an EXTENDED2 finishes the pending handshake, anything else is returned. */
  function OriginRelay(s: Suite, d: Dh, l: Labels, o: Origin, p: Payload, now: Instant)
    : (Origin, Result<Option<(Source, RelayCell)>, CircuitError>)
  {
    var (o1, found) := DecryptInbound(s, o, p, now);
    match found
    case None => (o1, Err(AuthFailed))
    case Some((from, rc)) =>
      if rc.command != Extended2 then (o1, Ok(Some((from, rc))))
      else
        match ParseExtended2(rc.data)
        case Err(_) => (o1, Err(BadReply))
        case Ok(reply) =>
          if |reply| != SERVER_HANDSHAKE_LEN then (o1, Err(BadReply))
          else
            var (o2, done) := OriginCreated(d, l, o1, reply);
            (o2, match done case Ok(_) => Ok(None) case Err(e) => Err(e))
  }

  // ── Relay circuits ──────────────────────────────────────────────────

  datatype RelayCircuit = RelayCircuit(
    prevPeer: PeerId, prevCircId: CircuitId, nextPeer: Option<PeerId>, nextCircId: Option<CircuitId>,
    hop: HopState, awaitingExtended: bool, lastActivity: Instant)
  {
    function Next(): Option<Leg> {
      if nextPeer.Some? && nextCircId.Some? then Some(Leg(nextPeer.value, nextCircId.value)) else None
    }
  }

  /** The relay half of `handle_create`; `yPriv` is the fresh ephemeral secret. */
  function RelayCreated(d: Dh, l: Labels, from: Leg, myId: Key32, bPub: Key32, bSecret: Key32, msg: ClientMsg,
                        yPriv: Key32, now: Instant): Result<(RelayCircuit, Cell), CircuitError>
  {
    match ServerHandshake(d, l, myId, bPub, bSecret, msg, yPriv)
    case Err(_) => Err(WrongAddressee)
    case Ok((keys, reply)) =>
      Ok((RelayCircuit(from.peer, from.circ, None, None, HopFromNtor(keys), false, now),
          CellWithPayload(from.circ, Created, reply)))
  }

  /** The relay's own part of `handle_forward_relay`: peel, and keep the cell if it is recognized. */
  function RelayPeel(s: Suite, r: RelayCircuit, p: Payload, now: Instant): (RelayCircuit, Payload, Option<RelayCell>) {
    var (hop, q) := OnionForward(s, r.hop, p);
    var r1 := r.(hop := hop, lastActivity := now);
    if RecognizedPayload(s, q, hop.forward.digest) then
      (r1.(hop := hop.(forward := hop.forward.(digest := hop.forward.digest + Blank(q)))), q,
       Some(FromPayload(q).value))
    else
      (r1, q, None)
  }

  /** `begin_extend` on the circuit itself. */
  function RelayExtend(net: Dotted, r: RelayCircuit, next: Leg, data: bytes): Result<(RelayCircuit, Cell), CircuitError> {
    if r.nextPeer.Some? then Err(AlreadyExtended)
    else
      match Extend2Of(net, data)
      case Err(_) => Err(BadExtend)
      case Ok((_, msg)) =>
        if |msg| != CLIENT_HANDSHAKE_LEN then Err(BadExtend)
        else
          Ok((r.(nextPeer := Some(next.peer), nextCircId := Some(next.circ), awaitingExtended := true),
              CellWithPayload(next.circ, Create, msg)))
  }

  /** `handle_created_from_next` on the circuit itself. */
  function RelayExtended(s: Suite, r: RelayCircuit, reply: ServerMsg): Result<(RelayCircuit, Cell), CircuitError> {
    if !r.awaitingExtended then Err(NotExpected)
    else
      var rc := RelayCell(Extended2, 0, 0, 0, BuildExtended2(reply));
      var (rc', digest') := StampDigest(s, rc, r.hop.backward.digest);
      var (hop, p) := OnionBackward(
        s, r.hop.(backward := r.hop.backward.(digest := digest')), ToPayload(rc'));
      Ok((r.(awaitingExtended := false, hop := hop), Cell(r.prevCircId, CellCommand.Relay, p)))
  }

  /** `handle_backward_relay` on the circuit itself: one more layer. */
  function RelayBackward(s: Suite, r: RelayCircuit, p: Payload): (RelayCircuit, Payload) {
    var (hop, q) := OnionBackward(s, r.hop, p);
    (r.(hop := hop), q)
  }

  // ── The manager ─────────────────────────────────────────────────────

  datatype PendingRendezvous = PendingRendezvous(circ: CircuitId, clientSk: Key32, clientXPub: Key32, hsStaticPub: Key32)

  /** The value of a `CircuitManager`. */
  datatype Mgr = Mgr(
    origins: map<CircuitId, Origin>, relays: map<Leg, RelayCircuit>, relayByNext: map<Leg, Leg>, nextOriginId: u32,
    introCircuits: map<Key32, CircuitId>, introRegistered: map<Leg, Key32>,
    rendezvousCookies: map<Cookie, Leg>, rendezvousBridges: map<Leg, Leg>,
    pendingRendezvous: map<Cookie, PendingRendezvous>, e2eKeys: map<CircuitId, E2EKeys>)

  const NEW_MGR: Mgr := Mgr(map[], map[], map[], 0x8000_0000, map[], map[], map[], map[], map[], map[])

  function MgrStart(d: Dh, m: Mgr, guardPeer: PeerId, guardId: Key32, guardB: Key32, xPriv: Key32, now: Instant)
    : (Mgr, (CircuitId, Cell))
  {
    var cid := m.nextOriginId;
    var (hs, msg) := ClientHandshakeStart(d, guardId, guardB, xPriv);
    var o := NewOrigin(cid, guardPeer, now).(pending := Some(hs));
    (m.(nextOriginId := (cid + 1) % U32_LIMIT, origins := m.origins[cid := o]),
     (cid, CellWithPayload(cid, Create, msg)))
  }

  function MgrCreate(d: Dh, l: Labels, m: Mgr, from: Leg, myId: Key32, bPub: Key32, bSecret: Key32, msg: ClientMsg,
                     yPriv: Key32, now: Instant): (Mgr, Result<Cell, CircuitError>)
  {
    match RelayCreated(d, l, from, myId, bPub, bSecret, msg, yPriv, now)
    case Err(e) => (m, Err(e))
    case Ok((r, cell)) => (m.(relays := m.relays[from := r]), Ok(cell))
  }

  datatype RelayAction = Handle(cell: RelayCell) | Forward(peer: PeerId, onward: Cell) | Drop

  function MgrForward(s: Suite, m: Mgr, from: Leg, cell: Cell, now: Instant): (Mgr, RelayAction) {
    if from !in m.relays then (m, RelayAction.Drop)
    else
      var (r, q, mine) := RelayPeel(s, m.relays[from], cell.payload, now);
      var m1 := m.(relays := m.relays[from := r]);
      if mine.Some? then (m1, Handle(mine.value))
      else if r.Next().Some? then
        (m1, Forward(r.Next().value.peer, Cell(r.Next().value.circ, cell.command, q)))
      else if from in m.rendezvousBridges && m.rendezvousBridges[from] in m1.relays then
        var partner := m.rendezvousBridges[from];
        var (pr, q') := RelayBackward(s, m1.relays[partner], q);
        (m1.(relays := m1.relays[partner := pr.(lastActivity := now)]),
         Forward(pr.prevPeer, Cell(pr.prevCircId, cell.command, q')))
      else (m1, RelayAction.Drop)
  }

  function MgrExtend(net: Dotted, m: Mgr, from: Leg, next: Leg, data: bytes): (Mgr, Result<Cell, CircuitError>) {
    if from !in m.relays then (m, Err(UnknownCircuit))
    else
      match RelayExtend(net, m.relays[from], next, data)
      case Err(e) => (m, Err(e))
      case Ok((r, cell)) =>
        (m.(relays := m.relays[from := r], relayByNext := m.relayByNext[next := from]), Ok(cell))
  }

  function MgrCreatedFromNext(s: Suite, m: Mgr, next: Leg, reply: ServerMsg): (Mgr, Result<(PeerId, Cell), CircuitError>) {
    if next !in m.relayByNext || m.relayByNext[next] !in m.relays then (m, Err(UnknownCircuit))
    else
      var key := m.relayByNext[next];
      match RelayExtended(s, m.relays[key], reply)
      case Err(e) => (m, Err(e))
      case Ok((r, cell)) => (m.(relays := m.relays[key := r]), Ok((r.prevPeer, cell)))
  }

  function MgrBackward(s: Suite, m: Mgr, next: Leg, cell: Cell): (Mgr, Option<(PeerId, Cell)>) {
    if next !in m.relayByNext || m.relayByNext[next] !in m.relays then (m, None)
    else
      var key := m.relayByNext[next];
      var (r, q) := RelayBackward(s, m.relays[key], cell.payload);
      (m.(relays := m.relays[key := r]), Some((r.prevPeer, Cell(r.prevCircId, cell.command, q))))
  }

  function Unbridge(bridges: map<Leg, Leg>, leg: Leg): map<Leg, Leg> {
    if leg in bridges then bridges - {leg, bridges[leg]} else bridges
  }

  function Bridge(bridges: map<Leg, Leg>, a: Leg, b: Leg): map<Leg, Leg> {
    bridges[a := b][b := a]
  }

  function NextLegs(relays: map<Leg, RelayCircuit>, dead: set<Leg>): set<Leg> {
    set k | k in dead && k in relays && relays[k].Next().Some? :: relays[k].Next().value
  }

  /** A table without the entries that refer to something dead. */
  function Dropping<K, V(==)>(table: map<K, V>, dead: set<V>): map<K, V> {
    map k | k in table && table[k] !in dead :: table[k]
  }

  function DroppingPending(table: map<Cookie, PendingRendezvous>, dead: set<CircuitId>): map<Cookie, PendingRendezvous> {
    map k | k in table && table[k].circ !in dead :: table[k]
  }

  lemma DroppingMore<K, V>(table: map<K, V>, dead: set<V>, v: V)
    ensures Dropping(Dropping(table, dead), {v}) == Dropping(table, dead + {v})
  {
  }

  lemma DroppingPendingMore(table: map<Cookie, PendingRendezvous>, dead: set<CircuitId>, c: CircuitId)
    ensures DroppingPending(DroppingPending(table, dead), {c}) == DroppingPending(table, dead + {c})
  {
  }

  lemma MinusMore<K, V>(table: map<K, V>, a: set<K>, b: set<K>)
    ensures table - a - b == table - (a + b)
  {
  }

  function MgrDestroy(m: Mgr, leg: Leg): Mgr {
    m.(relays := m.relays - {leg},
       relayByNext := m.relayByNext - NextLegs(m.relays, {leg}),
       rendezvousBridges := Unbridge(m.rendezvousBridges, leg),
       origins := m.origins - {leg.circ},
       e2eKeys := m.e2eKeys - {leg.circ},
       introCircuits := Dropping(m.introCircuits, {leg.circ}),
       introRegistered := m.introRegistered - {leg})
  }

  /** `complete_rendezvous`: the cookie is consumed whatever happens. */
  function MgrCompleteRendezvous(d: Dh, l: Labels, m: Mgr, cookie: Cookie, y: Key32, auth: Key32)
    : (Mgr, Result<CircuitId, CircuitError>)
  {
    if cookie !in m.pendingRendezvous then (m, Err(NoCookie))
    else
      var p := m.pendingRendezvous[cookie];
      var m1 := m.(pendingRendezvous := m.pendingRendezvous - {cookie});
      match ClientFinalize(d, l, p.clientSk, p.clientXPub, p.hsStaticPub, y, auth)
      case Err(_) => (m1, Err(AuthFailed))
      case Ok(keys) =>
        var origins' :=
          if p.circ in m.origins then m.origins[p.circ := m.origins[p.circ].(e2e := Some(HopFromE2E(keys, true)))]
          else m.origins;
        (m1.(origins := origins', e2eKeys := m.e2eKeys[p.circ := keys]), Ok(p.circ))
  }

  // ── The idle sweep ──────────────────────────────────────────────────

  function DeadOrigins(m: Mgr, now: Instant): set<CircuitId> {
    set c | c in m.origins && IsIdle(m.origins[c].lastActivity, now)
  }

  function DeadRelays(m: Mgr, now: Instant): set<Leg> {
    set k | k in m.relays && IsIdle(m.relays[k].lastActivity, now)
  }

  /** Legs unbridged one after another, in the order given. */
  function UnbridgeAll(bridges: map<Leg, Leg>, order: seq<Leg>): map<Leg, Leg>
    decreases |order|
  {
    if order == [] then bridges
    else Unbridge(UnbridgeAll(bridges, order[..|order| - 1]), order[|order| - 1])
  }

  /** The manager after sweeping out the given circuits, but for its bridges. */
  function Swept(m: Mgr, deadOrigins: set<CircuitId>, deadRelays: set<Leg>, bridges: map<Leg, Leg>): Mgr {
    m.(origins := m.origins - deadOrigins,
       introCircuits := Dropping(m.introCircuits, deadOrigins),
       pendingRendezvous := DroppingPending(m.pendingRendezvous, deadOrigins),
       e2eKeys := m.e2eKeys - deadOrigins,
       relays := m.relays - deadRelays,
       relayByNext := m.relayByNext - NextLegs(m.relays, deadRelays),
       introRegistered := m.introRegistered - deadRelays,
       rendezvousCookies := Dropping(m.rendezvousCookies, deadRelays),
       rendezvousBridges := bridges)
  }
}

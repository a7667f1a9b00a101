/** Circuit ids that two circuits share. A node finds its own circuits by id alone
    (`phinet-core/src/node.rs:1885-1898`), before it looks whose leg a cell came over. */
module NetworkIds {
  import opened Wrappers
  import opened Bytes
  import opened Circuit
  import opened Ntor
  import opened Flow
  import opened ExtendCodec
  import opened CircuitState
  import opened CircuitRun
  import opened ManagerTables
  import opened Network

  // ── One cell ────────────────────────────────────────────────────────

  lemma PeelKeepsCount(s: Suite, r: RelayCircuit, p: Payload, now: Instant)
    ensures RelayPeel(s, r, p, now).0.hop.forward.nonce == WrapSucc(r.hop.forward.nonce)
  {
    hide Layer, Blank, FromPayload, RecognizedPayload;
  }

  lemma SuccMoves(n: u64)
    ensures WrapSucc(n) != n
  {
  }

  lemma ForwardCounts(s: Suite, m: Mgr, leg: Leg, cell: Cell, now: Instant)
    requires leg in m.relays
    ensures var m' := MgrForward(s, m, leg, cell, now).0;
            leg in m'.relays && m'.relays[leg].hop.forward.nonce == WrapSucc(m.relays[leg].hop.forward.nonce)
  {
    PeelKeepsCount(s, m.relays[leg], cell.payload, now);
    hide RelayPeel, Layer;
  }

  lemma HandleCounts(w: World, m: Mgr, leg: Leg, rc: RelayCell, draws: Draws)
    requires leg in m.relays
    ensures var m' := OnHandle(w, m, leg, rc, draws).0; leg in m'.relays && m'.relays[leg].hop == m.relays[leg].hop
  {
    hide Extend2Of;
  }

  /** A relay cell of a circuit that came in over this leg gets to the circuit's own entry, whose counter moves,
      exactly if the node has no circuit of its own under the id. */
  lemma EntryReached(w: World, m: Mgr, leg: Leg, cell: Cell, draws: Draws)
    requires leg in m.relays && leg !in m.relayByNext
    ensures var m' := OnRelay(w, m, leg, cell, draws).0;
            && leg in m'.relays
            && (m'.relays[leg].hop.forward.nonce == WrapSucc(m.relays[leg].hop.forward.nonce) <==> leg.circ !in m.origins)
  {
    hide MgrForward, OnHandle, OriginRelay, WrapSucc;
    SuccMoves(m.relays[leg].hop.forward.nonce);
    if leg.circ !in m.origins {
      ForwardCounts(w.s, m, leg, cell, draws.now);
      var (m1, action) := MgrForward(w.s, m, leg, cell, draws.now);
      if action.Handle? {
        HandleCounts(w, m1, leg, action.cell, draws);
      }
    }
  }

  lemma BackwardCounts(s: Suite, r: RelayCircuit, p: Payload)
    ensures RelayBackward(s, r, p).0.hop.backward.nonce == WrapSucc(r.hop.backward.nonce)
  {
    hide Layer;
  }

  /** The same of a cell that comes back over the leg a circuit was extended to. */
  lemma OwnerReached(w: World, m: Mgr, leg: Leg, cell: Cell, draws: Draws)
    requires leg in m.relayByNext && m.relayByNext[leg] in m.relays
    ensures var m', owner := OnRelay(w, m, leg, cell, draws).0, m.relayByNext[leg];
            && owner in m'.relays
            && (m'.relays[owner].hop.backward.nonce == WrapSucc(m.relays[owner].hop.backward.nonce) <==> leg.circ !in m.origins)
  {
    hide RelayBackward, OriginRelay, WrapSucc;
    SuccMoves(m.relays[m.relayByNext[leg]].hop.backward.nonce);
    BackwardCounts(w.s, m.relays[m.relayByNext[leg]], cell.payload);
  }

  lemma PeelFirst(s: Suite, hs: seq<Half>, p: Payload)
    requires hs != []
    ensures Peel(s, hs, 0, p).hops[0].nonce == WrapSucc(hs[0].nonce)
  {
    hide Layer, Blank, FromPayload, RecognizedPayload;
    PeelBeyond(s, hs[0 := hs[0].(nonce := WrapSucc(hs[0].nonce))], 1, Layer(s, hs[0].key, hs[0].nonce, p));
  }

  lemma {:induction false} PeelBeyond(s: Suite, hs: seq<Half>, i: nat, p: Payload)
    requires 0 < i <= |hs|
    ensures Peel(s, hs, i, p).hops[0] == hs[0]
    decreases |hs| - i
  {
    hide Layer, Blank, FromPayload, RecognizedPayload;
    if i < |hs| {
      var (h, q) := Crypt(s, hs[i], p);
      PeelBeyond(s, hs[i := h], i + 1, q);
    }
  }

  /** Otherwise it is the node's own circuit of that id whose counters move, and nothing else does. */
  lemma OriginTakes(w: World, m: Mgr, leg: Leg, cell: Cell, draws: Draws)
    requires leg.circ in m.origins
    ensures var (m', out) := OnRelay(w, m, leg, cell, draws);
            && out.None? && leg.circ in m'.origins && m' == m.(origins := m.origins[leg.circ := m'.origins[leg.circ]])
            && (m.origins[leg.circ].hops != [] ==>
                 && m'.origins[leg.circ].hops != []
                 && m'.origins[leg.circ].hops[0].backward.nonce == WrapSucc(m.origins[leg.circ].hops[0].backward.nonce))
  {
    hide Peel, ClientHandshakeFinish, HopFromNtor, ParseExtended2, RecognizedPayload, FromPayload, Layer, Blank, WrapSucc;
    var o := m.origins[leg.circ];
    if o.hops != [] {
      PeelFirst(w.s, Backwards(o.hops), cell.payload);
      DecryptFirst(w.s, o, cell.payload, draws.now);
    }
  }

  lemma DecryptFirst(s: Suite, o: Origin, p: Payload, now: Instant)
    requires o.hops != []
    ensures var o' := DecryptInbound(s, o, p, now).0;
            |o'.hops| == |o.hops| && o'.hops[0].backward == Peel(s, Backwards(o.hops), 0, p).hops[0]
  {
    hide Peel, RecognizedPayload, FromPayload, Layer, Blank;
    var o' := DecryptInbound(s, o, p, now).0;
    assert Backwards(o'.hops) == Peel(s, Backwards(o.hops), 0, p).hops;
  }

  // ── A circuit through a node that has one of the same id ────────────

  /** What the client and its guard come to agree on. */
  function KeysOf(w: World, guard: PeerId, xPriv: Key32, yPriv: Key32): Result<(NtorKeys, ServerMsg), CircuitError> {
    var msg := ClientHandshakeStart(w.d, guard, StaticPub(w, guard), xPriv).1;
    match ServerHandshake(w.d, w.l, guard, StaticPub(w, guard), w.nodes(guard).bSecret, msg, yPriv)
    case Ok(r) => Ok(r)
    case Err(_) => Err(WrongAddressee)
  }

  lemma Started(w: World, g: Mesh, p: PeerId, guard: PeerId, xPriv: Key32, now: Instant)
    requires p != guard && Link(g, p, guard) == []
    ensures var g1, id := DoStart(w, g, p, guard, xPriv, now), At(g, p).nextOriginId;
            var (hs, msg) := ClientHandshakeStart(w.d, guard, StaticPub(w, guard), xPriv);
            && Holds(At(g1, p).origins, id, NewOrigin(id, guard, now).(pending := Some(hs)))
            && Link(g1, p, guard) == [CellWithPayload(id, CellCommand.Create, msg)] && Link(g1, guard, p) == Link(g, guard, p)
            && At(g1, guard) == At(g, guard)
  {
    hide ClientHandshakeStart, StaticPub, CellWithPayload;
  }

  lemma Answered(w: World, g: Mesh, p: PeerId, guard: PeerId, id: CircuitId, xPriv: Key32, draws: Draws)
    requires DhLaw(w.d) && p != guard && Link(g, guard, p) == []
    requires Link(g, p, guard)
          == [CellWithPayload(id, CellCommand.Create, ClientHandshakeStart(w.d, guard, StaticPub(w, guard), xPriv).1)]
    ensures KeysOf(w, guard, xPriv, draws.yPriv).Ok?
    ensures var g1 := DoDeliver(w, g, p, guard, draws);
            var (keys, reply) := KeysOf(w, guard, xPriv, draws.yPriv).value;
            var r := RelayCircuit(p, id, None, None, HopFromNtor(keys), false, draws.now);
            && Holds(At(g1, guard).relays, Leg(p, id), r)
            && At(g1, guard) == At(g, guard).(relays := At(g1, guard).relays) && At(g1, p) == At(g, p)
            && Link(g1, guard, p) == [CellWithPayload(id, CellCommand.Created, reply)] && Link(g1, p, guard) == []
  {
    NtorAgreement(w.d, w.l, guard, w.nodes(guard).bSecret, xPriv, draws.yPriv, guard, w.nodes(guard).bSecret);
    hide ServerHandshake, ClientHandshakeStart, HopFromNtor, ClientHandshakeFinish;
    var msg := ClientHandshakeStart(w.d, guard, StaticPub(w, guard), xPriv).1;
    var cell := CellWithPayload(id, CellCommand.Create, msg);
    assert cell.payload[..CLIENT_HANDSHAKE_LEN] == msg;
  }

  lemma Learned(w: World, g: Mesh, p: PeerId, guard: PeerId, id: CircuitId, xPriv: Key32, now: Instant, yPriv: Key32, draws: Draws)
    requires DhLaw(w.d) && p != guard && KeysOf(w, guard, xPriv, yPriv).Ok?
    requires Link(g, guard, p) == [CellWithPayload(id, CellCommand.Created, KeysOf(w, guard, xPriv, yPriv).value.1)]
    requires Link(g, p, guard) == []
    requires Holds(At(g, p).origins, id,
                   NewOrigin(id, guard, now).(pending := Some(ClientHandshakeStart(w.d, guard, StaticPub(w, guard), xPriv).0)))
    ensures var g1 := DoDeliver(w, g, guard, p, draws);
            var keys := KeysOf(w, guard, xPriv, yPriv).value.0;
            && Holds(At(g1, p).origins, id, NewOrigin(id, guard, now).(hops := [HopFromNtor(keys)]))
            && At(g1, guard) == At(g, guard) && Link(g1, p, guard) == [] && Link(g1, guard, p) == []
  {
    NtorAgreement(w.d, w.l, guard, w.nodes(guard).bSecret, xPriv, yPriv, guard, w.nodes(guard).bSecret);
    hide ServerHandshake, ClientHandshakeStart, HopFromNtor, ClientHandshakeFinish, StaticPub;
    var reply := KeysOf(w, guard, xPriv, yPriv).value.1;
    var cell := CellWithPayload(id, CellCommand.Created, reply);
    assert cell.payload[..SERVER_HANDSHAKE_LEN] == reply;
    assert [] + [HopFromNtor(KeysOf(w, guard, xPriv, yPriv).value.0)] == [HopFromNtor(KeysOf(w, guard, xPriv, yPriv).value.0)];
  }

  lemma Sent(w: World, g: Mesh, p: PeerId, guard: PeerId, id: CircuitId, now: Instant, rc: RelayCell, later: Instant)
    requires p != guard && Link(g, p, guard) == []
    requires id in At(g, p).origins && At(g, p).origins[id].peer == guard && At(g, p).origins[id].hops != []
    requires At(g, p).origins[id].e2e.None?
    ensures var g1 := DoSend(w, g, p, id, 0, rc, later);
            && id in At(g1, p).origins && At(g1, p).origins[id].hops != []
            && At(g1, p).origins[id].hops[0].forward.nonce == WrapSucc(At(g, p).origins[id].hops[0].forward.nonce)
            && |Link(g1, p, guard)| == 1 && Link(g1, p, guard)[0].circId == id && Link(g1, p, guard)[0].command == CellCommand.Relay
            && At(g1, guard) == At(g, guard)
  {
    var o := At(g, p).origins[id];
    EncryptFirst(w.s, o, rc, later);
    hide EncryptOutbound, WrapSucc;
  }

  lemma EncryptFirst(s: Suite, o: Origin, rc: RelayCell, now: Instant)
    requires o.hops != [] && o.e2e.None?
    ensures var (o', p) := EncryptOutbound(s, o, 0, rc, now);
            && p.Ok? && |o'.hops| == |o.hops| && o'.peer == o.peer && o'.id == o.id
            && o'.hops[0].forward.nonce == WrapSucc(o.hops[0].forward.nonce)
  {
    hide StampDigest, ToPayload, Layer, WrapSucc;
    var hs := Forwards(o.hops);
    var (rc', digest') := StampDigest(s, rc, hs[0].digest);
    var hs1 := hs[0 := hs[0].(digest := digest')];
    WrapOne(s, hs1, ToPayload(rc'));
    var o' := EncryptOutbound(s, o, 0, rc, now).0;
    assert Forwards(o'.hops) == WrapAll(s, hs1, 1, ToPayload(rc')).0;
  }

  lemma WrapOne(s: Suite, hs: seq<Half>, p: Payload)
    requires hs != []
    ensures WrapAll(s, hs, 1, p).0[0].nonce == WrapSucc(hs[0].nonce)
  {
    hide Layer, WrapSucc;
  }

  lemma CellGoesTo(w: World, g: Mesh, p: PeerId, guard: PeerId, id: CircuitId, draws: Draws)
    requires p != guard && Link(g, p, guard) != []
    requires Link(g, p, guard)[0].circId == id && Link(g, p, guard)[0].command == CellCommand.Relay
    ensures At(DoDeliver(w, g, p, guard, draws), p) == At(g, p)
    ensures At(DoDeliver(w, g, p, guard, draws), guard) == OnRelay(w, At(g, guard), Leg(p, id), Link(g, p, guard)[0], draws).0
  {
    hide OnRelay;
  }

  /** Let a node start a circuit, and let CREATE, CREATED and the first relay cell be delivered, nothing else being
      on the connection. The circuit is built, client and guard agreeing on the hop, whatever ids the guard's
      own circuits have. But the cell gets to the guard's entry for it, and the two counters stay in step,
      exactly if none of the guard's own circuits has the same id; otherwise the cell moves the counters of
      that circuit, which is then out of step with its own first hop too. */
  lemma GuardTakes(
    w: World, g: Mesh, p: PeerId, guard: PeerId, xPriv: Key32, now: Instant, create: Draws, created: Draws,
    rc: RelayCell, later: Instant, relay: Draws)
    requires DhLaw(w.d) && p != guard && Link(g, p, guard) == [] && Link(g, guard, p) == []
    requires Leg(p, At(g, p).nextOriginId) !in At(g, guard).relayByNext
    ensures var id := At(g, p).nextOriginId;
            var leg, own := Leg(p, id), At(g, guard).origins;
            var g3 := DoDeliver(w, DoDeliver(w, DoStart(w, g, p, guard, xPriv, now), p, guard, create), guard, p, created);
            var g5 := DoDeliver(w, DoSend(w, g3, p, id, 0, rc, later), p, guard, relay);
            && id in At(g3, p).origins && leg in At(g3, guard).relays && At(g3, p).origins[id].pending.None?
            && At(g3, p).origins[id].hops == [At(g3, guard).relays[leg].hop]
            && id in At(g5, p).origins && At(g5, p).origins[id].hops != [] && leg in At(g5, guard).relays
            && (At(g5, guard).relays[leg].hop.forward.nonce == At(g5, p).origins[id].hops[0].forward.nonce <==> id !in own)
            && (id in own ==>
                 && At(g5, guard).relays == At(g3, guard).relays && id in At(g5, guard).origins
                 && (own[id].hops != [] ==>
                      && At(g5, guard).origins[id].hops != []
                      && At(g5, guard).origins[id].hops[0].backward.nonce == WrapSucc(own[id].hops[0].backward.nonce)))
  {
    hide DoStart, DoDeliver, DoSend, OnRelay, KeysOf, HopFromNtor, WrapSucc, CellWithPayload, ClientHandshakeStart;
    var id := At(g, p).nextOriginId;
    var leg := Leg(p, id);
    var g1 := DoStart(w, g, p, guard, xPriv, now);
    Started(w, g, p, guard, xPriv, now);
    Answered(w, g1, p, guard, id, xPriv, create);
    var g2 := DoDeliver(w, g1, p, guard, create);
    Learned(w, g2, p, guard, id, xPriv, now, create.yPriv, created);
    var g3 := DoDeliver(w, g2, guard, p, created);
    Sent(w, g3, p, guard, id, now, rc, later);
    var g4 := DoSend(w, g3, p, id, 0, rc, later);
    CellGoesTo(w, g4, p, guard, id, relay);
    EntryReached(w, At(g4, guard), leg, Link(g4, p, guard)[0], relay);
    if id in At(g, guard).origins {
      OriginTakes(w, At(g4, guard), leg, Link(g4, p, guard)[0], relay);
    }
  }

  /** The first circuits of any two nodes have the same id. If one of the two is the other's guard, starting the
      second is not careful; and if the guard has started its own, by way of somebody else, the other's circuit
      gets built, but the first cell on it does not get to the guard's entry. */
  lemma FirstIdsCollide(
    w: World, g: Mesh, p: PeerId, guard: PeerId, next: PeerId, xPriv: Key32, now: Instant, create: Draws, created: Draws,
    rc: RelayCell, later: Instant, relay: Draws)
    requires DhLaw(w.d) && p != guard && next != p && At(g, p) == NEW_MGR && At(g, guard) == NEW_MGR
    requires Link(g, p, guard) == [] && Link(g, guard, p) == []
    ensures var g1 := DoStart(w, g, guard, next, xPriv, now);
            var id := At(g1, p).nextOriginId;
            var g3 := DoDeliver(w, DoDeliver(w, DoStart(w, g1, p, guard, xPriv, now), p, guard, create), guard, p, created);
            var g5 := DoDeliver(w, DoSend(w, g3, p, id, 0, rc, later), p, guard, relay);
            && !Cautious(w, g1, Start(p, guard, xPriv, now))
            && id in At(g5, p).origins && At(g5, p).origins[id].hops != [] && Leg(p, id) in At(g5, guard).relays
            && At(g5, guard).relays[Leg(p, id)].hop.forward.nonce != At(g5, p).origins[id].hops[0].forward.nonce
  {
    var g1 := DoStart(w, g, guard, next, xPriv, now);
    OtherStarts(w, g, p, guard, next, xPriv, now);
    GuardTakes(w, g1, p, guard, xPriv, now, create, created, rc, later, relay);
    hide DoStart, DoDeliver, DoSend;
  }

  lemma OtherStarts(w: World, g: Mesh, p: PeerId, guard: PeerId, next: PeerId, xPriv: Key32, now: Instant)
    requires p != guard && next != p && At(g, p) == NEW_MGR && At(g, guard) == NEW_MGR
    requires Link(g, p, guard) == [] && Link(g, guard, p) == []
    ensures var g1 := DoStart(w, g, guard, next, xPriv, now);
            && At(g1, p) == NEW_MGR && Link(g1, p, guard) == [] && Link(g1, guard, p) == []
            && NEW_MGR.nextOriginId in At(g1, guard).origins && At(g1, guard).relayByNext == map[]
  {
    hide ClientHandshakeStart, StaticPub, CellWithPayload;
  }
}

/** Whatever goes on elsewhere in the network, on the same nodes and the same connections, leaves a circuit
    alone: other circuits' cells, their being built, closed, bridged and swept out. */
module NetworkElsewhere {
  import opened Wrappers
  import opened Bytes
  import opened Circuit
  import opened Ntor
  import opened ExtendCodec
  import opened CircuitState
  import opened CircuitRun
  import opened ManagerTables
  import opened Network
  import opened NetworkView
  import opened NetworkFrame

  /** A leg at node `x` that is neither the circuit's nor the one it is bridged to. */
  ghost predicate Foreign(v: View, x: PeerId, leg: Leg) {
    && !Reserved(v, x, leg)
    && !(v.partner == Some(leg) && v.path != [] && x == v.path[|v.path| - 1].peer)
  }

  /** What is known at one node. */
  ghost predicate Known(v: View, x: PeerId, m: Mgr) {
    Formed(v) && v.path != [] && ShownAt(v, x, m) && Sane(m)
  }

  // ── From one leg to another ─────────────────────────────────────────

  lemma NextIs(m: Mgr, leg: Leg)
    requires Sane(m) && leg in m.relays && m.relays[leg].Next().Some?
    ensures var next := m.relays[leg].Next().value;
            next in m.relayByNext && m.relayByNext[next] == leg
  {
  }

  lemma OwnerIs(m: Mgr, next: Leg)
    requires Sane(m) && next in m.relayByNext
    ensures m.relayByNext[next] in m.relays && m.relays[m.relayByNext[next]].Next() == Some(next)
  {
  }

  lemma PartnerIs(m: Mgr, leg: Leg)
    requires Sane(m) && leg in m.rendezvousBridges
    ensures m.rendezvousBridges[leg] in m.rendezvousBridges && m.rendezvousBridges[m.rendezvousBridges[leg]] == leg
  {
  }

  lemma KnownSane(v: View, x: PeerId, m: Mgr)
    requires Known(v, x, m)
    ensures Sane(m) && Formed(v) && v.path != [] && ShownAt(v, x, m)
  {
  }

  /** The circuit's own onward entries. */
  lemma OwnNext(v: View, i: nat, m: Mgr)
    requires Formed(v) && 0 < i < |v.path| && AtNode(v, i - 1, m) && Sane(m)
    ensures v.path[i] in m.relayByNext && m.relayByNext[v.path[i]] == Back(v, i - 1)
  {
    assert m.relays[Back(v, i - 1)] == v.relays[i - 1];
    NextIs(m, Back(v, i - 1));
  }

  lemma OwnLegs(v: View, i: nat)
    requires i < |v.path|
    ensures Reserved(v, v.path[i].peer, Back(v, i)) && Reserved(v, Before(v, i), v.path[i])
  {
    assert Passes(v, i, v.path[i].peer, Before(v, i), v.path[i].circ);
    assert Passes(v, i, Before(v, i), v.path[i].peer, v.path[i].circ);
  }

  /** A foreign onward leg belongs to a foreign circuit. */
  lemma OwnerForeign(v: View, x: PeerId, m: Mgr, next: Leg)
    requires Known(v, x, m) && !Reserved(v, x, next) && next in m.relayByNext
    ensures !Reserved(v, x, m.relayByNext[next])
  {
    hide Reserved, Sane;
    var key := m.relayByNext[next];
    OwnerIs(m, next);
    if Reserved(v, x, key) {
      var i := ReservedRelay(v, x, m, key);
      assert AtNode(v, i, m);
      OwnLegs(v, i + 1);
    }
  }

  lemma OwnOwner(v: View, x: PeerId, m: Mgr, next: Leg) returns (i: nat)
    requires Known(v, x, m) && Reserved(v, x, next) && next in m.relayByNext
    ensures i < |v.path| && x == v.path[i].peer && m.relayByNext[next] == Back(v, i)
  {
    hide Reserved, Sane, Formed, AtBefore, AtHome, AtOther;
    var j := ReservedNext(v, x, m, next);
    i := j - 1;
    assert AtNode(v, i, m);
    OwnNext(v, j, m);
  }

  /** A foreign circuit's onward leg is foreign. */
  lemma NextForeign(v: View, x: PeerId, m: Mgr, leg: Leg)
    requires Known(v, x, m) && !Reserved(v, x, leg) && leg in m.relays && m.relays[leg].Next().Some?
    ensures !Reserved(v, x, m.relays[leg].Next().value)
  {
    var next := m.relays[leg].Next().value;
    hide Reserved, Known, Sane, Back;
    KnownSane(v, x, m);
    NextIs(m, leg);
    if Reserved(v, x, next) {
      var i := OwnOwner(v, x, m, next);
      OwnLegs(v, i);
    }
  }

  /** What a foreign leg is bridged to is foreign. */
  lemma PartnerForeign(v: View, x: PeerId, m: Mgr, leg: Leg)
    requires Known(v, x, m) && Foreign(v, x, leg) && leg in m.rendezvousBridges
    ensures Foreign(v, x, m.rendezvousBridges[leg])
  {
    hide Reserved, Sane;
    var partner := m.rendezvousBridges[leg];
    PartnerIs(m, leg);
    if Reserved(v, x, partner) {
      ReservedBridge(v, x, m, partner);
    } else if v.partner == Some(partner) && x == v.path[|v.path| - 1].peer {
      assert AtNode(v, |v.path| - 1, m);
      OwnLegs(v, |v.path| - 1);
      assert m.rendezvousBridges[Back(v, |v.path| - 1)] == partner;
      PartnerIs(m, Back(v, |v.path| - 1));
    }
  }

  /** A reserved id names no origin circuit but the client's own. */
  lemma OriginForeign(v: View, x: PeerId, m: Mgr, c: CircuitId)
    requires Known(v, x, m) && c in m.origins && !(x == v.home && c == v.origin.id)
    ensures !ReservedOrigin(v, x, c) && !Reserved(v, x, Leg(m.origins[c].peer, c))
  {
    hide Sane;
    forall i | 0 <= i < |v.path| && x == v.path[i].peer
      ensures v.path[i].circ != c
    {
      assert AtNode(v, i, m);
    }
    forall i | 0 <= i < |v.path| && x == Before(v, i)
      ensures v.path[i].circ != c
    {
      assert AtBefore(v, i, m);
    }
  }

  lemma NoOriginHere(v: View, x: PeerId, m: Mgr, leg: Leg)
    requires Known(v, x, m) && !Reserved(v, x, leg) && leg.circ in m.origins
    ensures !(x == v.home && leg.circ == v.origin.id)
  {
  }

  // ── What a node does with a foreign cell ────────────────────────────

  ghost predicate OutForeign(v: View, x: PeerId, out: Out) {
    out.Some? ==> !Reserved(v, x, Leg(out.value.0, out.value.1.circId))
  }

  /** Changing foreign entries. */
  lemma RelaysElsewhere(v: View, x: PeerId, m: Mgr, relays: map<Leg, RelayCircuit>, byNext: map<Leg, Leg>)
    requires v.path != [] && ShownAt(v, x, m)
    requires forall leg :: Reserved(v, x, leg) ==>
      SameEntry(m.relays, relays, leg) && (leg in m.relayByNext <==> leg in byNext)
    ensures Elsewhere(v, x, m, m.(relays := relays, relayByNext := byNext))
  {
    hide Reserved, ReservedOrigin, AtNode, AtBefore, AtHome;
  }

  lemma OriginElsewhere(v: View, x: PeerId, m: Mgr, c: CircuitId, o: Origin)
    requires Known(v, x, m) && c in m.origins && !(x == v.home && c == v.origin.id) && o.peer == m.origins[c].peer
    ensures Elsewhere(v, x, m, m.(origins := m.origins[c := o]))
  {
    hide Reserved, ReservedOrigin, Sane, Formed;
    OriginForeign(v, x, m, c);
  }

  lemma RelayCreatedKeys(w: World, from: Leg, me: PeerId, msg: ClientMsg, yPriv: Key32, now: Instant)
    ensures var r := RelayCreated(w.d, w.l, from, me, StaticPub(w, me), w.nodes(me).bSecret, msg, yPriv, now);
            r.Ok? ==>
              && r.value.1.circId == from.circ && Leg(r.value.0.prevPeer, r.value.0.prevCircId) == from
              && r.value.0.nextPeer.None? && r.value.0.nextCircId.None?
  {
    hide ServerHandshake, HopFromNtor;
  }

  lemma CreateElsewhere(w: World, v: View, x: PeerId, m: Mgr, leg: Leg, cell: Cell, draws: Draws)
    requires Known(v, x, m) && !Reserved(v, x, leg) && cell.circId == leg.circ
    ensures var (m', out) := OnCreate(w, x, m, leg, cell, draws);
            Elsewhere(v, x, m, m') && OutForeign(v, x, out)
  {
    hide Reserved, ReservedOrigin, Known, Elsewhere, RelayCreated, ShownAt;
    KnownSane(v, x, m);
    var msg := cell.payload[..CLIENT_HANDSHAKE_LEN];
    var r := RelayCreated(w.d, w.l, leg, x, StaticPub(w, x), w.nodes(x).bSecret, msg, draws.yPriv, draws.now);
    RelayCreatedKeys(w, leg, x, msg, draws.yPriv, draws.now);
    if r.Ok? {
      EntryElsewhere(v, x, m, leg, r.value.0);
    } else {
      RelaysElsewhere(v, x, m, m.relays, m.relayByNext);
    }
  }

  lemma FromNextElsewhere(w: World, v: View, x: PeerId, m: Mgr, leg: Leg, reply: ServerMsg)
    requires Known(v, x, m) && !Reserved(v, x, leg)
    ensures var (m', r) := MgrCreatedFromNext(w.s, m, leg, reply);
            Elsewhere(v, x, m, m') && (r.Ok? ==> !Reserved(v, x, Leg(r.value.0, r.value.1.circId)))
  {
    hide Reserved, ReservedOrigin, RelayExtended, Elsewhere, Sane, Known, ShownAt;
    KnownSane(v, x, m);
    RelaysElsewhere(v, x, m, m.relays, m.relayByNext);
    if leg in m.relayByNext {
      var key := m.relayByNext[leg];
      OwnerIs(m, leg);
      OwnerForeign(v, x, m, leg);
      PrevIs(m, key);
      ExtendedKeeps(w.s, m.relays[key], reply);
      var r := RelayExtended(w.s, m.relays[key], reply);
      if r.Ok? {
        EntryElsewhere(v, x, m, key, r.value.0);
      }
    }
  }

  lemma CreatedElsewhere(w: World, v: View, x: PeerId, m: Mgr, leg: Leg, cell: Cell)
    requires Known(v, x, m) && !Reserved(v, x, leg)
    ensures var (m', out) := OnCreated(w, m, leg, cell);
            Elsewhere(v, x, m, m') && OutForeign(v, x, out)
  {
    hide Reserved, ReservedOrigin, OriginCreated, MgrCreatedFromNext, Elsewhere, Sane, Known;
    var reply := cell.payload[..SERVER_HANDSHAKE_LEN];
    if leg.circ in m.origins {
      NoOriginHere(v, x, m, leg);
      OriginKeeps(w, m.origins[leg.circ], reply);
      OriginElsewhere(v, x, m, leg.circ, OriginCreated(w.d, w.l, m.origins[leg.circ], reply).0);
    } else {
      FromNextElsewhere(w, v, x, m, leg, reply);
    }
  }

  lemma OriginKeeps(w: World, o: Origin, reply: ServerMsg)
    ensures var o' := OriginCreated(w.d, w.l, o, reply).0;
            o'.peer == o.peer && o'.id == o.id
  {
    hide ClientHandshakeFinish;
  }

  lemma ExtendedKeeps(s: Suite, r: RelayCircuit, reply: ServerMsg)
    ensures var x := RelayExtended(s, r, reply);
            x.Ok? ==>
              && x.value.0.prevPeer == r.prevPeer && x.value.0.prevCircId == r.prevCircId && x.value.1.circId == r.prevCircId
              && x.value.0.nextPeer == r.nextPeer && x.value.0.nextCircId == r.nextCircId
  {
    hide StampDigest, OnionBackward;
  }

  lemma BackwardElsewhere(w: World, v: View, x: PeerId, m: Mgr, leg: Leg, cell: Cell)
    requires Known(v, x, m) && !Reserved(v, x, leg)
    ensures var (m', out) := MgrBackward(w.s, m, leg, cell);
            Elsewhere(v, x, m, m') && OutForeign(v, x, out)
  {
    hide Reserved, ReservedOrigin, Formed, OnionBackward, Elsewhere, Consistent, Known;
    KnownSane(v, x, m);
    RelaysElsewhere(v, x, m, m.relays, m.relayByNext);
    if leg in m.relayByNext {
      OwnerIs(m, leg);
      OwnerForeign(v, x, m, leg);
      RelaysElsewhere(v, x, m, MgrBackward(w.s, m, leg, cell).0.relays, m.relayByNext);
    }
  }

  lemma PeelKeeps(s: Suite, r: RelayCircuit, p: Payload, now: Instant)
    ensures var r' := RelayPeel(s, r, p, now).0;
            && r'.prevPeer == r.prevPeer && r'.prevCircId == r.prevCircId && r'.awaitingExtended == r.awaitingExtended
            && r'.nextPeer == r.nextPeer && r'.nextCircId == r.nextCircId
  {
    hide OnionForward, RecognizedPayload, FromPayload, Blank;
  }

  lemma BackwardKeeps(s: Suite, r: RelayCircuit, p: Payload)
    ensures var r' := RelayBackward(s, r, p).0;
            && r'.prevPeer == r.prevPeer && r'.prevCircId == r.prevCircId && r'.awaitingExtended == r.awaitingExtended
            && r'.nextPeer == r.nextPeer && r'.nextCircId == r.nextCircId
  {
    hide OnionBackward;
  }

  /** Changing the entries of one or two foreign legs. */
  lemma EntryElsewhere(v: View, x: PeerId, m: Mgr, leg: Leg, r: RelayCircuit)
    requires v.path != [] && ShownAt(v, x, m) && !Reserved(v, x, leg)
    ensures Elsewhere(v, x, m, m.(relays := m.relays[leg := r]))
  {
    hide Reserved, ReservedOrigin, ShownAt, Elsewhere;
    RelaysElsewhere(v, x, m, m.relays[leg := r], m.relayByNext);
  }

  lemma EntriesElsewhere(v: View, x: PeerId, m: Mgr, a: Leg, ra: RelayCircuit, b: Leg, rb: RelayCircuit)
    requires v.path != [] && ShownAt(v, x, m) && !Reserved(v, x, a) && !Reserved(v, x, b)
    ensures Elsewhere(v, x, m, m.(relays := m.relays[a := ra][b := rb]))
  {
    hide Reserved, ReservedOrigin, ShownAt, Elsewhere;
    RelaysElsewhere(v, x, m, m.relays[a := ra][b := rb], m.relayByNext);
  }

  lemma PrevIs(m: Mgr, leg: Leg)
    requires Sane(m) && leg in m.relays
    ensures Leg(m.relays[leg].prevPeer, m.relays[leg].prevCircId) == leg
  {
  }

  lemma CrossElsewhere(w: World, v: View, x: PeerId, m: Mgr, leg: Leg, r: RelayCircuit, q: Payload, now: Instant)
    requires Known(v, x, m) && Foreign(v, x, leg) && leg in m.relays && Leg(r.prevPeer, r.prevCircId) == leg
    requires leg in m.rendezvousBridges && m.rendezvousBridges[leg] in m.relays
    ensures var partner := m.rendezvousBridges[leg];
            var pr := RelayBackward(w.s, m.relays[leg := r][partner], q).0;
            && Elsewhere(v, x, m, m.(relays := m.relays[leg := r][partner := pr.(lastActivity := now)]))
            && Leg(pr.prevPeer, pr.prevCircId) == partner && !Reserved(v, x, partner)
  {
    hide Reserved, ReservedOrigin, Formed, RelayBackward, Elsewhere, Sane, Known, ShownAt;
    KnownSane(v, x, m);
    var partner := m.rendezvousBridges[leg];
    PartnerForeign(v, x, m, leg);
    BackwardKeeps(w.s, m.relays[leg := r][partner], q);
    PrevIs(m, partner);
    EntriesElsewhere(v, x, m, leg, r, partner, RelayBackward(w.s, m.relays[leg := r][partner], q).0.(lastActivity := now));
  }

  /** `handle_forward_relay`, whether the cell is kept, sent on, sent over a bridge or dropped. */
  lemma ForwardElsewhere(w: World, v: View, x: PeerId, m: Mgr, leg: Leg, cell: Cell, now: Instant)
    requires Known(v, x, m) && Foreign(v, x, leg)
    ensures var (m', action) := MgrForward(w.s, m, leg, cell, now);
            && Elsewhere(v, x, m, m')
            && (action.Forward? ==> !Reserved(v, x, Leg(action.peer, action.onward.circId)))
  {
    hide Reserved, ReservedOrigin, Formed, RelayPeel, RelayBackward, Elsewhere, Sane, Known, ShownAt;
    KnownSane(v, x, m);
    if leg !in m.relays {
      RelaysElsewhere(v, x, m, m.relays, m.relayByNext);
    } else {
      var (r, q, mine) := RelayPeel(w.s, m.relays[leg], cell.payload, now);
      PeelKeeps(w.s, m.relays[leg], cell.payload, now);
      PrevIs(m, leg);
      EntryElsewhere(v, x, m, leg, r);
      if m.relays[leg].Next().Some? {
        NextForeign(v, x, m, leg);
      } else if leg in m.rendezvousBridges && m.rendezvousBridges[leg] in m.relays {
        CrossElsewhere(w, v, x, m, leg, r, q, now);
      }
    }
  }

  /** A fresh leg is nobody's. */
  lemma FreshForeign(g: Mesh, v: View, x: PeerId, y: PeerId, circ: CircuitId)
    requires Shows(g, v) && AllSane(g) && FreshBetween(g, x, y, circ)
    ensures !Reserved(v, x, Leg(y, circ))
  {
    FormedParts(v);
    hide Sane, ConnFree, Formed, LinksShown;
    if i: nat :| Passes(v, i, x, y, circ) {
      assert ShownAt(v, Before(v, i), At(g, Before(v, i))) && ShownAt(v, v.path[i].peer, At(g, v.path[i].peer));
      UsedThere(g, v, i);
      UsedHere(g, x, y, circ);
      assert false;
    } else {
      assert ShownAt(v, v.home, At(g, v.home));
    }
  }

  /** Something in the tables at the two ends of each of the circuit's connections uses its id. */
  lemma UsedThere(g: Mesh, v: View, i: nat)
    requires Shows(g, v) && AllSane(g) && i < |v.path|
    ensures var x, y, circ := Before(v, i), v.path[i].peer, v.path[i].circ;
            || Leg(x, circ) in At(g, y).relays || Leg(y, circ) in At(g, x).relayByNext
            || (x == v.home && circ == v.origin.id && circ in At(g, x).origins && At(g, x).origins[circ].peer == y)
  {
    FormedParts(v);
    hide Sane, Formed, LinksShown;
    if i == 0 {
      assert ShownAt(v, v.home, At(g, v.home));
    } else {
      assert ShownAt(v, v.path[i - 1].peer, At(g, v.path[i - 1].peer));
      assert AtNode(v, i - 1, At(g, v.path[i - 1].peer));
      assert Sane(At(g, v.path[i - 1].peer));
      OwnNext(v, i, At(g, v.path[i - 1].peer));
    }
  }

  lemma UsedHere(g: Mesh, x: PeerId, y: PeerId, circ: CircuitId)
    requires FreshBetween(g, x, y, circ)
    ensures Leg(x, circ) !in At(g, y).relays && Leg(y, circ) !in At(g, x).relays
    ensures Leg(x, circ) !in At(g, y).relayByNext && Leg(y, circ) !in At(g, x).relayByNext
    ensures circ !in At(g, x).origins && circ !in At(g, y).origins
  {
  }

  lemma ElsewhereTwice(v: View, x: PeerId, m: Mgr, m1: Mgr, m2: Mgr)
    requires Elsewhere(v, x, m, m1) && Elsewhere(v, x, m1, m2)
    ensures Elsewhere(v, x, m, m2)
  {
    hide Reserved, ReservedOrigin;
  }

  /** `begin_extend` on a foreign circuit, the onward leg being fresh. */
  lemma ExtendElsewhere(w: World, v: View, x: PeerId, m: Mgr, leg: Leg, next: Leg, data: bytes)
    requires v.path != [] && ShownAt(v, x, m) && !Reserved(v, x, leg)
    requires var r := MgrExtend(w.net, m, leg, next, data).1;
             r.Ok? ==> !Reserved(v, x, next)
    ensures var (m', r) := MgrExtend(w.net, m, leg, next, data);
            Elsewhere(v, x, m, m') && (r.Ok? ==> r.value.circId == next.circ)
  {
    hide Reserved, ReservedOrigin, ShownAt, Elsewhere, Extend2Of;
    RelaysElsewhere(v, x, m, m.relays, m.relayByNext);
    var m' := MgrExtend(w.net, m, leg, next, data).0;
    RelaysElsewhere(v, x, m, m'.relays, m'.relayByNext);
  }

  lemma HandleElsewhere(w: World, v: View, x: PeerId, m: Mgr, leg: Leg, rc: RelayCell, draws: Draws)
    requires v.path != [] && ShownAt(v, x, m) && !Reserved(v, x, leg)
    requires forall next: Leg ::
      && rc.command == Extend2 && Extend2Of(w.net, rc.data).Ok?
      && next == Leg(Extend2Of(w.net, rc.data).value.0.nodeId, draws.nextCirc)
      && MgrExtend(w.net, m, leg, next, rc.data).1.Ok?
      ==> !Reserved(v, x, next)
    ensures var (m', out) := OnHandle(w, m, leg, rc, draws);
            Elsewhere(v, x, m, m') && OutForeign(v, x, out)
  {
    hide Reserved, ReservedOrigin, ShownAt, Elsewhere, Extend2Of, MgrExtend;
    RelaysElsewhere(v, x, m, m.relays, m.relayByNext);
    if rc.command == Extend2 && Extend2Of(w.net, rc.data).Ok? {
      var next := Leg(Extend2Of(w.net, rc.data).value.0.nodeId, draws.nextCirc);
      ExtendElsewhere(w, v, x, m, leg, next, rc.data);
    }
  }

  /** What the node draws an onward leg for is what `begin_extend` then uses. */
  lemma DrawnIs(w: World, m: Mgr, leg: Leg, cell: Cell, draws: Draws, next: Leg)
    requires IsRelay(cell) && leg.circ !in m.origins && leg !in m.relayByNext && leg in m.relays
    requires var (m', action) := MgrForward(w.s, m, leg, cell, draws.now);
             && action.Handle? && action.cell.command == Extend2 && Extend2Of(w.net, action.cell.data).Ok?
             && next == Leg(Extend2Of(w.net, action.cell.data).value.0.nodeId, draws.nextCirc)
             && MgrExtend(w.net, m', leg, next, action.cell.data).1.Ok?
    ensures DrawnLeg(w, m, leg, cell, draws) == Some(next)
  {
    hide MgrForward, MgrExtend, Extend2Of;
  }

  lemma OriginRelayKeeps(w: World, o: Origin, p: Payload, now: Instant)
    ensures var o' := OriginRelay(w.s, w.d, w.l, o, p, now).0;
            o'.peer == o.peer && o'.id == o.id
  {
    hide RecognizedPayload, FromPayload, Layer, Blank, ClientHandshakeFinish, ParseExtended2;
  }

  lemma RelayElsewhere(w: World, v: View, x: PeerId, m: Mgr, leg: Leg, cell: Cell, draws: Draws)
    requires Known(v, x, m) && Foreign(v, x, leg) && IsRelay(cell)
    requires var next := DrawnLeg(w, m, leg, cell, draws);
             next.Some? ==> !Reserved(v, x, next.value)
    ensures var (m', out) := OnRelay(w, m, leg, cell, draws);
            Elsewhere(v, x, m, m') && OutForeign(v, x, out)
  {
    hide Reserved, ReservedOrigin, ShownAt, Elsewhere, MgrForward, MgrBackward, OriginRelay, OnHandle, DrawnLeg, Formed, Sane,
         OnHandle, Extend2Of, MgrExtend;
    KnownSane(v, x, m);
    if leg.circ in m.origins {
      NoOriginHere(v, x, m, leg);
      OriginRelayKeeps(w, m.origins[leg.circ], cell.payload, draws.now);
      OriginElsewhere(v, x, m, leg.circ, OriginRelay(w.s, w.d, w.l, m.origins[leg.circ], cell.payload, draws.now).0);
    } else if leg in m.relayByNext {
      BackwardElsewhere(w, v, x, m, leg, cell);
    } else if leg in m.relays {
      ForwardElsewhere(w, v, x, m, leg, cell, draws.now);
      var (m1, action) := MgrForward(w.s, m, leg, cell, draws.now);
      if action.Handle? {
        ShownElsewhere(v, x, m, m1);
        forall next: Leg |
          && action.cell.command == Extend2 && Extend2Of(w.net, action.cell.data).Ok?
          && next == Leg(Extend2Of(w.net, action.cell.data).value.0.nodeId, draws.nextCirc)
          && MgrExtend(w.net, m1, leg, next, action.cell.data).1.Ok?
          ensures !Reserved(v, x, next)
        {
          DrawnIs(w, m, leg, cell, draws, next);
        }
        HandleElsewhere(w, v, x, m1, leg, action.cell, draws);
        ElsewhereTwice(v, x, m, m1, OnHandle(w, m1, leg, action.cell, draws).0);
      }
    } else {
      RelaysElsewhere(v, x, m, m.relays, m.relayByNext);
    }
  }

  // ── Circuits that go away ───────────────────────────────────────────

  /** Foreign entries go from any of the tables. */
  lemma RemovalElsewhere(v: View, x: PeerId, m: Mgr, m': Mgr, legs: set<Leg>, ids: set<CircuitId>)
    requires v.path != [] && ShownAt(v, x, m)
    requires m'.relays == m.relays - legs && m'.origins == m.origins - ids
    requires forall leg :: Reserved(v, x, leg) ==>
      && !(leg in m.relays && leg in legs)
      && SameEntry(m.rendezvousBridges, m'.rendezvousBridges, leg) && (leg in m.relayByNext <==> leg in m'.relayByNext)
    requires forall c :: ReservedOrigin(v, x, c) ==> !(c in m.origins && c in ids)
    ensures Elsewhere(v, x, m, m')
  {
    hide Reserved, ReservedOrigin, AtNode, AtBefore, AtHome;
  }

  lemma NextsGone(v: View, x: PeerId, m: Mgr, dead: set<Leg>, next: Leg)
    requires Known(v, x, m) && Reserved(v, x, next) && next in m.relayByNext
    requires forall leg :: leg in dead && leg in m.relays ==> !Reserved(v, x, leg)
    ensures next !in NextLegs(m.relays, dead)
  {
    hide Reserved, Known;
    forall k | k in dead && k in m.relays && m.relays[k].Next().Some?
      ensures m.relays[k].Next().value != next
    {
      NextForeign(v, x, m, k);
    }
  }

  lemma DestroyElsewhere(v: View, x: PeerId, m: Mgr, leg: Leg)
    requires Known(v, x, m) && Foreign(v, x, leg)
    ensures Elsewhere(v, x, m, MgrDestroy(m, leg)) && OutForeign(v, x, OnDestroy(m, leg).1)
  {
    hide Reserved, ReservedOrigin, Formed, Elsewhere, Sane, ShownAt;
    KnownSane(v, x, m);
    if leg in m.rendezvousBridges {
      PartnerForeign(v, x, m, leg);
    }
    var m' := MgrDestroy(m, leg);
    forall next | Reserved(v, x, next)
      ensures next in m.relayByNext <==> next in m'.relayByNext
    {
      if next in m.relayByNext {
        NextsGone(v, x, m, {leg}, next);
      }
    }
    forall c | ReservedOrigin(v, x, c)
      ensures !(c in m.origins && c in {leg.circ})
    {
      if c == leg.circ && c in m.origins {
        NoOriginHere(v, x, m, leg);
        OriginForeign(v, x, m, c);
      }
    }
    RemovalElsewhere(v, x, m, m', {leg}, {leg.circ});
  }

  /** A sweep that finds none of the circuit's entries idle. */
  ghost predicate SweepSpares(v: View, x: PeerId, m: Mgr, now: Instant) {
    && (x == v.home ==> !IsIdle(v.origin.lastActivity, now))
    && (forall i :: 0 <= i < |v.relays| && i < |v.path| && x == v.path[i].peer ==> !IsIdle(v.relays[i].lastActivity, now))
    && (v.partner.Some? && v.path != [] && x == v.path[|v.path| - 1].peer ==> v.partner.value !in DeadRelays(m, now))
  }

  lemma SweepSparesRelays(v: View, x: PeerId, m: Mgr, now: Instant, leg: Leg)
    requires Known(v, x, m) && SweepSpares(v, x, m, now) && Reserved(v, x, leg)
    ensures leg !in DeadRelays(m, now)
  {
    hide Reserved, Sane, Formed, AtBefore, AtHome, AtOther;
    if leg in m.relays {
      var i := ReservedRelay(v, x, m, leg);
      FormedParts(v);
      assert AtNode(v, i, m);
    }
  }

  lemma SweepSparesOrigins(v: View, x: PeerId, m: Mgr, now: Instant, c: CircuitId)
    requires Known(v, x, m) && SweepSpares(v, x, m, now) && ReservedOrigin(v, x, c)
    ensures c !in DeadOrigins(m, now)
  {
    if c in m.origins && !(x == v.home && c == v.origin.id) {
      OriginForeign(v, x, m, c);
    }
  }

  lemma SweepElsewhere(v: View, x: PeerId, m: Mgr, now: Instant, order: seq<Leg>)
    requires Known(v, x, m) && SweepSpares(v, x, m, now) && Elements(order) == DeadRelays(m, now)
    ensures Elsewhere(v, x, m, Evict(m, now, order))
  {
    hide Reserved, ReservedOrigin, Elsewhere, ShownAt, SweepSpares, Known, DeadRelays, DeadOrigins;
    KnownSane(v, x, m);
    var m' := Evict(m, now, order);
    UnbridgeAllMeaning(m.rendezvousBridges, order);
    forall leg | Reserved(v, x, leg)
      ensures && !(leg in m.relays && leg in DeadRelays(m, now))
              && SameEntry(m.rendezvousBridges, m'.rendezvousBridges, leg) && (leg in m.relayByNext <==> leg in m'.relayByNext)
    {
      SweepSparesRelays(v, x, m, now, leg);
      if leg in m.relayByNext {
        forall dead | dead in DeadRelays(m, now) && dead in m.relays
          ensures !Reserved(v, x, dead)
        {
          if Reserved(v, x, dead) {
            SweepSparesRelays(v, x, m, now, dead);
          }
        }
        NextsGone(v, x, m, DeadRelays(m, now), leg);
      }
      SweepSparesBridge(v, x, m, now, leg);
    }
    forall c | ReservedOrigin(v, x, c)
      ensures !(c in m.origins && c in DeadOrigins(m, now))
    {
      SweepSparesOrigins(v, x, m, now, c);
    }
    RemovalElsewhere(v, x, m, m', DeadRelays(m, now), DeadOrigins(m, now));
  }

  lemma SweepSparesBridge(v: View, x: PeerId, m: Mgr, now: Instant, leg: Leg)
    requires Known(v, x, m) && SweepSpares(v, x, m, now) && Reserved(v, x, leg)
    ensures SameEntry(m.rendezvousBridges, Without(m.rendezvousBridges, DeadRelays(m, now)), leg)
  {
    if leg in m.rendezvousBridges {
      SweepSparesRelays(v, x, m, now, leg);
      hide Reserved, Sane, ShownAt, DeadRelays;
      ReservedBridge(v, x, m, leg);
    }
  }

  // ── Table operations ────────────────────────────────────────────────

  /** The operation does not concern the circuit. */
  ghost predicate OpSpares(v: View, x: PeerId, m: Mgr, op: TableOp) {
    match op
    case BridgeLegs(a, b) => !Reserved(v, x, a) && !Reserved(v, x, b)
    case UnbridgeLeg(leg) => Foreign(v, x, leg)
    case CompleteRendezvous(cookie, _, _) =>
      cookie in m.pendingRendezvous && x == v.home ==> m.pendingRendezvous[cookie].circ != v.origin.id
    case InstallE2E(cid, _) => !(x == v.home && cid == v.origin.id)
    case EvictIdle(now, order) => SweepSpares(v, x, m, now) && Elements(order) == DeadRelays(m, now)
    case _ => true
  }

  lemma SameElsewhere(v: View, x: PeerId, m: Mgr, m': Mgr)
    requires v.path != [] && ShownAt(v, x, m)
    requires m'.relays == m.relays && m'.relayByNext == m.relayByNext && m'.origins == m.origins
    requires forall leg :: Reserved(v, x, leg) ==> SameEntry(m.rendezvousBridges, m'.rendezvousBridges, leg)
    ensures Elsewhere(v, x, m, m')
  {
    hide Reserved, ReservedOrigin, AtNode, AtBefore, AtHome;
  }

  lemma OriginOnlyElsewhere(v: View, x: PeerId, m: Mgr, m': Mgr, c: CircuitId)
    requires Known(v, x, m) && !(x == v.home && c == v.origin.id)
    requires m'.relays == m.relays && m'.relayByNext == m.relayByNext && m'.rendezvousBridges == m.rendezvousBridges
    requires m'.origins == m.origins
          || (c in m.origins && c in m'.origins && m'.origins == m.origins[c := m'.origins[c]] && m'.origins[c].peer == m.origins[c].peer)
    ensures Elsewhere(v, x, m, m')
  {
    hide Reserved, ReservedOrigin, Sane, Formed, ShownAt, Elsewhere;
    if m'.origins == m.origins {
      SameElsewhere(v, x, m, m');
    } else {
      OriginElsewhere(v, x, m, c, m'.origins[c]);
      SameTables(v, x, m, m.(origins := m'.origins), m');
    }
  }

  lemma SameTables(v: View, x: PeerId, m: Mgr, m1: Mgr, m': Mgr)
    requires Elsewhere(v, x, m, m1)
    requires m'.relays == m1.relays && m'.relayByNext == m1.relayByNext && m'.rendezvousBridges == m1.rendezvousBridges
    requires m'.origins == m1.origins
    ensures Elsewhere(v, x, m, m')
  {
    hide Reserved, ReservedOrigin;
  }

  lemma OpElsewhere(w: World, v: View, x: PeerId, m: Mgr, op: TableOp)
    requires Known(v, x, m) && OpSpares(v, x, m, op)
    ensures Elsewhere(v, x, m, DoTableOp(w, m, op))
  {
    hide Reserved, ReservedOrigin, Sane, Formed, ShownAt, Elsewhere, Evict, ClientFinalize, HopFromE2E, SweepSpares, Known;
    KnownSane(v, x, m);
    var m' := DoTableOp(w, m, op);
    match op
    case RegisterCookie(_, _) => SameElsewhere(v, x, m, m');
    case ConsumeCookie(_) => SameElsewhere(v, x, m, m');
    case RegisterPending(_, _) => SameElsewhere(v, x, m, m');
    case BridgeLegs(_, _) => SameElsewhere(v, x, m, m');
    case UnbridgeLeg(leg) =>
      if leg in m.rendezvousBridges {
        PartnerForeign(v, x, m, leg);
      }
      SameElsewhere(v, x, m, m');
    case CompleteRendezvous(cookie, _, _) =>
      if cookie in m.pendingRendezvous {
        OriginOnlyElsewhere(v, x, m, m', m.pendingRendezvous[cookie].circ);
      } else {
        SameElsewhere(v, x, m, m');
      }
    case InstallE2E(cid, _) => OriginOnlyElsewhere(v, x, m, m', cid);
    case EvictIdle(now, order) => SweepElsewhere(v, x, m, now, order);
  }

  // ── Every step ──────────────────────────────────────────────────────

  /** The step does not concern the circuit: it is not taken by its client on it, nor delivers a cell of
      it, nor removes any of its entries. */
  ghost predicate Spares(g: Mesh, v: View, event: Event) {
    match event
    case Start(_, _, _, _) => true
    case Extend(p, cid, _, _, _) => !(p == v.home && cid == v.origin.id)
    case Send(p, cid, _, _, _) => !(p == v.home && cid == v.origin.id)
    case Reply(p, leg, _) => !Reserved(v, p, leg)
    case Close(p, cid) =>
      && !(p == v.home && cid == v.origin.id)
      && (cid in At(g, p).origins ==> Foreign(v, p, Leg(At(g, p).origins[cid].peer, cid)))
    case Deliver(from, p, _) => Link(g, from, p) != [] ==> Foreign(v, p, Leg(from, Link(g, from, p)[0].circId))
    case Local(p, op) => OpSpares(v, p, At(g, p), op)
  }

  lemma ShowsKnown(g: Mesh, v: View, x: PeerId)
    requires Shows(g, v) && AllSane(g)
    ensures Known(v, x, At(g, x))
  {
    FormedParts(v);
    hide Formed, ShownAt, Sane, LinksShown;
  }

  /** A manager that changes elsewhere, and perhaps sends a foreign cell. */
  lemma MgrElsewhere(g: Mesh, v: View, x: PeerId, m: Mgr, out: Out)
    requires Shows(g, v) && Elsewhere(v, x, At(g, x), m) && OutForeign(v, x, out)
    ensures Shows(SendOut(WithMgr(g, x, m), x, out), v)
  {
    hide Formed, ShownAt, Reserved, Elsewhere, LinksShown, TablesShown;
    TablesElsewhere(g, v, x, m);
    LinksSame(g, WithMgr(g, x, m), v);
    if out.Some? {
      PushElsewhere(WithMgr(g, x, m), v, x, out.value.0, out.value.1);
    }
  }

  lemma DispatchElsewhere(w: World, v: View, x: PeerId, m: Mgr, leg: Leg, cell: Cell, draws: Draws)
    requires Known(v, x, m) && Foreign(v, x, leg) && cell.circId == leg.circ
    requires var next := DrawnLeg(w, m, leg, cell, draws);
             next.Some? ==> !Reserved(v, x, next.value)
    ensures var (m', out) := Dispatch(w, x, m, leg, cell, draws);
            Elsewhere(v, x, m, m') && OutForeign(v, x, out)
  {
    hide Reserved, Elsewhere, Sane, ShownAt, OnCreate, OnCreated, OnRelay, Formed, MgrDestroy, DrawnLeg;
    match cell.command
    case Create => CreateElsewhere(w, v, x, m, leg, cell, draws);
    case Created => CreatedElsewhere(w, v, x, m, leg, cell);
    case Relay => RelayElsewhere(w, v, x, m, leg, cell, draws);
    case RelayEarly => RelayElsewhere(w, v, x, m, leg, cell, draws);
    case Destroy => DestroyElsewhere(v, x, m, leg);
    case _ => RelaysElsewhere(v, x, m, m.relays, m.relayByNext);
  }

  lemma DeliverElsewhere(w: World, g: Mesh, v: View, from: PeerId, p: PeerId, draws: Draws)
    requires Shows(g, v) && AllSane(g) && Cautious(w, g, Deliver(from, p, draws)) && Spares(g, v, Deliver(from, p, draws))
    ensures Shows(DoDeliver(w, g, from, p, draws), v)
  {
    hide Formed, ShownAt, Reserved, Elsewhere, LinksShown, TablesShown, Dispatch, Sane, DrawnLeg, CreateFresh, FreshBetween,
         Shows, Known, OutForeign;
    var cells := Link(g, from, p);
    if cells != [] {
      var leg := Leg(from, cells[0].circId);
      ReservedBothWays(v, p, from, cells[0].circId);
      PopElsewhere(g, v, from, p);
      var g1 := Pop(g, from, p);
      assert At(g1, p) == At(g, p);
      ShowsKnown(g, v, p);
      var next := DrawnLeg(w, At(g, p), leg, cells[0], draws);
      if next.Some? {
        FreshForeign(g, v, p, next.value.peer, next.value.circ);
      }
      DispatchElsewhere(w, v, p, At(g, p), leg, cells[0], draws);
      var (m, out) := Dispatch(w, p, At(g, p), leg, cells[0], draws);
      MgrElsewhere(g1, v, p, m, out);
    }
  }

  lemma EncryptKeeps(s: Suite, o: Origin, target: nat, rc: RelayCell, now: Instant)
    ensures var o' := EncryptOutbound(s, o, target, rc, now).0;
            o'.peer == o.peer && o'.id == o.id && o'.pending == o.pending
  {
    hide StampDigest, ToPayload, Layer;
  }

  lemma ExtendKeepsOrigin(w: World, o: Origin, spec: LinkSpec, xPriv: Key32, now: Instant)
    ensures var (o', r) := OriginExtend(w.s, w.d, w.net, o, spec, xPriv, now);
            o'.peer == o.peer && o'.id == o.id && (r.Ok? ==> r.value.circId == o.id)
  {
    hide EncryptOutbound, BuildExtend2, ClientHandshakeStart;
    if o.hops != [] && o.relayEarlyUsed < MAX_RELAY_EARLY {
      var (hs, msg) := ClientHandshakeStart(w.d, spec.nodeId, spec.staticPub, xPriv);
      EncryptKeeps(w.s, o.(pending := Some(hs)), |o.hops| - 1, RelayCell(Extend2, 0, 0, 0, BuildExtend2(w.net, spec, msg)), now);
    }
  }

  /** A foreign client's own doings. */
  lemma ClientElsewhere(g: Mesh, v: View, p: PeerId, cid: CircuitId, o: Origin, out: Out)
    requires Shows(g, v) && AllSane(g) && cid in At(g, p).origins && !(p == v.home && cid == v.origin.id)
    requires o.peer == At(g, p).origins[cid].peer
    requires out.Some? ==> out.value.0 == o.peer && out.value.1.circId == cid
    ensures var m := At(g, p);
            Shows(SendOut(WithMgr(g, p, m.(origins := m.origins[cid := o])), p, out), v)
  {
    hide Formed, ShownAt, Reserved, ReservedOrigin, Elsewhere, Sane, Shows, Known, SendOut;
    ShowsKnown(g, v, p);
    var m := At(g, p);
    OriginForeign(v, p, m, cid);
    OriginElsewhere(v, p, m, cid, o);
    MgrElsewhere(g, v, p, m.(origins := m.origins[cid := o]), out);
  }

  lemma ExtendForeign(w: World, g: Mesh, v: View, p: PeerId, cid: CircuitId, next: PeerId, xPriv: Key32, now: Instant)
    requires Shows(g, v) && AllSane(g) && !(p == v.home && cid == v.origin.id)
    ensures Shows(DoExtend(w, g, p, cid, next, xPriv, now), v)
  {
    hide Shows, Sane, OriginExtend;
    var m := At(g, p);
    if cid in m.origins {
      var (o, r) := OriginExtend(w.s, w.d, w.net, m.origins[cid], SpecOf(w, next), xPriv, now);
      ExtendKeepsOrigin(w, m.origins[cid], SpecOf(w, next), xPriv, now);
      SaneOrigin(m, cid);
      ClientElsewhere(g, v, p, cid, o, if r.Ok? then Some((o.peer, r.value)) else None);
    }
  }

  lemma SaneOrigin(m: Mgr, cid: CircuitId)
    requires Sane(m) && cid in m.origins
    ensures m.origins[cid].id == cid
  {
  }

  lemma SendForeign(w: World, g: Mesh, v: View, p: PeerId, cid: CircuitId, target: nat, rc: RelayCell, now: Instant)
    requires Shows(g, v) && AllSane(g) && !(p == v.home && cid == v.origin.id)
    ensures Shows(DoSend(w, g, p, cid, target, rc, now), v)
  {
    hide Shows, Sane, EncryptOutbound;
    var m := At(g, p);
    if cid in m.origins {
      var (o, r) := EncryptOutbound(w.s, m.origins[cid], target, rc, now);
      EncryptKeeps(w.s, m.origins[cid], target, rc, now);
      ClientElsewhere(g, v, p, cid, o, if r.Ok? then Some((o.peer, Cell(cid, CellCommand.Relay, r.value))) else None);
    }
  }

  lemma OwnCellKeeps(s: Suite, r: RelayCircuit, rc: RelayCell)
    ensures var (r', cell) := OwnCell(s, r, rc);
            && r' == r.(hop := r'.hop) && cell.circId == r.prevCircId && cell.command.Relay?
  {
    hide StampDigest, OnionBackward, ToPayload;
  }

  lemma ReplyForeign(w: World, g: Mesh, v: View, p: PeerId, leg: Leg, rc: RelayCell)
    requires Shows(g, v) && AllSane(g) && !Reserved(v, p, leg)
    ensures Shows(DoReply(w, g, p, leg, rc), v)
  {
    hide Shows, Sane, OwnCell, Reserved, Elsewhere, Known;
    var m := At(g, p);
    if leg in m.relays {
      var (r, cell) := OwnCell(w.s, m.relays[leg], rc);
      OwnCellKeeps(w.s, m.relays[leg], rc);
      ShowsKnown(g, v, p);
      KnownSane(v, p, m);
      PrevIs(m, leg);
      EntryElsewhere(v, p, m, leg, r);
      MgrElsewhere(g, v, p, m.(relays := m.relays[leg := r]), Some((r.prevPeer, cell)));
    }
  }

  lemma CloseForeign(g: Mesh, v: View, p: PeerId, cid: CircuitId)
    requires Shows(g, v) && AllSane(g) && Spares(g, v, Close(p, cid))
    ensures Shows(DoClose(g, p, cid), v)
  {
    hide Shows, Sane, Reserved, Elsewhere, MgrDestroy, Known;
    var m := At(g, p);
    if cid in m.origins {
      var guard := m.origins[cid].peer;
      ShowsKnown(g, v, p);
      DestroyElsewhere(v, p, m, Leg(guard, cid));
      MgrElsewhere(g, v, p, MgrDestroy(m, Leg(guard, cid)), Some((guard, DestroyCell(cid))));
    }
  }

  /** A new origin circuit, its id being fresh on every connection of its node. */
  lemma OriginFresh(g: Mesh, v: View, p: PeerId, circ: CircuitId)
    requires Shows(g, v) && AllSane(g) && FreshOrigin(g, p, circ)
    ensures !ReservedOrigin(v, p, circ)
  {
    FormedParts(v);
    hide Sane, Formed, LinksShown, ShownAt;
    forall i: nat, y
      ensures !Passes(v, i, p, y, circ)
    {
      assert ConnFree(g, p, y, circ);
      if Passes(v, i, p, y, circ) {
        UsedThere(g, v, i);
      }
    }
  }

  lemma StartForeign(w: World, g: Mesh, v: View, p: PeerId, guard: PeerId, xPriv: Key32, now: Instant)
    requires Shows(g, v) && AllSane(g) && Cautious(w, g, Start(p, guard, xPriv, now))
    ensures Shows(DoStart(w, g, p, guard, xPriv, now), v)
  {
    hide Shows, Sane, Reserved, ReservedOrigin, Known, Formed, ShownAt, ClientHandshakeStart, LegFree;
    var m := At(g, p);
    var (m', (cid, create)) := MgrStart(w.d, m, guard, guard, StaticPub(w, guard), xPriv, now);
    ShowsKnown(g, v, p);
    KnownSane(v, p, m);
    OriginFresh(g, v, p, cid);
    assert ConnFree(g, p, guard, cid);
    FreshForeign(g, v, p, guard, cid);
    ShowsKnown(g, v, v.home);
    KnownSane(v, v.home, At(g, v.home));
    assert guard == v.home ==> cid != v.origin.id by {
      HasOrigin(v, At(g, v.home));
    }
    SameNew(v, p, m, m', cid);
    MgrElsewhere(g, v, p, m', Some((guard, create)));
  }

  lemma HasOrigin(v: View, m: Mgr)
    requires v.path != [] && ShownAt(v, v.home, m)
    ensures v.origin.id in m.origins && m.origins[v.origin.id] == v.origin
  {
  }

  lemma SameNew(v: View, x: PeerId, m: Mgr, m': Mgr, cid: CircuitId)
    requires v.path != [] && ShownAt(v, x, m) && !ReservedOrigin(v, x, cid)
    requires m'.relays == m.relays && m'.relayByNext == m.relayByNext && m'.rendezvousBridges == m.rendezvousBridges
    requires cid in m'.origins && m'.origins == m.origins[cid := m'.origins[cid]]
    requires m'.origins[cid].peer == v.home ==> cid != v.origin.id
    ensures Elsewhere(v, x, m, m')
  {
    hide Reserved, ReservedOrigin, AtNode, AtBefore, AtHome;
  }

  /** Whatever else happens in the network, the circuit is shown as it was. */
  lemma SparedStep(w: World, g: Mesh, v: View, event: Event)
    requires Shows(g, v) && AllSane(g) && Cautious(w, g, event) && Spares(g, v, event)
    ensures Shows(Do(w, g, event), v)
  {
    hide Shows, Sane, DoStart, DoExtend, DoSend, DoReply, DoClose, DoDeliver, DoTableOp, Reserved, Elsewhere, OpSpares;
    match event
    case Start(p, guard, xPriv, now) => StartForeign(w, g, v, p, guard, xPriv, now);
    case Extend(p, cid, next, xPriv, now) => ExtendForeign(w, g, v, p, cid, next, xPriv, now);
    case Send(p, cid, target, rc, now) => SendForeign(w, g, v, p, cid, target, rc, now);
    case Reply(p, leg, rc) => ReplyForeign(w, g, v, p, leg, rc);
    case Close(p, cid) => CloseForeign(g, v, p, cid);
    case Deliver(from, p, draws) => DeliverElsewhere(w, g, v, from, p, draws);
    case Local(p, op) =>
      ShowsKnown(g, v, p);
      OpElsewhere(w, v, p, At(g, p), op);
      MgrElsewhere(g, v, p, DoTableOp(w, At(g, p), op), None);
  }
}

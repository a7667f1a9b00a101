/** Every manager of the network stays in order, whatever careful nodes do. */
module NetworkTables {
  import opened Wrappers
  import opened Bytes
  import opened Circuit
  import opened Ntor
  import opened ExtendCodec
  import opened CircuitState
  import opened CircuitRun
  import opened ManagerTables
  import opened Network
  import opened NetworkView
  import opened NetworkElsewhere

  /** The node's own identity and primitives, as the manager's operations take them. */
  function EnvOf(w: World, me: PeerId): Env {
    Env(w.s, w.d, w.l, w.net, me, StaticPub(w, me), w.nodes(me).bSecret)
  }

  lemma NamedRelay(m: Mgr, m': Mgr, leg: Leg, r: RelayCircuit)
    requires Named(m) && m'.origins == m.origins && m'.relays == m.relays[leg := r]
    requires Leg(r.prevPeer, r.prevCircId) == leg
    ensures Named(m')
  {
  }

  lemma CreateSane(w: World, x: PeerId, m: Mgr, leg: Leg, cell: Cell, draws: Draws)
    requires Sane(m) && cell.command.Create? && CreateFresh(w, x, m, leg, cell, draws)
    ensures Sane(OnCreate(w, x, m, leg, cell, draws).0)
  {
    hide Consistent, Named, RelayCreated;
    var msg := cell.payload[..CLIENT_HANDSHAKE_LEN];
    OperationKeepsTables(EnvOf(w, x), m, HandleCreate(leg, msg, draws.yPriv, draws.now));
    RelayCreatedKeys(w, leg, x, msg, draws.yPriv, draws.now);
    var r := RelayCreated(w.d, w.l, leg, x, StaticPub(w, x), w.nodes(x).bSecret, msg, draws.yPriv, draws.now);
    var m' := OnCreate(w, x, m, leg, cell, draws).0;
    if r.Ok? {
      NamedRelay(m, m', leg, r.value.0);
    }
  }

  lemma FromNextSane(w: World, x: PeerId, m: Mgr, leg: Leg, reply: ServerMsg)
    requires Sane(m)
    ensures Sane(MgrCreatedFromNext(w.s, m, leg, reply).0)
  {
    hide Consistent, Named, RelayExtended;
    OperationKeepsTables(EnvOf(w, x), m, HandleCreatedFromNext(leg, reply));
    if leg in m.relayByNext && m.relayByNext[leg] in m.relays {
      var key := m.relayByNext[leg];
      NamedKey(m, key);
      ExtendedKeeps(w.s, m.relays[key], reply);
      var r := RelayExtended(w.s, m.relays[key], reply);
      if r.Ok? {
        NamedRelay(m, MgrCreatedFromNext(w.s, m, leg, reply).0, key, r.value.0);
      }
    }
  }

  lemma CreatedSane(w: World, x: PeerId, m: Mgr, leg: Leg, cell: Cell)
    requires Sane(m)
    ensures Sane(OnCreated(w, m, leg, cell).0)
  {
    hide Consistent, Named, OriginCreated, MgrCreatedFromNext;
    var reply := cell.payload[..SERVER_HANDSHAKE_LEN];
    if leg.circ in m.origins {
      OriginKeeps(w, m.origins[leg.circ], reply);
      SaneOrigin(m, leg.circ);
      OriginsSane(m, OnCreated(w, m, leg, cell).0, leg.circ);
    } else {
      FromNextSane(w, x, m, leg, reply);
    }
  }

  lemma BackwardSane(w: World, x: PeerId, m: Mgr, leg: Leg, cell: Cell)
    requires Sane(m)
    ensures Sane(MgrBackward(w.s, m, leg, cell).0)
  {
    hide Consistent, Named, RelayBackward;
    OperationKeepsTables(EnvOf(w, x), m, HandleBackwardRelay(leg, cell));
    if leg in m.relayByNext && m.relayByNext[leg] in m.relays {
      var key := m.relayByNext[leg];
      PrevIs(m, key);
      BackwardKeeps(w.s, m.relays[key], cell.payload);
      NamedRelay(m, MgrBackward(w.s, m, leg, cell).0, key, RelayBackward(w.s, m.relays[key], cell.payload).0);
    }
  }

  lemma ForwardNamed(w: World, m: Mgr, leg: Leg, cell: Cell, now: Instant)
    requires Named(m)
    ensures Named(MgrForward(w.s, m, leg, cell, now).0)
  {
    hide RelayPeel, RelayBackward, Named;
    if leg in m.relays {
      var (r, q, mine) := RelayPeel(w.s, m.relays[leg], cell.payload, now);
      PeelKeeps(w.s, m.relays[leg], cell.payload, now);
      NamedKey(m, leg);
      var m1 := m.(relays := m.relays[leg := r]);
      NamedRelay(m, m1, leg, r);
      if mine.None? && r.Next().None? && leg in m.rendezvousBridges && m.rendezvousBridges[leg] in m1.relays {
        var partner := m.rendezvousBridges[leg];
        var pr := RelayBackward(w.s, m1.relays[partner], q).0;
        BackwardKeeps(w.s, m1.relays[partner], q);
        NamedKey(m1, partner);
        NamedRelay(m1, m1.(relays := m1.relays[partner := pr.(lastActivity := now)]), partner, pr.(lastActivity := now));
      }
    }
  }

  lemma NamedKey(m: Mgr, leg: Leg)
    requires Named(m) && leg in m.relays
    ensures Leg(m.relays[leg].prevPeer, m.relays[leg].prevCircId) == leg
  {
  }

  lemma ForwardSane(w: World, x: PeerId, m: Mgr, leg: Leg, cell: Cell, now: Instant)
    requires Sane(m)
    ensures Sane(MgrForward(w.s, m, leg, cell, now).0)
  {
    hide Consistent, Named, MgrForward;
    OperationKeepsTables(EnvOf(w, x), m, HandleForwardRelay(leg, cell, now));
    ForwardNamed(w, m, leg, cell, now);
  }

  lemma ExtendSane(w: World, x: PeerId, m: Mgr, leg: Leg, next: Leg, data: bytes)
    requires Sane(m) && (MgrExtend(w.net, m, leg, next, data).1.Ok? ==> next !in m.relayByNext)
    ensures Sane(MgrExtend(w.net, m, leg, next, data).0)
  {
    hide Consistent, Named, Extend2Of;
    OperationKeepsTables(EnvOf(w, x), m, BeginExtend(leg, next, data));
    if leg in m.relays {
      NamedKey(m, leg);
      var r := RelayExtend(w.net, m.relays[leg], next, data);
      if r.Ok? {
        NamedRelay(m, MgrExtend(w.net, m, leg, next, data).0, leg, r.value.0);
      }
    }
  }

  lemma RelaySane(w: World, x: PeerId, m: Mgr, leg: Leg, cell: Cell, draws: Draws)
    requires Sane(m) && IsRelay(cell)
    requires var next := DrawnLeg(w, m, leg, cell, draws);
             next.Some? ==> next.value !in m.relayByNext
    ensures Sane(OnRelay(w, m, leg, cell, draws).0)
  {
    hide Consistent, Named, MgrForward, MgrBackward, OriginRelay, DrawnLeg, MgrExtend, Extend2Of;
    if leg.circ in m.origins {
      OriginRelayKeeps(w, m.origins[leg.circ], cell.payload, draws.now);
      SaneOrigin(m, leg.circ);
      OriginsSane(m, OnRelay(w, m, leg, cell, draws).0, leg.circ);
    } else if leg in m.relayByNext {
      BackwardSane(w, x, m, leg, cell);
    } else if leg in m.relays {
      var (m1, action) := MgrForward(w.s, m, leg, cell, draws.now);
      ForwardSane(w, x, m, leg, cell, draws.now);
      if action.Handle? && action.cell.command == Extend2 && Extend2Of(w.net, action.cell.data).Ok? {
        var next := Leg(Extend2Of(w.net, action.cell.data).value.0.nodeId, draws.nextCirc);
        if MgrExtend(w.net, m1, leg, next, action.cell.data).1.Ok? {
          DrawnIs(w, m, leg, cell, draws, next);
          ForwardKeepsTable(w, m, leg, cell, draws.now);
        }
        ExtendSane(w, x, m1, leg, next, action.cell.data);
      }
    }
  }

  lemma ForwardKeepsTable(w: World, m: Mgr, leg: Leg, cell: Cell, now: Instant)
    ensures MgrForward(w.s, m, leg, cell, now).0.relayByNext == m.relayByNext
  {
    hide RelayPeel, RelayBackward;
  }

  lemma DestroySane(m: Mgr, leg: Leg)
    requires Sane(m)
    ensures Sane(MgrDestroy(m, leg))
  {
    hide Consistent;
    DestroyKeeps(m, leg);
  }

  lemma DispatchSane(w: World, x: PeerId, m: Mgr, leg: Leg, cell: Cell, draws: Draws)
    requires Sane(m) && CreateFresh(w, x, m, leg, cell, draws)
    requires var next := DrawnLeg(w, m, leg, cell, draws);
             next.Some? ==> next.value !in m.relayByNext
    ensures Sane(Dispatch(w, x, m, leg, cell, draws).0)
  {
    hide Sane, OnCreate, OnCreated, OnRelay, MgrDestroy, DrawnLeg, CreateFresh;
    match cell.command
    case Create => CreateSane(w, x, m, leg, cell, draws);
    case Created => CreatedSane(w, x, m, leg, cell);
    case Relay => RelaySane(w, x, m, leg, cell, draws);
    case RelayEarly => RelaySane(w, x, m, leg, cell, draws);
    case Destroy => DestroySane(m, leg);
    case _ =>
  }

  lemma SweepSane(m: Mgr, now: Instant, order: seq<Leg>)
    requires Sane(m)
    ensures Sane(Evict(m, now, order))
  {
    hide Consistent, UnbridgeAll, DeadRelays, DeadOrigins;
    SweepKeeps(m, now, order);
  }

  lemma OriginsSane(m: Mgr, m': Mgr, c: CircuitId)
    requires Sane(m)
    requires m'.relays == m.relays && m'.relayByNext == m.relayByNext && m'.rendezvousBridges == m.rendezvousBridges
    requires m'.origins == m.origins || (c in m'.origins && m'.origins == m.origins[c := m'.origins[c]] && m'.origins[c].id == c)
    ensures Sane(m')
  {
    hide NextsInverse, Involution;
  }

  lemma BridgesSane(m: Mgr, m': Mgr)
    requires Sane(m) && m'.relays == m.relays && m'.relayByNext == m.relayByNext && m'.origins == m.origins
    requires Involution(m'.rendezvousBridges)
    ensures Sane(m')
  {
    hide NextsInverse, Involution;
  }

  lemma OpSane(w: World, x: PeerId, m: Mgr, op: TableOp)
    requires Sane(m) && (op.BridgeLegs? ==> MayBridge(m.rendezvousBridges, op.client, op.hs))
    ensures Sane(DoTableOp(w, m, op))
  {
    hide NextsInverse, Involution, Named, Evict, ClientFinalize, HopFromE2E, MayBridge, Bridge, Unbridge;
    var m' := DoTableOp(w, m, op);
    match op
    case RegisterCookie(_, _) => OriginsSane(m, m', 0);
    case ConsumeCookie(_) => OriginsSane(m, m', 0);
    case RegisterPending(_, _) => OriginsSane(m, m', 0);
    case BridgeLegs(a, b) =>
      BridgeKeepsInvolution(m.rendezvousBridges, a, b);
      BridgesSane(m, m');
    case UnbridgeLeg(leg) =>
      UnbridgeKeepsInvolution(m.rendezvousBridges, leg);
      BridgesSane(m, m');
    case CompleteRendezvous(cookie, _, _) =>
      if cookie in m.pendingRendezvous {
        var c := m.pendingRendezvous[cookie].circ;
        if c in m.origins {
          SaneOrigin(m, c);
        }
        OriginsSane(m, m', c);
      }
    case InstallE2E(cid, _) =>
      if cid in m.origins {
        SaneOrigin(m, cid);
      }
      OriginsSane(m, m', cid);
    case EvictIdle(now, order) => SweepSane(m, now, order);
  }

  // ── Every event ─────────────────────────────────────────────────────

  lemma SaneWith(g: Mesh, x: PeerId, m: Mgr, out: Out)
    requires AllSane(g) && Sane(m)
    ensures AllSane(SendOut(WithMgr(g, x, m), x, out))
  {
    hide Sane;
    forall id
      ensures Sane(At(SendOut(WithMgr(g, x, m), x, out), id))
    {
      assert Sane(At(g, id));
    }
  }

  lemma ReplySane(w: World, m: Mgr, leg: Leg, rc: RelayCell)
    requires Sane(m) && leg in m.relays
    ensures Sane(m.(relays := m.relays[leg := OwnCell(w.s, m.relays[leg], rc).0]))
  {
    hide NextsInverse, Involution, OwnCell, Named;
    var r := OwnCell(w.s, m.relays[leg], rc).0;
    OwnCellKeeps(w.s, m.relays[leg], rc);
    SameNext(m.relays, m.relayByNext, leg, r);
    NamedKey(m, leg);
    NamedRelay(m, m.(relays := m.relays[leg := r]), leg, r);
  }

  lemma StartSane(w: World, m: Mgr, guard: PeerId, xPriv: Key32, now: Instant)
    requires Sane(m)
    ensures Sane(MgrStart(w.d, m, guard, guard, StaticPub(w, guard), xPriv, now).0)
  {
    hide NextsInverse, Involution, ClientHandshakeStart;
  }

  lemma ClientSane(g: Mesh, p: PeerId, cid: CircuitId, o: Origin, out: Out)
    requires AllSane(g) && cid in At(g, p).origins && o.id == cid
    ensures var m := At(g, p);
            AllSane(SendOut(WithMgr(g, p, m.(origins := m.origins[cid := o])), p, out))
  {
    hide Sane;
    var m := At(g, p);
    assert Sane(m);
    OriginsSane(m, m.(origins := m.origins[cid := o]), cid);
    SaneWith(g, p, m.(origins := m.origins[cid := o]), out);
  }

  lemma DeliverSane(w: World, g: Mesh, from: PeerId, p: PeerId, draws: Draws)
    requires AllSane(g) && Cautious(w, g, Deliver(from, p, draws))
    ensures AllSane(DoDeliver(w, g, from, p, draws))
  {
    hide Sane, Dispatch, DrawnLeg, CreateFresh;
    var cells := Link(g, from, p);
    if cells != [] {
      var leg := Leg(from, cells[0].circId);
      assert Sane(At(g, p));
      DispatchSane(w, p, At(g, p), leg, cells[0], draws);
      var (m, out) := Dispatch(w, p, At(g, p), leg, cells[0], draws);
      var g1 := Pop(g, from, p);
      assert AllSane(g1) by {
        forall id
          ensures Sane(At(g1, id))
        {
          assert Sane(At(g, id));
        }
      }
      SaneWith(g1, p, m, out);
    }
  }

  /** Careful nodes keep every manager's tables consistent. */
  lemma EventSane(w: World, g: Mesh, event: Event)
    requires AllSane(g) && Cautious(w, g, event)
    ensures AllSane(Do(w, g, event))
  {
    hide Sane, OwnCell, OriginExtend, EncryptOutbound, MgrDestroy, MgrStart, DoDeliver, DoTableOp, FreshOrigin, DrawnLeg, CreateFresh;
    match event
    case Start(p, guard, xPriv, now) =>
      assert Sane(At(g, p));
      StartSane(w, At(g, p), guard, xPriv, now);
      var (m, (cid, create)) := MgrStart(w.d, At(g, p), guard, guard, StaticPub(w, guard), xPriv, now);
      SaneWith(g, p, m, Some((guard, create)));
    case Extend(p, cid, next, xPriv, now) =>
      if cid in At(g, p).origins {
        var o := At(g, p).origins[cid];
        var (o', r) := OriginExtend(w.s, w.d, w.net, o, SpecOf(w, next), xPriv, now);
        ExtendKeepsOrigin(w, o, SpecOf(w, next), xPriv, now);
        assert Sane(At(g, p));
        SaneOrigin(At(g, p), cid);
        ClientSane(g, p, cid, o', if r.Ok? then Some((o'.peer, r.value)) else None);
      }
    case Send(p, cid, target, rc, now) =>
      if cid in At(g, p).origins {
        var o := At(g, p).origins[cid];
        var (o', r) := EncryptOutbound(w.s, o, target, rc, now);
        EncryptKeeps(w.s, o, target, rc, now);
        assert Sane(At(g, p));
        SaneOrigin(At(g, p), cid);
        ClientSane(g, p, cid, o', if r.Ok? then Some((o'.peer, Cell(cid, CellCommand.Relay, r.value))) else None);
      }
    case Reply(p, leg, rc) =>
      if leg in At(g, p).relays {
        assert Sane(At(g, p));
        ReplySane(w, At(g, p), leg, rc);
        var m := At(g, p);
        var (r, cell) := OwnCell(w.s, m.relays[leg], rc);
        SaneWith(g, p, m.(relays := m.relays[leg := r]), Some((r.prevPeer, cell)));
      }
    case Close(p, cid) =>
      if cid in At(g, p).origins {
        var guard := At(g, p).origins[cid].peer;
        assert Sane(At(g, p));
        DestroySane(At(g, p), Leg(guard, cid));
        SaneWith(g, p, MgrDestroy(At(g, p), Leg(guard, cid)), Some((guard, DestroyCell(cid))));
      }
    case Deliver(from, p, draws) => DeliverSane(w, g, from, p, draws);
    case Local(p, op) =>
      assert Sane(At(g, p));
      OpSane(w, p, At(g, p), op);
      SaneWith(g, p, DoTableOp(w, At(g, p), op), None);
  }

  lemma EmptySane()
    ensures AllSane(EMPTY)
  {
    assert Sane(NEW_MGR);
  }

  /** DESTROY takes out the circuit and its bridge, and goes on to the bridged partner, and to nobody else. */
  lemma DestroyGoesOn(w: World, me: PeerId, m: Mgr, leg: Leg, cell: Cell, draws: Draws)
    requires Sane(m) && cell.command.Destroy?
    ensures var (m', out) := Dispatch(w, me, m, leg, cell, draws);
            && leg !in m'.relays && leg !in m'.rendezvousBridges && leg.circ !in m'.origins
            && (out.Some? <==> leg in m.rendezvousBridges)
            && (leg in m.rendezvousBridges ==>
                 var partner := m.rendezvousBridges[leg];
                 && partner !in m'.rendezvousBridges
                 && out.value.0 == partner.peer && out.value.1.circId == partner.circ && out.value.1.command.Destroy?)
  {
  }
}

/** The circuit manager (`phinet-core/src/circuit_mgr.rs`): circuits and tables changed in place, each
    method verified against the function of `CircuitState` that says what it does. */
module CircuitMgr {
  import opened Wrappers
  import opened Bytes
  import opened Circuit
  import opened Ntor
  import opened ExtendCodec
  import opened Flow
  import opened CircuitState

  class OriginCircuit {
    const id: CircuitId
    const peer: PeerId
    var hops: seq<HopState>
    var pending: Option<ClientHandshake>
    var relayEarlyUsed: nat
    var e2e: Option<HopState>
    var lastActivity: Instant

    function View(): Origin
      reads this
    {
      Origin(id, peer, hops, pending, relayEarlyUsed, e2e, lastActivity)
    }

    constructor (id: CircuitId, peer: PeerId, now: Instant)
      ensures View() == NewOrigin(id, peer, now)
    {
      this.id, this.peer := id, peer;
      hops, pending, relayEarlyUsed, e2e, lastActivity := [], None, 0, None, now;
    }

    /** Stamp at the innermost layer, then wrap hop after hop, the guard's layer last. */
    method EncryptOutbound(s: Suite, target: nat, rc: RelayCell, now: Instant) returns (r: Result<Payload, CircuitError>)
      modifies this
      ensures (View(), r) == CircuitState.EncryptOutbound(s, old(View()), target, rc, now)
    {
      if target >= |hops| {
        return Err(BadTarget);
      }
      var payload: Payload;
      if e2e.Some? {
        var e := e2e.value;
        var (rc', digest') := StampDigest(s, rc, e.forward.digest);
        var (e', p) := OnionForward(s, e.(forward := e.forward.(digest := digest')), ToPayload(rc'));
        e2e := Some(e');
        payload := p;
      } else {
        var hop := hops[target];
        var (rc', digest') := StampDigest(s, rc, hop.forward.digest);
        hops := hops[target := hop.(forward := hop.forward.(digest := digest'))];
        payload := ToPayload(rc');
        assert Forwards(hops) == Forwards(old(hops))[target := hop.forward.(digest := digest')];
        assert Backwards(hops) == Backwards(old(hops));
      }
      payload := WrapHops(s, target + 1, payload);
      lastActivity := now;
      HopsByHalves(hops, CircuitState.EncryptOutbound(s, old(View()), target, rc, now).0.hops);
      r := Ok(payload);
    }

    /** The source's loop `for i in (0..n).rev()`. */
    method WrapHops(s: Suite, n: nat, plain: Payload) returns (payload: Payload)
      requires n <= |hops|
      modifies this`hops
      ensures (Forwards(hops), payload) == WrapAll(s, Forwards(old(hops)), n, plain)
      ensures Backwards(hops) == Backwards(old(hops))
    {
      payload := plain;
      var i := n;
      while i > 0
        invariant 0 <= i <= n <= |hops| == |old(hops)|
        invariant WrapAll(s, Forwards(hops), i, payload) == WrapAll(s, Forwards(old(hops)), n, plain)
        invariant Backwards(hops) == Backwards(old(hops))
      {
        i := i - 1;
        ghost var before := hops;
        var (hop, p) := OnionForward(s, hops[i], payload);
        hops := hops[i := hop];
        payload := p;
        assert Forwards(hops) == Forwards(before)[i := hop.forward];
        assert Backwards(hops) == Backwards(before);
      }
    }

    /** Peel hop after hop until one recognizes the cell; failing all, try the end-to-end layer. */
    method DecryptInbound(s: Suite, cellPayload: Payload, now: Instant) returns (r: Option<(Source, RelayCell)>)
      modifies this
      ensures (View(), r) == CircuitState.DecryptInbound(s, old(View()), cellPayload, now)
    {
      var payload := cellPayload;
      ghost var whole := Peel(s, Backwards(hops), 0, payload);
      for i := 0 to |hops|
        invariant |hops| == |old(hops)|
        invariant Peel(s, Backwards(hops), i, payload) == whole
        invariant Forwards(hops) == Forwards(old(hops))
        invariant pending == old(pending) && relayEarlyUsed == old(relayEarlyUsed)
        invariant e2e == old(e2e) && lastActivity == old(lastActivity)
      {
        ghost var before := hops;
        var (hop, p) := OnionBackward(s, hops[i], payload);
        hops := hops[i := hop];
        payload := p;
        assert Backwards(hops) == Backwards(before)[i := hop.backward];
        assert Forwards(hops) == Forwards(before);
        var rc := FromPayload(payload);
        if rc.Some? && IsRecognizedAt(s, rc.value, payload, hop.backward.digest) {
          var digest' := hop.backward.digest + Blank(payload);
          hops := hops[i := hop.(backward := hop.backward.(digest := digest'))];
          assert Backwards(hops) == Backwards(before)[i := hop.backward.(digest := digest')];
          assert Forwards(hops) == Forwards(before);
          lastActivity := now;
          HopsByHalves(hops, WithBackwards(old(hops), whole.hops));
          return Some((FromHop(i), rc.value));
        }
      }
      HopsByHalves(hops, WithBackwards(old(hops), whole.hops));
      if e2e.Some? {
        var (e, p) := OnionBackward(s, e2e.value, payload);
        e2e := Some(e);
        payload := p;
        var rc := FromPayload(payload);
        if rc.Some? && IsRecognizedAt(s, rc.value, payload, e.backward.digest) {
          e2e := Some(e.(backward := e.backward.(digest := e.backward.digest + Blank(payload))));
          lastActivity := now;
          return Some((FromFarEnd, rc.value));
        }
      }
      return None;
    }

    /** The origin's part of `handle_created`. */
    method Created(d: Dh, l: Labels, reply: ServerMsg) returns (r: Result<(), CircuitError>)
      modifies this
      ensures (View(), r) == OriginCreated(d, l, old(View()), reply)
    {
      if pending.None? {
        return Err(NoPending);
      }
      var hs := pending.value;
      pending := None;
      var keys := ClientHandshakeFinish(d, l, hs, reply);
      if keys.Err? {
        return Err(AuthFailed);
      }
      hops := hops + [HopFromNtor(keys.value)];
      return Ok(());
    }

    /** The origin's part of `extend_circuit`. */
    method Extend(s: Suite, d: Dh, net: Dotted, next: LinkSpec, xPriv: Key32, now: Instant) returns (r: Result<Cell, CircuitError>)
      modifies this
      ensures (View(), r) == OriginExtend(s, d, net, old(View()), next, xPriv, now)
    {
      if hops == [] {
        return Err(NoHops);
      }
      if relayEarlyUsed >= MAX_RELAY_EARLY {
        return Err(BudgetExhausted);
      }
      var (hs, msg) := ClientHandshakeStart(d, next.nodeId, next.staticPub, xPriv);
      pending := Some(hs);
      var terminal := |hops| - 1;
      var rc := RelayCell(Extend2, 0, 0, 0, BuildExtend2(net, next, msg));
      var payload := EncryptOutbound(s, terminal, rc, now);
      relayEarlyUsed := relayEarlyUsed + 1;
      return Ok(Cell(id, RelayEarly, payload.value));
    }

    /** The origin's part of `handle_origin_relay`. */
    method Inbound(s: Suite, d: Dh, l: Labels, payload: Payload, now: Instant)
      returns (r: Result<Option<(Source, RelayCell)>, CircuitError>)
      modifies this
      ensures (View(), r) == OriginRelay(s, d, l, old(View()), payload, now)
    {
      var found := DecryptInbound(s, payload, now);
      if found.None? {
        return Err(AuthFailed);
      }
      var rc := found.value.1;
      if rc.command == Extended2 {
        var reply := ParseExtended2(rc.data);
        if reply.Err? || |reply.value| != SERVER_HANDSHAKE_LEN {
          return Err(BadReply);
        }
        var done := Created(d, l, reply.value);
        if done.Err? {
          return Err(done.error);
        }
        return Ok(None);
      }
      return Ok(Some(found.value));
    }
  }

  class CircuitManager {
    var origins: map<CircuitId, OriginCircuit>
    var relays: map<Leg, RelayCircuit>
    var relayByNext: map<Leg, Leg>
    var nextOriginId: u32
    var introCircuits: map<Key32, CircuitId>
    var introRegistered: map<Leg, Key32>
    var rendezvousCookies: map<Cookie, Leg>
    var rendezvousBridges: map<Leg, Leg>
    var pendingRendezvous: map<Cookie, PendingRendezvous>
    var e2eKeys: map<CircuitId, E2EKeys>

    /** Each origin circuit is owned by its own table entry. */
    ghost predicate Valid()
      reads this
    {
      forall a, b :: a in origins && b in origins && a != b ==> origins[a] != origins[b]
    }

    ghost function Circuits(): map<CircuitId, Origin>
      reads this`origins, origins.Values
    {
      map c | c in origins :: origins[c].View()
    }

    ghost function View(): Mgr
      reads this, origins.Values
    {
      Mgr(Circuits(), relays, relayByNext, nextOriginId, introCircuits,
          introRegistered, rendezvousCookies, rendezvousBridges, pendingRendezvous, e2eKeys)
    }

    constructor ()
      ensures Valid() && View() == NEW_MGR
    {
      origins, relays, relayByNext, nextOriginId := map[], map[], map[], 0x8000_0000;
      introCircuits, introRegistered, rendezvousCookies := map[], map[], map[];
      rendezvousBridges, pendingRendezvous, e2eKeys := map[], map[], map[];
    }

    // ── Origin side ───────────────────────────────────────────────────

    method StartCircuit(d: Dh, guardPeer: PeerId, guardId: Key32, guardB: Key32, xPriv: Key32, now: Instant)
      returns (r: (CircuitId, Cell))
      requires Valid()
      modifies this
      ensures Valid() && (View(), r) == MgrStart(d, old(View()), guardPeer, guardId, guardB, xPriv, now)
    {
      var cid := nextOriginId;
      nextOriginId := (nextOriginId + 1) % U32_LIMIT;
      var c := new OriginCircuit(cid, guardPeer, now);
      var (hs, msg) := ClientHandshakeStart(d, guardId, guardB, xPriv);
      c.pending := Some(hs);
      origins := origins[cid := c];
      assert Circuits() == old(Circuits())[cid := c.View()];
      r := (cid, CellWithPayload(cid, Create, msg));
    }

    method HandleCreated(d: Dh, l: Labels, cid: CircuitId, reply: ServerMsg) returns (r: Result<(), CircuitError>)
      requires Valid()
      modifies if cid in origins then {origins[cid]} else {}
      ensures Valid()
      ensures cid !in old(origins) ==> View() == old(View()) && r == Err(UnknownCircuit)
      ensures cid in old(origins) ==>
        var (o, r') := OriginCreated(d, l, old(View()).origins[cid], reply);
        View() == old(View()).(origins := old(View()).origins[cid := o]) && r == r'
    {
      if cid !in origins {
        return Err(UnknownCircuit);
      }
      r := origins[cid].Created(d, l, reply);
    }

    method ExtendCircuit(s: Suite, d: Dh, net: Dotted, cid: CircuitId, next: LinkSpec, xPriv: Key32, now: Instant)
      returns (r: Result<Cell, CircuitError>)
      requires Valid()
      modifies if cid in origins then {origins[cid]} else {}
      ensures Valid()
      ensures cid !in old(origins) ==> View() == old(View()) && r == Err(UnknownCircuit)
      ensures cid in old(origins) ==>
        var (o, r') := OriginExtend(s, d, net, old(View()).origins[cid], next, xPriv, now);
        View() == old(View()).(origins := old(View()).origins[cid := o]) && r == r'
    {
      if cid !in origins {
        return Err(UnknownCircuit);
      }
      r := origins[cid].Extend(s, d, net, next, xPriv, now);
    }

    method HandleOriginRelay(s: Suite, d: Dh, l: Labels, cid: CircuitId, payload: Payload, now: Instant)
      returns (r: Result<Option<(Source, RelayCell)>, CircuitError>)
      requires Valid()
      modifies if cid in origins then {origins[cid]} else {}
      ensures Valid()
      ensures cid !in old(origins) ==> View() == old(View()) && r == Err(UnknownCircuit)
      ensures cid in old(origins) ==>
        var (o, r') := OriginRelay(s, d, l, old(View()).origins[cid], payload, now);
        View() == old(View()).(origins := old(View()).origins[cid := o]) && r == r'
    {
      if cid !in origins {
        return Err(UnknownCircuit);
      }
      r := origins[cid].Inbound(s, d, l, payload, now);
    }

    // ── Relay side ────────────────────────────────────────────────────

    method HandleCreate(d: Dh, l: Labels, from: Leg, myId: Key32, bPub: Key32, bSecret: Key32, msg: ClientMsg,
                        yPriv: Key32, now: Instant) returns (r: Result<Cell, CircuitError>)
      requires Valid()
      modifies this`relays
      ensures Valid() && (View(), r) == MgrCreate(d, l, old(View()), from, myId, bPub, bSecret, msg, yPriv, now)
    {
      var made := RelayCreated(d, l, from, myId, bPub, bSecret, msg, yPriv, now);
      if made.Err? {
        return Err(made.error);
      }
      var (rc, cell) := made.value;
      relays := relays[from := rc];
      return Ok(cell);
    }

    method HandleForwardRelay(s: Suite, from: Leg, cell: Cell, now: Instant) returns (r: RelayAction)
      requires Valid()
      modifies this`relays
      ensures Valid() && (View(), r) == MgrForward(s, old(View()), from, cell, now)
    {
      hide FromPayload, Blank, Layer;
      if from !in relays {
        return RelayAction.Drop;
      }
      var rc := relays[from];
      var (hop, payload) := OnionForward(s, rc.hop, cell.payload);
      rc := rc.(hop := hop, lastActivity := now);
      var relay := FromPayload(payload);
      if relay.Some? && IsRecognizedAt(s, relay.value, payload, hop.forward.digest) {
        var digest' := hop.forward.digest + Blank(payload);
        rc := rc.(hop := hop.(forward := hop.forward.(digest := digest')));
        relays := relays[from := rc];
        return Handle(relay.value);
      }
      relays := relays[from := rc];
      if rc.nextPeer.Some? && rc.nextCircId.Some? {
        return Forward(rc.nextPeer.value, Cell(rc.nextCircId.value, cell.command, payload));
      }
      if from in rendezvousBridges && rendezvousBridges[from] in relays {
        var partner := rendezvousBridges[from];
        var prc := relays[partner];
        var (hop', payload') := OnionBackward(s, prc.hop, payload);
        relays := relays[partner := prc.(hop := hop', lastActivity := now)];
        return Forward(prc.prevPeer, Cell(prc.prevCircId, cell.command, payload'));
      }
      return RelayAction.Drop;
    }

    method BeginExtend(net: Dotted, from: Leg, next: Leg, data: bytes) returns (r: Result<Cell, CircuitError>)
      requires Valid()
      modifies this`relays, this`relayByNext
      ensures Valid() && (View(), r) == MgrExtend(net, old(View()), from, next, data)
    {
      if from !in relays {
        return Err(UnknownCircuit);
      }
      var rc := relays[from];
      if rc.nextPeer.Some? {
        return Err(AlreadyExtended);
      }
      var parsed := ParseExtend2(net, data);
      if parsed.Err? {
        return Err(BadExtend);
      }
      var msg := parsed.value.1;
      if |msg| != CLIENT_HANDSHAKE_LEN {
        return Err(BadExtend);
      }
      relays := relays[from := rc.(nextPeer := Some(next.peer), nextCircId := Some(next.circ), awaitingExtended := true)];
      relayByNext := relayByNext[next := from];
      return Ok(CellWithPayload(next.circ, Create, msg));
    }

    method HandleCreatedFromNext(s: Suite, next: Leg, reply: ServerMsg) returns (r: Result<(PeerId, Cell), CircuitError>)
      requires Valid()
      modifies this`relays
      ensures Valid() && (View(), r) == MgrCreatedFromNext(s, old(View()), next, reply)
    {
      if next !in relayByNext || relayByNext[next] !in relays {
        return Err(UnknownCircuit);
      }
      var key := relayByNext[next];
      var rc := relays[key];
      if !rc.awaitingExtended {
        return Err(NotExpected);
      }
      var relay := RelayCell(Extended2, 0, 0, 0, BuildExtended2(reply));
      var (relay', digest') := StampDigest(s, relay, rc.hop.backward.digest);
      var stamped := rc.hop.(backward := rc.hop.backward.(digest := digest'));
      var (hop, payload) := OnionBackward(s, stamped, ToPayload(relay'));
      relays := relays[key := rc.(awaitingExtended := false, hop := hop)];
      return Ok((rc.prevPeer, Cell(rc.prevCircId, CellCommand.Relay, payload)));
    }

    method HandleBackwardRelay(s: Suite, next: Leg, cell: Cell) returns (r: Option<(PeerId, Cell)>)
      requires Valid()
      modifies this`relays
      ensures Valid() && (View(), r) == MgrBackward(s, old(View()), next, cell)
    {
      if next !in relayByNext || relayByNext[next] !in relays {
        return None;
      }
      var key := relayByNext[next];
      var rc := relays[key];
      var (hop, payload) := OnionBackward(s, rc.hop, cell.payload);
      relays := relays[key := rc.(hop := hop)];
      return Some((rc.prevPeer, Cell(rc.prevCircId, cell.command, payload)));
    }

    method Destroy(leg: Leg)
      requires Valid()
      modifies this
      ensures Valid() && View() == MgrDestroy(old(View()), leg)
    {
      hide Dropping, NextLegs, Unbridge, Circuits;
      RemoveRelay(leg);
      var _ := UnbridgeRendezvous(leg);
      RemoveOrigin(leg.circ);
      introRegistered := introRegistered - {leg};
    }

    /** Drop a relay circuit and the entry its onward leg has in `relayByNext`. */
    method RemoveRelay(leg: Leg)
      modifies this`relays, this`relayByNext
      ensures relays == old(relays) - {leg}
      ensures relayByNext == old(relayByNext) - NextLegs(old(relays), {leg})
    {
      if leg in relays {
        var next := relays[leg].Next();
        relays := relays - {leg};
        if next.Some? {
          relayByNext := relayByNext - {next.value};
        }
      }
    }

    /** Drop an origin circuit with its introduction points and end-to-end keys. */
    method RemoveOrigin(cid: CircuitId)
      requires Valid()
      modifies this`origins, this`introCircuits, this`e2eKeys
      ensures Valid() && origins == old(origins) - {cid} && Circuits() == old(Circuits()) - {cid}
      ensures introCircuits == Dropping(old(introCircuits), {cid})
      ensures e2eKeys == old(e2eKeys) - {cid}
    {
      origins := origins - {cid};
      introCircuits := map k | k in introCircuits && introCircuits[k] != cid :: introCircuits[k];
      e2eKeys := e2eKeys - {cid};
    }

    /** Drop the rendezvous waiting on an origin circuit. */
    method RemovePending(cid: CircuitId)
      modifies this`pendingRendezvous
      ensures pendingRendezvous == DroppingPending(old(pendingRendezvous), {cid})
    {
      pendingRendezvous := map k | k in pendingRendezvous && pendingRendezvous[k].circ != cid :: pendingRendezvous[k];
    }

    /** Drop the introduction registration and the cookies of a relay circuit. */
    method RemoveRegistrations(leg: Leg)
      modifies this`introRegistered, this`rendezvousCookies
      ensures introRegistered == old(introRegistered) - {leg}
      ensures rendezvousCookies == Dropping(old(rendezvousCookies), {leg})
    {
      introRegistered := map k | k in introRegistered && k != leg :: introRegistered[k];
      rendezvousCookies := map k | k in rendezvousCookies && rendezvousCookies[k] != leg :: rendezvousCookies[k];
    }

    // ── Rendezvous ────────────────────────────────────────────────────

    method RegisterRendezvousCookie(cookie: Cookie, client: Leg)
      requires Valid()
      modifies this`rendezvousCookies
      ensures Valid() && View() == old(View()).(rendezvousCookies := old(rendezvousCookies)[cookie := client])
    {
      rendezvousCookies := rendezvousCookies[cookie := client];
    }

    method RegisterPendingRendezvous(cookie: Cookie, pending: PendingRendezvous)
      requires Valid()
      modifies this`pendingRendezvous
      ensures Valid() && View() == old(View()).(pendingRendezvous := old(pendingRendezvous)[cookie := pending])
    {
      pendingRendezvous := pendingRendezvous[cookie := pending];
    }

    method ConsumeRendezvousCookie(cookie: Cookie) returns (r: Option<Leg>)
      requires Valid()
      modifies this`rendezvousCookies
      ensures Valid() && View() == old(View()).(rendezvousCookies := old(rendezvousCookies) - {cookie})
      ensures r == if cookie in old(rendezvousCookies) then Some(old(rendezvousCookies)[cookie]) else None
    {
      r := if cookie in rendezvousCookies then Some(rendezvousCookies[cookie]) else None;
      rendezvousCookies := rendezvousCookies - {cookie};
    }

    method BridgeRendezvous(client: Leg, hs: Leg)
      requires Valid()
      modifies this`rendezvousBridges
      ensures Valid() && View() == old(View()).(rendezvousBridges := Bridge(old(rendezvousBridges), client, hs))
    {
      rendezvousBridges := rendezvousBridges[client := hs];
      rendezvousBridges := rendezvousBridges[hs := client];
    }

    method UnbridgeRendezvous(leg: Leg) returns (r: Option<Leg>)
      requires Valid()
      modifies this`rendezvousBridges
      ensures Valid() && View() == old(View()).(rendezvousBridges := Unbridge(old(rendezvousBridges), leg))
      ensures r == if leg in old(rendezvousBridges) then Some(old(rendezvousBridges)[leg]) else None
    {
      if leg in rendezvousBridges {
        var partner := rendezvousBridges[leg];
        rendezvousBridges := rendezvousBridges - {leg};
        rendezvousBridges := rendezvousBridges - {partner};
        assert rendezvousBridges == Unbridge(old(rendezvousBridges), leg);
        return Some(partner);
      }
      return None;
    }

    method CompleteRendezvous(d: Dh, l: Labels, cookie: Cookie, y: Key32, auth: Key32)
      returns (r: Result<CircuitId, CircuitError>)
      requires Valid()
      modifies this, origins.Values
      ensures Valid() && (View(), r) == MgrCompleteRendezvous(d, l, old(View()), cookie, y, auth)
    {
      if cookie !in pendingRendezvous {
        return Err(NoCookie);
      }
      var p := pendingRendezvous[cookie];
      pendingRendezvous := pendingRendezvous - {cookie};
      var keys := ClientFinalize(d, l, p.clientSk, p.clientXPub, p.hsStaticPub, y, auth);
      if keys.Err? {
        return Err(AuthFailed);
      }
      InstallLayer(p.circ, HopFromE2E(keys.value, true));
      e2eKeys := e2eKeys[p.circ := keys.value];
      return Ok(p.circ);
    }

    method InstallLayer(cid: CircuitId, layer: HopState)
      requires Valid()
      modifies origins.Values
      ensures Circuits() ==
        if cid in origins then old(Circuits())[cid := old(Circuits())[cid].(e2e := Some(layer))] else old(Circuits())
    {
      if cid in origins {
        origins[cid].e2e := Some(layer);
        assert forall c :: c in origins && c != cid ==> origins[c].View() == old(origins[c].View());
      }
    }

    // ── The idle sweep ────────────────────────────────────────────────

    /** The tables are walked in hash order, so the circuits go in some order nobody chose. All but the
        bridges end the same whatever that order was. */
    method EvictIdleCircuits(now: Instant) returns (deadO: nat, deadR: nat, ghost order: seq<Leg>)
      requires Valid()
      modifies this
      ensures Valid()
      ensures var m := old(View());
              var os, rs := DeadOrigins(m, now), DeadRelays(m, now);
              && deadO == |os| && deadR == |rs|
              && (forall k :: k in order <==> k in rs)
              && View() == Swept(m, os, rs, UnbridgeAll(m.rendezvousBridges, order))
    {
      ghost var m := View();
      deadO := EvictOrigins(m, now);
      deadR, order := EvictRelays(m, DeadOrigins(m, now), now);
    }

    /** The sweep's first loop. */
    method EvictOrigins(ghost m: Mgr, now: Instant) returns (count: nat)
      requires Valid() && View() == m
      modifies this
      ensures Valid()
      ensures View() == Swept(m, DeadOrigins(m, now), {}, m.rendezvousBridges)
      ensures count == |DeadOrigins(m, now)|
    {
      var dead := set c | c in origins && IsIdle(origins[c].lastActivity, now);
      assert dead == DeadOrigins(m, now);
      var todo := dead;
      SweptNothing(m);
      assert dead - todo == {};
      while todo != {}
        invariant todo <= dead && Valid()
        invariant View() == Swept(m, dead - todo, {}, m.rendezvousBridges)
      {
        var cid :| cid in todo;
        ghost var done := dead - todo;
        todo := todo - {cid};
        EvictOrigin(m, done, cid);
        assert dead - todo == done + {cid};
      }
      assert dead - todo == dead;
      count := |dead|;
    }

    /** The body of the sweep's first loop. */
    method EvictOrigin(ghost m: Mgr, ghost done: set<CircuitId>, cid: CircuitId)
      requires Valid() && View() == Swept(m, done, {}, m.rendezvousBridges)
      modifies this
      ensures Valid() && View() == Swept(m, done + {cid}, {}, m.rendezvousBridges)
    {
      hide Swept, Dropping, DroppingPending, Circuits;
      ghost var before := View();
      RemoveOrigin(cid);
      RemovePending(cid);
      SweptOrigin(m, done, cid, before, View());
    }

    /** The sweep's second loop. */
    method EvictRelays(ghost m: Mgr, ghost deadOrigins: set<CircuitId>, now: Instant)
      returns (count: nat, ghost order: seq<Leg>)
      requires Valid() && View() == Swept(m, deadOrigins, {}, m.rendezvousBridges)
      modifies this
      ensures Valid()
      ensures forall k :: k in order <==> k in DeadRelays(m, now)
      ensures View() == Swept(m, deadOrigins, DeadRelays(m, now), UnbridgeAll(m.rendezvousBridges, order))
      ensures count == |DeadRelays(m, now)|
    {
      assert relays == m.relays;
      var dead := set k | k in relays && IsIdle(relays[k].lastActivity, now);
      assert dead == DeadRelays(m, now);
      order := [];
      var rest := dead;
      assert dead - rest == {};
      while rest != {}
        invariant rest <= dead && Valid()
        invariant forall k :: k in order <==> k in dead - rest
        invariant View() == Swept(m, deadOrigins, dead - rest, UnbridgeAll(m.rendezvousBridges, order))
      {
        var key :| key in rest;
        ghost var done := dead - rest;
        rest := rest - {key};
        EvictRelay(m, deadOrigins, done, order, key);
        order := order + [key];
        assert dead - rest == done + {key};
      }
      assert dead - rest == dead;
      count := |dead|;
    }

    /** The body of the sweep's second loop. */
    method EvictRelay(ghost m: Mgr, ghost deadOrigins: set<CircuitId>, ghost done: set<Leg>, ghost order: seq<Leg>, key: Leg)
      requires Valid() && key in m.relays && key !in done
      requires View() == Swept(m, deadOrigins, done, UnbridgeAll(m.rendezvousBridges, order))
      modifies this
      ensures Valid()
      ensures View() == Swept(m, deadOrigins, done + {key}, UnbridgeAll(m.rendezvousBridges, order + [key]))
    {
      hide Swept, Dropping, NextLegs, Unbridge, UnbridgeAll, Circuits;
      ghost var before := View();
      assert rendezvousBridges == UnbridgeAll(m.rendezvousBridges, order) by {
        SweptBridges(m, deadOrigins, done, UnbridgeAll(m.rendezvousBridges, order));
      }
      RemoveRelay(key);
      RemoveRegistrations(key);
      var _ := UnbridgeRendezvous(key);
      UnbridgeAllSnoc(m.rendezvousBridges, order, key);
      SweptRelay(m, deadOrigins, done, UnbridgeAll(m.rendezvousBridges, order), key, before, View());
    }
  }

  lemma SweptBridges(m: Mgr, os: set<CircuitId>, rs: set<Leg>, bridges: map<Leg, Leg>)
    ensures Swept(m, os, rs, bridges).rendezvousBridges == bridges
  {
  }

  lemma UnbridgeAllSnoc(bridges: map<Leg, Leg>, order: seq<Leg>, key: Leg)
    ensures UnbridgeAll(bridges, order + [key]) == Unbridge(UnbridgeAll(bridges, order), key)
  {
    assert (order + [key])[..|order|] == order;
  }

  lemma SweptNothing(m: Mgr)
    ensures Swept(m, {}, {}, m.rendezvousBridges) == m
  {
  }

  /** One more origin swept out. */
  lemma SweptOrigin(m: Mgr, done: set<CircuitId>, cid: CircuitId, a: Mgr, b: Mgr)
    requires a == Swept(m, done, {}, m.rendezvousBridges)
    requires b == a.(
      origins := a.origins - {cid}, introCircuits := Dropping(a.introCircuits, {cid}),
      pendingRendezvous := DroppingPending(a.pendingRendezvous, {cid}), e2eKeys := a.e2eKeys - {cid})
    ensures b == Swept(m, done + {cid}, {}, m.rendezvousBridges)
  {
    MinusMore(m.origins, done, {cid});
    MinusMore(m.e2eKeys, done, {cid});
    DroppingMore(m.introCircuits, done, cid);
    DroppingPendingMore(m.pendingRendezvous, done, cid);
  }

  /** One more relay swept out. */
  lemma SweptRelay(m: Mgr, os: set<CircuitId>, done: set<Leg>, bridges: map<Leg, Leg>, key: Leg, a: Mgr, b: Mgr)
    requires key in m.relays && key !in done
    requires a == Swept(m, os, done, bridges)
    requires b == a.(
      relays := a.relays - {key}, relayByNext := a.relayByNext - NextLegs(a.relays, {key}),
      introRegistered := a.introRegistered - {key}, rendezvousCookies := Dropping(a.rendezvousCookies, {key}),
      rendezvousBridges := Unbridge(bridges, key))
    ensures b == Swept(m, os, done + {key}, Unbridge(bridges, key))
  {
    NextLegsMore(m.relays, done, key);
    MinusMore(m.relays, done, {key});
    MinusMore(m.relayByNext, NextLegs(m.relays, done), NextLegs(m.relays - done, {key}));
    MinusMore(m.introRegistered, done, {key});
    DroppingMore(m.rendezvousCookies, done, key);
  }

  lemma NextLegsMore(relays: map<Leg, RelayCircuit>, done: set<Leg>, key: Leg)
    requires key in relays && key !in done
    ensures NextLegs(relays, done + {key}) == NextLegs(relays, done) + NextLegs(relays - done, {key})
  {
  }
}

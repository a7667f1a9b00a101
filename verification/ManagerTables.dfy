/** The cross-linked tables of `CircuitManager` (`phinet-core/src/circuit_mgr.rs`): when each operation
    keeps them consistent, and what the idle sweep removes. */
module ManagerTables {
  import opened Wrappers
  import opened Bytes
  import opened Circuit
  import opened Ntor
  import opened ExtendCodec
  import opened CircuitState

  // ── Consistency ─────────────────────────────────────────────────────

  /** The onward leg of every relay circuit leads back to it through `relay_by_next`, and the table
      holds nothing else. */
  ghost predicate NextsInverse(relays: map<Leg, RelayCircuit>, byNext: map<Leg, Leg>) {
    && (forall k :: k in relays ==> relays[k].nextPeer.Some? == relays[k].nextCircId.Some?)
    && (forall k :: k in relays && relays[k].Next().Some? ==>
      relays[k].Next().value in byNext && byNext[relays[k].Next().value] == k)
    && (forall next :: next in byNext ==>
      byNext[next] in relays && relays[byNext[next]].Next() == Some(next))
  }

  /** Bridged legs come in pairs. */
  ghost predicate Involution(bridges: map<Leg, Leg>) {
    forall a :: a in bridges ==> bridges[a] in bridges && bridges[bridges[a]] == a
  }

  ghost predicate Consistent(m: Mgr) {
    NextsInverse(m.relays, m.relayByNext) && Involution(m.rendezvousBridges)
  }

  // ── Every operation of the manager ──────────────────────────────────

  /** What the operations take from outside: the primitives and this node's identity. */
  datatype Env = Env(s: Suite, d: Dh, l: Labels, net: Dotted, myId: Key32, bPub: Key32, bSecret: Key32)

  datatype Op =
    | StartCircuit(guardPeer: PeerId, guardId: Key32, guardB: Key32, xPriv: Key32, now: Instant)
    | HandleCreated(cid: CircuitId, reply: ServerMsg)
    | ExtendCircuit(cid: CircuitId, spec: LinkSpec, xPriv: Key32, now: Instant)
    | HandleOriginRelay(cid: CircuitId, payload: Payload, now: Instant)
    | HandleCreate(from: Leg, msg: ClientMsg, yPriv: Key32, now: Instant)
    | HandleForwardRelay(from: Leg, cell: Cell, now: Instant)
    | BeginExtend(from: Leg, next: Leg, data: bytes)
    | HandleCreatedFromNext(next: Leg, reply: ServerMsg)
    | HandleBackwardRelay(next: Leg, cell: Cell)
    | DestroyLeg(from: Leg)
    | RegisterCookie(cookie: Cookie, from: Leg)
    | ConsumeCookie(cookie: Cookie)
    | RegisterPending(cookie: Cookie, pending: PendingRendezvous)
    | BridgeLegs(client: Leg, hs: Leg)
    | UnbridgeLeg(from: Leg)
    | CompleteRendezvous(cookie: Cookie, y: Key32, auth: Key32)
    | EvictIdle(now: Instant, order: seq<Leg>)

  function Apply(e: Env, m: Mgr, op: Op): Mgr {
    match op
    case StartCircuit(guardPeer, guardId, guardB, xPriv, now) => MgrStart(e.d, m, guardPeer, guardId, guardB, xPriv, now).0
    case HandleCreated(cid, reply) =>
      if cid !in m.origins then m
      else m.(origins := m.origins[cid := OriginCreated(e.d, e.l, m.origins[cid], reply).0])
    case ExtendCircuit(cid, spec, xPriv, now) =>
      if cid !in m.origins then m
      else m.(origins := m.origins[cid := OriginExtend(e.s, e.d, e.net, m.origins[cid], spec, xPriv, now).0])
    case HandleOriginRelay(cid, payload, now) =>
      if cid !in m.origins then m
      else m.(origins := m.origins[cid := OriginRelay(e.s, e.d, e.l, m.origins[cid], payload, now).0])
    case HandleCreate(from, msg, yPriv, now) => MgrCreate(e.d, e.l, m, from, e.myId, e.bPub, e.bSecret, msg, yPriv, now).0
    case HandleForwardRelay(from, cell, now) => MgrForward(e.s, m, from, cell, now).0
    case BeginExtend(from, next, data) => MgrExtend(e.net, m, from, next, data).0
    case HandleCreatedFromNext(next, reply) => MgrCreatedFromNext(e.s, m, next, reply).0
    case HandleBackwardRelay(next, cell) => MgrBackward(e.s, m, next, cell).0
    case DestroyLeg(from) => MgrDestroy(m, from)
    case RegisterCookie(cookie, from) => m.(rendezvousCookies := m.rendezvousCookies[cookie := from])
    case ConsumeCookie(cookie) => m.(rendezvousCookies := m.rendezvousCookies - {cookie})
    case RegisterPending(cookie, pending) => m.(pendingRendezvous := m.pendingRendezvous[cookie := pending])
    case BridgeLegs(client, hs) => m.(rendezvousBridges := Bridge(m.rendezvousBridges, client, hs))
    case UnbridgeLeg(from) => m.(rendezvousBridges := Unbridge(m.rendezvousBridges, from))
    case CompleteRendezvous(cookie, y, auth) => MgrCompleteRendezvous(e.d, e.l, m, cookie, y, auth).0
    case EvictIdle(now, order) => Evict(m, now, order)
  }

  /** `evict_idle_circuits`, `order` being the order in which it happens to meet the dead relay circuits. */
  function Evict(m: Mgr, now: Instant, order: seq<Leg>): Mgr {
    Swept(m, DeadOrigins(m, now), DeadRelays(m, now), UnbridgeAll(m.rendezvousBridges, order))
  }

  /** No third leg is left pointing at one of the two. */
  predicate MayBridge(bridges: map<Leg, Leg>, a: Leg, b: Leg) {
    && (a in bridges ==> bridges[a] == a || bridges[a] == b)
    && (b in bridges ==> bridges[b] == a || bridges[b] == b)
  }

  /** What callers must see to: circuit ids are fresh when a CREATE is accepted or sent, and only
      unpaired or already mutually paired legs are bridged. Every other call is always safe. */
  predicate Careful(e: Env, m: Mgr, op: Op) {
    match op
    case HandleCreate(from, msg, yPriv, now) =>
      var accepted := MgrCreate(e.d, e.l, m, from, e.myId, e.bPub, e.bSecret, msg, yPriv, now).1.Ok?;
      accepted && from in m.relays ==> m.relays[from].Next().None?
    case BeginExtend(from, next, data) =>
      MgrExtend(e.net, m, from, next, data).1.Ok? ==> next !in m.relayByNext
    case BridgeLegs(client, hs) => MayBridge(m.rendezvousBridges, client, hs)
    case _ => true
  }

  // ── Links ───────────────────────────────────────────────────────────

  /** A relay circuit may be replaced by one with the same onward leg. */
  lemma SameNext(relays: map<Leg, RelayCircuit>, byNext: map<Leg, Leg>, k: Leg, r: RelayCircuit)
    requires NextsInverse(relays, byNext) && k in relays
    requires r.nextPeer == relays[k].nextPeer && r.nextCircId == relays[k].nextCircId
    ensures NextsInverse(relays[k := r], byNext)
  {
    assert r.Next() == relays[k].Next();
  }

  lemma ForwardKeepsNexts(e: Env, m: Mgr, from: Leg, cell: Cell, now: Instant)
    requires NextsInverse(m.relays, m.relayByNext)
    ensures var m' := MgrForward(e.s, m, from, cell, now).0;
            && NextsInverse(m'.relays, m'.relayByNext)
            && m' == m.(relays := m'.relays)
  {
    hide RecognizedPayload, FromPayload, Blank, Layer, NextsInverse;
    if from in m.relays {
      var r := RelayPeel(e.s, m.relays[from], cell.payload, now).0;
      SameNext(m.relays, m.relayByNext, from, r);
      var relays1 := m.relays[from := r];
      var m' := MgrForward(e.s, m, from, cell, now).0;
      if m'.relays != relays1 {
        var partner := m.rendezvousBridges[from];
        SameNext(relays1, m.relayByNext, partner, m'.relays[partner]);
      }
    } else {
      assert m.(relays := m.relays) == m;
    }
  }

  lemma CreatedFromNextKeepsNexts(e: Env, m: Mgr, next: Leg, reply: ServerMsg)
    requires NextsInverse(m.relays, m.relayByNext)
    ensures var m' := MgrCreatedFromNext(e.s, m, next, reply).0;
            && NextsInverse(m'.relays, m'.relayByNext)
            && m'.rendezvousBridges == m.rendezvousBridges
  {
    hide ToPayload, StampDigest, Layer, NextsInverse, BuildExtended2;
    if next in m.relayByNext && m.relayByNext[next] in m.relays {
      var k := m.relayByNext[next];
      match RelayExtended(e.s, m.relays[k], reply)
      case Err(_) =>
      case Ok((r, _)) => SameNext(m.relays, m.relayByNext, k, r);
    }
  }

  lemma BackwardKeepsNexts(e: Env, m: Mgr, next: Leg, cell: Cell)
    requires NextsInverse(m.relays, m.relayByNext)
    ensures var m' := MgrBackward(e.s, m, next, cell).0;
            && NextsInverse(m'.relays, m'.relayByNext)
            && m'.rendezvousBridges == m.rendezvousBridges
  {
    hide Layer, NextsInverse;
    if next in m.relayByNext && m.relayByNext[next] in m.relays {
      var k := m.relayByNext[next];
      SameNext(m.relays, m.relayByNext, k, RelayBackward(e.s, m.relays[k], cell.payload).0);
    }
  }

  /** `handle_create` overwrites: a key already in use and already extended leaves a stale entry. */
  lemma CreateKeepsNexts(relays: map<Leg, RelayCircuit>, byNext: map<Leg, Leg>, from: Leg, r: RelayCircuit)
    requires NextsInverse(relays, byNext) && r.nextPeer.None? && r.nextCircId.None?
    ensures NextsInverse(relays[from := r], byNext) <==> from !in relays || relays[from].Next().None?
  {
    var relays' := relays[from := r];
    if from in relays && relays[from].Next().Some? {
      var next := relays[from].Next().value;
      assert byNext[next] == from && relays'[from].Next() != Some(next);
    }
  }

  /** `begin_extend` overwrites: an onward leg already in use is stolen from its owner. */
  lemma ExtendKeepsNexts(relays: map<Leg, RelayCircuit>, byNext: map<Leg, Leg>, from: Leg, next: Leg, r: RelayCircuit)
    requires NextsInverse(relays, byNext) && from in relays && relays[from].nextPeer.None?
    requires r.nextPeer == Some(next.peer) && r.nextCircId == Some(next.circ)
    ensures NextsInverse(relays[from := r], byNext[next := from]) <==> next !in byNext
  {
    var relays', byNext' := relays[from := r], byNext[next := from];
    assert relays[from].Next().None? && r.Next() == Some(next);
    if next in byNext {
      var owner := byNext[next];
      assert owner != from && relays'[owner].Next() == Some(next) && byNext'[next] != owner;
    } else {
      forall k | k in relays' && relays'[k].Next().Some?
        ensures relays'[k].Next().value in byNext' && byNext'[relays'[k].Next().value] == k
      {
        if k != from {
          assert relays[k].Next().value in byNext;
        }
      }
      forall n | n in byNext'
        ensures byNext'[n] in relays' && relays'[byNext'[n]].Next() == Some(n)
      {
        if n != next {
          assert byNext[n] != from;
        }
      }
    }
  }

  /** Removing relay circuits with the entries of their onward legs. */
  lemma RemovalKeepsNexts(relays: map<Leg, RelayCircuit>, byNext: map<Leg, Leg>, dead: set<Leg>)
    requires NextsInverse(relays, byNext)
    ensures NextsInverse(relays - dead, byNext - NextLegs(relays, dead))
    ensures byNext - NextLegs(relays, dead) == Dropping(byNext, dead)
  {
    var byNext' := byNext - NextLegs(relays, dead);
    forall n | n in byNext
      ensures n in NextLegs(relays, dead) <==> byNext[n] in dead
    {
      if n in NextLegs(relays, dead) {
        var k :| k in dead && k in relays && relays[k].Next() == Some(n);
      }
    }
    forall k | k in relays - dead && (relays - dead)[k].Next().Some?
      ensures relays[k].Next().value in byNext' && byNext'[relays[k].Next().value] == k
    {
      assert byNext[relays[k].Next().value] == k;
    }
  }

  // ── Bridges ─────────────────────────────────────────────────────────

  /** `bridge_rendezvous` overwrites without clearing a previous partner. */
  lemma BridgeKeepsInvolution(bridges: map<Leg, Leg>, a: Leg, b: Leg)
    requires Involution(bridges)
    ensures Involution(Bridge(bridges, a, b)) <==> MayBridge(bridges, a, b)
  {
    var bridges' := Bridge(bridges, a, b);
    if MayBridge(bridges, a, b) {
      forall k | k in bridges'
        ensures bridges'[k] in bridges' && bridges'[bridges'[k]] == k
      {
        if k != a && k != b {
          assert bridges[bridges[k]] == k;
        }
      }
    } else if a in bridges && bridges[a] != a && bridges[a] != b {
      assert bridges'[bridges[a]] == a && bridges'[a] != bridges[a];
    } else {
      assert bridges'[bridges[b]] == b && bridges'[b] != bridges[b];
    }
  }

  lemma UnbridgeKeepsInvolution(bridges: map<Leg, Leg>, leg: Leg)
    requires Involution(bridges)
    ensures Involution(Unbridge(bridges, leg))
    ensures Unbridge(bridges, leg) == Without(bridges, {leg})
  {
  }

  /** A table of pairs without those that have a dead member. */
  function Without(bridges: map<Leg, Leg>, dead: set<Leg>): map<Leg, Leg> {
    map k | k in bridges && k !in dead && bridges[k] !in dead :: bridges[k]
  }

  lemma WithoutMore(bridges: map<Leg, Leg>, dead: set<Leg>, leg: Leg)
    requires Involution(bridges)
    ensures Involution(Without(bridges, dead))
    ensures Unbridge(Without(bridges, dead), leg) == Without(bridges, dead + {leg})
  {
    var some := Without(bridges, dead);
    forall k | k in some
      ensures some[k] in some && some[some[k]] == k
    {
      assert bridges[bridges[k]] == k;
    }
  }

  function Elements(legs: seq<Leg>): set<Leg> {
    set k | k in legs
  }

  /** The order of the sweep does not show: exactly the pairs with a dead member go. */
  lemma {:induction false} UnbridgeAllMeaning(bridges: map<Leg, Leg>, order: seq<Leg>)
    requires Involution(bridges)
    ensures UnbridgeAll(bridges, order) == Without(bridges, Elements(order))
    ensures Involution(UnbridgeAll(bridges, order))
    decreases |order|
  {
    if order == [] {
      assert Without(bridges, {}) == bridges;
    } else {
      var init, last := order[..|order| - 1], order[|order| - 1];
      UnbridgeAllMeaning(bridges, init);
      WithoutMore(bridges, Elements(init), last);
      assert order == init + [last];
      assert Elements(order) == Elements(init) + {last};
      WithoutMore(bridges, Elements(order), last);
    }
  }

  // ── All operations ──────────────────────────────────────────────────

  lemma ExtendKeeps(e: Env, m: Mgr, from: Leg, next: Leg, data: bytes)
    requires NextsInverse(m.relays, m.relayByNext)
    ensures var (m', r) := MgrExtend(e.net, m, from, next, data);
            && m'.rendezvousBridges == m.rendezvousBridges
            && (NextsInverse(m'.relays, m'.relayByNext) <==> (r.Ok? ==> next !in m.relayByNext))
  {
    hide Extend2Of, NextsInverse;
    if from in m.relays {
      match RelayExtend(e.net, m.relays[from], next, data)
      case Err(_) =>
      case Ok((r, _)) => ExtendKeepsNexts(m.relays, m.relayByNext, from, next, r);
    }
  }

  lemma CreateKeeps(e: Env, m: Mgr, from: Leg, msg: ClientMsg, yPriv: Key32, now: Instant)
    requires NextsInverse(m.relays, m.relayByNext)
    ensures var (m', r) := MgrCreate(e.d, e.l, m, from, e.myId, e.bPub, e.bSecret, msg, yPriv, now);
            && m'.rendezvousBridges == m.rendezvousBridges
            && (NextsInverse(m'.relays, m'.relayByNext) <==>
              (r.Ok? ==> from !in m.relays || m.relays[from].Next().None?))
  {
    hide ServerHandshake, NextsInverse, HopFromNtor;
    match RelayCreated(e.d, e.l, from, e.myId, e.bPub, e.bSecret, msg, yPriv, now)
    case Err(_) =>
    case Ok((r, _)) => CreateKeepsNexts(m.relays, m.relayByNext, from, r);
  }

  lemma SweepKeeps(m: Mgr, now: Instant, order: seq<Leg>)
    requires Consistent(m)
    ensures Consistent(Evict(m, now, order))
  {
    hide NextsInverse, Involution;
    RemovalKeepsNexts(m.relays, m.relayByNext, DeadRelays(m, now));
    UnbridgeAllMeaning(m.rendezvousBridges, order);
  }

  lemma DestroyKeeps(m: Mgr, leg: Leg)
    requires Consistent(m)
    ensures Consistent(MgrDestroy(m, leg))
  {
    hide NextsInverse, Involution, Unbridge;
    RemovalKeepsNexts(m.relays, m.relayByNext, {leg});
    UnbridgeKeepsInvolution(m.rendezvousBridges, leg);
  }

  lemma StartKeeps(e: Env, m: Mgr, guardPeer: PeerId, guardId: Key32, guardB: Key32, xPriv: Key32, now: Instant)
    requires Consistent(m)
    ensures Consistent(MgrStart(e.d, m, guardPeer, guardId, guardB, xPriv, now).0)
  {
    hide NextsInverse, Involution, ClientHandshakeStart;
  }

  lemma CompleteKeeps(e: Env, m: Mgr, cookie: Cookie, y: Key32, auth: Key32)
    requires Consistent(m)
    ensures Consistent(MgrCompleteRendezvous(e.d, e.l, m, cookie, y, auth).0)
  {
    hide NextsInverse, Involution, ClientFinalize;
  }

  /** From consistent tables, an operation leads to consistent tables exactly when its caller was
      careful. */
  lemma OperationKeepsTables(e: Env, m: Mgr, op: Op)
    requires Consistent(m)
    ensures Consistent(Apply(e, m, op)) <==> Careful(e, m, op)
  {
    hide NextsInverse, Involution, OriginCreated, OriginExtend, OriginRelay, MgrStart, MgrCreate, MgrExtend, MgrForward,
         MgrBackward, MgrCreatedFromNext, MgrDestroy, MgrCompleteRendezvous, MayBridge, Evict, Bridge, Unbridge;
    match op
    case HandleCreate(from, msg, yPriv, now) => CreateKeeps(e, m, from, msg, yPriv, now);
    case HandleForwardRelay(from, cell, now) => ForwardKeepsNexts(e, m, from, cell, now);
    case BeginExtend(from, next, data) => ExtendKeeps(e, m, from, next, data);
    case HandleCreatedFromNext(next, reply) => CreatedFromNextKeepsNexts(e, m, next, reply);
    case HandleBackwardRelay(next, cell) => BackwardKeepsNexts(e, m, next, cell);
    case DestroyLeg(from) => DestroyKeeps(m, from);
    case StartCircuit(guardPeer, guardId, guardB, xPriv, now) => StartKeeps(e, m, guardPeer, guardId, guardB, xPriv, now);
    case CompleteRendezvous(cookie, y, auth) => CompleteKeeps(e, m, cookie, y, auth);
    case BridgeLegs(client, hs) => BridgeKeepsInvolution(m.rendezvousBridges, client, hs);
    case UnbridgeLeg(from) => UnbridgeKeepsInvolution(m.rendezvousBridges, from);
    case EvictIdle(now, order) => SweepKeeps(m, now, order);
    case _ =>
  }

  ghost predicate CarefulRun(e: Env, m: Mgr, ops: seq<Op>)
    decreases ops
  {
    ops == [] || (Careful(e, m, ops[0]) && CarefulRun(e, Apply(e, m, ops[0]), ops[1..]))
  }

  function ApplyAll(e: Env, m: Mgr, ops: seq<Op>): Mgr
    decreases ops
  {
    if ops == [] then m else ApplyAll(e, Apply(e, m, ops[0]), ops[1..])
  }

  lemma {:induction false} RunKeepsTables(e: Env, m: Mgr, ops: seq<Op>)
    requires Consistent(m) && CarefulRun(e, m, ops)
    ensures Consistent(ApplyAll(e, m, ops))
    decreases ops
  {
    hide Consistent, Apply, Careful;
    if ops != [] {
      OperationKeepsTables(e, m, ops[0]);
      RunKeepsTables(e, Apply(e, m, ops[0]), ops[1..]);
    }
  }

  /** Every run of careful operations from a new manager has consistent tables throughout. */
  lemma TablesStayConsistent(e: Env, ops: seq<Op>, k: nat)
    requires CarefulRun(e, NEW_MGR, ops) && k <= |ops|
    ensures Consistent(ApplyAll(e, NEW_MGR, ops[..k]))
  {
    assert Consistent(NEW_MGR);
    CarefulPrefix(e, NEW_MGR, ops, k);
    RunKeepsTables(e, NEW_MGR, ops[..k]);
  }

  lemma {:induction false} CarefulPrefix(e: Env, m: Mgr, ops: seq<Op>, k: nat)
    requires CarefulRun(e, m, ops) && k <= |ops|
    ensures CarefulRun(e, m, ops[..k])
    decreases ops
  {
    hide Apply, Careful;
    if ops != [] && k > 0 {
      assert ops[..k][0] == ops[0] && ops[..k][1..] == ops[1..][..k - 1];
      CarefulPrefix(e, Apply(e, m, ops[0]), ops[1..], k - 1);
    }
  }

  // ── The sweep, and destroy ──────────────────────────────────────────

  predicate Holds<K, V(==)>(table: map<K, V>, k: K, v: V) {
    k in table && table[k] == v
  }

  /** The sweep removes precisely the idle circuits and every entry that refers to one, and leaves
      every other entry as it was, whatever the order in which it met them. */
  lemma SweepIsExact(m: Mgr, now: Instant, order: seq<Leg>)
    requires Consistent(m) && Elements(order) == DeadRelays(m, now)
    ensures var m' := Evict(m, now, order);
            var os, rs := DeadOrigins(m, now), DeadRelays(m, now);
            && (forall c, o :: Holds(m'.origins, c, o) <==> Holds(m.origins, c, o) && now <= o.lastActivity + 3600 * 1_000_000_000)
            && (forall k, r :: Holds(m'.relays, k, r) <==> Holds(m.relays, k, r) && now <= r.lastActivity + 3600 * 1_000_000_000)
            && (forall n, k :: Holds(m'.relayByNext, n, k) <==> Holds(m.relayByNext, n, k) && k !in rs)
            && (forall a, b :: Holds(m'.rendezvousBridges, a, b) <==> Holds(m.rendezvousBridges, a, b) && a !in rs && b !in rs)
            && (forall c, k :: Holds(m'.rendezvousCookies, c, k) <==> Holds(m.rendezvousCookies, c, k) && k !in rs)
            && (forall k, key :: Holds(m'.introRegistered, k, key) <==> Holds(m.introRegistered, k, key) && k !in rs)
            && (forall key, c :: Holds(m'.introCircuits, key, c) <==> Holds(m.introCircuits, key, c) && c !in os)
            && (forall c, p :: Holds(m'.pendingRendezvous, c, p) <==> Holds(m.pendingRendezvous, c, p) && p.circ !in os)
            && (forall c, key :: Holds(m'.e2eKeys, c, key) <==> Holds(m.e2eKeys, c, key) && c !in os)
            && m'.nextOriginId == m.nextOriginId
  {
    RemovalKeepsNexts(m.relays, m.relayByNext, DeadRelays(m, now));
    UnbridgeAllMeaning(m.rendezvousBridges, order);
  }

  /** `destroy` takes away the leg's relay circuit, its onward entry and its bridge, and the origin
      circuit of the same id. It leaves the rendezvous tables alone. */
  lemma DestroyIsExact(m: Mgr, leg: Leg)
    requires Consistent(m)
    ensures var m' := MgrDestroy(m, leg);
            && (forall c, o :: Holds(m'.origins, c, o) <==> Holds(m.origins, c, o) && c != leg.circ)
            && (forall k, r :: Holds(m'.relays, k, r) <==> Holds(m.relays, k, r) && k != leg)
            && (forall n, k :: Holds(m'.relayByNext, n, k) <==> Holds(m.relayByNext, n, k) && k != leg)
            && (forall a, b :: Holds(m'.rendezvousBridges, a, b) <==> Holds(m.rendezvousBridges, a, b) && a != leg && b != leg)
            && (forall k, key :: Holds(m'.introRegistered, k, key) <==> Holds(m.introRegistered, k, key) && k != leg)
            && (forall key, c :: Holds(m'.introCircuits, key, c) <==> Holds(m.introCircuits, key, c) && c != leg.circ)
            && (forall c, key :: Holds(m'.e2eKeys, c, key) <==> Holds(m.e2eKeys, c, key) && c != leg.circ)
            && m'.rendezvousCookies == m.rendezvousCookies && m'.pendingRendezvous == m.pendingRendezvous
  {
    hide Unbridge;
    RemovalKeepsNexts(m.relays, m.relayByNext, {leg});
    UnbridgeKeepsInvolution(m.rendezvousBridges, leg);
  }

  // ── Rendezvous entries of circuits that are gone ────────────────────

  /** Every cookie names a relay circuit and every pending rendezvous an origin circuit that is there. */
  ghost predicate NoDangling(m: Mgr) {
    && (forall c :: c in m.rendezvousCookies ==> m.rendezvousCookies[c] in m.relays)
    && (forall c :: c in m.pendingRendezvous ==> m.pendingRendezvous[c].circ in m.origins)
  }

  /** DESTROY leaves no entry behind exactly if none named the circuit. */
  lemma DestroyLeavesDangling(m: Mgr, leg: Leg)
    requires NoDangling(m)
    ensures NoDangling(MgrDestroy(m, leg)) <==>
      && (forall c :: c in m.rendezvousCookies ==> m.rendezvousCookies[c] != leg)
      && (forall c :: c in m.pendingRendezvous ==> m.pendingRendezvous[c].circ != leg.circ)
  {
    hide Unbridge, NextLegs;
    var m' := MgrDestroy(m, leg);
    if c :| c in m.rendezvousCookies && m.rendezvousCookies[c] == leg {
      assert m'.rendezvousCookies[c] !in m'.relays;
    }
    if c :| c in m.pendingRendezvous && m.pendingRendezvous[c].circ == leg.circ {
      assert m'.pendingRendezvous[c].circ !in m'.origins;
    }
  }

  /** The sweep, which clears the entries of the circuits it takes out, leaves none behind. */
  lemma SweepLeavesNone(m: Mgr, now: Instant, order: seq<Leg>)
    requires NoDangling(m)
    ensures NoDangling(Evict(m, now, order))
  {
    hide UnbridgeAll, NextLegs;
  }

  /** What ends an entry: the cookie is spent, or the sweep finds the circuit it names, idle. */
  predicate EndsCookie(m: Mgr, op: Op, cookie: Cookie, leg: Leg) {
    op == ConsumeCookie(cookie) || (op.EvictIdle? && leg in DeadRelays(m, op.now))
  }

  predicate EndsPending(m: Mgr, op: Op, cookie: Cookie, circ: CircuitId) {
    (op.CompleteRendezvous? && op.cookie == cookie) || (op.EvictIdle? && circ in DeadOrigins(m, op.now))
  }

  predicate Registers(op: Op, cookie: Cookie) {
    (op.RegisterCookie? && op.cookie == cookie) || (op.RegisterPending? && op.cookie == cookie)
  }

  lemma CookieStep(e: Env, m: Mgr, op: Op, cookie: Cookie, leg: Leg)
    requires !Registers(op, cookie)
    ensures Holds(Apply(e, m, op).rendezvousCookies, cookie, leg) <==>
      Holds(m.rendezvousCookies, cookie, leg) && !EndsCookie(m, op, cookie, leg)
  {
    hide OriginCreated, OriginExtend, OriginRelay, RelayPeel, RelayBackward, RelayCreated, RelayExtended, RelayExtend, ClientFinalize,
         UnbridgeAll, Unbridge, NextLegs, DeadRelays, DeadOrigins, ClientHandshakeStart;
  }

  lemma PendingStep(e: Env, m: Mgr, op: Op, cookie: Cookie, p: PendingRendezvous)
    requires !Registers(op, cookie)
    ensures Holds(Apply(e, m, op).pendingRendezvous, cookie, p) <==>
      Holds(m.pendingRendezvous, cookie, p) && !EndsPending(m, op, cookie, p.circ)
  {
    hide OriginCreated, OriginExtend, OriginRelay, RelayPeel, RelayBackward, RelayCreated, RelayExtended, RelayExtend, ClientFinalize,
         UnbridgeAll, Unbridge, NextLegs, DeadRelays, DeadOrigins, ClientHandshakeStart;
  }

  ghost predicate NeverEndsCookie(e: Env, m: Mgr, ops: seq<Op>, cookie: Cookie, leg: Leg)
    decreases ops
  {
    ops == [] || (!EndsCookie(m, ops[0], cookie, leg) && NeverEndsCookie(e, Apply(e, m, ops[0]), ops[1..], cookie, leg))
  }

  ghost predicate NeverEndsPending(e: Env, m: Mgr, ops: seq<Op>, cookie: Cookie, circ: CircuitId)
    decreases ops
  {
    ops == [] || (!EndsPending(m, ops[0], cookie, circ) && NeverEndsPending(e, Apply(e, m, ops[0]), ops[1..], cookie, circ))
  }

  /** Over any run an entry is there still exactly if nothing has ended it, whether or not the circuit it names
      is. */
  lemma {:induction false} CookieRun(e: Env, m: Mgr, ops: seq<Op>, cookie: Cookie, leg: Leg)
    requires forall i :: 0 <= i < |ops| ==> !Registers(ops[i], cookie)
    ensures Holds(ApplyAll(e, m, ops).rendezvousCookies, cookie, leg) <==>
      Holds(m.rendezvousCookies, cookie, leg) && NeverEndsCookie(e, m, ops, cookie, leg)
    decreases ops
  {
    hide Apply, EndsCookie;
    if ops != [] {
      CookieStep(e, m, ops[0], cookie, leg);
      CookieRun(e, Apply(e, m, ops[0]), ops[1..], cookie, leg);
    }
  }

  lemma {:induction false} PendingRun(e: Env, m: Mgr, ops: seq<Op>, cookie: Cookie, p: PendingRendezvous)
    requires forall i :: 0 <= i < |ops| ==> !Registers(ops[i], cookie)
    ensures Holds(ApplyAll(e, m, ops).pendingRendezvous, cookie, p) <==>
      Holds(m.pendingRendezvous, cookie, p) && NeverEndsPending(e, m, ops, cookie, p.circ)
    decreases ops
  {
    hide Apply, EndsPending;
    if ops != [] {
      PendingStep(e, m, ops[0], cookie, p);
      PendingRun(e, Apply(e, m, ops[0]), ops[1..], cookie, p);
    }
  }

  lemma RelayGoneStep(e: Env, m: Mgr, op: Op, leg: Leg)
    requires leg !in m.relays && !(op.HandleCreate? && op.from == leg)
    ensures leg !in Apply(e, m, op).relays
  {
    hide OriginCreated, OriginExtend, OriginRelay, RelayPeel, RelayBackward, RelayCreated, RelayExtended, RelayExtend, ClientFinalize,
         UnbridgeAll, Unbridge, NextLegs, DeadRelays, DeadOrigins, ClientHandshakeStart;
  }

  /** The cookie of a destroyed circuit stays, and goes on naming nothing, through any run in which it is not
      spent and no circuit is created over the same leg. Only over a leg that has a circuit again can the sweep
      find it. */
  lemma {:induction false} DestroyedCookieStays(e: Env, m: Mgr, ops: seq<Op>, cookie: Cookie, leg: Leg)
    requires leg !in m.relays && Holds(m.rendezvousCookies, cookie, leg)
    requires forall i :: 0 <= i < |ops| ==>
      !Registers(ops[i], cookie) && ops[i] != ConsumeCookie(cookie) && !(ops[i].HandleCreate? && ops[i].from == leg)
    ensures var m' := ApplyAll(e, m, ops);
            Holds(m'.rendezvousCookies, cookie, leg) && leg !in m'.relays && !NoDangling(m')
    decreases ops
  {
    if ops == [] {
      assert m.rendezvousCookies[cookie] !in m.relays;
    } else {
      hide Apply, NoDangling;
      CookieStep(e, m, ops[0], cookie, leg);
      RelayGoneStep(e, m, ops[0], leg);
      DestroyedCookieStays(e, Apply(e, m, ops[0]), ops[1..], cookie, leg);
    }
  }

  /** Destroying a circuit in between: its cookie and its pending rendezvous survive that and the next sweep. */
  lemma DestroyedRendezvousOutlivesSweep(m: Mgr, leg: Leg, cookie: Cookie, now: Instant, order: seq<Leg>)
    ensures var m' := Evict(MgrDestroy(m, leg), now, order);
            && (Holds(m.rendezvousCookies, cookie, leg) ==> Holds(m'.rendezvousCookies, cookie, leg) && leg !in m'.relays)
            && (cookie in m.pendingRendezvous && m.pendingRendezvous[cookie].circ == leg.circ ==>
              && Holds(m'.pendingRendezvous, cookie, m.pendingRendezvous[cookie]) && leg.circ !in m'.origins)
  {
    hide UnbridgeAll, Unbridge;
  }

  // ── Activity ────────────────────────────────────────────────────────

  /** The operation is activity on the relay circuit: it is created, a cell crosses it forward, or a cell comes
      into it over a bridge. A cell going back over it is not. */
  predicate Touches(e: Env, m: Mgr, op: Op, leg: Leg) {
    match op
    case HandleCreate(from, msg, yPriv, now) =>
      from == leg && MgrCreate(e.d, e.l, m, from, e.myId, e.bPub, e.bSecret, msg, yPriv, now).1.Ok?
    case HandleForwardRelay(from, cell, now) =>
      from in m.relays && (from == leg || (Crosses(e.s, m, from, cell, now) && m.rendezvousBridges[from] == leg))
    case _ => false
  }

  /** The cell goes on over the bridge. */
  predicate Crosses(s: Suite, m: Mgr, from: Leg, cell: Cell, now: Instant)
    requires from in m.relays
  {
    && RelayPeel(s, m.relays[from], cell.payload, now).2.None? && m.relays[from].Next().None?
    && from in m.rendezvousBridges && m.rendezvousBridges[from] in m.relays
  }

  function TimeOf(op: Op): Instant {
    match op
    case HandleCreate(_, _, _, now) => now
    case HandleForwardRelay(_, _, now) => now
    case _ => 0
  }

  lemma PeelTouches(s: Suite, r: RelayCircuit, p: Payload, now: Instant)
    ensures var r' := RelayPeel(s, r, p, now).0;
            r'.lastActivity == now && r'.nextPeer == r.nextPeer && r'.nextCircId == r.nextCircId
  {
    hide OnionForward, RecognizedPayload, FromPayload, Blank;
  }

  lemma LayerTouchesNot(s: Suite, r: RelayCircuit, p: Payload)
    ensures RelayBackward(s, r, p).0.lastActivity == r.lastActivity
  {
    hide OnionBackward;
  }

  lemma PeelNext(s: Suite, r: RelayCircuit, p: Payload, now: Instant)
    ensures RelayPeel(s, r, p, now).0.Next() == r.Next()
  {
    hide RelayPeel;
    PeelTouches(s, r, p, now);
  }

  lemma CrossRelays(s: Suite, m: Mgr, from: Leg, cell: Cell, now: Instant)
    requires from in m.relays && Crosses(s, m, from, cell, now)
    ensures var m', partner := MgrForward(s, m, from, cell, now).0, m.rendezvousBridges[from];
            && m'.relays.Keys == m.relays.Keys
            && (from in m'.relays && m'.relays[from].lastActivity == now)
            && (partner in m'.relays && m'.relays[partner].lastActivity == now)
            && forall k :: k in m.relays && k != from && k != partner ==> m'.relays[k] == m.relays[k]
  {
    PeelNext(s, m.relays[from], cell.payload, now);
    PeelTouches(s, m.relays[from], cell.payload, now);
    hide RelayPeel, RelayBackward, RelayCircuit.Next;
  }

  lemma PlainRelays(s: Suite, m: Mgr, from: Leg, cell: Cell, now: Instant)
    requires from in m.relays && !Crosses(s, m, from, cell, now)
    ensures MgrForward(s, m, from, cell, now).0.relays == m.relays[from := RelayPeel(s, m.relays[from], cell.payload, now).0]
  {
    PeelNext(s, m.relays[from], cell.payload, now);
    hide RelayPeel, RelayBackward, RelayCircuit.Next;
  }

  lemma ForwardActivity(e: Env, m: Mgr, from: Leg, cell: Cell, now: Instant, leg: Leg)
    ensures var m' := MgrForward(e.s, m, from, cell, now).0;
            && (leg in m'.relays <==> leg in m.relays)
            && (leg in m.relays ==>
                  m'.relays[leg].lastActivity
                  == if Touches(e, m, HandleForwardRelay(from, cell, now), leg) then now else m.relays[leg].lastActivity)
  {
    if from in m.relays {
      hide RelayPeel, RelayBackward, MgrForward, Crosses;
      PeelTouches(e.s, m.relays[from], cell.payload, now);
      CrossesParts(e.s, m, from, cell, now);
      if Crosses(e.s, m, from, cell, now) {
        CrossRelays(e.s, m, from, cell, now);
      } else {
        PlainRelays(e.s, m, from, cell, now);
      }
    }
  }

  lemma CrossesParts(s: Suite, m: Mgr, from: Leg, cell: Cell, now: Instant)
    requires from in m.relays
    ensures Crosses(s, m, from, cell, now) ==> from in m.rendezvousBridges && m.rendezvousBridges[from] in m.relays
  {
    hide RelayPeel;
  }

  lemma CreateActivity(e: Env, m: Mgr, from: Leg, msg: ClientMsg, yPriv: Key32, now: Instant, leg: Leg)
    ensures var m' := MgrCreate(e.d, e.l, m, from, e.myId, e.bPub, e.bSecret, msg, yPriv, now).0;
            leg in m'.relays ==>
              if Touches(e, m, HandleCreate(from, msg, yPriv, now), leg) then m'.relays[leg].lastActivity == now
              else leg in m.relays && m'.relays[leg].lastActivity == m.relays[leg].lastActivity
  {
    hide ServerHandshake, HopFromNtor;
  }

  lemma BackwardActivity(s: Suite, m: Mgr, next: Leg, cell: Cell, leg: Leg)
    ensures var m' := MgrBackward(s, m, next, cell).0;
            && (leg in m'.relays <==> leg in m.relays)
            && (leg in m.relays ==> m'.relays[leg].lastActivity == m.relays[leg].lastActivity)
  {
    hide RelayBackward;
    if next in m.relayByNext && m.relayByNext[next] in m.relays {
      LayerTouchesNot(s, m.relays[m.relayByNext[next]], cell.payload);
    }
  }

  lemma AnswerTouchesNot(s: Suite, r: RelayCircuit, reply: ServerMsg)
    ensures var x := RelayExtended(s, r, reply);
            x.Ok? ==> x.value.0.lastActivity == r.lastActivity
  {
    hide OnionBackward, StampDigest;
  }

  lemma CreatedActivity(s: Suite, m: Mgr, next: Leg, reply: ServerMsg, leg: Leg)
    ensures var m' := MgrCreatedFromNext(s, m, next, reply).0;
            && (leg in m'.relays <==> leg in m.relays)
            && (leg in m.relays ==> m'.relays[leg].lastActivity == m.relays[leg].lastActivity)
  {
    hide RelayExtended;
    if next in m.relayByNext && m.relayByNext[next] in m.relays {
      AnswerTouchesNot(s, m.relays[m.relayByNext[next]], reply);
    }
  }

  lemma OnwardTouchesNot(net: Dotted, r: RelayCircuit, next: Leg, data: bytes)
    ensures var x := RelayExtend(net, r, next, data);
            x.Ok? ==> x.value.0.lastActivity == r.lastActivity
  {
    hide Extend2Of;
  }

  lemma ExtendActivity(net: Dotted, m: Mgr, from: Leg, next: Leg, data: bytes, leg: Leg)
    ensures var m' := MgrExtend(net, m, from, next, data).0;
            && (leg in m'.relays <==> leg in m.relays)
            && (leg in m.relays ==> m'.relays[leg].lastActivity == m.relays[leg].lastActivity)
  {
    hide RelayExtend;
    if from in m.relays {
      OnwardTouchesNot(net, m.relays[from], next, data);
    }
  }

  lemma ActivityStep(e: Env, m: Mgr, op: Op, leg: Leg)
    requires leg in Apply(e, m, op).relays
    ensures Touches(e, m, op, leg) ==> Apply(e, m, op).relays[leg].lastActivity == TimeOf(op)
    ensures !Touches(e, m, op, leg) ==>
      leg in m.relays && Apply(e, m, op).relays[leg].lastActivity == m.relays[leg].lastActivity
  {
    hide OriginCreated, OriginExtend, OriginRelay, MgrCreate, MgrForward, MgrBackward, MgrCreatedFromNext, MgrExtend, RelayPeel,
         ClientFinalize, UnbridgeAll, Unbridge, NextLegs, DeadRelays, DeadOrigins, ClientHandshakeStart, Crosses;
    match op
    case HandleCreate(from, msg, yPriv, now) => CreateActivity(e, m, from, msg, yPriv, now, leg);
    case HandleForwardRelay(from, cell, now) => ForwardActivity(e, m, from, cell, now, leg);
    case HandleCreatedFromNext(next, reply) => CreatedActivity(e.s, m, next, reply, leg);
    case HandleBackwardRelay(next, cell) => BackwardActivity(e.s, m, next, cell, leg);
    case BeginExtend(from, next, data) => ExtendActivity(e.net, m, from, next, data, leg);
    case _ =>
  }

  /** When the circuit on the leg was last active in a run. */
  ghost function LastTouched(e: Env, m: Mgr, ops: seq<Op>, leg: Leg, before: Instant): Instant
    decreases ops
  {
    if ops == [] then before
    else LastTouched(e, Apply(e, m, ops[0]), ops[1..], leg, if Touches(e, m, ops[0], leg) then TimeOf(ops[0]) else before)
  }

  ghost predicate StaysThere(e: Env, m: Mgr, ops: seq<Op>, leg: Leg)
    decreases ops
  {
    leg in m.relays && (ops == [] || StaysThere(e, Apply(e, m, ops[0]), ops[1..], leg))
  }

  /** A relay circuit is swept out exactly when an hour has passed since it was last created, crossed forward
      or bridged into; cells going back to the client do not keep it. */
  lemma {:induction false} SweptWhenQuiet(e: Env, m: Mgr, ops: seq<Op>, leg: Leg, now: Instant)
    requires StaysThere(e, m, ops, leg)
    ensures var m' := ApplyAll(e, m, ops);
            var last := LastTouched(e, m, ops, leg, m.relays[leg].lastActivity);
            && leg in m'.relays && m'.relays[leg].lastActivity == last
            && (leg in DeadRelays(m', now) <==> last + 3600 * 1_000_000_000 < now)
    decreases ops
  {
    hide Apply, Touches;
    if ops != [] {
      ActivityStep(e, m, ops[0], leg);
      SweptWhenQuiet(e, Apply(e, m, ops[0]), ops[1..], leg, now);
    }
  }

  // ── Callers who are not careful ─────────────────────────────────────

  /** Bridging a paired leg to a third leaves its old partner pointing at it, and undoing the new
      bridge does not repair that. */
  lemma RebridgingLeavesAStaleLeg(a: Leg, b: Leg, c: Leg)
    requires a != b && b != c && a != c
    ensures var bridges := Bridge(Bridge(map[], a, b), a, c);
            && !Involution(bridges)
            && Unbridge(bridges, a) == map[b := a] && !Involution(Unbridge(bridges, a))
  {
    var bridges := Bridge(Bridge(map[], a, b), a, c);
    assert bridges[b] == a && bridges[a] == c;
    assert Unbridge(bridges, a) == map[b := a];
    assert b in Unbridge(bridges, a);
  }

  /** A circuit id used twice on one connection: the second CREATE orphans the onward entry of the
      first circuit, and cells coming back on it are taken to belong to the second. */
  lemma RecreatingOrphansAnEntry(from: Leg, next: Leg, r: RelayCircuit, newer: RelayCircuit)
    requires r.Next() == Some(next) && newer.nextPeer.None? && newer.nextCircId.None?
    ensures NextsInverse(map[from := r], map[next := from])
    ensures !NextsInverse(map[from := r][from := newer], map[next := from])
  {
    assert newer.Next().None?;
    assert map[next := from][next] == from;
  }
}
